# Land registry backend, modelled in Dafny

This project models the request logic of a small land-registry backend
(Express and Mongoose). It has four parts:

- a public catalog of lands for sale;
- user and government-employee accounts;
- owners who register land parcels and put them up for sale;
- a government review step that approves or declines each sale request.

Every handler is a pure function from the store and the request to a
response and a new store. The store holds the users, lands, sale requests,
sell list, declined archive and employees. A refusal always returns the
store unchanged.

Modules, one per source file or concern:

- `Common`: optional values, responses, JavaScript truthiness, ASCII
  lower-casing and substring search, and order-preserving `Filter`.
- `Records`: the documents and the store, the password hash pair, the
  `auth` cookie, and lookup by id.
- `Catalog`: the fixed catalog, its filter pipeline and lookup by id.
- `LandSchema`: validation of a Land document. The result maps each
  failing path to its message, as a Mongoose `ValidationError` does.
- `Accounts`, `Employees`, `Gates`: registration, login and the access
  middlewares.
- `LandRegistration`, `Seller`, `SellRequests`, `Review`: the owner and
  government handlers.
- `Lifecycle`: a store-wide consistency predicate. Every state-changing
  handler preserves it.

Modelling conventions:

- A request value is `None` when its absence takes a path of its own:
  query parameters, the sale forms, the cookie, the login emails and the
  login and user registration passwords. A text field whose absence and emptiness the
  source treats alike (every `required` schema check and every `!field`
  guard) is `""` when absent. Tests such as `if (v)` are `Present`.
- Password hashing is a pair `Hash`/`Verify` over an uninterpreted key
  derivation function passed in as a parameter. `Verify(p, Hash(p))` holds.
- A fresh document id and the current time are parameters. User and
  employee registration require the id to be unused, as do the
  `Lifecycle` lemmas for land registration and sale requests. The land
  and sale-request handlers themselves do not need it.

Four behaviours of the code are followed as written:

- **Approval does not touch the Land.** Approving a sale request changes
  only the request and the sell list. The `status` of the Land record is
  never written.
- **No user can register or sell land.** The User schema declares no phone
  number. Under Mongoose's default strict mode `user.phoneNumber` is
  therefore undefined for every user document. Every land registration
  fails validation on the copied phone number, and every sale request fails
  on the required seller phone (`Lifecycle.PhonelessUsersCannotSell`,
  `LandRegistration.RegisteredUserCannotRegisterLand`). The model still
  gives `User` a `phoneNumber` field so that the success paths can be
  stated; see "## Left out".
- **A missing login password reveals the account.** With a known email and
  no password, the password comparison throws and the answer is 500.
  With an unknown email the answer is the usual 400
  (`Accounts.MissingPasswordRevealsAccount`).
- **A login without an email checks the first account.** The query
  `findOne({ email: undefined })` drops the undefined condition and
  matches any document. The password is then checked against that
  account, and the right one logs in as it
  (`Accounts.MissingEmailLogsInAsFirstUser`,
  `Employees.MissingEmailLogsInAsFirstEmployee`).

## Model

| member | source | states |
|---|---|---|
| Common.ContainsAt | backend/buyer.js:135-137 | A string `includes` a term exactly when the term occurs at some position of it. |
| Common.FilterIsSubseq | backend/buyer.js:134-138 | An array filter keeps the surviving elements in their original order. |
| Catalog.SearchLands | backend/buyer.js:126-182 | The answer is an order-preserving subsequence of the catalog. It holds exactly the catalog listings that satisfy every given criterion. |
| Catalog.PipelineIsOnePass | backend/buyer.js:129-179 | The first n conditional filters together keep exactly the listings that pass each of them, in catalog order. |
| Catalog.SearchIsOnePass | backend/buyer.js:129-181 | The chain of six conditional filters equals a single filter by the declarative match predicate. |
| Catalog.NoQueryReturnsCatalog | backend/buyer.js:127-181 | With no query parameters the catalog comes back unchanged. |
| Catalog.TextSearchSoundAndComplete | backend/buyer.js:132-139 | With `q`, a listing is returned iff it passes the other criteria and lower-cased `q` occurs in its lower-cased title, location or type. |
| Catalog.LocationIsExactMatch | backend/buyer.js:142-146 | The location filter is equality up to case, not substring: "Jai" does not select Jaipur, "JAIPUR" does. |
| Catalog.BoundsAreInclusive | backend/buyer.js:155-179 | Every result lies within the given price and size bounds. A listing exactly on a bound is kept, and a single size bound applies alone. |
| Catalog.FindById | backend/buyer.js:186 | Lookup yields the first listing with the id, or nothing when no listing has it. |
| Catalog.GetLand | backend/buyer.js:185-191 | The listing with that id is returned. If there is none, the answer is 404 "Land not found". |
| Catalog.CatalogIds | backend/buyer.js:14-123 | Catalog ids are 1 to 12 in order, hence distinct. |
| Catalog.GetLandByPosition | backend/buyer.js:185-191 | Ids 1 to 12 find the listing at that position and every other id gets 404. |
| Records.Hash | backend/register.js:56 | Hashing records the salt, and the same password verifies against the stored hash. |
| Records.FindLand | backend/sell-land.js:73 | Lookup by id yields the first land with the id, or nothing when no land has it. |
| Records.FindUser | backend/sell-land.js:53 | Lookup by id yields the first user with the id, or nothing when no user has it. |
| Records.FindSellLand | backend/govtSeller.js:69 | Lookup by id yields the first request with the id, or nothing when no request has it. |
| Records.FindEmployee | backend/govt-auth.js:29 | Lookup by id yields the first employee with the id, or nothing when no employee has it. |
| LandSchema.Validate | backend/register-land.js:5-138 | The error map is empty exactly when the land satisfies the schema. It holds an entry for each failing path, with that path's message, and for no other path. |
| LandSchema.ErrorsFacts | backend/register-land.js:5-138 | The failing paths are exactly the paths whose validator fails. None fails iff the land is valid. |
| LandSchema.PendingNeedsPrice | backend/register-land.js:103-107 | A pending land without a price fails on `price` and is not valid. |
| LandSchema.PriceOptionalUnlessPending | backend/register-land.js:102-107 | Outside `pending`, a missing price is no error. |
| LandSchema.PatternRules | backend/register-land.js:24-63 | `pincode` fails iff it is not six digits. The phone fails iff it is not a digit 6 to 9 followed by nine digits. |
| LandSchema.NumberRules | backend/register-land.js:66-107 | `area.value` fails iff it is missing or negative. A given negative price fails. |
| LandSchema.EnumRules | backend/register-land.js:72-101 | The unit, property type and status fail iff they are outside their enums. |
| Accounts.RegisterUser | backend/register.js:45-73 | A taken username or email gives 400. An empty name, username or email, a missing password, or a name the unique index refuses gives 500 (absent fields: see "## Left out"). Both leave the store unchanged. An empty password is accepted. Otherwise exactly one user is added with the hashed password, and the reply is 201 echoing only username and email. |
| Accounts.RegisterKeepsAccountsUnique | backend/register.js:7-53 | Registration keeps usernames, emails and names unique. |
| Accounts.SecondRegistrationWithSameEmailFails | backend/register.js:50-53 | A second registration with an email already registered gets 400. |
| Accounts.FindByEmail | backend/login.js:10 | Lookup yields the first user with the email, or nothing when no user has it. |
| Accounts.LoginUser | backend/login.js:5-32 | Login succeeds iff a password is given and verifies against the matched user: the first user with the email, or the first user at all when no email is given. Then the cookie names that user and only the username is returned. A matched user without a password gives 500. Every other failure is the same 400. No store is returned. |
| Accounts.LoginSucceedsIffCredentialsMatch | backend/login.js:10-21 | With unique emails and a password given, login succeeds iff some user has the email and the password verifies. |
| Accounts.LoginFailuresIndistinguishable | backend/login.js:12-21 | With a password given, an unknown email and a wrong password give identical answers. |
| Accounts.RegisteredUserCanLogIn | backend/login.js:10-27 | A freshly registered user logs in with the chosen password and gets a cookie with the new id. |
| Accounts.MissingPasswordRevealsAccount | backend/login.js:10-19 | Without a password, login answers 400 iff no user has the email and 500 iff one does. |
| Accounts.EmptyPasswordAccepted | backend/register.js:56-68 | An empty password is hashed and registered, and the account logs in with it. |
| Accounts.MissingEmailLogsInAsFirstUser | backend/login.js:6-27 | Without an email, the right password of the first stored user logs in as that user. |
| Employees.RegisterEmployee | backend/govt-emp.js:22-45 | A missing field gives 400, and so does an existing empId or email. Otherwise exactly one employee is added with the hashed password and the `government` role. |
| Employees.RegisterEmployeeKeepsWellFormed | backend/govt-emp.js:10-17 | Registration keeps empIds and emails unique and every role `government`. |
| Employees.FindEmployeeByEmail | backend/govt-emp.js:52 | Lookup yields the first employee with the email, or nothing when no employee has it. |
| Employees.LoginEmployee | backend/govt-emp.js:48-84 | Success iff a password is given and verifies against the matched employee: the first with the email, or the first at all when no email is given. Then the session role becomes `government`, the cookie carries the employee id and the reply redirects to the verification page. A matched employee without a password gives 500. Every other failure is the same 400. All failures leave the session alone. |
| Employees.EmployeeLoginFailuresIndistinguishable | backend/govt-emp.js:52-60 | With a password given, an unknown email and a wrong password give identical answers. |
| Employees.RegisteredEmployeeCanLogIn | backend/govt-emp.js:36-63 | A freshly registered employee logs in with the chosen password, gets a cookie with the new id and a `government` session. |
| Employees.MissingEmailLogsInAsFirstEmployee | backend/govt-emp.js:49-70 | Without an email, the right password of the first stored employee logs in as that employee with the government role. |
| Gates.IsAuthenticated | backend/auth.js:2-15 | Proceeds iff the session id or the cookie is present, with the session winning. On the way through the session records the identity used. Otherwise 401 with the session untouched. |
| Gates.IsGovtAuthenticated | backend/govt-auth.js:5-15 | Proceeds iff the cookie is present, otherwise redirects to the government login page. |
| Gates.RestrictToGovernment | backend/govt-auth.js:18-45 | Proceeds iff the session role is `government` or the cookie names a government employee. It then remembers the role. Otherwise 403. |
| Gates.RoleInSessionNeedsNoLookup | backend/govt-auth.js:23-26 | A `government` session passes whatever the employee store holds. |
| Gates.RestrictMeaning | backend/govt-auth.js:29-40 | With distinct employee ids, the gate passes exactly a government session or a cookie naming a government employee. |
| LandRegistration.RegisterLand | backend/register-land.js:147-223 | No cookie gives 401 and an unknown user gives 404. A document built from the form and the user that fails the schema gives 400, with exactly that document's error map. Otherwise one land is added: owned by the caller, carrying the user's details, `available`, no price, not negotiable, zero statistics. |
| LandRegistration.RegisterLandSucceedsIffValid | backend/register-land.js:178-219 | For a known user, registration succeeds iff the built document satisfies the schema. |
| LandRegistration.RegisteredUserCannotRegisterLand | backend/register-land.js:170-186 | A user created by registration has no phone, so that user's land registration fails with "User phone number is required". |
| Seller.Caller | backend/seller.js:79 | The caller is the cookie when present, else the session id, else nobody. The caller is never empty. |
| Seller.GatedCallerExists | backend/seller.js:77-83 | Behind the user gate a caller always exists. When both cookie and session are set, the handler acts for the cookie's user. |
| Seller.Insert | backend/seller.js:117-118 | Inserting into a sorted sequence keeps it sorted and adds exactly the one element. |
| Seller.Sort | backend/seller.js:102-118 | The result is ordered by the selected key and is a permutation of the input. |
| Seller.QueryLands | backend/seller.js:77-127 | Without a caller the answer is 401. Otherwise it is exactly the caller's lands in the requested status, each once, ordered by the requested key. |
| Seller.QueryReturnsOnlyOwnLands | backend/seller.js:92 | Every returned land is owned by the caller. |
| Seller.StatusFilterMeaning | backend/seller.js:95-97 | With no status or `all`, every land of the caller is returned. With a status, exactly the caller's lands in it are returned. |
| Seller.SortKeys | backend/seller.js:102-115 | `oldest` orders by date ascending, `views` and `likes` by that counter descending, and anything else by date descending. |
| Seller.FindOwned | backend/seller.js:141 | Yields a land with the id and the owner, or nothing when there is none. |
| Seller.ListForSale | backend/seller.js:130-160 | No caller gives 401. No land with the id owned by the caller gives 403. For a found land the answer is 200 iff the changed land satisfies the schema, else 500. On success only that land changes: status `pending`, price and description set, negotiable defaulting to false, whatever its earlier status. |
| Seller.ListingWithoutPriceFails | backend/seller.js:53-56 | Listing without a price never succeeds and changes nothing. |
| Seller.ListingValidLand | backend/seller.js:147-153 | For an owned land that is valid, the handler answers 200 iff a non-negative price is given, and 500 otherwise, whatever the earlier status. |
| Seller.PutOnSaleValid | backend/seller.js:147-153 | A valid land stays valid when put on sale iff a non-negative price is given. |
| Seller.BumpStat | backend/seller.js:186-211 | A field outside views/likes/inquiries gives 400 and an unknown id gives 404. Otherwise exactly the named counter of that land rises by one and nothing else changes. |
| Seller.BumpKeepsValidity | backend/seller.js:196-200 | The unvalidated update keeps every land valid. |
| SellRequests.SubmitSale | backend/sell-land.js:44-127 | Guards in order: cookie 401, user 404, land id and positive price 400, land 404, owner 403, any existing request for the land 400. Each refusal changes nothing. A schema failure gives 500. Otherwise one pending request is added, copying the seller and the land, with the image, phone and negotiable fallbacks. |
| SellRequests.SnapshotOfValidLand | backend/sell-land.js:97-107 | The snapshot of a valid land satisfies the land half of the SellLand schema iff the land has an id and a document id. |
| SellRequests.SnapshotNamesItsLand | backend/sell-land.js:98 | With distinct land ids, the snapshot's land id finds exactly the land it was taken from. |
| SellRequests.SubmitFromValidLand | backend/sell-land.js:6-38 | For a valid land passing the guards, submission succeeds iff the seller has name, email and phone and the land at least one document id. |
| SellRequests.SellerWithoutPhoneFails | backend/sell-land.js:11 | A seller without a phone number never creates a request. |
| SellRequests.SecondRequestRefused | backend/sell-land.js:84-87 | After a request for a land is created, no second request for it can be created. |
| Review.MaxId | backend/govtSeller.js:82 | The largest id on a non-empty list is at least every id and is some entry's id. |
| Review.NextId | backend/govtSeller.js:82-83 | The new id exceeds every existing id. It is 1 on an empty list, else one past an existing id. |
| Review.NextIdFollowsLast | backend/govtSeller.js:82-83 | On an increasing list the new id is one past the last entry's. |
| Review.Restore | backend/govtSeller.js:102-110 | Restoring an archived copy gives a declined request whose archive is that copy. |
| Review.ArchiveRoundTrip | backend/govtSeller.js:102-110 | The archive keeps every field of the request except its status and creation time. |
| Review.DeclinedCopyMatchesRequest | backend/govtSeller.js:99-113 | After a decline, the new archive entry restores to exactly the request as now stored. |
| Review.UpdateSellLandStatus | backend/govtSeller.js:66-121 | An unknown request gives 404 and one no longer pending gives 400. Another action gives 400 and leaves it pending. Refusals change nothing. Approve marks the request approved and appends one listing numbered `NextId`, above all others. Decline marks it declined and archives one copy. Users, lands and employees never change. |
| Review.ProcessedOnlyOnce | backend/govtSeller.js:74-76 | Once a pending request is approved or declined, any further review of that request is refused with 400 and changes nothing. |
| Review.ReviewKeepsIdsIncreasing | backend/govtSeller.js:5-6 | Sell-list ids stay positive and strictly increasing, hence unique. |
| Lifecycle.RegisterUserPreserves | backend/register.js:45-73 | User registration preserves store consistency. |
| Lifecycle.RegisterEmployeePreserves | backend/govt-emp.js:22-45 | Employee registration preserves store consistency. |
| Lifecycle.RegisterLandPreserves | backend/register-land.js:178-200 | Land registration preserves store consistency, including valid lands with distinct ids. |
| Lifecycle.ListForSalePreserves | backend/seller.js:141-153 | Listing for sale preserves store consistency. |
| Lifecycle.BumpStatPreserves | backend/seller.js:196-200 | Counter updates preserve store consistency. |
| Lifecycle.SubmitSalePreserves | backend/sell-land.js:84-116 | Submission preserves consistency, including at most one request per land. |
| Lifecycle.AppendKeepsRequests | backend/sell-land.js:84-116 | Appending a schema-valid request with a new id for an unrequested land keeps requests valid, ids distinct and one request per land. |
| Lifecycle.ApprovedEntryValid | backend/govtSeller.js:5-14 | The listing built from an approved valid request satisfies the SellList schema: the image falls back to a placeholder and the location is never empty. |
| Lifecycle.ReviewPreserves | backend/govtSeller.js:78-111 | Review preserves consistency, including valid listings and increasing ids. |
| Lifecycle.SubmitThenApprove | backend/govtSeller.js:78-97 | A submitted request can be approved. Its listing gets an id above all earlier ones, and the land cannot be requested again. |
| Lifecycle.LoginCookieIdentifiesUser | backend/login.js:24 | The cookie from a successful login names the user with that email. On later requests it passes the user gate, is the caller of the owner handlers and names a stored user. |
| Lifecycle.EmployeeCookieAuthorizes | backend/govt-emp.js:66-70 | The cookie from a successful employee login passes the government cookie gate and the role check on later requests, even from a session without the role. |
| Lifecycle.PhonelessUsersCannotSell | backend/register-land.js:170-186 | When no user has a phone number, land registration never answers 201 and no sale request is created. |

## Left out

- Express wiring, static files, the database connection, logout and the
  profile routes are plumbing. So is the seller page's browser script,
  which is embedded as a string.
- bcrypt is an uninterpreted key derivation function with `Verify`
  defined by recomputation. Its cost factor and timing are not modelled.
- Query-string parsing (`parseInt`, `parseFloat`, NaN, `split(' ')`) is
  not modelled. The catalog takes integer price bounds and real size
  bounds as already parsed, and each listing's size as its leading number.
- Lower-casing is ASCII only. Mongoose's `trim` on strings is not applied.
- Number fields are integers. Fractional prices and areas, and Mongoose's
  number casting, are not modelled.
- ObjectId casting is not modelled. A malformed id makes the source answer
  500 through its catch-all. Here ids are plain strings and such an id
  simply matches nothing.
- Catch-all 500 answers from database errors are not modelled, nor is the
  error text they leak.
- Review.UpdateSellLandStatus: each handler is atomic. The source saves the
  request status before creating the listing or archive copy, so a failure
  between the two saves, or a race on `max + 1`, is not modelled.
- Review.UpdateSellLandStatus: the SellList and DeclinedLand schemas are not
  re-checked on creation. `Lifecycle.ApprovedEntryValid` proves instead
  that an approved valid request always yields a valid listing.
- Seller.QueryLands: the order among lands with equal sort keys is
  unspecified in the source. The contract states only that the result is
  ordered and is a permutation of the selection. The model happens to use a
  stable insertion sort.
- Seller.QueryLands: `populate('owner', ...)` is left out. The owner stays
  an id.
- The source registers three different Land schemas under one model name.
  The model uses the one from `backend/register-land.js` throughout, so
  `Seller.ListForSale` validates against it on save.
- Every handler that destructures `req.body` before its `try` block crashes
  on a request with no body: user registration, login, employee login and
  land registration. This is not modelled: the body is always a record.
- A query with no condition (a login without an email) matches "any"
  document in MongoDB. The model picks the first stored one; the source's
  database does not promise which.
- User.phoneNumber: the field generalises the source. The User schema
  declares no phone, so under strict mode every user document reads as
  having none. The model lets a stored user carry one, so that the success
  paths of land registration and sale requests can be stated. Those paths
  are unreachable in the source (`Lifecycle.PhonelessUsersCannotSell`).
- Accounts.RegisterUser: an absent name, username or email is modelled as
  `""`, which gives 500. In the source an absent username or email drops
  that condition from the duplicate query. The query then matches any
  user, so the answer is 400 whenever a user exists. This is not modelled.
- Reading all sale requests for the review page is a single unfiltered
  query and is not modelled.
- The current time (`Date.now`) and new ids are parameters rather than
  generated.
