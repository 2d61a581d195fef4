/** The persisted records of the backend, the store that holds them, and
    the per-request context (session and signed cookie).

    Database object ids are strings. A stored string field that the source
    leaves undefined is the empty string, which is also how every schema
    `required` check and every `||` fallback of the source treats it. */
module Records {
  import opened Common

  // ---------------------------------------------------------------------
  // Password hashing

  /** A salted password hash. The key-derivation function is a parameter
      of the handlers, so nothing is assumed about it beyond being a
      function. */
  datatype PasswordHash = PasswordHash(salt: string, digest: string)

  function Hash(kdf: (string, string) -> string, salt: string, password: string): (h: PasswordHash)
    ensures Verify(kdf, password, h)
    ensures h.salt == salt
  {
    PasswordHash(salt, kdf(salt, password))
  }

  /** `bcrypt.compare`: re-derive with the stored salt and compare. */
  predicate Verify(kdf: (string, string) -> string, password: string, h: PasswordHash) {
    kdf(h.salt, password) == h.digest
  }

  // ---------------------------------------------------------------------
  // Users and government employees

  /** A registered user. The User schema declares no phone number, so in
      the source every user document reads as having none; `phoneNumber`
      generalises that, so that a stored user may carry one. Users created
      by registration have "" there. */
  datatype User = User(
    id: string,
    name: string,
    username: string,
    email: string,
    password: PasswordHash,
    phoneNumber: string,
    createdAt: int)

  datatype GovtEmployee = GovtEmployee(
    id: string,
    empId: string,
    name: string,
    email: string,
    password: PasswordHash,
    department: string,
    role: string)

  const GovernmentRole := "government"

  // ---------------------------------------------------------------------
  // Land

  datatype Location = Location(address: string, city: string, state: string, pincode: string)

  /** The area of a land; `value` is absent when the request carried none. */
  datatype Area = Area(value: Option<int>, unit: string)

  /** Owner details copied onto the land at registration. */
  datatype UserDetails = UserDetails(name: string, email: string, phoneNumber: string)

  datatype Statistics = Statistics(views: int, likes: int, inquiries: int)

  datatype Land = Land(
    id: string,
    owner: string,
    userDetails: UserDetails,
    title: string,
    description: string,
    location: Location,
    area: Area,
    propertyType: string,
    documentIds: seq<string>,
    registrationDate: int,
    status: string,
    price: Option<int>,
    saleDescription: Option<string>,
    negotiable: bool,
    statistics: Statistics,
    images: seq<string>)

  const AreaUnits := ["sqft", "sqm", "acre", "hectare"]
  const PropertyTypes := ["residential", "commercial", "agricultural", "industrial"]
  const LandStatuses := ["available", "pending", "sold"]

  // ---------------------------------------------------------------------
  // Sale requests and their outcomes

  datatype SaleStatus = Pending | Approved | Declined

  /** The seller as copied into a sale request. */
  datatype SellerDetails = SellerDetails(userId: string, name: string, email: string, phoneNumber: string)

  /** The land as copied into a sale request. */
  datatype LandSnapshot = LandSnapshot(
    landId: string,
    title: string,
    description: string,
    location: Location,
    area: Area,
    propertyType: string,
    documentIds: seq<string>,
    saleDescription: string,
    images: seq<string>)

  /** A request to sell a land, awaiting government review. */
  datatype SellLand = SellLand(
    id: string,
    user: SellerDetails,
    land: LandSnapshot,
    price: int,
    landImageUrl: string,
    negotiable: bool,
    contactPhoneNumber: string,
    status: SaleStatus,
    createdAt: int)

  /** A public listing created by approval. */
  datatype SellListEntry = SellListEntry(
    id: int,
    title: string,
    location: string,
    landType: string,
    price: int,
    size: Option<int>,
    image: string,
    description: string)

  /** The archived copy of a declined request. */
  datatype DeclinedLand = DeclinedLand(
    sellLandId: string,
    user: SellerDetails,
    land: LandSnapshot,
    price: int,
    landImageUrl: string,
    negotiable: bool,
    contactPhoneNumber: string)

  // ---------------------------------------------------------------------
  // The store and the request context

  /** Every collection, in insertion order. */
  datatype Store = Store(
    users: seq<User>,
    lands: seq<Land>,
    sellLands: seq<SellLand>,
    sellList: seq<SellListEntry>,
    declined: seq<DeclinedLand>,
    employees: seq<GovtEmployee>)

  /** The server-side session. */
  datatype Session = Session(userId: Option<string>, userRole: Option<string>)

  /** A cookie set on the response. */
  datatype Cookie = Cookie(name: string, value: string, signed: bool, httpOnly: bool, maxAgeMs: int)

  /** The `auth` cookie as set by both logins: signed, http-only, one day. */
  function AuthCookie(id: string): (c: Cookie)
    ensures c.name == "auth" && c.value == id
    ensures c.signed && c.httpOnly && c.maxAgeMs == 86400000
  {
    Cookie("auth", id, true, true, 24 * 60 * 60 * 1000)
  }

  // ---------------------------------------------------------------------
  // Lookups

  /** `findById`: position of the first land with the id. */
  function FindLand(lands: seq<Land>, id: string): (r: Option<nat>)
    ensures r.None? <==> forall l :: l in lands ==> l.id != id
    ensures r.Some? ==> r.value < |lands| && lands[r.value].id == id
    ensures r.Some? ==> forall j :: 0 <= j < r.value ==> lands[j].id != id
  {
    FindFirst(lands, (l: Land) => l.id == id)
  }

  function FindUser(users: seq<User>, id: string): (r: Option<nat>)
    ensures r.None? <==> forall u :: u in users ==> u.id != id
    ensures r.Some? ==> r.value < |users| && users[r.value].id == id
    ensures r.Some? ==> forall j :: 0 <= j < r.value ==> users[j].id != id
  {
    FindFirst(users, (u: User) => u.id == id)
  }

  function FindSellLand(requests: seq<SellLand>, id: string): (r: Option<nat>)
    ensures r.None? <==> forall s :: s in requests ==> s.id != id
    ensures r.Some? ==> r.value < |requests| && requests[r.value].id == id
    ensures r.Some? ==> forall j :: 0 <= j < r.value ==> requests[j].id != id
  {
    FindFirst(requests, (s: SellLand) => s.id == id)
  }

  function FindEmployee(employees: seq<GovtEmployee>, id: string): (r: Option<nat>)
    ensures r.None? <==> forall e :: e in employees ==> e.id != id
    ensures r.Some? ==> r.value < |employees| && employees[r.value].id == id
    ensures r.Some? ==> forall j :: 0 <= j < r.value ==> employees[j].id != id
  {
    FindFirst(employees, (e: GovtEmployee) => e.id == id)
  }
}
