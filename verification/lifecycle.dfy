/** Properties of the store that every state-changing handler preserves:
    unique accounts and employees, schema-valid lands, requests and
    listings, at most one sale request per land, and sell-list numbers that
    keep increasing. */
module Lifecycle {
  import opened Common
  import opened Records
  import opened LandSchema
  import Accounts
  import Employees
  import Gates
  import LandRegistration
  import Seller
  import SellRequests
  import Review

  predicate DistinctLandIds(lands: seq<Land>) {
    forall i, j :: 0 <= i < j < |lands| ==> lands[i].id != lands[j].id
  }

  predicate DistinctRequestIds(requests: seq<SellLand>) {
    forall i, j :: 0 <= i < j < |requests| ==> requests[i].id != requests[j].id
  }

  /** No two sale requests name the same land. */
  predicate OneRequestPerLand(requests: seq<SellLand>) {
    forall i, j :: 0 <= i < j < |requests| ==> requests[i].land.landId != requests[j].land.landId
  }

  /** The SellList schema: every field required, so no empty text and a
      size present. */
  predicate ValidEntry(e: SellListEntry) {
    e.title != "" && e.location != "" && e.landType != "" && e.size.Some? && e.image != "" && e.description != ""
  }

  predicate Consistent(store: Store) {
    && Accounts.UniqueAccounts(store.users)
    && Employees.EmployeesWellFormed(store.employees)
    && (forall l :: l in store.lands ==> ValidLand(l))
    && DistinctLandIds(store.lands)
    && (forall s :: s in store.sellLands ==> SellRequests.ValidSellLand(s))
    && DistinctRequestIds(store.sellLands)
    && OneRequestPerLand(store.sellLands)
    && Review.IncreasingIds(store.sellList)
    && (forall e :: e in store.sellList ==> ValidEntry(e))
  }

  /** The empty store is consistent. */
  lemma EmptyStoreConsistent()
    ensures Consistent(Store([], [], [], [], [], []))
  {
  }

  lemma RegisterUserPreserves(store: Store, form: Accounts.RegisterForm, kdf: (string, string) -> string,
                              salt: string, freshId: string, now: int)
    requires forall u :: u in store.users ==> u.id != freshId
    requires Consistent(store)
    ensures Consistent(Accounts.RegisterUser(store, form, kdf, salt, freshId, now).store)
  {
    Accounts.RegisterKeepsAccountsUnique(store, form, kdf, salt, freshId, now);
  }

  lemma RegisterEmployeePreserves(store: Store, form: Employees.EmployeeForm, kdf: (string, string) -> string,
                                  salt: string, freshId: string)
    requires forall e :: e in store.employees ==> e.id != freshId
    requires Consistent(store)
    ensures Consistent(Employees.RegisterEmployee(store, form, kdf, salt, freshId).store)
  {
    Employees.RegisterEmployeeKeepsWellFormed(store, form, kdf, salt, freshId);
  }

  lemma RegisterLandPreserves(store: Store, cookie: Option<string>, form: LandRegistration.LandForm,
                              freshId: string, now: int)
    requires forall l :: l in store.lands ==> l.id != freshId
    requires Consistent(store)
    ensures Consistent(LandRegistration.RegisterLand(store, cookie, form, freshId, now).store)
  {
    var r := LandRegistration.RegisterLand(store, cookie, form, freshId, now);
    if r.response.code == 201 {
      var lands := r.store.lands;
      var n := |store.lands|;
      forall l | l in lands ensures ValidLand(l) {
        var k :| 0 <= k < |lands| && lands[k] == l;
        if k < n {
          assert store.lands[k] in store.lands;
        }
      }
      forall i, j | 0 <= i < j < |lands| ensures lands[i].id != lands[j].id {
        assert lands[i] == store.lands[i] && store.lands[i] in store.lands;
        if j < n {
          assert lands[j] == store.lands[j];
        }
      }
    }
  }

  /** Replacing one land by a valid land with the same id keeps the lands
      valid and their ids distinct. */
  lemma ReplaceLandKeepsLands(lands: seq<Land>, i: int, l: Land)
    requires 0 <= i < |lands| && ValidLand(l) && l.id == lands[i].id
    requires forall x :: x in lands ==> ValidLand(x)
    requires DistinctLandIds(lands)
    ensures forall x :: x in lands[i := l] ==> ValidLand(x)
    ensures DistinctLandIds(lands[i := l])
  {
    var s := lands[i := l];
    forall x | x in s ensures ValidLand(x) {
      var k :| 0 <= k < |s| && s[k] == x;
      if k != i {
        assert lands[k] in lands;
      }
    }
    forall a, b | 0 <= a < b < |s| ensures s[a].id != s[b].id {
      assert s[a].id == lands[a].id && s[b].id == lands[b].id;
    }
  }

  lemma ListForSalePreserves(store: Store, session: Session, cookie: Option<string>, id: string,
                             terms: Seller.SaleTerms)
    requires Consistent(store)
    ensures Consistent(Seller.ListForSale(store, session, cookie, id, terms).store)
  {
    var r := Seller.ListForSale(store, session, cookie, id, terms);
    if r.response.code == 200 {
      var i :| 0 <= i < |store.lands| && store.lands[i].id == id
               && r.store == store.(lands := store.lands[i := r.store.lands[i]])
               && ValidLand(r.store.lands[i]);
      ReplaceLandKeepsLands(store.lands, i, r.store.lands[i]);
    }
  }

  lemma BumpStatPreserves(store: Store, id: string, field: string)
    requires Consistent(store)
    ensures Consistent(Seller.BumpStat(store, id, field).store)
  {
    var r := Seller.BumpStat(store, id, field);
    if r.response.code == 200 {
      var i := FindLand(store.lands, id).value;
      assert store.lands[i] in store.lands;
      ReplaceLandKeepsLands(store.lands, i, r.store.lands[i]);
    }
  }

  /** Appending a valid request with a new id for a land no request names
      keeps the requests valid, their ids distinct and one per land. */
  lemma AppendKeepsRequests(ss: seq<SellLand>, s: SellLand)
    requires forall x :: x in ss ==> SellRequests.ValidSellLand(x)
    requires DistinctRequestIds(ss) && OneRequestPerLand(ss)
    requires SellRequests.ValidSellLand(s)
    requires forall x :: x in ss ==> x.id != s.id && x.land.landId != s.land.landId
    ensures forall x :: x in ss + [s] ==> SellRequests.ValidSellLand(x)
    ensures DistinctRequestIds(ss + [s]) && OneRequestPerLand(ss + [s])
  {
    var ts := ss + [s];
    forall i, j | 0 <= i < j < |ts|
      ensures ts[i].id != ts[j].id && ts[i].land.landId != ts[j].land.landId
    {
      assert ts[i] == ss[i] && ss[i] in ss;
      if j < |ss| {
        assert ts[j] == ss[j];
      }
    }
  }

  lemma SubmitSalePreserves(store: Store, cookie: Option<string>, form: SellRequests.SellForm,
                            freshId: string, now: int)
    requires forall s :: s in store.sellLands ==> s.id != freshId
    requires Consistent(store)
    ensures Consistent(SellRequests.SubmitSale(store, cookie, form, freshId, now).store)
  {
    var r := SellRequests.SubmitSale(store, cookie, form, freshId, now);
    if r.response == SellRequests.Created {
      var s := r.store.sellLands[|store.sellLands|];
      assert r.store.sellLands == store.sellLands + [s];
      AppendKeepsRequests(store.sellLands, s);
    }
  }

  /** Approving a schema-valid request yields a listing the SellList
      schema accepts: the image falls back to a placeholder and the
      location always holds the separator. */
  lemma ApprovedEntryValid(s: SellLand, id: int)
    requires SellRequests.ValidSellLand(s)
    ensures ValidEntry(Review.PublicEntry(s, id))
  {
    assert "" !in PropertyTypes;
  }

  /** Changing the status of one request keeps the requests valid, their
      ids distinct and one per land: none of these depends on the status. */
  lemma StatusChangeKeepsRequests(ss: seq<SellLand>, i: int, status: SaleStatus)
    requires 0 <= i < |ss|
    requires forall s :: s in ss ==> SellRequests.ValidSellLand(s)
    requires DistinctRequestIds(ss) && OneRequestPerLand(ss)
    ensures var ts := ss[i := ss[i].(status := status)];
            && (forall s :: s in ts ==> SellRequests.ValidSellLand(s))
            && DistinctRequestIds(ts) && OneRequestPerLand(ts)
  {
    var ts := ss[i := ss[i].(status := status)];
    assert ss[i] in ss;
    forall s | s in ts ensures SellRequests.ValidSellLand(s) {
      var k :| 0 <= k < |ts| && ts[k] == s;
      if k != i {
        assert ss[k] in ss;
      }
    }
    forall a, b | 0 <= a < b < |ts|
      ensures ts[a].id != ts[b].id && ts[a].land.landId != ts[b].land.landId
    {
      assert ts[a].id == ss[a].id && ts[b].id == ss[b].id;
      assert ts[a].land == ss[a].land && ts[b].land == ss[b].land;
    }
  }

  /** Appending a valid listing keeps every listing valid. */
  lemma AppendKeepsEntries(list: seq<SellListEntry>, e: SellListEntry)
    requires forall x :: x in list ==> ValidEntry(x)
    requires ValidEntry(e)
    ensures forall x :: x in list + [e] ==> ValidEntry(x)
  {
  }

  lemma ReviewPreserves(store: Store, requestId: string, action: string)
    requires Consistent(store)
    ensures Consistent(Review.UpdateSellLandStatus(store, requestId, action).store)
  {
    var r := Review.UpdateSellLandStatus(store, requestId, action);
    Review.ReviewKeepsIdsIncreasing(store, requestId, action);
    match FindSellLand(store.sellLands, requestId)
    case None =>
    case Some(i) =>
      var s := store.sellLands[i];
      if s.status == Pending && action == "approve" {
        assert s in store.sellLands;
        StatusChangeKeepsRequests(store.sellLands, i, Approved);
        ApprovedEntryValid(s, Review.NextId(store.sellList));
        AppendKeepsEntries(store.sellList, Review.PublicEntry(s, Review.NextId(store.sellList)));
      } else if s.status == Pending && action == "decline" {
        StatusChangeKeepsRequests(store.sellLands, i, Declined);
      }
  }

  /** The whole path of one land: the owner submits a sale request, it is
      approved, and the land appears on the sell list under a number above
      every earlier one, while a second request for it is refused. */
  lemma SubmitThenApprove(store: Store, cookie: Option<string>, form: SellRequests.SellForm,
                          freshId: string, now: int, again: SellRequests.SellForm, otherId: string)
    requires SellRequests.SubmitSale(store, cookie, form, freshId, now).response == SellRequests.Created
    requires forall s :: s in store.sellLands ==> s.id != freshId
    requires again.landId == form.landId
    ensures var s1 := SellRequests.SubmitSale(store, cookie, form, freshId, now).store;
            var r := Review.UpdateSellLandStatus(s1, freshId, "approve");
            && r.response == Review.ApprovedResponse
            && |r.store.sellList| == |store.sellList| + 1
            && r.store.sellList[|store.sellList|].title == s1.sellLands[|store.sellLands|].land.title
            && (forall x :: x in store.sellList ==> x.id < r.store.sellList[|store.sellList|].id)
            && SellRequests.SubmitSale(r.store, cookie, again, otherId, now).response != SellRequests.Created
  {
    var s1 := SellRequests.SubmitSale(store, cookie, form, freshId, now).store;
    var n := |store.sellLands|;
    assert FindSellLand(s1.sellLands, freshId) == Some(n) by {
      forall j | 0 <= j < n ensures s1.sellLands[j].id != freshId {
        assert s1.sellLands[j] == store.sellLands[j] && store.sellLands[j] in store.sellLands;
      }
    }
    var r := Review.UpdateSellLandStatus(s1, freshId, "approve");
    assert r.store.sellLands[n].land == s1.sellLands[n].land;
    assert r.store.sellLands[n] in r.store.sellLands;
    assert SellRequests.HasRequest(r.store.sellLands, form.landId.value);
  }

  // ---------------------------------------------------------------------
  // The auth cookie across requests

  /** The cookie a successful login sets names the user who logged in; sent
      back on later requests it identifies that user to the user gate (when
      the session holds no id) and to the owner handlers, and it names a
      stored user, which is what land registration and sale requests look
      up. */
  lemma LoginCookieIdentifiesUser(users: seq<User>, email: string, password: Option<string>,
                                  kdf: (string, string) -> string, session: Session)
    requires Accounts.LoginUser(users, Some(email), password, kdf).response.code == 200
    requires forall u :: u in users ==> u.id != ""
    ensures var c := Accounts.LoginUser(users, Some(email), password, kdf).cookie;
            && c.Some? && c.value.name == "auth" && c.value.signed
            && (exists u :: u in users && u.email == email && c.value.value == u.id)
            && FindUser(users, c.value.value).Some?
            && Seller.Caller(session, Some(c.value.value)) == Some(c.value.value)
            && (!Present(session.userId) ==>
                  Gates.IsAuthenticated(session, Some(c.value.value))
                  == Gates.Proceed(session.(userId := Some(c.value.value))))
  {
    var c := Accounts.LoginUser(users, Some(email), password, kdf).cookie.value;
    var u :| u in users && u.email == email && c.value == u.id;
    assert u.id != "";
  }

  /** The cookie a successful employee login sets keeps opening the
      government pages on later requests, even from a session that has lost
      the role: the cookie gate passes and the role check finds the
      employee. */
  lemma EmployeeCookieAuthorizes(employees: seq<GovtEmployee>, session: Session, email: string,
                                 password: Option<string>, kdf: (string, string) -> string, later: Session)
    requires Employees.LoginEmployee(employees, session, Some(email), password, kdf).response.code == 200
    requires forall e :: e in employees ==> e.id != "" && e.role == GovernmentRole
    ensures var c := Employees.LoginEmployee(employees, session, Some(email), password, kdf).cookie;
            && c.Some? && c.value.name == "auth" && c.value.signed
            && Gates.IsGovtAuthenticated(later, Some(c.value.value)) == Gates.Proceed(later)
            && Gates.RestrictToGovernment(later, Some(c.value.value), employees)
               == Gates.Proceed(later.(userRole := Some(GovernmentRole)))
  {
    var c := Employees.LoginEmployee(employees, session, Some(email), password, kdf).cookie.value;
    var e :| e in employees && e.email == email && c.value == e.id;
    assert e.id != "";
    var i := FindEmployee(employees, c.value).value;
    assert employees[i] in employees;
  }

  // ---------------------------------------------------------------------
  // Users without a phone number

  /** When no user carries a phone number, as with every user the User
      schema can hold, no land registration and no sale request succeeds:
      both copy the user's phone into a field their schema requires. */
  lemma PhonelessUsersCannotSell(store: Store, cookie: Option<string>, landForm: LandRegistration.LandForm,
                                 sellForm: SellRequests.SellForm, freshId: string, now: int)
    requires forall u :: u in store.users ==> u.phoneNumber == ""
    ensures LandRegistration.RegisterLand(store, cookie, landForm, freshId, now).response.code != 201
    ensures SellRequests.SubmitSale(store, cookie, sellForm, freshId, now).response != SellRequests.Created
  {
    if Present(cookie) && FindUser(store.users, cookie.value).Some? {
      var u := store.users[FindUser(store.users, cookie.value).value];
      assert u in store.users;
      var land := LandRegistration.NewLand(freshId, cookie.value, u, landForm, now);
      assert Check(land, UserPhone).Some?;
      assert UserPhone in Validate(land);
      SellRequests.SellerWithoutPhoneFails(store, cookie, sellForm, freshId, now);
    }
  }
}
