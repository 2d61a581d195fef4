/** The owner's land operations behind the user gate: the filtered and
    sorted list of the caller's lands (`GET /api/lands`), listing a land for
    sale (`PUT /api/lands/:id/sell`) and the engagement counters
    (`PUT /api/lands/:id/stats`). These handlers read the caller from the
    signed cookie first and the session second, the reverse of the gate. */
module Seller {
  import opened Common
  import opened Records
  import opened LandSchema
  import Gates

  /** `req.signedCookies.auth || req.session.userId` */
  function Caller(session: Session, cookie: Option<string>): (r: Option<string>)
    ensures r.Some? <==> Present(cookie) || Present(session.userId)
    ensures Present(cookie) ==> r == cookie
    ensures !Present(cookie) && Present(session.userId) ==> r == session.userId
    ensures r.Some? ==> r.value != ""
  {
    if Present(cookie) then cookie
    else if Present(session.userId) then session.userId
    else None
  }

  /** Behind the user gate a caller always exists, so these handlers never
      answer their own 401; and when cookie and session disagree the
      handlers act for the cookie's user where the gate recorded the
      session's. */
  lemma GatedCallerExists(session: Session, cookie: Option<string>)
    requires Gates.IsAuthenticated(session, cookie).Proceed?
    ensures var s := Gates.IsAuthenticated(session, cookie).session;
            Caller(s, cookie).Some?
            && (Present(cookie) ==> Caller(s, cookie) == cookie)
            && (Present(cookie) && Present(session.userId) ==> s.userId == session.userId)
  {
  }

  // ---------------------------------------------------------------------
  // The owner's lands

  /** The sort orders the `sort` parameter selects. */
  datatype SortOrder = Oldest | ByViews | ByLikes | Newest

  /** `oldest`, `views` and `likes` select their order; `newest`, anything
      else and no parameter select newest first. */
  function OrderOf(sort: Option<string>): SortOrder {
    match sort
    case Some(s) =>
      if s == "oldest" then Oldest
      else if s == "views" then ByViews
      else if s == "likes" then ByLikes
      else Newest
    case None => Newest
  }

  /** `a` may come before `b` in the order: registration date ascending
      for `Oldest`, the counter or the date descending otherwise. */
  predicate Before(order: SortOrder, a: Land, b: Land) {
    match order
    case Oldest => a.registrationDate <= b.registrationDate
    case ByViews => a.statistics.views >= b.statistics.views
    case ByLikes => a.statistics.likes >= b.statistics.likes
    case Newest => a.registrationDate >= b.registrationDate
  }

  predicate SortedBy(order: SortOrder, s: seq<Land>) {
    forall i, j :: 0 <= i < j < |s| ==> Before(order, s[i], s[j])
  }

  /** Putting `h` in front of a sorted sequence whose elements all may
      follow it keeps it sorted. */
  lemma ConsSorted(order: SortOrder, h: Land, t: seq<Land>)
    requires SortedBy(order, t)
    requires forall y :: y in multiset(t) ==> Before(order, h, y)
    ensures SortedBy(order, [h] + t)
  {
    var s := [h] + t;
    forall i, j | 0 <= i < j < |s| ensures Before(order, s[i], s[j]) {
      if i == 0 {
        assert s[j] == t[j - 1] && t[j - 1] in multiset(t);
      } else {
        assert s[i] == t[i - 1] && s[j] == t[j - 1];
      }
    }
  }

  /** Inserts `x` into a sorted sequence behind every element it may not
      precede. */
  function Insert(order: SortOrder, x: Land, s: seq<Land>): (r: seq<Land>)
    requires SortedBy(order, s)
    ensures SortedBy(order, r)
    ensures multiset(r) == multiset(s) + multiset{x}
    decreases |s|
  {
    if |s| == 0 then [x]
    else if Before(order, x, s[0]) then
      ConsSorted(order, x, s);
      [x] + s
    else
      assert s == [s[0]] + s[1..];
      var rest := Insert(order, x, s[1..]);
      InsertTailFollows(order, x, s, rest);
      ConsSorted(order, s[0], rest);
      [s[0]] + rest
  }

  lemma InsertTailFollows(order: SortOrder, x: Land, s: seq<Land>, rest: seq<Land>)
    requires |s| > 0 && SortedBy(order, s) && !Before(order, x, s[0])
    requires multiset(rest) == multiset(s[1..]) + multiset{x}
    ensures forall y :: y in multiset(rest) ==> Before(order, s[0], y)
  {
    forall y | y in multiset(rest) ensures Before(order, s[0], y) {
      if y != x {
        assert y in multiset(s[1..]);
        var k :| 0 <= k < |s[1..]| && s[1..][k] == y;
        assert s[k + 1] == y;
      }
    }
  }

  /** Stable insertion sort; the result is ordered and a permutation. */
  function Sort(order: SortOrder, s: seq<Land>): (r: seq<Land>)
    ensures SortedBy(order, r)
    ensures multiset(r) == multiset(s)
    decreases |s|
  {
    if |s| == 0 then []
    else
      assert s == s[..|s| - 1] + [s[|s| - 1]];
      Insert(order, s[|s| - 1], Sort(order, s[..|s| - 1]))
  }

  /** A status filter applies only when one is given and it is not `all`. */
  predicate StatusFilterOn(status: Option<string>) {
    Present(status) && status.value != "all"
  }

  predicate Selected(owner: string, status: Option<string>, l: Land) {
    l.owner == owner && (StatusFilterOn(status) ==> l.status == status.value)
  }

  datatype LandsAnswer = LandsAnswer(response: Response, lands: seq<Land>)

  /** Without a caller: 401 and nothing. Otherwise exactly the caller's
      lands with the requested status, each once, in the requested order. */
  function QueryLands(lands: seq<Land>, session: Session, cookie: Option<string>,
                      status: Option<string>, sort: Option<string>): (r: LandsAnswer)
    ensures r.response.code == 401 <==> Caller(session, cookie).None?
    ensures r.response.code in {200, 401}
    ensures r.response.code == 401 ==> r.lands == []
    ensures r.response.code == 200 ==>
      var owner := Caller(session, cookie).value;
      && SortedBy(OrderOf(sort), r.lands)
      && multiset(r.lands) == multiset(Filter(lands, (l: Land) => Selected(owner, status, l)))
      && (forall l :: l in r.lands <==> l in lands && Selected(owner, status, l))
  {
    match Caller(session, cookie)
    case None => LandsAnswer(Response(401, "Not authenticated"), [])
    case Some(owner) =>
      var picked := Filter(lands, (l: Land) => Selected(owner, status, l));
      var sorted := Sort(OrderOf(sort), picked);
      assert forall l :: l in sorted <==> l in multiset(picked);
      LandsAnswer(Response(200, "OK"), sorted)
  }

  /** The query returns only the caller's lands. */
  lemma QueryReturnsOnlyOwnLands(lands: seq<Land>, session: Session, cookie: Option<string>,
                                 status: Option<string>, sort: Option<string>)
    ensures forall l :: l in QueryLands(lands, session, cookie, status, sort).lands ==>
              Caller(session, cookie).Some? && l.owner == Caller(session, cookie).value
  {
  }

  /** With no status or `all`, every land of the caller is returned whatever
      its status; with a status, exactly those in that status. */
  lemma StatusFilterMeaning(lands: seq<Land>, session: Session, cookie: Option<string>,
                            status: Option<string>, sort: Option<string>, l: Land)
    requires Caller(session, cookie).Some? && l in lands && l.owner == Caller(session, cookie).value
    ensures !StatusFilterOn(status) ==> l in QueryLands(lands, session, cookie, status, sort).lands
    ensures StatusFilterOn(status) ==>
              (l in QueryLands(lands, session, cookie, status, sort).lands <==> l.status == status.value)
  {
  }

  /** What each `sort` value means for any two positions of the result. */
  lemma SortKeys(lands: seq<Land>, session: Session, cookie: Option<string>,
                 status: Option<string>, sort: Option<string>, i: int, j: int)
    requires Caller(session, cookie).Some?
    requires 0 <= i < j < |QueryLands(lands, session, cookie, status, sort).lands|
    ensures var s := QueryLands(lands, session, cookie, status, sort).lands;
      && (sort == Some("oldest") ==> s[i].registrationDate <= s[j].registrationDate)
      && (sort == Some("views") ==> s[i].statistics.views >= s[j].statistics.views)
      && (sort == Some("likes") ==> s[i].statistics.likes >= s[j].statistics.likes)
      && (sort !in {Some("oldest"), Some("views"), Some("likes")} ==>
            s[i].registrationDate >= s[j].registrationDate)
  {
  }

  // ---------------------------------------------------------------------
  // Listing for sale

  /** The body of the listing request. */
  datatype SaleTerms = SaleTerms(price: Option<int>, description: Option<string>, negotiable: Option<bool>)

  datatype Listed = Listed(response: Response, store: Store)

  /** `Land.findOne({ _id: id, owner: userId })` */
  function FindOwned(lands: seq<Land>, id: string, owner: string): (r: Option<nat>)
    ensures r.None? <==> forall l :: l in lands ==> !(l.id == id && l.owner == owner)
    ensures r.Some? ==> r.value < |lands| && lands[r.value].id == id && lands[r.value].owner == owner
  {
    FindFirst(lands, (l: Land) => l.id == id && l.owner == owner)
  }

  /** The land as the handler changes it before saving. */
  function PutOnSale(l: Land, terms: SaleTerms): Land {
    l.(status := "pending", price := terms.price, saleDescription := terms.description,
       negotiable := Truthy(terms.negotiable))
  }

  /** No caller: 401. No land with that id owned by the caller: 403. The
      changed land fails the schema on save: 500. Otherwise that one land
      becomes `pending` with the given price and description, whatever its
      earlier status, and nothing else in the store changes. */
  function ListForSale(store: Store, session: Session, cookie: Option<string>, id: string,
                       terms: SaleTerms): (r: Listed)
    ensures r.response.code == 401 <==> Caller(session, cookie).None?
    ensures r.response.code == 403 <==>
      Caller(session, cookie).Some?
      && forall l :: l in store.lands ==> !(l.id == id && l.owner == Caller(session, cookie).value)
    ensures r.response.code in {200, 401, 403, 500}
    ensures Caller(session, cookie).Some? && FindOwned(store.lands, id, Caller(session, cookie).value).Some? ==>
      (r.response.code == 200
       <==> ValidLand(PutOnSale(store.lands[FindOwned(store.lands, id, Caller(session, cookie).value).value], terms)))
    ensures r.response.code != 200 ==> r.store == store
    ensures r.response.code == 200 ==>
      |r.store.lands| == |store.lands| &&
      exists i :: 0 <= i < |store.lands|
        && store.lands[i].id == id && store.lands[i].owner == Caller(session, cookie).value
        && r.store == store.(lands := store.lands[i := r.store.lands[i]])
        && r.store.lands[i] == store.lands[i].(status := "pending", price := terms.price,
                                               saleDescription := terms.description,
                                               negotiable := terms.negotiable == Some(true))
        && ValidLand(r.store.lands[i])
  {
    match Caller(session, cookie)
    case None => Listed(Response(401, "Not authenticated"), store)
    case Some(owner) =>
      match FindOwned(store.lands, id, owner)
      case None => Listed(Response(403, "Land not found or you do not have permission"), store)
      case Some(i) =>
        var updated := PutOnSale(store.lands[i], terms);
        if Validate(updated) != map[] then Listed(Response(500, "Server error"), store)
        else Listed(Response(200, "Land listed for sale successfully"),
                    store.(lands := store.lands[i := updated]))
  }

  /** A pending land must carry a price: listing without one is refused and
      changes nothing. */
  lemma ListingWithoutPriceFails(store: Store, session: Session, cookie: Option<string>, id: string,
                                 terms: SaleTerms)
    requires terms.price.None?
    ensures ListForSale(store, session, cookie, id, terms).response.code != 200
    ensures ListForSale(store, session, cookie, id, terms).store == store
  {
    var owner := Caller(session, cookie);
    if owner.Some? && FindOwned(store.lands, id, owner.value).Some? {
      PendingNeedsPrice(PutOnSale(store.lands[FindOwned(store.lands, id, owner.value).value], terms));
    }
  }

  /** A valid land stays valid when put on sale exactly when a
      non-negative price is given. */
  lemma PutOnSaleValid(l: Land, terms: SaleTerms)
    requires ValidLand(l)
    ensures ValidLand(PutOnSale(l, terms)) <==> terms.price.Some? && terms.price.value >= 0
  {
    assert "pending" in LandStatuses;
  }

  /** For an owned land that satisfied the schema, listing it succeeds
      exactly when a non-negative price is given, whatever its earlier
      status; otherwise the save fails and the answer is 500. */
  lemma ListingValidLand(store: Store, session: Session, cookie: Option<string>, id: string,
                         terms: SaleTerms)
    requires Caller(session, cookie).Some?
    requires FindOwned(store.lands, id, Caller(session, cookie).value).Some?
    requires ValidLand(store.lands[FindOwned(store.lands, id, Caller(session, cookie).value).value])
    ensures ListForSale(store, session, cookie, id, terms).response.code == 200
            <==> terms.price.Some? && terms.price.value >= 0
    ensures ListForSale(store, session, cookie, id, terms).response.code != 200
            ==> ListForSale(store, session, cookie, id, terms).response == Response(500, "Server error")
  {
    PutOnSaleValid(store.lands[FindOwned(store.lands, id, Caller(session, cookie).value).value], terms);
  }

  // ---------------------------------------------------------------------
  // Engagement counters

  const StatFields := ["views", "likes", "inquiries"]

  /** The counter a field name designates. */
  function Counter(s: Statistics, field: string): int
    requires field in StatFields
  {
    if field == "views" then s.views
    else if field == "likes" then s.likes
    else s.inquiries
  }

  function Bump(s: Statistics, field: string): Statistics {
    if field == "views" then s.(views := s.views + 1)
    else if field == "likes" then s.(likes := s.likes + 1)
    else s.(inquiries := s.inquiries + 1)
  }

  datatype Bumped = Bumped(response: Response, statistics: Option<Statistics>, store: Store)

  /** A field outside views/likes/inquiries: 400. An unknown id: 404.
      Otherwise exactly the named counter of that one land rises by one; no
      ownership is checked and the schema validators do not run. */
  function BumpStat(store: Store, id: string, field: string): (r: Bumped)
    ensures r.response.code == 400 <==> field !in StatFields
    ensures r.response.code == 404 <==> field in StatFields && forall l :: l in store.lands ==> l.id != id
    ensures r.response.code in {200, 400, 404}
    ensures r.response.code != 200 ==> r.store == store && r.statistics.None?
    ensures r.response.code == 200 ==>
      && r.response.message == "Land " + field + " updated"
      && |r.store.lands| == |store.lands|
      && exists i :: 0 <= i < |store.lands| && store.lands[i].id == id
           && (forall j :: 0 <= j < i ==> store.lands[j].id != id)
           && r.store == store.(lands := store.lands[i := r.store.lands[i]])
           && r.store.lands[i] == store.lands[i].(statistics := r.store.lands[i].statistics)
           && r.statistics == Some(r.store.lands[i].statistics)
           && forall f :: f in StatFields ==>
                Counter(r.store.lands[i].statistics, f)
                == Counter(store.lands[i].statistics, f) + (if f == field then 1 else 0)
  {
    if field !in StatFields then Bumped(Response(400, "Invalid statistic field"), None, store)
    else match FindLand(store.lands, id)
      case None => Bumped(Response(404, "Land not found"), None, store)
      case Some(i) =>
        var l := store.lands[i].(statistics := Bump(store.lands[i].statistics, field));
        Bumped(Response(200, "Land " + field + " updated"), Some(l.statistics),
               store.(lands := store.lands[i := l]))
  }

  /** Bumping touches no field the schema validates, so valid lands stay
      valid even though the update skips validation. */
  lemma BumpKeepsValidity(store: Store, id: string, field: string)
    requires forall l :: l in store.lands ==> ValidLand(l)
    ensures forall l :: l in BumpStat(store, id, field).store.lands ==> ValidLand(l)
  {
    var r := BumpStat(store, id, field);
    if r.response.code == 200 {
      var i := FindLand(store.lands, id).value;
      assert store.lands[i] in store.lands;
      forall l | l in r.store.lands ensures ValidLand(l) {
        var k :| 0 <= k < |r.store.lands| && r.store.lands[k] == l;
        if k != i {
          assert store.lands[k] in store.lands;
        }
      }
    }
  }
}
