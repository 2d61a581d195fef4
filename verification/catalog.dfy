/** The buyer-facing demo catalog: a fixed list of listings, narrowed by the
    query parameters of `GET /api/lands`, and looked up by id through
    `GET /api/lands/:id`. */
module Catalog {
  import opened Common

  /** One demo listing. `sizeValue` is the leading numeric token of `size`
      ("2 acres" has 2.0), taken as already parsed. */
  datatype Listing = Listing(
    id: int,
    title: string,
    location: string,
    price: int,
    size: string,
    sizeValue: real,
    landType: string,
    image: string)

  /** The query string, with numeric bounds already parsed. A string
      parameter is applied only when present and non-empty; a numeric bound
      is applied whenever it was given. */
  datatype SearchQuery = SearchQuery(
    q: Option<string>,
    location: Option<string>,
    landType: Option<string>,
    minPrice: Option<int>,
    maxPrice: Option<int>,
    minSize: Option<real>,
    maxSize: Option<real>)

  const NoQuery := SearchQuery(None, None, None, None, None, None, None)

  const FarmImage := "https://images.unsplash.com/photo-1500382017468-9049fed747ef?w=500&h=300"
  const SeaImage := "https://images.unsplash.com/photo-1621502863666-96d34b16e89d?w=500&h=300"
  const HillImage := "https://images.unsplash.com/photo-1585543805890-6051f7829f98?w=500&h=300"
  const CityImage := "https://images.unsplash.com/photo-1486406146926-c627a92ad1ab?w=500&h=300"
  const RiverImage := "https://images.unsplash.com/photo-1470770903676-69b98201ea1c?w=500&h=300"
  const DesertImage := "https://images.unsplash.com/photo-1473448912268-2022ce9509d8?w=500&h=300"

  /** `landsData`. */
  const Lands: seq<Listing> := [
    Listing(1, "Green Acres Farm", "Jaipur", 250000, "2 acres", 2.0, "Agricultural", FarmImage),
    Listing(2, "Seaside Plot", "Mumbai", 750000, "0.5 acres", 0.5, "Residential", SeaImage),
    Listing(3, "Mountain View Estate", "Shimla", 450000, "1.5 acres", 1.5, "Residential", HillImage),
    Listing(4, "Urban Development Plot", "Delhi", 1200000, "0.75 acres", 0.75, "Commercial", CityImage),
    Listing(5, "Riverside Property", "Varanasi", 320000, "1 acre", 1.0, "Mixed-Use", RiverImage),
    Listing(6, "Fertile Farmland", "Punjab", 175000, "5 acres", 5.0, "Agricultural", FarmImage),
    Listing(7, "Desert Oasis", "Jaisalmer", 120000, "3 acres", 3.0, "Agricultural", DesertImage),
    Listing(8, "City Center Plot", "Bangalore", 950000, "0.25 acres", 0.25, "Commercial", CityImage),
    Listing(9, "Tea Garden Estate", "Darjeeling", 550000, "4 acres", 4.0, "Agricultural", RiverImage),
    Listing(10, "Beachfront Property", "Goa", 1500000, "1 acre", 1.0, "Residential", SeaImage),
    Listing(11, "Hillside Retreat", "Ooty", 480000, "1.2 acres", 1.2, "Residential", HillImage),
    Listing(12, "Industrial Zone Plot", "Pune", 620000, "2.5 acres", 2.5, "Industrial", CityImage)
  ]

  // ---------------------------------------------------------------------
  // The individual filter passes

  /** Free-text hit: the lower-cased term occurs in the lower-cased title,
      location or type. */
  predicate TextHit(term: string, l: Listing) {
    Contains(Lower(l.title), term) || Contains(Lower(l.location), term) || Contains(Lower(l.landType), term)
  }

  /** Case-insensitive equality, as `a.toLowerCase() === b.toLowerCase()`. */
  predicate SameIgnoringCase(a: string, b: string) {
    Lower(a) == Lower(b)
  }

  /** The size pass, branch for branch. */
  predicate SizeHit(minSize: Option<real>, maxSize: Option<real>, l: Listing) {
    if minSize.Some? && maxSize.Some? then l.sizeValue >= minSize.value && l.sizeValue <= maxSize.value
    else if minSize.Some? then l.sizeValue >= minSize.value
    else if maxSize.Some? then l.sizeValue <= maxSize.value
    else true
  }

  /** One optional pass: applied only when `active`. */
  function Pass(s: seq<Listing>, active: bool, p: Listing -> bool): seq<Listing> {
    if active then Filter(s, p) else s
  }

  /** The handler's pipeline: the first `n` passes applied in order, each
      only when its parameter is given (see `Active` and `Criterion`). */
  function Pipeline(lands: seq<Listing>, query: SearchQuery, n: nat): seq<Listing> {
    if n == 0 then lands
    else Pass(Pipeline(lands, query, n - 1), Active(query, n - 1), Criterion(query, n - 1))
  }

  /** All six passes: text search, location, type, minimum price, maximum
      price, size. */
  function Search(lands: seq<Listing>, query: SearchQuery): seq<Listing> {
    Pipeline(lands, query, 6)
  }

  function TermPass(query: SearchQuery): Listing -> bool {
    (l: Listing) => TextHit(Lower(OrElse(query.q, "")), l)
  }

  function LocationPass(query: SearchQuery): Listing -> bool {
    (l: Listing) => SameIgnoringCase(l.location, OrElse(query.location, ""))
  }

  function TypePass(query: SearchQuery): Listing -> bool {
    (l: Listing) => SameIgnoringCase(l.landType, OrElse(query.landType, ""))
  }

  function MinPricePass(query: SearchQuery): Listing -> bool {
    (l: Listing) => l.price >= query.minPrice.GetOr(0)
  }

  function MaxPricePass(query: SearchQuery): Listing -> bool {
    (l: Listing) => l.price <= query.maxPrice.GetOr(0)
  }

  function SizePass(query: SearchQuery): Listing -> bool {
    (l: Listing) => SizeHit(query.minSize, query.maxSize, l)
  }

  /** The declarative meaning of a query: the listing passes every criterion
      that is given. Size bounds are inclusive and each one applies alone. */
  ghost predicate Matches(query: SearchQuery, l: Listing) {
    && (Present(query.q) ==>
          exists k :: (OccursAt(Lower(l.title), Lower(query.q.value), k)
                       || OccursAt(Lower(l.location), Lower(query.q.value), k)
                       || OccursAt(Lower(l.landType), Lower(query.q.value), k)))
    && (Present(query.location) ==> Lower(l.location) == Lower(query.location.value))
    && (Present(query.landType) ==> Lower(l.landType) == Lower(query.landType.value))
    && (query.minPrice.Some? ==> query.minPrice.value <= l.price)
    && (query.maxPrice.Some? ==> l.price <= query.maxPrice.value)
    && (query.minSize.Some? ==> query.minSize.value <= l.sizeValue)
    && (query.maxSize.Some? ==> l.sizeValue <= query.maxSize.value)
  }

  lemma TextHitMeaning(term: string, l: Listing)
    ensures TextHit(term, l) <==>
      exists k :: (OccursAt(Lower(l.title), term, k)
                   || OccursAt(Lower(l.location), term, k)
                   || OccursAt(Lower(l.landType), term, k))
  {
    ContainsAt(Lower(l.title), term);
    ContainsAt(Lower(l.location), term);
    ContainsAt(Lower(l.landType), term);
  }

  lemma PassAsFilter(s: seq<Listing>, active: bool, p: Listing -> bool, gate: Listing -> bool)
    requires forall l :: gate(l) == (!active || p(l))
    ensures Pass(s, active, p) == Filter(s, gate)
  {
    if active {
      FilterSame(s, p, gate);
    } else {
      FilterAll(s, gate);
    }
  }

  /** Whether the n-th pass of the pipeline is switched on. */
  predicate Active(query: SearchQuery, n: nat) {
    if n == 0 then Present(query.q)
    else if n == 1 then Present(query.location)
    else if n == 2 then Present(query.landType)
    else if n == 3 then query.minPrice.Some?
    else if n == 4 then query.maxPrice.Some?
    else query.minSize.Some? || query.maxSize.Some?
  }

  /** The predicate of the n-th pass. */
  function Criterion(query: SearchQuery, n: nat): Listing -> bool {
    if n == 0 then TermPass(query)
    else if n == 1 then LocationPass(query)
    else if n == 2 then TypePass(query)
    else if n == 3 then MinPricePass(query)
    else if n == 4 then MaxPricePass(query)
    else SizePass(query)
  }

  /** A listing survives the first `n` passes. */
  ghost predicate Survives(query: SearchQuery, n: nat, l: Listing) {
    forall i :: 0 <= i < n ==> !Active(query, i) || Criterion(query, i)(l)
  }

  lemma {:induction false} PassStep(lands: seq<Listing>, query: SearchQuery, n: nat)
    ensures Pass(Filter(lands, (l: Listing) => Survives(query, n, l)), Active(query, n), Criterion(query, n))
         == Filter(lands, (l: Listing) => Survives(query, n + 1, l))
  {
    var before := (l: Listing) => Survives(query, n, l);
    var gate := (l: Listing) => !Active(query, n) || Criterion(query, n)(l);
    var after := (l: Listing) => Survives(query, n + 1, l);
    PassAsFilter(Filter(lands, before), Active(query, n), Criterion(query, n), gate);
    forall l: Listing ensures after(l) == (before(l) && gate(l)) {
      if before(l) && gate(l) {
        forall i | 0 <= i < n + 1 ensures !Active(query, i) || Criterion(query, i)(l) {
          if i < n {
            assert 0 <= i < n;
          }
        }
      }
    }
    FilterThen(lands, before, gate, after);
  }

  lemma SurvivorsMatch(query: SearchQuery, l: Listing)
    ensures Survives(query, 6, l) == Matches(query, l)
  {
    if Present(query.q) {
      TextHitMeaning(Lower(query.q.value), l);
    }
    var passes := [Present(query.q), Present(query.location), Present(query.landType),
                   query.minPrice.Some?, query.maxPrice.Some?, query.minSize.Some? || query.maxSize.Some?];
    forall i | 0 <= i < 6 ensures Active(query, i) == passes[i] {
    }
    if Survives(query, 6, l) {
      assert !Active(query, 0) || Criterion(query, 0)(l);
      assert !Active(query, 1) || Criterion(query, 1)(l);
      assert !Active(query, 2) || Criterion(query, 2)(l);
      assert !Active(query, 3) || Criterion(query, 3)(l);
      assert !Active(query, 4) || Criterion(query, 4)(l);
      assert !Active(query, 5) || Criterion(query, 5)(l);
    }
  }

  /** The first `n` passes together keep exactly the survivors of those
      passes, in catalog order. */
  lemma {:induction false} PipelineIsOnePass(lands: seq<Listing>, query: SearchQuery, n: nat)
    ensures Pipeline(lands, query, n) == Filter(lands, (l: Listing) => Survives(query, n, l))
  {
    if n == 0 {
      FilterAll(lands, (l: Listing) => Survives(query, 0, l));
    } else {
      PipelineIsOnePass(lands, query, n - 1);
      PassStep(lands, query, n - 1);
    }
  }

  /** The whole pipeline is a single order-preserving pass with `Matches`. */
  lemma SearchIsOnePass(lands: seq<Listing>, query: SearchQuery)
    ensures Search(lands, query) == Filter(lands, (l: Listing) => Matches(query, l))
  {
    PipelineIsOnePass(lands, query, 6);
    forall l: Listing ensures Survives(query, 6, l) == Matches(query, l) {
      SurvivorsMatch(query, l);
    }
    FilterSame(lands, (l: Listing) => Survives(query, 6, l), (l: Listing) => Matches(query, l));
  }

  /** `GET /api/lands`: the answer is an order-preserving subsequence of the
      catalog holding exactly the listings that match every given criterion. */
  function SearchLands(query: SearchQuery): (r: seq<Listing>)
    ensures IsSubseq(r, Lands)
    ensures forall l :: l in r <==> l in Lands && Matches(query, l)
  {
    SearchIsOnePass(Lands, query);
    FilterIsSubseq(Lands, (l: Listing) => Matches(query, l));
    Search(Lands, query)
  }

  /** With no query parameters the whole catalog comes back unchanged. */
  lemma NoQueryReturnsCatalog(lands: seq<Listing>)
    ensures Search(lands, NoQuery) == lands
  {
    SearchIsOnePass(lands, NoQuery);
    FilterAll(lands, (l: Listing) => Matches(NoQuery, l));
  }

  /** The text search and its completeness: with `q` given, a listing is in
      the answer iff it is in the catalog, passes the other criteria, and the
      lower-cased `q` occurs in its lower-cased title, location or type. */
  lemma TextSearchSoundAndComplete(query: SearchQuery, l: Listing)
    requires Present(query.q)
    ensures l in SearchLands(query) <==>
      && l in Lands
      && Matches(query.(q := None), l)
      && (Contains(Lower(l.title), Lower(query.q.value))
          || Contains(Lower(l.location), Lower(query.q.value))
          || Contains(Lower(l.landType), Lower(query.q.value)))
  {
    TextHitMeaning(Lower(query.q.value), l);
  }

  /** The location filter is exact equality up to case, not substring match:
      "jai" occurs in Jaipur's location, yet "Jai" does not select it while
      "JAIPUR" does. */
  lemma LocationIsExactMatch()
    ensures Contains(Lower(Lands[0].location), "jai")
    ensures Lands[0] !in SearchLands(NoQuery.(location := Some("Jai")))
    ensures Lands[0] in SearchLands(NoQuery.(location := Some("JAIPUR")))
  {
    assert IsPrefix("jai", Lower(Lands[0].location));
    assert |Lower("Jai")| != |Lower(Lands[0].location)|;
    assert Lower("JAIPUR") == Lower(Lands[0].location);
  }

  /** Price and size bounds are inclusive and each one applies on its own:
      every answer lies within the given bounds, and a listing sitting
      exactly on a bound is kept. */
  lemma BoundsAreInclusive(query: SearchQuery, l: Listing)
    requires l in Lands
    ensures l in SearchLands(query) ==>
      && (query.minPrice.Some? ==> query.minPrice.value <= l.price)
      && (query.maxPrice.Some? ==> l.price <= query.maxPrice.value)
      && (query.minSize.Some? ==> query.minSize.value <= l.sizeValue)
      && (query.maxSize.Some? ==> l.sizeValue <= query.maxSize.value)
    ensures l in SearchLands(NoQuery.(minPrice := Some(l.price), maxPrice := Some(l.price)))
    ensures l in SearchLands(NoQuery.(minSize := Some(l.sizeValue)))
    ensures l in SearchLands(NoQuery.(maxSize := Some(l.sizeValue)))
  {
  }

  // ---------------------------------------------------------------------
  // Lookup by id

  /** `landsData.find(land => land.id === id)`: the position of the first
      listing with that id. */
  function FindById(lands: seq<Listing>, id: int): (r: Option<nat>)
    ensures r.None? <==> forall l :: l in lands ==> l.id != id
    ensures r.Some? ==> r.value < |lands| && lands[r.value].id == id
    ensures r.Some? ==> forall j :: 0 <= j < r.value ==> lands[j].id != id
  {
    FindFirst(lands, (l: Listing) => l.id == id)
  }

  datatype Lookup = Found(listing: Listing) | NotFound(response: Response)

  /** `GET /api/lands/:id`: the listing with that id, or 404. */
  function GetLand(id: int): (r: Lookup)
    ensures r.Found? ==> r.listing in Lands && r.listing.id == id
    ensures r.NotFound? <==> forall l :: l in Lands ==> l.id != id
    ensures r.NotFound? ==> r.response == Response(404, "Land not found")
  {
    match FindById(Lands, id)
    case Some(i) => Found(Lands[i])
    case None => NotFound(Response(404, "Land not found"))
  }

  /** Catalog ids are 1..12 in order, hence distinct, so a lookup by id is
      unambiguous. */
  lemma CatalogIds()
    ensures forall i :: 0 <= i < |Lands| ==> Lands[i].id == i + 1
    ensures forall i, j :: 0 <= i < j < |Lands| ==> Lands[i].id != Lands[j].id
  {
  }

  lemma GetLandByPosition(id: int)
    ensures 1 <= id <= 12 ==> GetLand(id) == Found(Lands[id - 1])
    ensures !(1 <= id <= 12) ==> GetLand(id).NotFound?
  {
    CatalogIds();
    if 1 <= id <= 12 {
      assert Lands[id - 1] in Lands;
    }
  }
}
