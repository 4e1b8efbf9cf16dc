/** The post-fetch part of `POST /places/nearby` in workers/session-api.mjs: the
    price defaults taken from the request's filters, the parameter check, the
    handling of the Places status, and the filter/map chain over the results.
    The HTTP call itself is a parameter: the caller supplies what Google returned. */
module PlacesFilter {
  import opened Base
  import opened Seqs
  import opened Types

  /** A JavaScript number that may be infinite: `Math.min()` of nothing is
      `Infinity` and `Math.max()` of nothing is `-Infinity`. */
  datatype Bound = Finite(v: int) | PosInf | NegInf

  /** `x < b` */
  predicate Below(x: int, b: Bound) {
    match b
    case Finite(v) => x < v
    case PosInf => true
    case NegInf => false
  }

  /** `x > b` */
  predicate Above(x: int, b: Bound) {
    match b
    case Finite(v) => x > v
    case PosInf => false
    case NegInf => true
  }

  /** `b > 0` */
  predicate Positive(b: Bound) {
    match b
    case Finite(v) => v > 0
    case PosInf => true
    case NegInf => false
  }

  /** `b < 4` */
  predicate UnderFour(b: Bound) {
    match b
    case Finite(v) => v < 4
    case PosInf => false
    case NegInf => true
  }

  /** `filters` of the request body; each field may be absent. */
  datatype PlaceFilters = PlaceFilters(
    minRating: Option<real>,
    rating: Option<real>,
    minPrice: Option<int>,
    maxPrice: Option<int>,
    priceLevel: Option<seq<int>>,
    cuisineTypes: Option<seq<string>>)

  /** One entry of `data.results` as the Places API returns it. */
  datatype Place = Place(
    placeId: string,
    name: string,
    vicinity: string,
    rating: Option<real>,
    userRatingsTotal: Option<int>,
    priceLevel: Option<int>,
    geometry: Geometry,
    types: Option<seq<string>>)

  /** `Math.min(...xs)` */
  function MinOf(xs: seq<int>): (b: Bound)
    ensures xs == [] <==> b == PosInf
    ensures b != NegInf
    ensures b.Finite? ==> b.v in xs && forall x :: x in xs ==> b.v <= x
  {
    if xs == [] then PosInf
    else
      assert forall x :: x in xs ==> x == xs[0] || x in xs[1..];
      var rest := MinOf(xs[1..]);
      if rest.Finite? && rest.v < xs[0] then rest else Finite(xs[0])
  }

  /** `Math.max(...xs)` */
  function MaxOf(xs: seq<int>): (b: Bound)
    ensures xs == [] <==> b == NegInf
    ensures b != PosInf
    ensures b.Finite? ==> b.v in xs && forall x :: x in xs ==> x <= b.v
  {
    if xs == [] then NegInf
    else
      assert forall x :: x in xs ==> x == xs[0] || x in xs[1..];
      var rest := MaxOf(xs[1..]);
      if rest.Finite? && rest.v > xs[0] then rest else Finite(xs[0])
  }

  /** `filters?.minRating ?? filters?.rating ?? 0` */
  function MinRating(f: Option<PlaceFilters>): real {
    if f.Some? && f.value.minRating.Some? then f.value.minRating.value
    else if f.Some? && f.value.rating.Some? then f.value.rating.value
    else 0.0
  }

  /** `filters?.minPrice ?? (Array.isArray(filters?.priceLevel) ? Math.min(...) : 0)` */
  function MinPrice(f: Option<PlaceFilters>): Bound {
    if f.Some? && f.value.minPrice.Some? then Finite(f.value.minPrice.value)
    else if f.Some? && f.value.priceLevel.Some? then MinOf(f.value.priceLevel.value)
    else Finite(0)
  }

  /** `filters?.maxPrice ?? (Array.isArray(filters?.priceLevel) ? Math.max(...) : 4)` */
  function MaxPrice(f: Option<PlaceFilters>): Bound {
    if f.Some? && f.value.maxPrice.Some? then Finite(f.value.maxPrice.value)
    else if f.Some? && f.value.priceLevel.Some? then MaxOf(f.value.priceLevel.value)
    else Finite(4)
  }

  /** The `minprice`/`maxprice` query parameters, present only when the range is
      narrower than the full 0..4 scale. */
  function PriceQueryParams(f: Option<PlaceFilters>): (r: Option<(Bound, Bound)>)
    ensures r.Some? <==> Positive(MinPrice(f)) || UnderFour(MaxPrice(f))
    ensures r.Some? ==> r.value == (MinPrice(f), MaxPrice(f))
  {
    if Positive(MinPrice(f)) || UnderFour(MaxPrice(f)) then Some((MinPrice(f), MaxPrice(f))) else None
  }

  /** `!place.rating`: absent or zero. */
  predicate NoRating(p: Place) {
    p.rating.None? || p.rating.value == 0.0
  }

  /** The active cuisine list: `filters && filters.cuisineTypes && filters.cuisineTypes.length > 0`. */
  function ActiveCuisines(f: Option<PlaceFilters>): seq<string> {
    if f.Some? && f.value.cuisineTypes.Some? then f.value.cuisineTypes.value else []
  }

  /** `cuisineTypes.some(c => placeTypes.includes(c))` */
  predicate SharesType(cuisines: seq<string>, placeTypes: seq<string>) {
    exists c :: c in cuisines && c in placeTypes
  }

  /** The body of the `filter` callback. */
  predicate Passes(f: Option<PlaceFilters>, p: Place) {
    && !(MinRating(f) > 0.0 && (NoRating(p) || p.rating.value < MinRating(f)))
    && !(p.priceLevel.Some? && (Below(p.priceLevel.value, MinPrice(f)) || Above(p.priceLevel.value, MaxPrice(f))))
    && !(|ActiveCuisines(f)| > 0 && !SharesType(ActiveCuisines(f), p.types.GetOr([])))
  }

  /** `results.filter(...)` */
  function Kept(f: Option<PlaceFilters>, ps: seq<Place>): (r: seq<Place>)
    ensures |r| <= |ps|
    ensures forall p :: p in r <==> p in ps && Passes(f, p)
  {
    if ps == [] then []
    else if Passes(f, ps[0]) then [ps[0]] + Kept(f, ps[1..])
    else Kept(f, ps[1..])
  }

  /** The `map` callback: the restaurant record with `|| 0` / `|| []` defaults. */
  function Project(p: Place): (r: Restaurant)
    ensures r.id == p.placeId && r.name == p.name && r.vicinity == p.vicinity
    ensures r.geometry == p.geometry
    ensures r.rating == p.rating.GetOr(0.0)
    ensures r.userRatingsTotal == p.userRatingsTotal.GetOr(0)
    ensures r.priceLevel == p.priceLevel.GetOr(0)
    ensures r.types == p.types.GetOr([])
  {
    Restaurant(p.placeId, p.name, p.vicinity, p.rating.GetOr(0.0), p.userRatingsTotal.GetOr(0),
               p.priceLevel.GetOr(0), p.geometry, p.types.GetOr([]))
  }

  function ProjectAll(ps: seq<Place>): (r: seq<Restaurant>)
    ensures |r| == |ps|
    ensures forall i :: 0 <= i < |ps| ==> r[i] == Project(ps[i])
  {
    if ps == [] then [] else [Project(ps[0])] + ProjectAll(ps[1..])
  }

  /** `data.results.filter(...).map(...)`: never more restaurants than places. */
  function FilterPlaces(f: Option<PlaceFilters>, ps: seq<Place>): (r: seq<Restaurant>)
    ensures |r| <= |ps|
  {
    ProjectAll(Kept(f, ps))
  }

  /** The filter keeps the places that pass in their original order. */
  lemma {:induction false} KeptIsSubseq(f: Option<PlaceFilters>, ps: seq<Place>)
    ensures IsSubseq(Kept(f, ps), ps)
    decreases |ps|
  {
    if ps != [] {
      KeptIsSubseq(f, ps[1..]);
      if Passes(f, ps[0]) {
        var r := [ps[0]] + Kept(f, ps[1..]);
        assert r[0] == ps[0] && r[1..] == Kept(f, ps[1..]);
      } else {
        SubseqDropHead(Kept(f, ps[1..]), ps);
      }
    }
  }

  /** Every returned restaurant comes from a kept place and meets the rating, price
      and cuisine tests the request asked for. */
  lemma FilterPlacesSound(f: Option<PlaceFilters>, ps: seq<Place>, i: nat)
    requires i < |FilterPlaces(f, ps)|
    ensures var r := FilterPlaces(f, ps)[i];
            exists p :: p in ps && Passes(f, p) && r == Project(p)
    ensures var r := FilterPlaces(f, ps)[i];
            MinRating(f) > 0.0 ==> r.rating >= MinRating(f)
    ensures var r := FilterPlaces(f, ps)[i];
            |ActiveCuisines(f)| > 0 ==> SharesType(ActiveCuisines(f), r.types)
  {
    var p := Kept(f, ps)[i];
    assert p in Kept(f, ps);
  }

  /** A kept place that reports a price level keeps it, inside the requested range. */
  lemma FilterPlacesPriceInRange(f: Option<PlaceFilters>, ps: seq<Place>, i: nat)
    requires i < |Kept(f, ps)| && Kept(f, ps)[i].priceLevel.Some?
    ensures var r := FilterPlaces(f, ps)[i];
            && r.priceLevel == Kept(f, ps)[i].priceLevel.value
            && !Below(r.priceLevel, MinPrice(f)) && !Above(r.priceLevel, MaxPrice(f))
  {
    assert Kept(f, ps)[i] in Kept(f, ps);
  }

  /** Every place that passes is returned; no place that fails is. */
  lemma FilterPlacesComplete(f: Option<PlaceFilters>, ps: seq<Place>, p: Place)
    requires p in ps
    ensures Passes(f, p) <==> Project(p) in FilterPlaces(f, ps) && p in Kept(f, ps)
  {
    if Passes(f, p) {
      var k := Kept(f, ps);
      var j :| 0 <= j < |k| && k[j] == p;
      assert FilterPlaces(f, ps)[j] == Project(p);
    }
  }

  /** An empty `priceLevel` array makes the range (+Infinity, -Infinity): every place
      that reports a price level is dropped, and the query still asks Google for
      `minprice=Infinity&maxprice=-Infinity`. */
  lemma EmptyPriceLevelsDropPriced(f: PlaceFilters, p: Place)
    requires f.minPrice.None? && f.maxPrice.None? && f.priceLevel == Some([])
    requires p.priceLevel.Some?
    ensures !Passes(Some(f), p)
    ensures PriceQueryParams(Some(f)) == Some((PosInf, NegInf))
  {
  }

  /** The client's default filters (rating 0, levels 1..4, no cuisines) ask for
      prices 1..4, so a place priced 0 is dropped while one that reports no level
      is kept. */
  lemma DefaultFiltersRange(p: Place)
    ensures var f := Some(PlaceFilters(None, Some(0.0), None, None, Some([1, 2, 3, 4]), Some([])));
            && MinPrice(f) == Finite(1) && MaxPrice(f) == Finite(4)
            && PriceQueryParams(f) == Some((Finite(1), Finite(4)))
            && (p.priceLevel.None? ==> Passes(f, p))
            && (p.priceLevel == Some(0) ==> !Passes(f, p))
  {
    var xs := [1, 2, 3, 4];
    assert MinOf(xs) == Finite(1) by {
      assert 1 in xs;
    }
    assert MaxOf(xs) == Finite(4) by {
      assert 4 in xs;
    }
  }

  /** Without filters the price range is the full scale and no price parameter is sent. */
  lemma NoFiltersRange(p: Place)
    ensures MinRating(None) == 0.0 && MinPrice(None) == Finite(0) && MaxPrice(None) == Finite(4)
    ensures PriceQueryParams(None).None?
    ensures Passes(None, p) <==> p.priceLevel.None? || 0 <= p.priceLevel.value <= 4
  {
  }

  // ---------------------------------------------------------------------------
  // The handler around the filter

  /** `latitude`, `longitude`, `radius` of the request body; absent is None. */
  datatype NearbyRequest = NearbyRequest(latitude: Option<real>, longitude: Option<real>, radius: Option<real>,
                                          filters: Option<PlaceFilters>)

  /** What the Places request produced: a non-2xx reply, or a JSON body. */
  datatype PlacesFetch = HttpFailure | PlacesData(status: string, results: seq<Place>)

  datatype NearbyReply =
    | KeyNotConfigured                    // 500
    | MissingParameters                   // 400
    | UpstreamFailed                      // 500, with the error text
    | ApiError(status: string)            // 500, "Google Places API error: <status>"
    | ZeroResults                         // 200, { results: [], status: 'ZERO_RESULTS' }
    | Results(results: seq<Restaurant>)   // 200, { results }

  /** `!x` for a number: absent or zero. */
  predicate Falsy(x: Option<real>) {
    x.None? || x.value == 0.0
  }

  /** The location check: each of latitude, longitude and radius must be truthy,
      so the equator and the prime meridian are refused. */
  predicate LocationPresent(req: NearbyRequest) {
    !Falsy(req.latitude) && !Falsy(req.longitude) && !Falsy(req.radius)
  }

  /** The reply of `/places/nearby` given whether an API key is configured and what
      the Places request returned. */
  function Nearby(hasKey: bool, req: NearbyRequest, fetched: PlacesFetch): (r: NearbyReply)
    ensures !hasKey ==> r == KeyNotConfigured
    ensures hasKey && !LocationPresent(req) ==> r == MissingParameters
    ensures r.Results? <==> hasKey && LocationPresent(req) && fetched.PlacesData? && fetched.status == "OK"
    ensures r.Results? ==> r.results == FilterPlaces(req.filters, fetched.results)
    ensures r.ZeroResults? <==>
              hasKey && LocationPresent(req) && fetched.PlacesData? && fetched.status == "ZERO_RESULTS"
    ensures r.ApiError? ==> r.status != "OK" && r.status != "ZERO_RESULTS"
    ensures hasKey && LocationPresent(req) && fetched.HttpFailure? ==> r == UpstreamFailed
    ensures (hasKey && LocationPresent(req) && fetched.PlacesData? &&
             fetched.status != "OK" && fetched.status != "ZERO_RESULTS") ==> r == ApiError(fetched.status)
  {
    if !hasKey then KeyNotConfigured
    else if !LocationPresent(req) then MissingParameters
    else match fetched
      case HttpFailure => UpstreamFailed
      case PlacesData(status, results) =>
        if status == "ZERO_RESULTS" then ZeroResults
        else if status != "OK" then ApiError(status)
        else Results(FilterPlaces(req.filters, results))
  }
}
