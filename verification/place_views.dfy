/** The place search (places/views.py, `SearchView.get`). The result is the approved
    places narrowed by one filter per non-empty parameter; beside it the view builds a
    dictionary of labels for the active filters. Ratings are reals; the text of the
    labels (joining, title-casing, truncating the rating) is not modelled, only what
    each label carries. */
module PlaceViews {
  import opened Text

  /** The fields of a place the search reads. `kind` is the place's `type`. */
  datatype Place = Place(
    name: string,
    description: string,
    tags: string,
    address: string,
    averageRating: real,
    priceLevel: string,
    kind: string,
    isApproved: bool)

  /** The query parameters: `q` and the lists `location`, `min_rating` (already read as
      numbers), `price` and `type`. */
  datatype SearchParams = SearchParams(
    query: string,
    locations: seq<string>,
    minRatings: seq<real>,
    prices: seq<string>,
    types: seq<string>)

  /** `price_map`. */
  const PriceNames: map<string, string> :=
    map["economical" := "Budget Friendly", "average" := "Affordable", "premium" := "Costly"]

  /** `location_map`. */
  const LocationNames: map<string, string> :=
    map["peelamedu" := "Peelamedu", "ram_nagar" := "Ram Nagar", "saibaba_colony" := "Saibaba Colony",
        "singanallur" := "Singanallur", "gandhipuram" := "Gandhipuram", "hopes" := "Hope College"]

  /** `m.get(key, key)`: the display name of a key, or the key itself when it has none. */
  function DisplayName(m: map<string, string>, key: string): string {
    if key in m then m[key] else key
  }

  /** The display name of every key, in order. */
  function DisplayNames(m: map<string, string>, keys: seq<string>): (r: seq<string>)
    ensures |r| == |keys|
    ensures forall i :: 0 <= i < |keys| ==> r[i] == DisplayName(m, keys[i])
  {
    seq(|keys|, i requires 0 <= i < |keys| => DisplayName(m, keys[i]))
  }

  /** The smallest of the requested minimum ratings. */
  function Lowest(s: seq<real>): (m: real)
    requires |s| > 0
    ensures m in s
    ensures forall i :: 0 <= i < |s| ==> m <= s[i]
  {
    if |s| == 1 then s[0]
    else
      var rest := Lowest(s[1..]);
      if s[0] <= rest then s[0] else rest
  }

  /** Keeping ratings of at least the smallest threshold is keeping ratings that meet
      at least one of the thresholds. */
  lemma LowestThresholdDecides(rating: real, s: seq<real>)
    requires |s| > 0
    ensures rating >= Lowest(s) <==> exists i :: 0 <= i < |s| && rating >= s[i]
  {
  }

  /** Python's `int()` on a float: drops the fraction, rounding toward zero. */
  function TruncateTowardZero(r: real): (n: int)
    ensures 0.0 <= r ==> n as real <= r < n as real + 1.0 && n >= 0
    ensures r < 0.0 ==> n as real - 1.0 < r <= n as real && n <= 0
  {
    if r >= 0.0 then r.Floor else -((-r).Floor)
  }

  // ---------------------------------------------------------------------------
  // Filters

  /** One `.filter(...)` of the view. */
  datatype Criterion =
    | IsApproved                          // is_approved=True
    | MatchesQuery(query: string)         // name, description or tags icontains query
    | AtAnyOf(areas: seq<string>)         // address icontains one of the areas
    | RatedAtLeast(lowest: real)          // average_rating__gte
    | PricedAs(prices: seq<string>)       // price_level__in
    | OfType(types: seq<string>)          // type__in

  predicate Satisfies(p: Place, c: Criterion) {
    match c
    case IsApproved => p.isApproved
    case MatchesQuery(q) =>
      ContainsIgnoringCase(p.name, q) || ContainsIgnoringCase(p.description, q) ||
      ContainsIgnoringCase(p.tags, q)
    case AtAnyOf(areas) => exists i :: 0 <= i < |areas| && ContainsIgnoringCase(p.address, areas[i])
    case RatedAtLeast(m) => p.averageRating >= m
    case PricedAs(ps) => p.priceLevel in ps
    case OfType(ts) => p.kind in ts
  }

  predicate SatisfiesAll(p: Place, cs: seq<Criterion>) {
    forall i :: 0 <= i < |cs| ==> Satisfies(p, cs[i])
  }

  /** The places of `s`, in order, that pass every criterion of `cs`. */
  function Select(s: seq<Place>, cs: seq<Criterion>): (r: seq<Place>)
    ensures |r| <= |s|
  {
    if s == [] then []
    else (if SatisfiesAll(s[0], cs) then [s[0]] else []) + Select(s[1..], cs)
  }

  /** A place is selected exactly when it is one of `s` and passes every criterion. */
  lemma {:induction false} SelectKeeps(s: seq<Place>, cs: seq<Criterion>, x: Place)
    ensures x in Select(s, cs) <==> x in s && SatisfiesAll(x, cs)
  {
    if s != [] {
      SelectKeeps(s[1..], cs, x);
      assert s == [s[0]] + s[1..];
    }
  }

  /** Filtering twice is filtering once by both lists of criteria. */
  lemma {:induction false} SelectTwice(s: seq<Place>, cs: seq<Criterion>, ds: seq<Criterion>)
    ensures Select(Select(s, cs), ds) == Select(s, cs + ds)
  {
    if s != [] {
      SelectTwice(s[1..], cs, ds);
      assert SatisfiesAll(s[0], cs + ds) <==> SatisfiesAll(s[0], cs) && SatisfiesAll(s[0], ds) by {
        assert forall i :: 0 <= i < |cs| ==> (cs + ds)[i] == cs[i];
        assert forall i :: 0 <= i < |ds| ==> (cs + ds)[|cs| + i] == ds[i];
      }
      if SatisfiesAll(s[0], cs) {
        assert Select(s, cs) == [s[0]] + Select(s[1..], cs);
        assert Select(s, cs)[1..] == Select(s[1..], cs);
      } else {
        assert Select(s, cs) == Select(s[1..], cs);
      }
    }
  }

  /** One optional filter step: narrowing by `c` when its parameter was given selects
      by the criteria so far followed by `c`. */
  lemma NarrowBy(s: seq<Place>, cs: seq<Criterion>, given: bool, c: Criterion)
    ensures Select(s, cs + Optional(given, c)) ==
      if given then Select(Select(s, cs), [c]) else Select(s, cs)
  {
    if given {
      SelectTwice(s, cs, [c]);
    } else {
      assert cs + [] == cs;
    }
  }

  /** Two lists of criteria that every place passes alike select alike. */
  lemma {:induction false} SelectAlike(s: seq<Place>, cs: seq<Criterion>, ds: seq<Criterion>)
    requires forall x :: SatisfiesAll(x, cs) == SatisfiesAll(x, ds)
    ensures Select(s, cs) == Select(s, ds)
  {
    if s != [] {
      SelectAlike(s[1..], cs, ds);
    }
  }

  /** The order in which filters are applied does not change the result. */
  lemma FilterOrderIrrelevant(s: seq<Place>, cs: seq<Criterion>, ds: seq<Criterion>)
    ensures Select(Select(s, cs), ds) == Select(Select(s, ds), cs)
  {
    SelectTwice(s, cs, ds);
    SelectTwice(s, ds, cs);
    forall x ensures SatisfiesAll(x, cs + ds) == SatisfiesAll(x, ds + cs) {
      AllOfConcat(x, cs, ds);
      AllOfConcat(x, ds, cs);
    }
    SelectAlike(s, cs + ds, ds + cs);
  }

  /** A further filter only narrows: everything it keeps was there before it. */
  lemma FilterOnlyNarrows(s: seq<Place>, cs: seq<Criterion>, ds: seq<Criterion>)
    ensures |Select(s, cs + ds)| <= |Select(s, cs)|
    ensures forall x :: x in Select(s, cs + ds) ==> x in Select(s, cs)
  {
    SelectTwice(s, cs, ds);
    forall x | x in Select(s, cs + ds) ensures x in Select(s, cs) {
      SelectKeeps(Select(s, cs), ds, x);
    }
  }

  /** An empty location value maps to the empty area, which every address contains:
      the location filter then keeps every place. */
  lemma {:induction false} EmptyLocationKeepsEveryPlace(s: seq<Place>, locations: seq<string>)
    requires exists i :: 0 <= i < |locations| && locations[i] == ""
    ensures Select(s, [AtAnyOf(DisplayNames(LocationNames, locations))]) == s
  {
    if s != [] {
      var i :| 0 <= i < |locations| && locations[i] == "";
      assert Lower("") == "";
      EmptyOccursEverywhere(Lower(s[0].address));
      EmptyLocationKeepsEveryPlace(s[1..], locations);
      assert s == [s[0]] + s[1..];
    }
  }

  // ---------------------------------------------------------------------------
  // The view

  /** `[c]` when the parameter behind `c` was given, nothing otherwise. */
  function Optional(given: bool, c: Criterion): seq<Criterion> {
    if given then [c] else []
  }

  /** The filters the view applies for the given parameters, in the view's order. */
  function Criteria(params: SearchParams): seq<Criterion> {
    [IsApproved]
    + Optional(params.query != "", MatchesQuery(params.query))
    + Optional(|params.locations| > 0, AtAnyOf(DisplayNames(LocationNames, params.locations)))
    + Optional(|params.minRatings| > 0, RatedAtLeast(if |params.minRatings| > 0 then Lowest(params.minRatings) else 0.0))
    + Optional(|params.prices| > 0, PricedAs(params.prices))
    + Optional(|params.types| > 0, OfType(params.types))
  }

  /** The places the search returns. */
  function SearchResults(places: seq<Place>, params: SearchParams): seq<Place> {
    Select(places, Criteria(params))
  }

  /** A place is returned exactly when it is approved and passes the filter of every
      non-empty parameter: the query occurs in its name, description or tags; one of the
      requested locations (through `location_map`) occurs in its address; its rating
      meets one of the minimum ratings; its price level and its type are among those
      requested. Letters compare ignoring case. */
  lemma {:induction false} InSearchResults(places: seq<Place>, params: SearchParams, x: Place)
    ensures x in SearchResults(places, params) <==>
      && x in places
      && x.isApproved
      && (params.query != "" ==>
            ContainsIgnoringCase(x.name, params.query) || ContainsIgnoringCase(x.description, params.query) ||
            ContainsIgnoringCase(x.tags, params.query))
      && (|params.locations| > 0 ==>
            exists i :: 0 <= i < |params.locations| &&
              ContainsIgnoringCase(x.address, DisplayName(LocationNames, params.locations[i])))
      && (|params.minRatings| > 0 ==>
            exists i :: 0 <= i < |params.minRatings| && x.averageRating >= params.minRatings[i])
      && (|params.prices| > 0 ==> x.priceLevel in params.prices)
      && (|params.types| > 0 ==> x.kind in params.types)
  {
    SelectKeeps(places, Criteria(params), x);
    CriteriaOneByOne(x, params);
    if |params.locations| > 0 {
      AreaNamesTranslate(x, params.locations);
    }
    if |params.minRatings| > 0 {
      LowestThresholdDecides(x.averageRating, params.minRatings);
    }
  }

  /** Passing the view's filters is passing each filter of a given parameter. */
  lemma CriteriaOneByOne(x: Place, params: SearchParams)
    ensures SatisfiesAll(x, Criteria(params)) <==>
      && x.isApproved
      && (params.query != "" ==> Satisfies(x, MatchesQuery(params.query)))
      && (|params.locations| > 0 ==> Satisfies(x, AtAnyOf(DisplayNames(LocationNames, params.locations))))
      && (|params.minRatings| > 0 ==> x.averageRating >= Lowest(params.minRatings))
      && (|params.prices| > 0 ==> x.priceLevel in params.prices)
      && (|params.types| > 0 ==> x.kind in params.types)
  {
    var q := Optional(params.query != "", MatchesQuery(params.query));
    var l := Optional(|params.locations| > 0, AtAnyOf(DisplayNames(LocationNames, params.locations)));
    var m := Optional(|params.minRatings| > 0,
      RatedAtLeast(if |params.minRatings| > 0 then Lowest(params.minRatings) else 0.0));
    var p := Optional(|params.prices| > 0, PricedAs(params.prices));
    var t := Optional(|params.types| > 0, OfType(params.types));
    AllOfConcat(x, [IsApproved], q);
    AllOfConcat(x, [IsApproved] + q, l);
    AllOfConcat(x, [IsApproved] + q + l, m);
    AllOfConcat(x, [IsApproved] + q + l + m, p);
    AllOfConcat(x, [IsApproved] + q + l + m + p, t);
    AllOfOne(x, IsApproved);
    AllOfOptional(x, params.query != "", MatchesQuery(params.query));
    AllOfOptional(x, |params.locations| > 0, AtAnyOf(DisplayNames(LocationNames, params.locations)));
    AllOfOptional(x, |params.minRatings| > 0,
      RatedAtLeast(if |params.minRatings| > 0 then Lowest(params.minRatings) else 0.0));
    AllOfOptional(x, |params.prices| > 0, PricedAs(params.prices));
    AllOfOptional(x, |params.types| > 0, OfType(params.types));
  }

  /** An address contains one of the display names exactly when it contains the
      display name of one of the requested locations. */
  lemma AreaNamesTranslate(x: Place, locations: seq<string>)
    ensures Satisfies(x, AtAnyOf(DisplayNames(LocationNames, locations))) <==>
      exists i :: 0 <= i < |locations| && ContainsIgnoringCase(x.address, DisplayName(LocationNames, locations[i]))
  {
  }

  /** Passing an optional criterion is passing it whenever its parameter was given. */
  lemma AllOfOptional(x: Place, given: bool, c: Criterion)
    ensures SatisfiesAll(x, Optional(given, c)) <==> (given ==> Satisfies(x, c))
  {
    if given { AllOfOne(x, c); }
  }

  /** Passing a one-element list of criteria is passing its criterion. */
  lemma AllOfOne(x: Place, c: Criterion)
    ensures SatisfiesAll(x, [c]) <==> Satisfies(x, c)
  {
    assert [c][0] == c;
  }

  /** Passing a concatenation of criteria is passing both parts. */
  lemma AllOfConcat(x: Place, cs: seq<Criterion>, ds: seq<Criterion>)
    ensures SatisfiesAll(x, cs + ds) <==> SatisfiesAll(x, cs) && SatisfiesAll(x, ds)
  {
    assert forall i :: 0 <= i < |cs| ==> (cs + ds)[i] == cs[i];
    assert forall i :: 0 <= i < |ds| ==> (cs + ds)[|cs| + i] == ds[i];
  }

  /** Every result is one of the approved places, and with no parameters the results
      are exactly the approved places, in their order. */
  lemma ResultsAreApprovedPlaces(places: seq<Place>, params: SearchParams)
    ensures forall x :: x in SearchResults(places, params) ==> x in places && x.isApproved
    ensures params == SearchParams("", [], [], [], []) ==>
      SearchResults(places, params) == Select(places, [IsApproved])
  {
    forall x | x in SearchResults(places, params) ensures x in places && x.isApproved {
      InSearchResults(places, params, x);
    }
  }

  /** The keys of `active_filters`. */
  datatype FilterKey = QueryFilter | LocationFilter | RatingFilter | PriceFilter | TypeFilter

  /** What each label of `active_filters` shows. */
  datatype FilterLabel =
    | SearchLabel(query: string)          // Search: "<q>"
    | LocationLabel(areas: seq<string>)   // Location: <names>
    | RatingLabel(stars: int)             // <stars>+ Stars
    | BudgetLabel(tiers: seq<string>)     // Budget: <names>
    | TypeLabel(types: seq<string>)       // Type: <types>

  /** The areas of `location_query`, one alternative per requested location, each the
      location's display name (or the location itself when it has none). */
  method LocationQuery(locations: seq<string>) returns (areas: seq<string>)
    ensures |areas| == |locations|
    ensures forall i :: 0 <= i < |locations| ==>
      (locations[i] in LocationNames ==> areas[i] == LocationNames[locations[i]]) &&
      (locations[i] !in LocationNames ==> areas[i] == locations[i])
    ensures areas == DisplayNames(LocationNames, locations)
  {
    areas := [];
    for i := 0 to |locations|
      invariant |areas| == i
      invariant forall j :: 0 <= j < i ==> areas[j] == DisplayName(LocationNames, locations[j])
    {
      areas := areas + [DisplayName(LocationNames, locations[i])];
    }
  }

  /** `SearchView.get`: narrows the approved places filter by filter and records a label
      for each parameter that was given. */
  method Search(places: seq<Place>, params: SearchParams)
    returns (results: seq<Place>, activeFilters: map<FilterKey, FilterLabel>)
    ensures results == SearchResults(places, params)
    ensures QueryFilter in activeFilters <==> params.query != ""
    ensures LocationFilter in activeFilters <==> |params.locations| > 0
    ensures RatingFilter in activeFilters <==> |params.minRatings| > 0
    ensures PriceFilter in activeFilters <==> |params.prices| > 0
    ensures TypeFilter in activeFilters <==> |params.types| > 0
    ensures QueryFilter in activeFilters ==> activeFilters[QueryFilter] == SearchLabel(params.query)
    ensures LocationFilter in activeFilters ==>
      activeFilters[LocationFilter] == LocationLabel(DisplayNames(LocationNames, params.locations))
    ensures RatingFilter in activeFilters ==>
      activeFilters[RatingFilter] == RatingLabel(TruncateTowardZero(Lowest(params.minRatings)))
    ensures PriceFilter in activeFilters ==>
      activeFilters[PriceFilter] == BudgetLabel(DisplayNames(PriceNames, params.prices))
    ensures TypeFilter in activeFilters ==> activeFilters[TypeFilter] == TypeLabel(params.types)
  {
    ghost var applied := [IsApproved];
    results := Select(places, [IsApproved]);
    activeFilters := map[];

    NarrowBy(places, applied, params.query != "", MatchesQuery(params.query));
    if params.query != "" {
      results := Select(results, [MatchesQuery(params.query)]);
      activeFilters := activeFilters[QueryFilter := SearchLabel(params.query)];
    }
    applied := applied + Optional(params.query != "", MatchesQuery(params.query));

    ghost var areas := DisplayNames(LocationNames, params.locations);
    NarrowBy(places, applied, |params.locations| > 0, AtAnyOf(areas));
    if |params.locations| > 0 {
      var locationQuery := LocationQuery(params.locations);
      results := Select(results, [AtAnyOf(locationQuery)]);
      var locTags := DisplayNames(LocationNames, params.locations);
      activeFilters := activeFilters[LocationFilter := LocationLabel(locTags)];
    }
    applied := applied + Optional(|params.locations| > 0, AtAnyOf(areas));

    var lowest := if |params.minRatings| > 0 then Lowest(params.minRatings) else 0.0;
    NarrowBy(places, applied, |params.minRatings| > 0, RatedAtLeast(lowest));
    if |params.minRatings| > 0 {
      results := Select(results, [RatedAtLeast(lowest)]);
      activeFilters := activeFilters[RatingFilter := RatingLabel(TruncateTowardZero(lowest))];
    }
    applied := applied + Optional(|params.minRatings| > 0, RatedAtLeast(lowest));

    NarrowBy(places, applied, |params.prices| > 0, PricedAs(params.prices));
    if |params.prices| > 0 {
      results := Select(results, [PricedAs(params.prices)]);
      activeFilters := activeFilters[PriceFilter := BudgetLabel(DisplayNames(PriceNames, params.prices))];
    }
    applied := applied + Optional(|params.prices| > 0, PricedAs(params.prices));

    NarrowBy(places, applied, |params.types| > 0, OfType(params.types));
    if |params.types| > 0 {
      results := Select(results, [OfType(params.types)]);
      activeFilters := activeFilters[TypeFilter := TypeLabel(params.types)];
    }
    applied := applied + Optional(|params.types| > 0, OfType(params.types));
    assert applied == Criteria(params);
  }
}
