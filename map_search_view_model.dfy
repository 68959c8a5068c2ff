/** `MapSearchViewModel`: the search screen's state. The map-search and
    directions services are outside the model; each call receives the
    service's answer as an outcome parameter, and returns the request it
    would have sent. The recent-search history lives in `UserDefaults`. */
module MapSearch {
  import opened Support
  import opened Foundation
  import opened Storage
  import opened Places

  const RecentKey: string := "drfind.recentSearches"

  /** The history keeps at most this many terms. */
  const MaxRecent: nat := 10

  /** The specialty value that means "no specialty". */
  const AllSpecialties: string := "All"

  /** The query used when the search field is empty. */
  const DefaultQuery: string := "Doctors"

  datatype Location = Location(coordinate: Coordinate)

  datatype Span = Span(latitudeDelta: Float64, longitudeDelta: Float64)

  datatype Region = Region(center: Coordinate, span: Span)

  /** The span of the visible map region. */
  const ViewSpan: Span := Span(Finite(0.05), Finite(0.05))

  /** The span of the region a search covers. */
  const SearchSpan: Span := Span(Finite(0.1), Finite(0.1))

  datatype SearchRequest = SearchRequest(naturalLanguageQuery: string, region: Region)

  /** What `MKLocalSearch.start()` gives back. */
  datatype SearchOutcome = Found(mapItems: seq<MapItem>) | SearchFailed

  datatype Polyline = Polyline(points: seq<Coordinate>)

  datatype Route = Route(polyline: Polyline)

  datatype TransportType = Automobile | Walking | Transit

  datatype DirectionsRequest = DirectionsRequest(source: Coordinate, destination: Coordinate, transportType: TransportType)

  /** What `MKDirections.calculate()` gives back. */
  datatype DirectionsOutcome = Routes(routes: seq<Route>) | DirectionsFailed

  // ---------------------------------------------------------------------
  // Query composition

  function BaseQuery(query: string): (r: string)
    ensures r != ""
    ensures query == "" ==> r == DefaultQuery
    ensures query != "" ==> r == query
  {
    if query == "" then DefaultQuery else query
  }

  /** The text sent to the search service: the query (or "Doctors" when the
      field is empty), followed by a space and the specialty unless the
      specialty is "All". */
  function ComposeQuery(query: string, specialty: string): (r: string)
    ensures r != ""
    ensures BaseQuery(query) <= r
    ensures r == BaseQuery(query) <==> specialty == AllSpecialties
    ensures specialty != AllSpecialties ==> r[|BaseQuery(query)|..] == " " + specialty
  {
    var base := BaseQuery(query);
    if specialty == AllSpecialties then base
    else
      var r := base + " " + specialty;
      assert r[..|base|] == base;
      assert r[|base|..] == " " + specialty;
      r
  }

  // ---------------------------------------------------------------------
  // Recent-search history

  /** The `recentSearches` getter: the stored string array, or [] when the
      key is missing or holds another kind of value. */
  function RecentFrom(entries: map<string, StoredValue>): (r: seq<string>)
    ensures RecentKey in entries && entries[RecentKey].StringArrayValue? ==> r == entries[RecentKey].strings
    ensures RecentKey !in entries || !entries[RecentKey].StringArrayValue? ==> r == []
  {
    StringArrayFor(entries, RecentKey).GetOr([])
  }

  /** `arr.remove(at: arr.firstIndex(of: term))` when the term is there. */
  function WithoutFirst(h: seq<string>, term: string): seq<string> {
    match FirstIndexOf(h, term)
    case Some(i) => RemoveAt(h, i)
    case None => h
  }

  /** The history after `saveRecentSearch(term)`: the term moved (or added)
      to the front, cut to the first ten. */
  function SavedHistory(h: seq<string>, term: string): seq<string> {
    var front := [term] + WithoutFirst(h, term);
    if |front| <= MaxRecent then front else front[..MaxRecent]
  }

  /** The history after `removeRecentSearch(term)`. */
  function WithoutTerm(h: seq<string>, term: string): seq<string> {
    Filter(h, t => t != term)
  }

  /** Writing the history leaves every other key of storage as it was. */
  lemma HistoryWriteKeepsOtherKeys(entries: map<string, StoredValue>, v: StoredValue)
    ensures entries[RecentKey := v] - {RecentKey} == entries - {RecentKey}
    ensures RecentFrom(entries[RecentKey := v]) == if v.StringArrayValue? then v.strings else []
  {
  }

  /** What every history written by the app satisfies. */
  predicate WellFormedHistory(h: seq<string>) {
    Distinct(h) && |h| <= MaxRecent
  }

  /** `WithoutFirst` removes the first occurrence only, keeping the rest in order. */
  lemma WithoutFirstSpec(h: seq<string>, term: string)
    ensures term !in h ==> WithoutFirst(h, term) == h
    ensures term in h ==> |WithoutFirst(h, term)| == |h| - 1
    ensures term in h ==> exists i :: 0 <= i < |h| && h[i] == term && term !in h[..i]
                                     && WithoutFirst(h, term) == h[..i] + h[i + 1..]
    ensures Distinct(h) ==> term !in WithoutFirst(h, term) && Distinct(WithoutFirst(h, term))
  {
    match FirstIndexOf(h, term)
    case None =>
    case Some(i) =>
      var r := RemoveAt(h, i);
      if Distinct(h) {
        forall a, b | 0 <= a < b < |r| ensures r[a] != r[b] {
          var a', b' := if a < i then a else a + 1, if b < i then b else b + 1;
          assert r[a] == h[a'] && r[b] == h[b'];
        }
        forall k | 0 <= k < |r| ensures r[k] != term {
          var k' := if k < i then k else k + 1;
          assert r[k] == h[k'];
        }
      }
  }

  /** After saving, the term is first, the history holds at most ten terms,
      the other terms follow in their previous order with only the oldest
      dropped when full, and a history without repeats stays without
      repeats, so the term occurs exactly once. */
  lemma {:induction false} SavedHistorySpec(h: seq<string>, term: string)
    ensures |SavedHistory(h, term)| >= 1 && SavedHistory(h, term)[0] == term
    ensures |SavedHistory(h, term)| <= MaxRecent
    ensures SavedHistory(h, term)[1..] <= WithoutFirst(h, term)
    ensures |SavedHistory(h, term)| == if |WithoutFirst(h, term)| < MaxRecent then |WithoutFirst(h, term)| + 1 else MaxRecent
    ensures Distinct(h) ==> term !in SavedHistory(h, term)[1..] && Distinct(SavedHistory(h, term))
  {
    var rest := WithoutFirst(h, term);
    var front := [term] + rest;
    var r := SavedHistory(h, term);
    assert front[1..] == rest;
    assert r[1..] <= rest;
    if Distinct(h) {
      WithoutFirstSpec(h, term);
      assert term !in r[1..];
      forall a, b | 0 <= a < b < |r| ensures r[a] != r[b] {
        if a == 0 {
          assert r[b] in r[1..];
        } else {
          assert r[a] == rest[a - 1] && r[b] == rest[b - 1];
        }
      }
    }
  }

  /** Saving preserves the history invariant. */
  lemma SavePreservesWellFormed(h: seq<string>, term: string)
    requires WellFormedHistory(h)
    ensures WellFormedHistory(SavedHistory(h, term))
  {
    SavedHistorySpec(h, term);
  }

  /** Saving the same term twice in a row is the same as saving it once. */
  lemma {:induction false} SaveIdempotent(h: seq<string>, term: string)
    ensures SavedHistory(SavedHistory(h, term), term) == SavedHistory(h, term)
  {
    var r := SavedHistory(h, term);
    SavedHistorySpec(h, term);
    assert FirstIndexOf(r, term) == Some(0);
    assert WithoutFirst(r, term) == r[1..];
    assert [term] + r[1..] == r;
  }

  /** Re-searching a term that is already in the history moves it to the front. */
  lemma SaveExistingTermExample()
    ensures SavedHistory(["b", "a"], "a") == ["a", "b"]
  {
    assert FirstIndexOf(["b", "a"], "a") == Some(1);
  }

  /** A new term on a full history goes in front and the oldest term is
      dropped. */
  lemma SaveOnFullHistory(h: seq<string>, term: string)
    requires |h| == MaxRecent && term !in h
    ensures SavedHistory(h, term) == [term] + h[..MaxRecent - 1]
  {
    assert ([term] + h)[..MaxRecent] == [term] + h[..MaxRecent - 1];
  }

  /** `removeRecentSearch(term)` removes every occurrence of the term and
      nothing else, keeping the order; an absent term changes nothing. */
  lemma WithoutTermSpec(h: seq<string>, term: string)
    ensures term !in WithoutTerm(h, term)
    ensures forall t :: t in h && t != term ==> t in WithoutTerm(h, term)
    ensures IsSubsequence(WithoutTerm(h, term), h)
    ensures term !in h ==> WithoutTerm(h, term) == h
  {
  }

  /** Removing a term from a concatenation removes it from each part. */
  lemma {:induction false} WithoutTermAppend(a: seq<string>, b: seq<string>, term: string)
    ensures WithoutTerm(a + b, term) == WithoutTerm(a, term) + WithoutTerm(b, term)
    decreases |a|
  {
    if a == [] {
      assert a + b == b;
    } else {
      assert (a + b)[0] == a[0];
      assert (a + b)[1..] == a[1..] + b;
      WithoutTermAppend(a[1..], b, term);
    }
  }

  /** Removing a term from a history with a known first term. */
  lemma WithoutTermCons(x: string, rest: seq<string>, term: string)
    ensures WithoutTerm([x] + rest, term) == (if x == term then [] else [x]) + WithoutTerm(rest, term)
  {
    assert ([x] + rest)[0] == x;
    assert ([x] + rest)[1..] == rest;
  }

  /** Removing a term preserves the history invariant. */
  lemma {:induction false} WithoutTermPreservesWellFormed(h: seq<string>, term: string)
    requires WellFormedHistory(h)
    ensures WellFormedHistory(WithoutTerm(h, term))
    decreases |h|
  {
    if h != [] {
      assert Distinct(h[1..]);
      WithoutTermPreservesWellFormed(h[1..], term);
      var rest := WithoutTerm(h[1..], term);
      assert h[0] !in h[1..];
      if h[0] != term {
        assert WithoutTerm(h, term) == [h[0]] + rest;
        assert h[0] !in rest;
      } else {
        assert WithoutTerm(h, term) == rest;
      }
    }
  }

  // ---------------------------------------------------------------------
  // The view model

  class MapSearchViewModel {
    var query: string
    var specialty: string
    var places: seq<Place>
    var selectedPlace: Option<Place>
    var region: Region
    var route: Option<Polyline>
    const defaults: UserDefaults

    /** The `recentSearches` property, backed by storage. */
    function RecentSearches(): seq<string>
      reads defaults
    {
      RecentFrom(defaults.entries)
    }

    constructor (defaults: UserDefaults)
      ensures this.defaults == defaults
      ensures query == "" && specialty == AllSpecialties && places == [] && selectedPlace == None && route == None
      ensures region == Region(Coordinate(Finite(0.0), Finite(0.0)), ViewSpan)
    {
      this.defaults := defaults;
      query, specialty, places, selectedPlace, route := "", AllSpecialties, [], None, None;
      region := Region(Coordinate(Finite(0.0), Finite(0.0)), ViewSpan);
    }

    /** The `recentSearches` setter. */
    method SetRecentSearches(terms: seq<string>)
      modifies defaults
      ensures defaults.entries == old(defaults.entries)[RecentKey := StringArrayValue(terms)]
      ensures RecentSearches() == terms
    {
      defaults.Set(RecentKey, StringArrayValue(terms));
    }

    /** `saveRecentSearch(_:)` */
    method SaveRecentSearch(term: string)
      modifies defaults
      ensures defaults.entries == old(defaults.entries)[RecentKey := StringArrayValue(SavedHistory(old(RecentSearches()), term))]
      ensures RecentSearches() == SavedHistory(old(RecentSearches()), term)
    {
      var arr := RecentSearches();
      var idx := FirstIndexOf(arr, term);
      if idx.Some? {
        arr := RemoveAt(arr, idx.value);
      }
      arr := [term] + arr;
      SetRecentSearches(if |arr| <= MaxRecent then arr else arr[..MaxRecent]);
    }

    /** `removeRecentSearch(_:)` */
    method RemoveRecentSearch(term: string)
      modifies defaults
      ensures defaults.entries == old(defaults.entries)[RecentKey := StringArrayValue(WithoutTerm(old(RecentSearches()), term))]
      ensures RecentSearches() == WithoutTerm(old(RecentSearches()), term)
    {
      var arr := RecentSearches();
      arr := Filter(arr, t => t != term);
      SetRecentSearches(arr);
    }

    /** `searchNearby(from:)`. Without a location nothing happens. Otherwise
        the composed query is sent for the region around the location; on
        success the results replace `places` and the query is saved to the
        history, on failure `places` is emptied and the history is left
        alone. */
    method SearchNearby(location: Option<Location>, outcome: SearchOutcome, describe: Float64 -> string)
      returns (request: Option<SearchRequest>)
      modifies this`places, defaults
      ensures location.None? ==> request.None? && places == old(places) && defaults.entries == old(defaults.entries)
      ensures location.Some? ==>
                request == Some(SearchRequest(ComposeQuery(query, specialty), Region(location.value.coordinate, SearchSpan)))
      ensures location.Some? && outcome.Found? ==>
                && places == PlacesOf(outcome.mapItems, describe)
                && defaults.entries == old(defaults.entries)[RecentKey := StringArrayValue(SavedHistory(old(RecentSearches()), ComposeQuery(query, specialty)))]
      ensures location.Some? && outcome.SearchFailed? ==> places == [] && defaults.entries == old(defaults.entries)
    {
      if location.None? {
        return None;
      }
      var composed := ComposeQuery(query, specialty);
      request := Some(SearchRequest(composed, Region(location.value.coordinate, SearchSpan)));
      match outcome
      case Found(items) =>
        places := PlacesOf(items, describe);
        SaveRecentSearch(composed);
      case SearchFailed =>
        places := [];
    }

    /** `searchNearby(at:)`: a search from the given coordinate. */
    method SearchNearbyAt(coordinate: Coordinate, outcome: SearchOutcome, describe: Float64 -> string)
      returns (request: Option<SearchRequest>)
      modifies this`places, defaults
      ensures request == Some(SearchRequest(ComposeQuery(query, specialty), Region(coordinate, SearchSpan)))
      ensures outcome.Found? ==>
                && places == PlacesOf(outcome.mapItems, describe)
                && defaults.entries == old(defaults.entries)[RecentKey := StringArrayValue(SavedHistory(old(RecentSearches()), ComposeQuery(query, specialty)))]
      ensures outcome.SearchFailed? ==> places == [] && defaults.entries == old(defaults.entries)
    {
      request := SearchNearby(Some(Location(coordinate)), outcome, describe);
    }

    /** `updateRegionForUserLocation(_:)` */
    method UpdateRegionForUserLocation(location: Option<Location>)
      modifies this`region
      ensures location.None? ==> region == old(region)
      ensures location.Some? ==> region == Region(location.value.coordinate, ViewSpan)
    {
      if location.Some? {
        region := Region(location.value.coordinate, ViewSpan);
      }
    }

    /** `setRegion(to:span:)` */
    method SetRegion(coordinate: Coordinate, span: Span := ViewSpan)
      modifies this`region
      ensures region == Region(coordinate, span)
    {
      region := Region(coordinate, span);
    }

    /** `clearRoute()` */
    method ClearRoute()
      modifies this`route
      ensures route.None?
    {
      route := None;
    }

    /** `buildRoute(from:to:)`. Without both ends nothing happens. Otherwise a
        driving route is requested; the first route returned replaces the
        current one, and a failure or an empty answer leaves it as it was. */
    method BuildRoute(userLocation: Option<Location>, place: Option<Place>, outcome: DirectionsOutcome)
      returns (request: Option<DirectionsRequest>)
      modifies this`route
      ensures userLocation.None? || place.None? ==> request.None? && route == old(route)
      ensures userLocation.Some? && place.Some? ==>
                request == Some(DirectionsRequest(userLocation.value.coordinate, place.value.coordinate, Automobile))
      ensures request.Some? && outcome.Routes? && outcome.routes != [] ==> route == Some(outcome.routes[0].polyline)
      ensures outcome.DirectionsFailed? || outcome == Routes([]) ==> route == old(route)
    {
      if userLocation.None? || place.None? {
        return None;
      }
      request := Some(DirectionsRequest(userLocation.value.coordinate, place.value.coordinate, Automobile));
      match outcome
      case Routes(routes) =>
        if routes != [] {
          route := Some(routes[0].polyline);
        }
      case DirectionsFailed =>
    }
  }
}
