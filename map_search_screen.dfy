/** The map search screen (`MapSearchView`): which lists and banners are
    shown, the specialty filter over the results, tapping and deleting
    recent searches, and the automatic search on a location update. */
module MapSearchScreen {
  import opened Support
  import opened Foundation
  import opened Places
  import opened MapSearch
  import opened Storage

  /** `CLAuthorizationStatus` */
  datatype Authorization = NotDetermined | Restricted | Denied | AuthorizedAlways | AuthorizedWhenInUse

  predicate Authorized(auth: Authorization) {
    auth == AuthorizedWhenInUse || auth == AuthorizedAlways
  }

  // ---------------------------------------------------------------------
  // Visibility guards

  /** The results list appears under the specialty chips. */
  predicate ShowsResultsList(specialty: string, places: seq<Place>) {
    specialty != AllSpecialties && places != []
  }

  /** The recent-search list appears under the focused search field. */
  predicate ShowsRecentList(searchFocused: bool, history: seq<string>) {
    searchFocused && history != []
  }

  predicate ShowsPermissionBanner(auth: Authorization) {
    !Authorized(auth)
  }

  /** A location update starts a search only when there are no results yet,
      a location is known and location use is authorised. */
  predicate ShouldAutoSearch(places: seq<Place>, location: Option<Location>, auth: Authorization) {
    places == [] && location.Some? && Authorized(auth)
  }

  // ---------------------------------------------------------------------
  // The results list

  /** A place matches a specialty when the specialty is "All", or when its
      lower-cased category, name or address line contains the lower-cased
      specialty; a missing category does not match. */
  predicate MatchesSpecialty(p: Place, specialty: string) {
    || specialty == AllSpecialties
    || (p.category.Some? && Contains(Lower(p.category.value), Lower(specialty)))
    || Contains(Lower(p.name), Lower(specialty))
    || Contains(Lower(p.subtitle), Lower(specialty))
  }

  /** The places listed in `resultsList`. */
  function ResultsFiltered(places: seq<Place>, specialty: string): seq<Place> {
    Filter(places, p => MatchesSpecialty(p, specialty))
  }

  /** "All" keeps every place; otherwise a place is kept, as often as it
      occurs, exactly when it matches; a missing category is no match; the
      order is kept. */
  lemma ResultsFilteredSpec(places: seq<Place>, specialty: string)
    ensures specialty == AllSpecialties ==> ResultsFiltered(places, specialty) == places
    ensures forall p :: p in ResultsFiltered(places, specialty) <==> p in places && MatchesSpecialty(p, specialty)
    ensures specialty != AllSpecialties ==>
              forall p :: p in places && p.category.None? ==>
                (p in ResultsFiltered(places, specialty) <==>
                   Contains(Lower(p.name), Lower(specialty)) || Contains(Lower(p.subtitle), Lower(specialty)))
    ensures forall p :: p in places ==>
              multiset(ResultsFiltered(places, specialty))[p] == if MatchesSpecialty(p, specialty) then multiset(places)[p] else 0
    ensures IsSubsequence(ResultsFiltered(places, specialty), places)
  {
    FilterCounts(places, p => MatchesSpecialty(p, specialty));
  }

  /** The permission banner is up in exactly the three states where
      location use is not granted. */
  lemma BannerWhenNotAuthorized(auth: Authorization)
    ensures ShowsPermissionBanner(auth) <==> auth == NotDetermined || auth == Restricted || auth == Denied
  {
  }

  /** The results list is only shown for a real specialty, so what it shows
      is exactly the places whose category, name or address line mentions
      that specialty, each as often as it was found, in their search order. */
  lemma ShownResultsMatchSpecialty(specialty: string, places: seq<Place>)
    requires ShowsResultsList(specialty, places)
    ensures forall p :: p in ResultsFiltered(places, specialty) <==>
              && p in places
              && (|| (p.category.Some? && Contains(Lower(p.category.value), Lower(specialty)))
                  || Contains(Lower(p.name), Lower(specialty))
                  || Contains(Lower(p.subtitle), Lower(specialty)))
    ensures forall p :: p in places ==>
              multiset(ResultsFiltered(places, specialty))[p] ==
                if || (p.category.Some? && Contains(Lower(p.category.value), Lower(specialty)))
                   || Contains(Lower(p.name), Lower(specialty))
                   || Contains(Lower(p.subtitle), Lower(specialty))
                then multiset(places)[p] else 0
    ensures IsSubsequence(ResultsFiltered(places, specialty), places)
  {
    ResultsFilteredSpec(places, specialty);
  }

  /** The recent list appears only while the field is focused and storage
      holds a non-empty list of strings under the history key. */
  lemma RecentListNeedsStoredHistory(searchFocused: bool, entries: map<string, StoredValue>)
    ensures ShowsRecentList(searchFocused, RecentFrom(entries)) <==>
              && searchFocused
              && RecentKey in entries
              && entries[RecentKey].StringArrayValue?
              && entries[RecentKey].strings != []
  {
  }

  /** An automatic search never runs while the permission banner is up, and
      never while results (and so the results list) are on screen. */
  lemma AutoSearchGuard(specialty: string, places: seq<Place>, location: Option<Location>, auth: Authorization)
    requires ShouldAutoSearch(places, location, auth)
    ensures !ShowsPermissionBanner(auth)
    ensures !ShowsResultsList(specialty, places)
    ensures auth == AuthorizedWhenInUse || auth == AuthorizedAlways
  {
  }

  /** Tapping a row of the results list: the field loses focus, the map
      centres on the place, and a search runs from the place's coordinate;
      on success the results replace `places` and the composed query is
      saved to the history, on failure `places` is emptied and storage is
      left alone. Nothing else in the view model changes. */
  method SelectResult(vm: MapSearchViewModel, place: Place, outcome: SearchOutcome, describe: Float64 -> string)
    returns (searchFocused: bool, request: Option<SearchRequest>)
    modifies vm`region, vm`places, vm.defaults
    ensures !searchFocused
    ensures vm.region == Region(place.coordinate, ViewSpan)
    ensures request == Some(SearchRequest(ComposeQuery(vm.query, vm.specialty), Region(place.coordinate, SearchSpan)))
    ensures outcome.Found? ==>
              && vm.places == PlacesOf(outcome.mapItems, describe)
              && vm.defaults.entries ==
                   old(vm.defaults.entries)[RecentKey := StringArrayValue(SavedHistory(old(vm.RecentSearches()), ComposeQuery(vm.query, vm.specialty)))]
    ensures outcome.SearchFailed? ==> vm.places == [] && vm.defaults.entries == old(vm.defaults.entries)
  {
    searchFocused := false;
    vm.SetRegion(place.coordinate);
    request := vm.SearchNearbyAt(place.coordinate, outcome, describe);
  }

  // ---------------------------------------------------------------------
  // Recent searches

  /** Tapping a recent term: it becomes the query, the field loses focus,
      and a search runs from the current location with that term; its
      outcome is handled as in `SearchNearby`. Nothing else in the view
      model changes. */
  method SelectRecentTerm(vm: MapSearchViewModel, term: string, location: Option<Location>,
                          outcome: SearchOutcome, describe: Float64 -> string)
    returns (searchFocused: bool, request: Option<SearchRequest>)
    modifies vm`query, vm`places, vm.defaults
    ensures vm.query == term && !searchFocused
    ensures location.None? ==>
              request.None? && vm.places == old(vm.places) && vm.defaults.entries == old(vm.defaults.entries)
    ensures location.Some? ==>
              request == Some(SearchRequest(ComposeQuery(term, vm.specialty), Region(location.value.coordinate, SearchSpan)))
    ensures location.Some? && outcome.Found? ==>
              && vm.places == PlacesOf(outcome.mapItems, describe)
              && vm.defaults.entries ==
                   old(vm.defaults.entries)[RecentKey := StringArrayValue(SavedHistory(old(vm.RecentSearches()), ComposeQuery(term, vm.specialty)))]
    ensures location.Some? && outcome.SearchFailed? ==>
              vm.places == [] && vm.defaults.entries == old(vm.defaults.entries)
  {
    vm.query := term;
    searchFocused := false;
    request := vm.SearchNearby(location, outcome, describe);
  }

  /** The history after the `onDelete` loop as written: the offsets are
      visited in ascending order, and each is looked up in the history as
      already shortened by the earlier deletions. `None` is an out-of-range
      subscript, which traps. */
  ghost function DeleteAsWritten(h: seq<string>, pending: set<nat>): Option<seq<string>>
    decreases pending
  {
    if pending == {} then Some(h)
    else
      var i := MinOf(pending);
      if i < |h| then DeleteAsWritten(WithoutTerm(h, h[i]), pending - {i}) else None
  }

  /** The `onDelete` handler as written. The offsets come from the list on
      screen, so they are offsets of the history when the handler starts. */
  method OnDeleteAsWritten(vm: MapSearchViewModel, indexSet: set<nat>) returns (trapped: bool)
    requires forall i :: i in indexSet ==> i < |vm.RecentSearches()|
    modifies vm.defaults
    ensures trapped <==> DeleteAsWritten(old(vm.RecentSearches()), indexSet).None?
    ensures !trapped ==> vm.RecentSearches() == DeleteAsWritten(old(vm.RecentSearches()), indexSet).value
    ensures vm.defaults.entries - {RecentKey} == old(vm.defaults.entries) - {RecentKey}
  {
    var pending := indexSet;
    while pending != {}
      invariant DeleteAsWritten(vm.RecentSearches(), pending) == DeleteAsWritten(old(vm.RecentSearches()), indexSet)
      invariant vm.defaults.entries - {RecentKey} == old(vm.defaults.entries) - {RecentKey}
      decreases pending
    {
      ghost var least := MinOf(pending);
      var index :| index in pending && forall j :: j in pending ==> index <= j;
      assert index == least;
      var history := vm.RecentSearches();
      if index >= |history| {
        return true;
      }
      ghost var before := vm.defaults.entries;
      vm.RemoveRecentSearch(history[index]);
      HistoryWriteKeepsOtherKeys(before, vm.defaults.entries[RecentKey]);
      pending := pending - {index};
    }
    return false;
  }

  /** The terms at the given offsets of a history. */
  function TermsAt(h: seq<string>, offsets: set<nat>): set<string> {
    set i | i in offsets && i < |h| :: h[i]
  }

  /** A history without any of the given terms, order kept. */
  function WithoutTerms(h: seq<string>, terms: set<string>): seq<string>
    decreases |h|
  {
    if h == [] then []
    else
      var last := |h| - 1;
      WithoutTerms(h[..last], terms) + (if h[last] in terms then [] else [h[last]])
  }

  lemma {:induction false} WithoutNoTerms(h: seq<string>)
    ensures WithoutTerms(h, {}) == h
    decreases |h|
  {
    if h != [] {
      WithoutNoTerms(h[..|h| - 1]);
      assert h[..|h| - 1] + [h[|h| - 1]] == h;
    }
  }

  /** Removing one more term, with `removeRecentSearch`, extends the set of
      removed terms. */
  lemma {:induction false} WithoutOneMoreTerm(h: seq<string>, terms: set<string>, t: string)
    ensures WithoutTerm(WithoutTerms(h, terms), t) == WithoutTerms(h, terms + {t})
    decreases |h|
  {
    if h != [] {
      var last := |h| - 1;
      WithoutOneMoreTerm(h[..last], terms, t);
      WithoutTermAppend(WithoutTerms(h[..last], terms), if h[last] in terms then [] else [h[last]], t);
    }
  }

  /** Removing the terms whose offsets match a set of offsets is
      `remove(atOffsets:)`. */
  lemma {:induction false} WithoutTermsAtOffsets(h: seq<string>, offsets: set<nat>, terms: set<string>)
    requires forall i :: 0 <= i < |h| ==> (h[i] in terms <==> i in offsets)
    ensures WithoutTerms(h, terms) == RemoveOffsets(h, offsets)
    decreases |h|
  {
    if h != [] {
      WithoutTermsAtOffsets(h[..|h| - 1], offsets, terms);
    }
  }

  /** The handler as evidently intended: the terms shown at the deleted rows
      are the ones removed. On a history without repeats, which is what the
      app writes, that is exactly `remove(atOffsets:)` on the history. */
  lemma IntendedDeleteRemovesOffsets(h: seq<string>, offsets: set<nat>)
    requires Distinct(h)
    ensures WithoutTerms(h, TermsAt(h, offsets)) == RemoveOffsets(h, offsets)
  {
    forall i | 0 <= i < |h| ensures h[i] in TermsAt(h, offsets) <==> i in offsets {
      if h[i] in TermsAt(h, offsets) {
        var j :| j in offsets && j < |h| && h[j] == h[i];
        assert i == j;
      }
    }
    WithoutTermsAtOffsets(h, offsets, TermsAt(h, offsets));
  }

  /** The `onDelete` handler, corrected: the terms at the deleted rows are
      read first, then each is removed. */
  method OnDelete(vm: MapSearchViewModel, indexSet: set<nat>)
    requires forall i :: i in indexSet ==> i < |vm.RecentSearches()|
    modifies vm.defaults
    ensures vm.RecentSearches() == WithoutTerms(old(vm.RecentSearches()), TermsAt(old(vm.RecentSearches()), indexSet))
    ensures Distinct(old(vm.RecentSearches())) ==> vm.RecentSearches() == RemoveOffsets(old(vm.RecentSearches()), indexSet)
    ensures vm.defaults.entries - {RecentKey} == old(vm.defaults.entries) - {RecentKey}
  {
    var history := vm.RecentSearches();
    var terms := TermsAt(history, indexSet);
    var removed: set<string> := {};
    var remaining := terms;
    WithoutNoTerms(history);
    while remaining != {}
      invariant removed + remaining == terms
      invariant vm.RecentSearches() == WithoutTerms(history, removed)
      invariant vm.defaults.entries - {RecentKey} == old(vm.defaults.entries) - {RecentKey}
      decreases remaining
    {
      var t :| t in remaining;
      ghost var before := vm.defaults.entries;
      vm.RemoveRecentSearch(t);
      HistoryWriteKeepsOtherKeys(before, vm.defaults.entries[RecentKey]);
      WithoutOneMoreTerm(history, removed, t);
      removed := removed + {t};
      remaining := remaining - {t};
    }
    if Distinct(history) {
      IntendedDeleteRemovesOffsets(history, indexSet);
    }
  }

  /** With one row deleted, the handler as written does what was intended. */
  lemma AsWrittenAgreesOnOneRow(h: seq<string>, i: nat)
    requires i < |h|
    ensures DeleteAsWritten(h, {i}) == Some(WithoutTerms(h, TermsAt(h, {i})))
  {
    assert MinOf({i}) == i;
    assert {i} - {i} == {};
    assert TermsAt(h, {i}) == {h[i]};
    WithoutNoTerms(h);
    WithoutOneMoreTerm(h, {}, h[i]);
    assert {} + {h[i]} == {h[i]};
  }

  /** Deleting rows 1 and 2 of [a, b, c, d]: the loop as written removes b,
      then reads row 2 of the shortened [a, c, d] and removes d, leaving
      [a, c]; the intended result is [a, d]. */
  lemma AsWrittenDeletesWrongTerm()
    ensures DeleteAsWritten(["a", "b", "c", "d"], {1, 2}) == Some(["a", "c"])
    ensures WithoutTerms(["a", "b", "c", "d"], TermsAt(["a", "b", "c", "d"], {1, 2})) == ["a", "d"]
  {
    AsWrittenFirstStep();
    AsWrittenSecondStep();
    IntendedOnExample();
  }

  lemma AsWrittenFirstStep()
    ensures DeleteAsWritten(["a", "b", "c", "d"], {1, 2}) == DeleteAsWritten(["a", "c", "d"], {2})
  {
    assert MinOf({1, 2}) == 1;
    assert {1, 2} - {1} == {2};
    RemoveSecondOfExample();
  }

  lemma RemoveSecondOfExample()
    ensures WithoutTerm(["a", "b", "c", "d"], "b") == ["a", "c", "d"]
  {
    RemoveSecondOfExampleTail();
    WithoutTermCons("a", ["b", "c", "d"], "b");
    assert ["a", "b", "c", "d"] == ["a"] + ["b", "c", "d"];
  }

  lemma RemoveSecondOfExampleTail()
    ensures WithoutTerm(["b", "c", "d"], "b") == ["c", "d"]
  {
    KeepOtherTerms();
    WithoutTermCons("b", ["c", "d"], "b");
    assert ["b", "c", "d"] == ["b"] + ["c", "d"];
  }

  lemma KeepOtherTerms()
    ensures WithoutTerm(["c", "d"], "b") == ["c", "d"]
  {
    WithoutTermCons("c", ["d"], "b");
    WithoutTermCons("d", [], "b");
    assert ["c", "d"] == ["c"] + ["d"];
    assert ["d"] == ["d"] + [];
  }

  lemma AsWrittenSecondStep()
    ensures DeleteAsWritten(["a", "c", "d"], {2}) == Some(["a", "c"])
  {
    assert MinOf({2}) == 2;
    assert {2} - {2} == {};
    assert WithoutTerm(["a", "c", "d"], "d") == ["a", "c"];
  }

  lemma IntendedOnExample()
    ensures WithoutTerms(["a", "b", "c", "d"], TermsAt(["a", "b", "c", "d"], {1, 2})) == ["a", "d"]
  {
    TermsAtExample();
    WithoutTermsOnExample();
  }

  lemma TermsAtExample()
    ensures TermsAt(["a", "b", "c", "d"], {1, 2}) == {"b", "c"}
  {
    var h := ["a", "b", "c", "d"];
    assert h[1] == "b" && h[2] == "c";
  }

  lemma WithoutTermsOnExample()
    ensures WithoutTerms(["a", "b", "c", "d"], {"b", "c"}) == ["a", "d"]
  {
    WithoutTermsOnExamplePrefix();
    assert ["a", "b", "c", "d"][..3] == ["a", "b", "c"];
  }

  lemma WithoutTermsOnExamplePrefix()
    ensures WithoutTerms(["a", "b", "c"], {"b", "c"}) == ["a"]
  {
    assert ["a", "b", "c"][..2] == ["a", "b"];
    assert ["a", "b"][..1] == ["a"];
    assert ["a"][..0] == [];
    assert WithoutTerms(["a"], {"b", "c"}) == ["a"];
    assert WithoutTerms(["a", "b"], {"b", "c"}) == ["a"];
  }

  /** Deleting both rows of [a, b] traps: after a is removed, row 1 is
      past the end of the one-term history. */
  lemma AsWrittenTrapsOnLastRows()
    ensures DeleteAsWritten(["a", "b"], {0, 1}).None?
  {
    assert MinOf({0, 1}) == 0;
    assert {0, 1} - {0} == {1};
    assert WithoutTerm(["a", "b"], "a") == ["b"];
    assert MinOf({1}) == 1;
  }

  // ---------------------------------------------------------------------
  // Location updates

  /** `onReceive(location.$currentLocation)`: the map region follows the
      location, and a search runs when `ShouldAutoSearch` holds, with its
      outcome handled as in `SearchNearby`. Nothing else in the view model
      changes. */
  method OnLocationUpdate(vm: MapSearchViewModel, location: Option<Location>, auth: Authorization,
                          outcome: SearchOutcome, describe: Float64 -> string)
    returns (request: Option<SearchRequest>)
    modifies vm`region, vm`places, vm.defaults
    ensures location.Some? ==> vm.region == Region(location.value.coordinate, ViewSpan)
    ensures location.None? ==> vm.region == old(vm.region)
    ensures !ShouldAutoSearch(old(vm.places), location, auth) ==>
              request.None? && vm.places == old(vm.places) && vm.defaults.entries == old(vm.defaults.entries)
    ensures ShouldAutoSearch(old(vm.places), location, auth) ==>
              request == Some(SearchRequest(ComposeQuery(vm.query, vm.specialty), Region(location.value.coordinate, SearchSpan)))
    ensures ShouldAutoSearch(old(vm.places), location, auth) && outcome.Found? ==>
              && vm.places == PlacesOf(outcome.mapItems, describe)
              && vm.defaults.entries ==
                   old(vm.defaults.entries)[RecentKey := StringArrayValue(SavedHistory(old(vm.RecentSearches()), ComposeQuery(vm.query, vm.specialty)))]
    ensures ShouldAutoSearch(old(vm.places), location, auth) && outcome.SearchFailed? ==>
              vm.places == [] && vm.defaults.entries == old(vm.defaults.entries)
  {
    vm.UpdateRegionForUserLocation(location);
    if ShouldAutoSearch(vm.places, location, auth) {
      request := vm.SearchNearby(location, outcome, describe);
    } else {
      request := None;
    }
  }
}
