/** The provider list on the home screen: the "All"/"Doctor"/"Hospital"
    filter tabs and the type badge on each provider card. Lower-casing is
    ASCII lower-casing; matching is substring containment. */
module Home {
  import opened Support
  import opened Places

  /** `category?.contains(word) == true`: a missing category never matches. */
  predicate CategoryContains(p: Place, word: string) {
    p.category.Some? && Contains(p.category.value, word)
  }

  /** The hospital test: category mentions "Hospital", or the lower-cased
      name mentions "hospital" or "medical center". */
  predicate LooksLikeHospital(p: Place) {
    || CategoryContains(p, "Hospital")
    || Contains(Lower(p.name), "hospital")
    || Contains(Lower(p.name), "medical center")
  }

  /** The doctor test: category mentions "Doctor", or the lower-cased name
      mentions "doctor" or "clinic". */
  predicate LooksLikeDoctor(p: Place) {
    || CategoryContains(p, "Doctor")
    || Contains(Lower(p.name), "doctor")
    || Contains(Lower(p.name), "clinic")
  }

  /** `ProviderCard.getProviderType()`: the hospital test is tried first. */
  function ProviderType(p: Place): (r: string)
    ensures r == "Hospital" || r == "Doctor" || r == "Healthcare"
    ensures r == "Hospital" <==> LooksLikeHospital(p)
    ensures r == "Doctor" <==> !LooksLikeHospital(p) && LooksLikeDoctor(p)
    ensures r == "Healthcare" <==> !LooksLikeHospital(p) && !LooksLikeDoctor(p)
  {
    if LooksLikeHospital(p) then "Hospital"
    else if LooksLikeDoctor(p) then "Doctor"
    else "Healthcare"
  }

  /** `filteredProviders` for the selected filter tab. */
  function FilteredProviders(places: seq<Place>, filter: string): seq<Place> {
    if places == [] then []
    else if filter == "Doctor" then Filter(places, LooksLikeDoctor)
    else if filter == "Hospital" then Filter(places, LooksLikeHospital)
    else places
  }

  /** No places, no providers; any tab other than "Doctor" and "Hospital"
      shows every place; the two tabs keep exactly the places passing their
      test, each as often as it occurs; and every result lists places in
      their original order. */
  lemma FilteredProvidersSpec(places: seq<Place>, filter: string)
    ensures places == [] ==> FilteredProviders(places, filter) == []
    ensures filter != "Doctor" && filter != "Hospital" ==> FilteredProviders(places, filter) == places
    ensures filter == "Doctor" ==>
              forall p :: p in FilteredProviders(places, filter) <==> p in places && LooksLikeDoctor(p)
    ensures filter == "Hospital" ==>
              forall p :: p in FilteredProviders(places, filter) <==> p in places && LooksLikeHospital(p)
    ensures filter == "Doctor" ==>
              forall p :: p in places ==>
                multiset(FilteredProviders(places, filter))[p] == if LooksLikeDoctor(p) then multiset(places)[p] else 0
    ensures filter == "Hospital" ==>
              forall p :: p in places ==>
                multiset(FilteredProviders(places, filter))[p] == if LooksLikeHospital(p) then multiset(places)[p] else 0
    ensures IsSubsequence(FilteredProviders(places, filter), places)
  {
    if places == [] || (filter != "Doctor" && filter != "Hospital") {
      SubsequenceReflexive(places);
    } else if filter == "Doctor" {
      FilterCounts(places, LooksLikeDoctor);
    } else {
      FilterCounts(places, LooksLikeHospital);
    }
  }

  /** The badge agrees with the tabs: a place on the "Hospital" tab is
      badged "Hospital", and one on the "Doctor" tab is badged "Doctor"
      unless it is also a hospital. */
  lemma BadgeAgreesWithTabs(places: seq<Place>, p: Place)
    ensures p in FilteredProviders(places, "Hospital") ==> ProviderType(p) == "Hospital"
    ensures p in FilteredProviders(places, "Doctor") ==> ProviderType(p) == "Hospital" || ProviderType(p) == "Doctor"
    ensures p in places && ProviderType(p) == "Healthcare" ==>
              p !in FilteredProviders(places, "Hospital") && p !in FilteredProviders(places, "Doctor")
  {
  }
}
