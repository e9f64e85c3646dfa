/** The filters endpoint: the state codes and the primary specialty codes that
    occur in the table, each distinct and in ascending order. */
module FilterValues {
  import opened Wrappers
  import opened Records
  import opened Ordering

  /** `SELECT state FROM providers WHERE state IS NOT NULL`, in stored order. */
  function StateColumn(db: Database): (r: seq<string>)
    ensures forall s :: s in r <==> exists p :: p in db && p.state == Some(s)
  {
    if db == [] then []
    else
      var rest := StateColumn(db[1..]);
      assert forall p :: p in db <==> p == db[0] || p in db[1..];
      if db[0].state.Some? then [db[0].state.value] + rest else rest
  }

  /** The codes of the taxonomy rows marked primary, NULL codes left out. */
  function PrimaryCodesOf(ts: seq<TaxonomyRow>): (r: seq<string>)
    ensures forall c :: c in r <==>
              exists t :: t in ts && t.primary_taxonomy == Some(true) && t.taxonomy_code == Some(c)
  {
    if ts == [] then []
    else
      var rest := PrimaryCodesOf(ts[1..]);
      assert forall t :: t in ts <==> t == ts[0] || t in ts[1..];
      if ts[0].primary_taxonomy == Some(true) && ts[0].taxonomy_code.Some?
      then [ts[0].taxonomy_code.value] + rest
      else rest
  }

  /** `SELECT taxonomy_code FROM provider_taxonomies WHERE primary_taxonomy = true
      AND taxonomy_code IS NOT NULL`, provider by provider. */
  function PrimaryCodeColumn(db: Database): (r: seq<string>)
    ensures forall c :: c in r <==> exists p :: p in db && c in PrimaryCodesOf(p.provider_taxonomies)
  {
    if db == [] then []
    else
      assert forall p :: p in db <==> p == db[0] || p in db[1..];
      PrimaryCodesOf(db[0].provider_taxonomies) + PrimaryCodeColumn(db[1..])
  }

  /** Both lists are strictly ascending, so free of duplicates, and hold exactly
      the values present: every non-NULL state of a provider, and every
      non-NULL code of a taxonomy marked primary. */
  function GetProviderFilters(db: Database): (r: FiltersResponse)
    ensures StrictlySorted(r.states) && StrictlySorted(r.specialties)
    ensures forall s :: s in r.states <==> exists p :: p in db && p.state == Some(s)
    ensures forall c :: c in r.specialties <==>
              exists p, t :: p in db && t in p.provider_taxonomies &&
                             t.primary_taxonomy == Some(true) && t.taxonomy_code == Some(c)
    ensures forall i, j :: 0 <= i < j < |r.states| ==> r.states[i] != r.states[j]
    ensures forall i, j :: 0 <= i < j < |r.specialties| ==> r.specialties[i] != r.specialties[j]
  {
    var states := DistinctSorted(StateColumn(db));
    var specialties := DistinctSorted(PrimaryCodeColumn(db));
    StrictlySortedIsDistinct(states);
    StrictlySortedIsDistinct(specialties);
    FiltersResponse(states, specialties)
  }
}
