/** The search filter: how the optional query parameters of a search request
    become a `where` value, what that value means for one stored provider, and
    the proof that the two agree. */
module SearchFilter {
  import opened Wrappers
  import opened Records
  import opened Text

  /** JavaScript truthiness of an optional text parameter: absent and "" are falsy. */
  predicate TruthyText(v: Option<string>) {
    v.Some? && v.value != ""
  }

  /** JavaScript truthiness of an optional numeric parameter: absent and 0 are falsy. */
  predicate TruthyNumber(v: Option<int>) {
    v.Some? && v.value != 0
  }

  // ---------------------------------------------------------------------------
  // The `where` value and its meaning

  datatype NameField = ProviderName | OrganizationName

  /** `{ <field>: { contains: needle, mode: 'insensitive' } }` */
  datatype NameCondition = Contains(field: NameField, needle: string)

  /** `{ taxonomy_code: code, primary_taxonomy: primary }` */
  datatype TaxonomyCondition = TaxonomyCondition(code: string, primary: bool)

  /** One entry of the AND list on a Medicare service; `Unconstrained` is `{}`. */
  datatype ServiceCondition =
    | Unconstrained
    | ServiceCountAtLeast(count: int)
    | ServiceCountAtMost(count: int)
    | PaymentAmountAtLeast(amount: int)
    | PaymentAmountAtMost(amount: int)
    | HcpcsCodeIs(code: string)
    | ServiceYearIs(year: int)

  /** The `where` object; `None` is a key that was never assigned.
      `anyName` is `OR`, `taxonomiesSome` is `provider_taxonomies.some` and
      `servicesSome` is the AND list of `medicare_services.some`. */
  datatype Where = Where(
    anyName: Option<seq<NameCondition>>,
    state: Option<string>,
    taxonomiesSome: Option<TaxonomyCondition>,
    servicesSome: Option<seq<ServiceCondition>>)

  const EmptyWhere := Where(None, None, None, None)

  predicate NameHolds(c: NameCondition, p: ProviderRecord) {
    match c.field
    case ProviderName => ContainsInsensitive(p.provider_name, c.needle)
    case OrganizationName =>
      p.organization_name.Some? && ContainsInsensitive(p.organization_name.value, c.needle)
  }

  predicate TaxonomyHolds(c: TaxonomyCondition, t: TaxonomyRow) {
    t.taxonomy_code == Some(c.code) && t.primary_taxonomy == Some(c.primary)
  }

  /** A NULL column satisfies no comparison. */
  predicate AtLeast(v: Option<int>, bound: int) {
    v.Some? && v.value >= bound
  }

  predicate AtMost(v: Option<int>, bound: int) {
    v.Some? && v.value <= bound
  }

  predicate ServiceHolds(c: ServiceCondition, s: ServiceRow) {
    match c
    case Unconstrained => true
    case ServiceCountAtLeast(n) => AtLeast(s.service_count, n)
    case ServiceCountAtMost(n) => AtMost(s.service_count, n)
    case PaymentAmountAtLeast(a) => AtLeast(s.payment_amount, a)
    case PaymentAmountAtMost(a) => AtMost(s.payment_amount, a)
    case HcpcsCodeIs(code) => s.hcpcs_code == Some(code)
    case ServiceYearIs(y) => s.service_year == Some(y)
  }

  predicate AllHold(cs: seq<ServiceCondition>, s: ServiceRow) {
    forall c :: c in cs ==> ServiceHolds(c, s)
  }

  predicate NameClauseHolds(clause: Option<seq<NameCondition>>, p: ProviderRecord) {
    clause.Some? ==> exists i :: 0 <= i < |clause.value| && NameHolds(clause.value[i], p)
  }

  predicate TaxonomyClauseHolds(clause: Option<TaxonomyCondition>, p: ProviderRecord) {
    clause.Some? ==>
      exists k :: 0 <= k < |p.provider_taxonomies| && TaxonomyHolds(clause.value, p.provider_taxonomies[k])
  }

  predicate ServiceClauseHolds(clause: Option<seq<ServiceCondition>>, p: ProviderRecord) {
    clause.Some? ==>
      exists k :: 0 <= k < |p.medicare_services| && AllHold(clause.value, p.medicare_services[k])
  }

  /** Whether provider `p` satisfies `w`: every assigned key holds. */
  predicate Eval(w: Where, p: ProviderRecord) {
    && NameClauseHolds(w.anyName, p)
    && (w.state.Some? ==> p.state == w.state)
    && TaxonomyClauseHolds(w.taxonomiesSome, p)
    && ServiceClauseHolds(w.servicesSome, p)
  }

  // ---------------------------------------------------------------------------
  // What a search request asks for, parameter by parameter

  predicate NameMatches(p: ProviderRecord, text: string) {
    || ContainsInsensitive(p.provider_name, text)
    || (p.organization_name.Some? && ContainsInsensitive(p.organization_name.value, text))
  }

  /** `p` has a taxonomy with this code that is marked primary. */
  predicate HasPrimarySpecialty(p: ProviderRecord, code: string) {
    exists k :: 0 <= k < |p.provider_taxonomies| &&
                p.provider_taxonomies[k].taxonomy_code == Some(code) &&
                p.provider_taxonomies[k].primary_taxonomy == Some(true)
  }

  predicate HasMedicareFilter(q: SearchParams) {
    || TruthyNumber(q.minServiceCount) || TruthyNumber(q.maxServiceCount)
    || TruthyNumber(q.minPaymentAmount) || TruthyNumber(q.maxPaymentAmount)
    || TruthyText(q.hcpcsCode) || TruthyNumber(q.serviceYear)
  }

  /** Service `s` alone meets every Medicare bound the request supplies. */
  predicate WithinBounds(q: SearchParams, s: ServiceRow) {
    && (TruthyNumber(q.minServiceCount) ==> AtLeast(s.service_count, q.minServiceCount.value))
    && (TruthyNumber(q.maxServiceCount) ==> AtMost(s.service_count, q.maxServiceCount.value))
    && (TruthyNumber(q.minPaymentAmount) ==> AtLeast(s.payment_amount, q.minPaymentAmount.value))
    && (TruthyNumber(q.maxPaymentAmount) ==> AtMost(s.payment_amount, q.maxPaymentAmount.value))
    && (TruthyText(q.hcpcsCode) ==> s.hcpcs_code == q.hcpcsCode)
    && (TruthyNumber(q.serviceYear) ==> s.service_year == q.serviceYear)
  }

  predicate MeetsMedicareFilter(q: SearchParams, p: ProviderRecord) {
    HasMedicareFilter(q) ==>
      exists k :: 0 <= k < |p.medicare_services| && WithinBounds(q, p.medicare_services[k])
  }

  /** Provider `p` is one the request asks for. `provider_type` and
      `has_medicare` play no part. */
  predicate Satisfies(q: SearchParams, p: ProviderRecord) {
    && (TruthyText(q.query) ==> NameMatches(p, q.query.value))
    && (TruthyText(q.state) ==> p.state == q.state)
    && (TruthyText(q.specialty) ==> HasPrimarySpecialty(p, q.specialty.value))
    && MeetsMedicareFilter(q, p)
  }

  // ---------------------------------------------------------------------------
  // Building the `where` value

  /** The `.filter` that drops the `{}` entries of the AND list, keeping order. */
  function DropUnconstrained(cs: seq<ServiceCondition>): (r: seq<ServiceCondition>)
    ensures forall c :: c in r <==> c in cs && c != Unconstrained
    ensures |r| <= |cs|
  {
    if cs == [] then []
    else if cs[0] == Unconstrained then DropUnconstrained(cs[1..])
    else [cs[0]] + DropUnconstrained(cs[1..])
  }

  /** The six-entry AND list of the Medicare clause, in source order, with
      `Unconstrained` (`{}`) for every bound whose parameter is falsy. */
  function BoundList(q: SearchParams): seq<ServiceCondition> {
    [ if TruthyNumber(q.minServiceCount) then ServiceCountAtLeast(q.minServiceCount.value) else Unconstrained,
      if TruthyNumber(q.maxServiceCount) then ServiceCountAtMost(q.maxServiceCount.value) else Unconstrained,
      if TruthyNumber(q.minPaymentAmount) then PaymentAmountAtLeast(q.minPaymentAmount.value) else Unconstrained,
      if TruthyNumber(q.maxPaymentAmount) then PaymentAmountAtMost(q.maxPaymentAmount.value) else Unconstrained,
      if TruthyText(q.hcpcsCode) then HcpcsCodeIs(q.hcpcsCode.value) else Unconstrained,
      if TruthyNumber(q.serviceYear) then ServiceYearIs(q.serviceYear.value) else Unconstrained ]
  }

  /** Dropping the `{}` entries does not change what the list demands. */
  lemma DropUnconstrainedKeepsMeaning(cs: seq<ServiceCondition>, s: ServiceRow)
    ensures AllHold(DropUnconstrained(cs), s) <==> AllHold(cs, s)
  {
  }

  lemma AllHoldOfSix(cs: seq<ServiceCondition>, s: ServiceRow)
    requires |cs| == 6
    ensures AllHold(cs, s) <==>
              ServiceHolds(cs[0], s) && ServiceHolds(cs[1], s) && ServiceHolds(cs[2], s) &&
              ServiceHolds(cs[3], s) && ServiceHolds(cs[4], s) && ServiceHolds(cs[5], s)
  {
    assert forall c :: c in cs ==> exists i :: 0 <= i < 6 && c == cs[i];
  }

  /** One service meets the filtered AND list exactly when it meets every
      supplied bound at once. */
  lemma BoundListMeansWithinBounds(q: SearchParams, s: ServiceRow)
    ensures AllHold(DropUnconstrained(BoundList(q)), s) <==> WithinBounds(q, s)
  {
    var all := BoundList(q);
    DropUnconstrainedKeepsMeaning(all, s);
    AllHoldOfSix(all, s);
  }

  /** When the clause is added its AND list is never empty. */
  lemma BoundListNonEmpty(q: SearchParams)
    requires HasMedicareFilter(q)
    ensures |DropUnconstrained(BoundList(q))| > 0
  {
    var all := BoundList(q);
    var i := if TruthyNumber(q.minServiceCount) then 0
             else if TruthyNumber(q.maxServiceCount) then 1
             else if TruthyNumber(q.minPaymentAmount) then 2
             else if TruthyNumber(q.maxPaymentAmount) then 3
             else if TruthyText(q.hcpcsCode) then 4
             else 5;
    assert all[i] in DropUnconstrained(all);
  }

  /** `[{ provider_name: contains }, { organization_name: contains }]` */
  function NameConditions(text: string): seq<NameCondition> {
    [Contains(ProviderName, text), Contains(OrganizationName, text)]
  }

  lemma NameClauseMeansNameMatches(text: string, p: ProviderRecord)
    ensures NameClauseHolds(Some(NameConditions(text)), p) <==> NameMatches(p, text)
  {
    var names := NameConditions(text);
    assert NameHolds(names[0], p) <==> ContainsInsensitive(p.provider_name, text);
    assert NameHolds(names[1], p) <==>
           p.organization_name.Some? && ContainsInsensitive(p.organization_name.value, text);
  }

  lemma ServiceClauseMeansMedicareFilter(q: SearchParams, p: ProviderRecord)
    requires HasMedicareFilter(q)
    ensures ServiceClauseHolds(Some(DropUnconstrained(BoundList(q))), p) <==> MeetsMedicareFilter(q, p)
  {
    forall k | 0 <= k < |p.medicare_services|
      ensures AllHold(DropUnconstrained(BoundList(q)), p.medicare_services[k]) <==> WithinBounds(q, p.medicare_services[k])
    {
      BoundListMeansWithinBounds(q, p.medicare_services[k]);
    }
  }

  /** The filter that holds exactly the clauses of the truthy parameters. */
  predicate BuiltFrom(w: Where, q: SearchParams) {
    && w.anyName == (if TruthyText(q.query) then Some(NameConditions(q.query.value)) else None)
    && w.state == (if TruthyText(q.state) then q.state else None)
    && w.taxonomiesSome ==
       (if TruthyText(q.specialty) then Some(TaxonomyCondition(q.specialty.value, true)) else None)
    && w.servicesSome == (if HasMedicareFilter(q) then Some(DropUnconstrained(BoundList(q))) else None)
  }

  lemma BuiltFilterMeansRequest(w: Where, q: SearchParams, p: ProviderRecord)
    requires BuiltFrom(w, q)
    ensures Eval(w, p) <==> Satisfies(q, p)
  {
    if TruthyText(q.query) {
      NameClauseMeansNameMatches(q.query.value, p);
    }
    if HasMedicareFilter(q) {
      ServiceClauseMeansMedicareFilter(q, p);
    }
  }

  lemma BuiltFilterMeansRequestForAll(w: Where, q: SearchParams)
    requires BuiltFrom(w, q)
    ensures forall p :: Eval(w, p) <==> Satisfies(q, p)
  {
    forall p: ProviderRecord ensures Eval(w, p) <==> Satisfies(q, p) {
      BuiltFilterMeansRequest(w, q, p);
    }
  }

  /** `provider_type` and `has_medicare` are accepted but never read: the
      filter built for a request is the one built when they are changed, and
      it selects the same providers. */
  lemma UnreadParametersConstrainNothing(w: Where, q: SearchParams, p: ProviderRecord,
                                         providerType: Option<string>, hasMedicare: Option<bool>)
    requires BuiltFrom(w, q)
    ensures BuiltFrom(w, q.(provider_type := providerType, has_medicare := hasMedicare))
    ensures Eval(w, p) <==> Satisfies(q.(provider_type := providerType, has_medicare := hasMedicare), p)
  {
    BuiltFilterMeansRequest(w, q.(provider_type := providerType, has_medicare := hasMedicare), p);
  }

  /** Builds the filter step by step, one optional parameter at a time. */
  method BuildWhere(q: SearchParams) returns (w: Where)
    ensures w.anyName.Some? <==> TruthyText(q.query)
    ensures w.state == (if TruthyText(q.state) then q.state else None)
    ensures w.taxonomiesSome ==
            (if TruthyText(q.specialty) then Some(TaxonomyCondition(q.specialty.value, true)) else None)
    ensures w.servicesSome.Some? <==> HasMedicareFilter(q)
    ensures w.servicesSome.Some? ==>
              |w.servicesSome.value| > 0 && Unconstrained !in w.servicesSome.value
    ensures forall p :: Eval(w, p) <==> Satisfies(q, p)
  {
    w := EmptyWhere;
    if TruthyText(q.query) {
      w := w.(anyName := Some(NameConditions(q.query.value)));
    }
    if TruthyText(q.state) {
      w := w.(state := q.state);
    }
    if TruthyText(q.specialty) {
      w := w.(taxonomiesSome := Some(TaxonomyCondition(q.specialty.value, true)));
    }
    if HasMedicareFilter(q) {
      w := w.(servicesSome := Some(DropUnconstrained(BoundList(q))));
      BoundListNonEmpty(q);
    }
    assert BuiltFrom(w, q);
    BuiltFilterMeansRequestForAll(w, q);
  }

  // ---------------------------------------------------------------------------
  // Bounds are met jointly, by one service

  function BareService(count: int, payment: int): ServiceRow {
    ServiceRow(None, None, Some(count), None, None, None, Some(payment), None, None)
  }

  /** A provider whose one service is busy enough but paid too much, and whose
      other service is paid little enough but too rare, is not a match for
      `minServiceCount=10&maxPaymentAmount=100`: each bound is met, but never
      by the same service. */
  lemma BoundsAreNotMetAcrossServices(p: ProviderRecord)
    requires p.medicare_services == [BareService(20, 500), BareService(1, 50)]
    ensures var q := SearchParams(None, None, None, None, None, Some(10), None, None, Some(100),
                                  None, None, None, None);
            (exists k :: 0 <= k < |p.medicare_services| &&
                         AtLeast(p.medicare_services[k].service_count, 10)) &&
            (exists k :: 0 <= k < |p.medicare_services| &&
                         AtMost(p.medicare_services[k].payment_amount, 100)) &&
            !Satisfies(q, p)
  {
    var q := SearchParams(None, None, None, None, None, Some(10), None, None, Some(100),
                          None, None, None, None);
    assert AtLeast(p.medicare_services[0].service_count, 10);
    assert AtMost(p.medicare_services[1].payment_amount, 100);
    assert !WithinBounds(q, p.medicare_services[0]) && !WithinBounds(q, p.medicare_services[1]);
  }
}
