/** The detail endpoint: one provider by NPI, reshaped into the public detail
    view with a Medicare summary folded over its service rows. */
module Details {
  import opened Wrappers
  import opened Records

  // ---------------------------------------------------------------------------
  // Lookup

  /** The first stored record with this NPI, if any (`findUnique` on `npi`). */
  function FindUnique(db: Database, npi: string): (r: Option<ProviderRecord>)
    ensures r.None? <==> forall i :: 0 <= i < |db| ==> db[i].npi != npi
    ensures r.Some? ==> r.value in db && r.value.npi == npi
  {
    if db == [] then None
    else if db[0].npi == npi then Some(db[0])
    else FindUnique(db[1..], npi)
  }

  /** The NPI column is unique: no two stored records share one. */
  predicate NpisUnique(db: Database) {
    forall i, j :: 0 <= i < j < |db| ==> db[i].npi != db[j].npi
  }

  /** In a table with unique NPIs the lookup returns the record with that NPI. */
  lemma {:induction false} FindUniqueFindsTheRecord(db: Database, i: int)
    requires NpisUnique(db) && 0 <= i < |db|
    ensures FindUnique(db, db[i].npi) == Some(db[i])
  {
    if i > 0 {
      assert db[0].npi != db[i].npi;
      assert NpisUnique(db[1..]) && db[1..][i - 1] == db[i];
      FindUniqueFindsTheRecord(db[1..], i - 1);
    }
  }

  // ---------------------------------------------------------------------------
  // Medicare summary

  /** A numeric column with NULL read as 0 (`value || 0`). */
  function OrZero(v: Option<int>): int {
    v.GetOr(0)
  }

  const EmptySummary := MedicareSummary(0, 0, 0, 0, 0)

  /** The reducer: adds one service row to the running totals. */
  function AddService(acc: MedicareSummary, s: ServiceRow): MedicareSummary {
    MedicareSummary(
      acc.totalServices + OrZero(s.service_count),
      acc.totalBeneficiaries + OrZero(s.beneficiary_count),
      acc.totalPayments + OrZero(s.payment_amount),
      acc.totalSubmitted + OrZero(s.submitted_charge),
      acc.totalAllowed + OrZero(s.allowed_amount))
  }

  /** `services.reduce(AddService, acc)`: a left fold, first row first. */
  function Reduce(acc: MedicareSummary, services: seq<ServiceRow>): MedicareSummary
    decreases |services|
  {
    if services == [] then acc else Reduce(AddService(acc, services[0]), services[1..])
  }

  function Summarize(services: seq<ServiceRow>): MedicareSummary {
    Reduce(EmptySummary, services)
  }

  /** The five summarised columns. */
  datatype Column = ServiceCount | BeneficiaryCount | PaymentAmount | SubmittedCharge | AllowedAmount

  function ColumnOf(s: ServiceRow, c: Column): Option<int> {
    match c
    case ServiceCount => s.service_count
    case BeneficiaryCount => s.beneficiary_count
    case PaymentAmount => s.payment_amount
    case SubmittedCharge => s.submitted_charge
    case AllowedAmount => s.allowed_amount
  }

  /** The summary total that belongs to a column. */
  function TotalOf(m: MedicareSummary, c: Column): int {
    match c
    case ServiceCount => m.totalServices
    case BeneficiaryCount => m.totalBeneficiaries
    case PaymentAmount => m.totalPayments
    case SubmittedCharge => m.totalSubmitted
    case AllowedAmount => m.totalAllowed
  }

  /** The sum of one column over the rows, NULL counted as 0. */
  function ColumnSum(services: seq<ServiceRow>, c: Column): int {
    if services == [] then 0 else OrZero(ColumnOf(services[0], c)) + ColumnSum(services[1..], c)
  }

  lemma {:induction false} ReduceAddsColumnSums(acc: MedicareSummary, services: seq<ServiceRow>, c: Column)
    ensures TotalOf(Reduce(acc, services), c) == TotalOf(acc, c) + ColumnSum(services, c)
    decreases |services|
  {
    if services != [] {
      ReduceAddsColumnSums(AddService(acc, services[0]), services[1..], c);
    }
  }

  /** Each summary total is the sum of its column over all the service rows;
      with no rows every total is 0. */
  lemma SummaryTotalsAreColumnSums(services: seq<ServiceRow>)
    ensures forall c :: TotalOf(Summarize(services), c) == ColumnSum(services, c)
    ensures services == [] ==> Summarize(services) == EmptySummary
  {
    forall c ensures TotalOf(Summarize(services), c) == ColumnSum(services, c) {
      ReduceAddsColumnSums(EmptySummary, services, c);
    }
  }

  lemma {:induction false} ColumnSumOfConcat(a: seq<ServiceRow>, b: seq<ServiceRow>, c: Column)
    ensures ColumnSum(a + b, c) == ColumnSum(a, c) + ColumnSum(b, c)
  {
    if a == [] {
      assert a + b == b;
    } else {
      assert (a + b)[1..] == a[1..] + b;
      ColumnSumOfConcat(a[1..], b, c);
    }
  }

  /** The summary of two runs of rows is the sum of their summaries. */
  lemma SummaryIsAdditive(a: seq<ServiceRow>, b: seq<ServiceRow>)
    ensures forall c :: TotalOf(Summarize(a + b), c) == TotalOf(Summarize(a), c) + TotalOf(Summarize(b), c)
  {
    SummaryTotalsAreColumnSums(a);
    SummaryTotalsAreColumnSums(b);
    SummaryTotalsAreColumnSums(a + b);
    forall c ensures ColumnSum(a + b, c) == ColumnSum(a, c) + ColumnSum(b, c) {
      ColumnSumOfConcat(a, b, c);
    }
  }

  // ---------------------------------------------------------------------------
  // Formatting

  function FormatAddress(p: ProviderRecord): Address {
    Address(p.address_1, p.address_2, p.city, p.state, p.postal_code, p.country_code)
  }

  function FormatTaxonomy(t: TaxonomyRow): Taxonomy {
    Taxonomy(t.taxonomy_code, t.taxonomy_desc, t.primary_taxonomy, t.license)
  }

  /** `Number(...)` turns a NULL count or amount into 0; code, year and place
      keep their NULLs. */
  function FormatService(s: ServiceRow): MedicareService {
    MedicareService(
      s.hcpcs_code, s.hcpcs_description,
      OrZero(s.service_count), OrZero(s.beneficiary_count), OrZero(s.submitted_charge),
      OrZero(s.allowed_amount), OrZero(s.payment_amount),
      s.service_year, s.place_of_service)
  }

  /** `provider_taxonomies.map(FormatTaxonomy)` */
  function FormatTaxonomies(ts: seq<TaxonomyRow>): (r: seq<Taxonomy>)
    ensures |r| == |ts|
    ensures forall i :: 0 <= i < |ts| ==> r[i] == FormatTaxonomy(ts[i])
  {
    if ts == [] then [] else [FormatTaxonomy(ts[0])] + FormatTaxonomies(ts[1..])
  }

  /** `medicare_services.map(FormatService)` */
  function FormatServices(ss: seq<ServiceRow>): (r: seq<MedicareService>)
    ensures |r| == |ss|
    ensures forall i :: 0 <= i < |ss| ==> r[i] == FormatService(ss[i])
  {
    if ss == [] then [] else [FormatService(ss[0])] + FormatServices(ss[1..])
  }

  function FormatProvider(p: ProviderRecord): ProviderDetail {
    ProviderDetail(
      p.npi, p.provider_name, p.first_name, p.last_name, p.organization_name, p.provider_type,
      FormatAddress(p),
      p.phone, p.email, p.direct_address, p.fhir_endpoint, p.enumeration_date, p.last_updated, p.status,
      FormatTaxonomies(p.provider_taxonomies),
      Medicare(Summarize(p.medicare_services), FormatServices(p.medicare_services)))
  }

  /** The listed figure of a formatted service that a summary column totals. */
  function ListedFigure(m: MedicareService, c: Column): int {
    match c
    case ServiceCount => m.serviceCount
    case BeneficiaryCount => m.beneficiaryCount
    case PaymentAmount => m.paymentAmount
    case SubmittedCharge => m.submittedCharge
    case AllowedAmount => m.allowedAmount
  }

  function ListedSum(ms: seq<MedicareService>, c: Column): int {
    if ms == [] then 0 else ListedFigure(ms[0], c) + ListedSum(ms[1..], c)
  }

  lemma {:induction false} ListedSumIsColumnSum(ss: seq<ServiceRow>, c: Column)
    ensures ListedSum(FormatServices(ss), c) == ColumnSum(ss, c)
  {
    if ss != [] {
      assert FormatServices(ss)[1..] == FormatServices(ss[1..]);
      ListedSumIsColumnSum(ss[1..], c);
    }
  }

  /** The detail view copies the provider's fields under their public names,
      keeps NULLs, maps the taxonomy and service rows one to one and in order,
      and its summary totals agree with the figures of the services it lists. */
  lemma DetailIsFaithful(p: ProviderRecord)
    ensures var d := FormatProvider(p);
      && d.npi == p.npi && d.provider_name == p.provider_name
      && d.first_name == p.first_name && d.last_name == p.last_name
      && d.organization_name == p.organization_name && d.provider_type == p.provider_type
      && d.address.line1 == p.address_1 && d.address.line2 == p.address_2
      && d.address.city == p.city && d.address.state == p.state
      && d.address.postal_code == p.postal_code && d.address.country_code == p.country_code
      && d.phone == p.phone && d.email == p.email && d.direct_address == p.direct_address
      && d.fhir_endpoint == p.fhir_endpoint && d.enumeration_date == p.enumeration_date
      && d.last_updated == p.last_updated && d.status == p.status
      && |d.taxonomies| == |p.provider_taxonomies|
      && (forall i :: 0 <= i < |p.provider_taxonomies| ==>
            var t, u := d.taxonomies[i], p.provider_taxonomies[i];
            t.code == u.taxonomy_code && t.description == u.taxonomy_desc &&
            t.isPrimary == u.primary_taxonomy && t.license == u.license)
      && |d.medicare.services| == |p.medicare_services|
      && (forall i :: 0 <= i < |p.medicare_services| ==>
            var m, s := d.medicare.services[i], p.medicare_services[i];
            m.code == s.hcpcs_code && m.description == s.hcpcs_description &&
            m.year == s.service_year && m.placeOfService == s.place_of_service &&
            forall c :: ListedFigure(m, c) == OrZero(ColumnOf(s, c)))
      && (forall c :: TotalOf(d.medicare.summary, c) == ColumnSum(p.medicare_services, c))
      && (forall c :: TotalOf(d.medicare.summary, c) == ListedSum(d.medicare.services, c))
  {
    SummaryTotalsAreColumnSums(p.medicare_services);
    forall c ensures ListedSum(FormatServices(p.medicare_services), c) == ColumnSum(p.medicare_services, c) {
      ListedSumIsColumnSum(p.medicare_services, c);
    }
  }

  // ---------------------------------------------------------------------------
  // The endpoint

  const NotFoundMessage := "Provider not found"

  /** The reply: the detail view, or status 404 with the body
      `{ error: NotFoundMessage }` (the handler's own result is then `null`). */
  datatype DetailReply = Found(detail: ProviderDetail) | NotFound(error: string) {
    function StatusCode(): int {
      if Found? then 200 else 404
    }
  }

  function GetProviderDetails(db: Database, npi: string): (r: DetailReply)
    ensures r.NotFound? <==> forall i :: 0 <= i < |db| ==> db[i].npi != npi
    ensures r.StatusCode() == 404 <==> forall i :: 0 <= i < |db| ==> db[i].npi != npi
    ensures r.NotFound? ==> r.error == NotFoundMessage
    ensures r.Found? ==> exists p :: p in db && p.npi == npi && r.detail == FormatProvider(p)
    ensures r.Found? ==> r.detail.npi == npi
  {
    match FindUnique(db, npi)
    case None => NotFound(NotFoundMessage)
    case Some(p) => Found(FormatProvider(p))
  }
}
