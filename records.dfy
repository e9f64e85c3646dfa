/** The record shapes the provider API reads from storage and hands back to
    its clients: database rows (with their nested taxonomy and Medicare
    service rows), the public detail view, the search parameters and the two
    list responses. Money amounts are whole cents and counts are integers. */
module Records {
  import opened Wrappers

  /** A row of `provider_taxonomies`, as the detail query selects it. */
  datatype TaxonomyRow = TaxonomyRow(
    taxonomy_code: Option<string>,
    taxonomy_desc: Option<string>,
    primary_taxonomy: Option<bool>,
    license: Option<string>)

  /** A row of `medicare_services`, with the nine columns both queries select. */
  datatype ServiceRow = ServiceRow(
    hcpcs_code: Option<string>,
    hcpcs_description: Option<string>,
    service_count: Option<int>,
    beneficiary_count: Option<int>,
    submitted_charge: Option<int>,
    allowed_amount: Option<int>,
    payment_amount: Option<int>,
    service_year: Option<int>,
    place_of_service: Option<string>)

  /** A row of `providers` together with its included taxonomy and service rows,
      each list in stored order. */
  datatype ProviderRecord = ProviderRecord(
    npi: string,
    provider_name: string,
    first_name: Option<string>,
    last_name: Option<string>,
    organization_name: Option<string>,
    provider_type: Option<string>,
    address_1: Option<string>,
    address_2: Option<string>,
    city: Option<string>,
    state: Option<string>,
    postal_code: Option<string>,
    country_code: Option<string>,
    phone: Option<string>,
    email: Option<string>,
    direct_address: Option<string>,
    fhir_endpoint: Option<string>,
    enumeration_date: Option<string>,
    last_updated: Option<string>,
    status: Option<string>,
    provider_taxonomies: seq<TaxonomyRow>,
    medicare_services: seq<ServiceRow>)

  /** The stored provider table: a snapshot that every query of one request reads. */
  type Database = seq<ProviderRecord>

  datatype Address = Address(
    line1: Option<string>,
    line2: Option<string>,
    city: Option<string>,
    state: Option<string>,
    postal_code: Option<string>,
    country_code: Option<string>)

  datatype Taxonomy = Taxonomy(
    code: Option<string>,
    description: Option<string>,
    isPrimary: Option<bool>,
    license: Option<string>)

  datatype MedicareService = MedicareService(
    code: Option<string>,
    description: Option<string>,
    serviceCount: int,
    beneficiaryCount: int,
    submittedCharge: int,
    allowedAmount: int,
    paymentAmount: int,
    year: Option<int>,
    placeOfService: Option<string>)

  datatype MedicareSummary = MedicareSummary(
    totalServices: int,
    totalBeneficiaries: int,
    totalPayments: int,
    totalSubmitted: int,
    totalAllowed: int)

  datatype Medicare = Medicare(summary: MedicareSummary, services: seq<MedicareService>)

  /** The detail view of one provider. */
  datatype ProviderDetail = ProviderDetail(
    npi: string,
    provider_name: string,
    first_name: Option<string>,
    last_name: Option<string>,
    organization_name: Option<string>,
    provider_type: Option<string>,
    address: Address,
    phone: Option<string>,
    email: Option<string>,
    direct_address: Option<string>,
    fhir_endpoint: Option<string>,
    enumeration_date: Option<string>,
    last_updated: Option<string>,
    status: Option<string>,
    taxonomies: seq<Taxonomy>,
    medicare: Medicare)

  /** The query string of a search request; every parameter is optional. */
  datatype SearchParams = SearchParams(
    query: Option<string>,
    state: Option<string>,
    specialty: Option<string>,
    page: Option<int>,
    limit: Option<int>,
    minServiceCount: Option<int>,
    maxServiceCount: Option<int>,
    minPaymentAmount: Option<int>,
    maxPaymentAmount: Option<int>,
    hcpcsCode: Option<string>,
    serviceYear: Option<int>,
    has_medicare: Option<bool>,
    provider_type: Option<string>)

  /** The search response: the raw matching records of one page, the number of
      all matches, and the page and limit used. */
  datatype SearchResponse = SearchResponse(
    providers: seq<ProviderRecord>,
    total: nat,
    page: int,
    limit: int)

  datatype FiltersResponse = FiltersResponse(states: seq<string>, specialties: seq<string>)
}
