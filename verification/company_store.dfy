/** Persistence of companies, the tenants that own checks and connectors. */
module CompanyStore {
  import opened Outcomes
  import Store
  import Database
  import opened CoreSchemas

  /** A row of the companies table. */
  datatype Company = Company(id: int, uuid: string, name: string, updatedAt: int)

  const CompanyNotFound: string := "No company was found with that id."

  /** `db_get_company`: lookup by public uuid, 404 when absent. */
  function GetCompany(companies: seq<Company>, uuid: string): (r: Result<Company>)
    ensures r.Ok? ==> r.value in companies && r.value.uuid == uuid
    ensures r == Err(HttpError(NotFound, CompanyNotFound)) <==> forall c :: c in companies ==> c.uuid != uuid
  {
    Store.OneOrNotFound(companies, (c: Company) => c.uuid == uuid, CompanyNotFound)
  }

  /** `db_get_company_by_internal_id`: `.one()` has no 404 path, so a missing
      id surfaces as a raised database error, never as an HTTP error. */
  function GetCompanyByInternalId(companies: seq<Company>, id: int): (r: Result<Company>)
    ensures r.Ok? ==> r.value in companies && r.value.id == id
    ensures r.Err? ==> r.error.Raised?
    ensures r.Err? && r.error.exception == "NoResultFound" <==> forall c :: c in companies ==> c.id != id
  {
    Store.ExactlyOne(companies, (c: Company) => c.id == id)
  }

  /** `db_create_company`: stores the given name under a fresh `co_` uuid. */
  function CreateCompany(companies: seq<Company>, input: CompanyIn, id: int, draw: string, now: int)
    : (r: (seq<Company>, Company))
    requires Database.IsUuid4Digits(draw)
    ensures r.0 == companies + [r.1]
    ensures r.1.id == id && r.1.name == input.name && r.1.updatedAt == now
    ensures |r.1.uuid| == 35 && r.1.uuid[..3] == "co_"
  {
    var row := Company(id, Database.UuidForInsert(Database.CompanyKind, draw), input.name, now);
    (companies + [row], row)
  }

  /** A company just created is found again by its uuid, and by its internal
      id when that id was free. */
  lemma CreateThenGetCompany(companies: seq<Company>, input: CompanyIn, id: int, draw: string, now: int)
    requires Database.IsUuid4Digits(draw)
    requires forall c :: c in companies ==> c.uuid != Database.UuidForInsert(Database.CompanyKind, draw)
    ensures var (after, row) := CreateCompany(companies, input, id, draw, now);
      && GetCompany(after, row.uuid) == Ok(row)
      && ((forall c :: c in companies ==> c.id != id) ==> GetCompanyByInternalId(after, id) == Ok(row))
  {
    var (after, row) := CreateCompany(companies, input, id, draw, now);
    Store.FindOneAppended(companies, (c: Company) => c.uuid == row.uuid, row);
    if forall c :: c in companies ==> c.id != id {
      Store.FindOneAppended(companies, (c: Company) => c.id == id, row);
    }
  }

  /** `db_update_company`: the name is overwritten only when truthy; the
      timestamp is always refreshed. */
  function UpdateCompany(row: Company, input: CompanyIn, now: int): (r: Company)
    ensures r.id == row.id && r.uuid == row.uuid && r.updatedAt == now
    ensures TruthyText(input.name) ==> r.name == input.name
    ensures !TruthyText(input.name) ==> r.name == row.name
  {
    var name := if TruthyText(input.name) then input.name else row.name;
    row.(name := name, updatedAt := now)
  }

  /** A validated name has at least three characters, so a validated update
      always replaces the name. */
  lemma ValidatedUpdateOverwritesName(row: Company, input: CompanyIn, now: int)
    requires ValidCompanyIn(input)
    ensures UpdateCompany(row, input, now) == row.(name := input.name, updatedAt := now)
  {
  }
}
