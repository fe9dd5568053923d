/** The decision logic of the check endpoints: create-time validation, the
    connector id to uuid mapping of the listing, the update, and the two ways
    of running a check.

    The database is the three tables the endpoints touch. Every library the
    endpoints call (graph parsing, validation, spreadsheet reading, the
    extraction engine, the vault, outbound requests) is a field of
    `Services`. */
module CheckRouter {
  import opened Outcomes
  import opened Rdf
  import opened CheckSchemas
  import opened ConnectorStore
  import opened CompanyStore
  import opened CheckStore
  import opened CheckHelpers
  import opened Convertors
  import Database
  import Vault

  /** The tables the check endpoints read and write. */
  datatype Db = Db(companies: seq<Company>, connectors: seq<Connector>, checks: seq<Check>)

  /** What the validator reports: whether the data conforms, and the report text. */
  datatype Report = Report(conforms: bool, text: string)

  /** The data payload a run validates: a converted document, or a JSON body
      as received. */
  datatype DataDoc = Converted(doc: JsonLd) | Body(content: string)

  /** The libraries and remote services the endpoints call. */
  datatype Services = Services(
    vault: Vault.Vault,
    parse: string -> Parse,
    fetch: (string, string, string) -> Fetch,
    post: string -> Response,
    get: (string, nat) -> Response,
    readExcel: string -> Result<seq<map<string, string>>>,
    extract: (Element, Option<map<string, string>>) -> Result<Graph>,
    qname: Term -> Result<string>,
    decodeJson: string -> Result<string>,
    asTtl: DataDoc -> Result<string>,
    validate: (string, Graph, Graph) -> Result<Report>,
    schemaLoadedAt: int)

  const RuleRequired: string := "Rule must be given when rule source is digichecks-service"
  const ConnectorRequired: string := "Connector must be specified when using api as rule source"

  const TransferHost: string := "51.138.27.252:8181"
  const DataHost: string := "51.138.27.252:8183"

  // ----- Responses ------------------------------------------------------------

  /** The value a handler returns for a stored row, with the given
      `connector_id`. */
  function ToCheckOutValue(row: Check, connectorId: PyValue): (r: CheckOutValue)
    ensures r.checkId == row.uuid && r.checkName == row.checkName
    ensures r.ruleSource == row.ruleSource && r.rule == row.rule
    ensures r.connectorId == connectorId
  {
    CheckOutValue(row.uuid, row.checkName, row.ruleSource, row.rule, connectorId)
  }

  /** A stored row's `connector_id` attribute as Python sees it. */
  function RefValue(ref: ConnectorRef): (r: PyValue)
    ensures r.PyNone? <==> ref.NoConnector?
    ensures ref.InternalId? ==> r == PyInt(ref.id)
  {
    match ref
    case NoConnector => PyNone
    case InternalId(n) => PyInt(n)
  }

  /** An optional uuid as a Python value. */
  function UuidValue(u: Option<string>): (r: PyValue)
    ensures r.PyText? <==> u.Some?
    ensures u.Some? ==> r == PyText(u.value)
  {
    match u
    case Some(x) => PyText(x)
    case None => PyNone
  }

  /** The framework's handling of a handler's outcome: an error stands; a
      returned value is validated against the response model. */
  function Respond(out: Result<CheckOutValue>, model: CheckOutValue -> Result<CheckOut>): (r: Result<CheckOut>)
    ensures out.Err? ==> r == Err(out.error)
    ensures out.Ok? ==> r == model(out.value)
  {
    match out
    case Err(e) => Err(e)
    case Ok(v) => model(v)
  }

  // ----- create_check -------------------------------------------------------

  /** The request passes the create-time validation that needs no lookup: a
      hosted check has a rule, an api check names a connector. */
  predicate Admissible(input: CheckIn) {
    && (input.ruleSource == DigichecksHosted ==> TruthyText(input.rule))
    && (input.ruleSource == Api ==> TruthyOpt(input.connectorId))
  }

  /** The checks `create_check` makes before touching the company: the rule
      of a hosted check, the presence and existence of the connector of an
      api check. The result is the connector to attach, if any. */
  function ValidateCreate(conns: seq<Connector>, input: CheckIn): (r: Result<Option<Connector>>)
    ensures input.ruleSource == DigichecksHosted && !TruthyText(input.rule) ==>
      r == Err(HttpError(BadRequest, RuleRequired))
    ensures input.ruleSource == Api && !TruthyOpt(input.connectorId) ==>
      r == Err(HttpError(BadRequest, ConnectorRequired))
    ensures input.ruleSource == Api && TruthyOpt(input.connectorId) ==>
      var found := GetConnector(conns, input.connectorId.value);
      && (found.Err? ==> r == Err(found.error))
      && (found.Ok? ==> r == Ok(Some(found.value)))
    ensures r.Ok? <==>
      Admissible(input) && (input.ruleSource == Api ==> GetConnector(conns, input.connectorId.value).Ok?)
    ensures r.Ok? ==> (r.value.Some? <==> input.ruleSource == Api)
  {
    if input.ruleSource == DigichecksHosted && !TruthyText(input.rule) then
      Err(HttpError(BadRequest, RuleRequired))
    else if input.ruleSource == Api then
      if !TruthyOpt(input.connectorId) then Err(HttpError(BadRequest, ConnectorRequired))
      else
        var conn :- GetConnector(conns, input.connectorId.value);
        Ok(Some(conn))
    else
      Ok(None)
  }

  /** The body of `create_check`: validation, company lookup, then the
      insert. The row of an api check stores the connector's internal id and
      the handler returns a schema carrying the connector's uuid, which is the
      one the caller sent; for a hosted check it returns the stored row, whose
      `connector_id` is `None`. */
  function CreateCheckHandler(db: Db, companyUuid: string, input: CheckIn, id: int, draw: string, now: int)
    : (r: (Db, Result<CheckOutValue>))
    requires Database.IsUuid4Digits(draw)
    ensures r.0.companies == db.companies && r.0.connectors == db.connectors
    ensures r.1.Err? ==> r.0 == db
    ensures ValidateCreate(db.connectors, input).Err? ==> r.1 == Err(ValidateCreate(db.connectors, input).error)
    ensures r.1.Ok? <==> ValidateCreate(db.connectors, input).Ok? && GetCompany(db.companies, companyUuid).Ok?
    ensures r.1.Ok? ==>
      && |r.0.checks| == |db.checks| + 1
      && r.0.checks[..|db.checks|] == db.checks
      && var row := r.0.checks[|db.checks|];
      && row.companyId == GetCompany(db.companies, companyUuid).value.id
      && row.checkName == input.checkName && row.rule == input.rule
      && row.uuid == Database.UuidForInsert(Database.CheckKind, draw)
      && ParseRuleSource(row.ruleSource) == Some(input.ruleSource)
      && var conn := ValidateCreate(db.connectors, input).value;
      && (conn.None? ==> row.connector == NoConnector && r.1.value == ToCheckOutValue(row, PyNone))
      && (conn.Some? ==> r.1.value == ToCheckOutValue(row, PyText(input.connectorId.value)))
      // a connector whose primary key is falsy (0) is stored as no connector
      && (conn.Some? ==> row.connector == if conn.value.id != 0 then InternalId(conn.value.id) else NoConnector)
  {
    match ValidateCreate(db.connectors, input)
    case Err(e) => (db, Err(e))
    case Ok(conn) =>
      match GetCompany(db.companies, companyUuid)
      case Err(e) => (db, Err(e))
      case Ok(company) =>
        var connectorId := if conn.Some? then Some(conn.value.id) else None;
        var (checks, row) := CheckStore.CreateCheck(db.checks, input, company.id, connectorId, id, draw, now);
        assert checks[..|db.checks|] == db.checks;
        var out := ToCheckOutValue(row, if conn.Some? then PyText(conn.value.uuid) else RefValue(row.connector));
        (db.(checks := checks), Ok(out))
  }

  /** `create_check` as written: the response model's `connector_id: str`
      refuses the `None` of a hosted check, after the insert has committed. */
  function CreateCheckAsWritten(db: Db, companyUuid: string, input: CheckIn, id: int, draw: string, now: int)
    : (r: (Db, Result<CheckOut>))
    requires Database.IsUuid4Digits(draw)
    ensures r.0 == CreateCheckHandler(db, companyUuid, input, id, draw, now).0
    ensures r.1.Ok? <==> CreateCheckHandler(db, companyUuid, input, id, draw, now).1.Ok? && input.ruleSource == Api
  {
    var (after, out) := CreateCheckHandler(db, companyUuid, input, id, draw, now);
    (after, Respond(out, CheckOutAsDeclared))
  }

  /** A hosted check is stored, yet its creation answers with an internal
      error. */
  lemma HostedCreateCommitsButFails(db: Db, companyUuid: string, input: CheckIn, id: int, draw: string, now: int)
    requires Database.IsUuid4Digits(draw)
    requires input.ruleSource == DigichecksHosted && TruthyText(input.rule)
    requires GetCompany(db.companies, companyUuid).Ok?
    ensures var (after, res) := CreateCheckAsWritten(db, companyUuid, input, id, draw, now);
      && |after.checks| == |db.checks| + 1
      && res == Err(Raised(ResponseInvalid, "connector_id: Input should be a valid string"))
  {
  }

  /** `create_check` answered through the evidently intended response model
      (`connector_id: Optional[str]`): every successful creation responds, an
      api check with the connector uuid the caller sent, a hosted one with
      none. */
  function CreateCheck(db: Db, companyUuid: string, input: CheckIn, id: int, draw: string, now: int)
    : (r: (Db, Result<CheckOut>))
    requires Database.IsUuid4Digits(draw)
    ensures r.0 == CreateCheckHandler(db, companyUuid, input, id, draw, now).0
    ensures r.1.Err? ==> r.0 == db
    ensures r.1.Ok? <==> ValidateCreate(db.connectors, input).Ok? && GetCompany(db.companies, companyUuid).Ok?
    ensures r.1.Ok? ==>
      && r.1.value.checkId == Database.UuidForInsert(Database.CheckKind, draw)
      && r.1.value.checkName == input.checkName && r.1.value.rule == input.rule
      && ParseRuleSource(r.1.value.ruleSource) == Some(input.ruleSource)
      && r.1.value.connectorId == (if input.ruleSource == Api then input.connectorId else None)
  {
    var (after, out) := CreateCheckHandler(db, companyUuid, input, id, draw, now);
    (after, Respond(out, CheckOutIntended))
  }

  // ----- get_checks -----------------------------------------------------------

  /** Python truthiness of a stored `connector_id`. */
  predicate RefTruthy(ref: ConnectorRef) {
    ref.InternalId? && ref.id != 0
  }

  /** The connector lookups of `get_checks`, one per check with a truthy
      connector reference, in order; the first failing lookup is the error. */
  function LookupConnectors(conns: seq<Connector>, checks: seq<Check>): (r: Result<seq<Connector>>)
    ensures r.Err? <==>
      exists i :: 0 <= i < |checks| && RefTruthy(checks[i].connector)
        && GetConnectorByInternalId(conns, checks[i].connector).Err?
    ensures r.Ok? ==> forall i :: 0 <= i < |checks| && RefTruthy(checks[i].connector) ==>
      GetConnectorByInternalId(conns, checks[i].connector).Ok?
      && GetConnectorByInternalId(conns, checks[i].connector).value in r.value
    ensures r.Ok? ==> forall c :: c in r.value ==> c in conns && c.id != 0
  {
    if checks == [] then Ok([])
    else
      var rest := LookupConnectors(conns, checks[1..]);
      assert forall i :: 1 <= i < |checks| ==> checks[i] == checks[1..][i - 1];
      if RefTruthy(checks[0].connector) then
        match GetConnectorByInternalId(conns, checks[0].connector)
        case Err(e) => Err(e)
        case Ok(c) => if rest.Err? then rest else Ok([c] + rest.value)
      else rest
  }

  /** `{connector.id: connector.uuid for connector in db_connectors}`: a later
      connector with the same id overwrites an earlier one. */
  function ConnectorMap(cs: seq<Connector>): (m: map<int, string>)
    ensures forall c :: c in cs ==> c.id in m
    ensures forall k :: k in m ==> exists c :: c in cs && c.id == k && m[k] == c.uuid
  {
    if cs == [] then map[]
    else
      var init := cs[..|cs| - 1];
      var last := cs[|cs| - 1];
      var m := ConnectorMap(init);
      assert forall c :: c in cs ==> c in init || c == last;
      assert forall c :: c in init ==> c in cs;
      m[last.id := last.uuid]
  }

  /** `connector_map.get(check.connector_id)`. */
  function Mapped(m: map<int, string>, ref: ConnectorRef): Option<string> {
    if ref.InternalId? && ref.id in m then Some(m[ref.id]) else None
  }

  function RenderChecks(owned: seq<Check>, m: map<int, string>): (r: seq<CheckOutValue>)
    ensures |r| == |owned|
    ensures forall i :: 0 <= i < |owned| ==> r[i] == ToCheckOutValue(owned[i], UuidValue(Mapped(m, owned[i].connector)))
  {
    if owned == [] then []
    else [ToCheckOutValue(owned[0], UuidValue(Mapped(m, owned[0].connector)))] + RenderChecks(owned[1..], m)
  }

  /** The body of `get_checks`: the company's checks in storage order, each
      with its internal connector id replaced by the connector's uuid, or
      `None` when the map has no entry. */
  function ListChecks(db: Db, companyUuid: string): (r: Result<seq<CheckOutValue>>)
    ensures GetCompany(db.companies, companyUuid).Err? ==> r == Err(GetCompany(db.companies, companyUuid).error)
    ensures GetCompany(db.companies, companyUuid).Ok? ==>
      var owned := GetAllChecks(db.checks, GetCompany(db.companies, companyUuid).value.id);
      && (r.Err? <==>
            exists i :: 0 <= i < |owned| && RefTruthy(owned[i].connector)
              && GetConnectorByInternalId(db.connectors, owned[i].connector).Err?)
      && (r.Ok? ==>
            && |r.value| == |owned|
            && forall i :: 0 <= i < |owned| ==>
                 && r.value[i].checkId == owned[i].uuid && r.value[i].checkName == owned[i].checkName
                 && r.value[i].ruleSource == owned[i].ruleSource && r.value[i].rule == owned[i].rule
                 && !r.value[i].connectorId.PyInt?)
  {
    var company :- GetCompany(db.companies, companyUuid);
    var owned := GetAllChecks(db.checks, company.id);
    var found :- LookupConnectors(db.connectors, owned);
    Ok(RenderChecks(owned, ConnectorMap(found)))
  }

  /** `get_checks` as written: every element is validated against
      `CheckOutSchema`, whose `connector_id: str` refuses `None`. */
  function GetChecksAsWritten(db: Db, companyUuid: string): (r: Result<seq<CheckOut>>)
    ensures ListChecks(db, companyUuid).Err? ==> r == Err(ListChecks(db, companyUuid).error)
    ensures ListChecks(db, companyUuid).Ok? ==>
      (r.Ok? <==> forall i :: 0 <= i < |ListChecks(db, companyUuid).value| ==>
         CheckOutAsDeclared(ListChecks(db, companyUuid).value[i]).Ok?)
  {
    var values :- ListChecks(db, companyUuid);
    ValidateList(values, CheckOutAsDeclared)
  }

  /** A company that owns a check without a connector cannot list its checks. */
  lemma ConnectorlessCheckBreaksListing(db: Db, companyUuid: string, row: Check)
    requires GetCompany(db.companies, companyUuid).Ok?
    requires row in db.checks && row.companyId == GetCompany(db.companies, companyUuid).value.id
    requires row.connector == NoConnector
    ensures GetChecksAsWritten(db, companyUuid).Err?
  {
    var owned := GetAllChecks(db.checks, row.companyId);
    assert row in owned;
    var i :| 0 <= i < |owned| && owned[i] == row;
    if ListChecks(db, companyUuid).Ok? {
      var values := ListChecks(db, companyUuid).value;
      var found := LookupConnectors(db.connectors, owned).value;
      assert values == RenderChecks(owned, ConnectorMap(found));
      assert values[i].connectorId == PyNone;
      assert CheckOutAsDeclared(values[i]).Err?;
    }
  }

  /** `get_checks` answered through the evidently intended response model:
      the listing responds whenever the lookups succeed and the stored rule
      sources are enumeration values. */
  function GetChecks(db: Db, companyUuid: string): (r: Result<seq<CheckOut>>)
    ensures ListChecks(db, companyUuid).Err? ==> r == Err(ListChecks(db, companyUuid).error)
    ensures ListChecks(db, companyUuid).Ok? ==>
      var values := ListChecks(db, companyUuid).value;
      && (r.Ok? <==> forall i :: 0 <= i < |values| ==> ParseRuleSource(values[i].ruleSource).Some?)
      && (r.Ok? ==>
            && |r.value| == |values|
            && forall i :: 0 <= i < |values| ==>
                 && r.value[i].checkId == values[i].checkId && r.value[i].checkName == values[i].checkName
                 && r.value[i].ruleSource == values[i].ruleSource && r.value[i].rule == values[i].rule
                 && (r.value[i].connectorId.Some? <==> values[i].connectorId.PyText?))
  {
    var values :- ListChecks(db, companyUuid);
    ValidateList(values, CheckOutIntended)
  }

  /** With unique primary keys, the map built from looked-up connectors sends
      each one's id to its own uuid. */
  lemma MapHoldsUniqueConnector(conns: seq<Connector>, found: seq<Connector>, c0: Connector)
    requires forall a, b :: 0 <= a < b < |conns| ==> conns[a].id != conns[b].id
    requires forall c :: c in found ==> c in conns
    requires c0 in found
    ensures c0.id in ConnectorMap(found) && ConnectorMap(found)[c0.id] == c0.uuid
  {
    var m := ConnectorMap(found);
    var c :| c in found && c.id == c0.id && m[c0.id] == c.uuid;
    var j :| 0 <= j < |conns| && conns[j] == c;
    var k :| 0 <= k < |conns| && conns[k] == c0;
    assert j == k;
  }

  /** With unique connector primary keys, each listed check reports the uuid
      of its own connector, and a check without a (truthy) connector reports
      none. */
  lemma GetChecksReportsOwnConnector(db: Db, companyUuid: string, i: int)
    requires forall a, b :: 0 <= a < b < |db.connectors| ==> db.connectors[a].id != db.connectors[b].id
    requires GetChecks(db, companyUuid).Ok?
    requires GetCompany(db.companies, companyUuid).Ok?
    requires 0 <= i < |GetAllChecks(db.checks, GetCompany(db.companies, companyUuid).value.id)|
    ensures var owned := GetAllChecks(db.checks, GetCompany(db.companies, companyUuid).value.id);
      var ref := owned[i].connector;
      && (RefTruthy(ref) ==>
            GetConnectorByInternalId(db.connectors, ref).Ok?
            && GetChecks(db, companyUuid).value[i].connectorId
               == Some(GetConnectorByInternalId(db.connectors, ref).value.uuid))
      && (!RefTruthy(ref) ==> GetChecks(db, companyUuid).value[i].connectorId.None?)
  {
    var company := GetCompany(db.companies, companyUuid).value;
    var owned := GetAllChecks(db.checks, company.id);
    var found := LookupConnectors(db.connectors, owned).value;
    var m := ConnectorMap(found);
    var values := ListChecks(db, companyUuid).value;
    assert values == RenderChecks(owned, m);
    var ref := owned[i].connector;
    assert GetChecks(db, companyUuid).value[i] == CheckOutIntended(values[i]).value;
    if RefTruthy(ref) {
      MapHoldsUniqueConnector(db.connectors, found, GetConnectorByInternalId(db.connectors, ref).value);
    } else if ref.InternalId? {
      assert ref.id !in m;
    }
  }

  /** A check just created for a connector is the company's last check, and
      references the connector the caller named by its internal id. */
  lemma CreatedCheckIsLastOwned(db: Db, companyUuid: string, input: CheckIn, id: int, draw: string, now: int)
    requires Database.IsUuid4Digits(draw)
    requires forall c :: c in db.connectors ==> c.id > 0
    requires input.ruleSource == Api
    requires CreateCheckHandler(db, companyUuid, input, id, draw, now).1.Ok?
    ensures var after := CreateCheckHandler(db, companyUuid, input, id, draw, now).0;
      var company := GetCompany(after.companies, companyUuid);
      var conn := GetConnector(after.connectors, input.connectorId.value);
      && company.Ok? && conn.Ok?
      && var owned := GetAllChecks(after.checks, company.value.id);
      && |owned| > 0
      && owned[|owned| - 1].uuid == Database.UuidForInsert(Database.CheckKind, draw)
      && owned[|owned| - 1].connector == InternalId(conn.value.id)
      && conn.value in after.connectors && conn.value.uuid == input.connectorId.value
  {
    var after := CreateCheckHandler(db, companyUuid, input, id, draw, now).0;
    var company := GetCompany(db.companies, companyUuid).value;
    var row := after.checks[|db.checks|];
    assert after.checks == db.checks + [row];
    Store.WhereAppend(db.checks, (c: Check) => c.companyId == company.id, row);
  }

  /** The company's last check, when it references a connector, is listed
      last with that connector's uuid. */
  lemma LastListedReportsConnector(db: Db, companyUuid: string, conn: Connector)
    requires forall a, b :: 0 <= a < b < |db.connectors| ==> db.connectors[a].id != db.connectors[b].id
    requires GetChecks(db, companyUuid).Ok?
    requires GetCompany(db.companies, companyUuid).Ok?
    requires conn in db.connectors && conn.id > 0
    requires var owned := GetAllChecks(db.checks, GetCompany(db.companies, companyUuid).value.id);
      |owned| > 0 && owned[|owned| - 1].connector == InternalId(conn.id)
    ensures var owned := GetAllChecks(db.checks, GetCompany(db.companies, companyUuid).value.id);
      var listed := GetChecks(db, companyUuid).value;
      && |listed| == |owned|
      && listed[|listed| - 1].checkId == owned[|owned| - 1].uuid
      && listed[|listed| - 1].connectorId == Some(conn.uuid)
  {
    var owned := GetAllChecks(db.checks, GetCompany(db.companies, companyUuid).value.id);
    var values := ListChecks(db, companyUuid).value;
    var listed := GetChecks(db, companyUuid).value;
    assert |values| == |owned|;
    assert |listed| == |values|;
    var last := |owned| - 1;
    assert listed[last].checkId == values[last].checkId;
    InternalIdFindsConnector(db.connectors, conn);
    GetChecksReportsOwnConnector(db, companyUuid, last);
  }

  /** A check just created for a connector is listed with the uuid the caller
      named, provided the listing responds and connector ids are unique and
      positive. */
  lemma CreateThenListReportsConnector(
    db: Db, companyUuid: string, input: CheckIn, id: int, draw: string, now: int)
    requires Database.IsUuid4Digits(draw)
    requires forall a, b :: 0 <= a < b < |db.connectors| ==> db.connectors[a].id != db.connectors[b].id
    requires forall c :: c in db.connectors ==> c.id > 0
    requires input.ruleSource == Api
    requires CreateCheck(db, companyUuid, input, id, draw, now).1.Ok?
    requires GetChecks(CreateCheck(db, companyUuid, input, id, draw, now).0, companyUuid).Ok?
    ensures var after := CreateCheck(db, companyUuid, input, id, draw, now).0;
      var listed := GetChecks(after, companyUuid).value;
      && |listed| > 0
      && listed[|listed| - 1].checkId == Database.UuidForInsert(Database.CheckKind, draw)
      && listed[|listed| - 1].connectorId == input.connectorId
  {
    var after := CreateCheckHandler(db, companyUuid, input, id, draw, now).0;
    CreatedCheckIsLastOwned(db, companyUuid, input, id, draw, now);
    var conn := GetConnector(after.connectors, input.connectorId.value).value;
    assert after.connectors == db.connectors;
    LastListedReportsConnector(after, companyUuid, conn);
  }
  // ----- get_check --------------------------------------------------------------

  /** The body of `get_check`: an api check is answered with its connector's
      uuid, looked up by internal id; any other check with the stored row. */
  function ReadCheckHandler(db: Db, checkUuid: string): (r: Result<CheckOutValue>)
    ensures CheckStore.GetCheck(db.checks, checkUuid).Err? ==> r == Err(CheckStore.GetCheck(db.checks, checkUuid).error)
    ensures CheckStore.GetCheck(db.checks, checkUuid).Ok? ==>
      var row := CheckStore.GetCheck(db.checks, checkUuid).value;
      var conn := GetConnectorByInternalId(db.connectors, row.connector);
      && (row.ruleSource == Api.Value() && conn.Err? ==> r == Err(conn.error))
      && (row.ruleSource == Api.Value() && conn.Ok? ==> r == Ok(ToCheckOutValue(row, PyText(conn.value.uuid))))
      && (row.ruleSource != Api.Value() ==> r == Ok(ToCheckOutValue(row, RefValue(row.connector))))
  {
    var row :- CheckStore.GetCheck(db.checks, checkUuid);
    if row.ruleSource == Api.Value() then
      var conn :- GetConnectorByInternalId(db.connectors, row.connector);
      Ok(ToCheckOutValue(row, PyText(conn.uuid)))
    else
      Ok(ToCheckOutValue(row, RefValue(row.connector)))
  }

  /** `get_check` as written: only an api check ever responds; a hosted
      check's row fails the response model. */
  function ReadCheckAsWritten(db: Db, checkUuid: string): (r: Result<CheckOut>)
    ensures CheckStore.GetCheck(db.checks, checkUuid).Err? ==> r == Err(CheckStore.GetCheck(db.checks, checkUuid).error)
    ensures r.Ok? ==>
      && CheckStore.GetCheck(db.checks, checkUuid).Ok?
      && CheckStore.GetCheck(db.checks, checkUuid).value.ruleSource == Api.Value()
    ensures CheckStore.GetCheck(db.checks, checkUuid).Ok? ==>
      var row := CheckStore.GetCheck(db.checks, checkUuid).value;
      (row.ruleSource == Api.Value() && GetConnectorByInternalId(db.connectors, row.connector).Ok? ==>
         r == Ok(CheckOut(row.uuid, row.checkName, row.ruleSource, row.rule,
                   Some(GetConnectorByInternalId(db.connectors, row.connector).value.uuid))))
  {
    Respond(ReadCheckHandler(db, checkUuid), CheckOutAsDeclared)
  }

  /** `get_check` answered through the evidently intended response model: a
      hosted check without a connector responds with none. */
  function ReadCheck(db: Db, checkUuid: string): (r: Result<CheckOut>)
    ensures CheckStore.GetCheck(db.checks, checkUuid).Ok? ==>
      var row := CheckStore.GetCheck(db.checks, checkUuid).value;
      && (row.ruleSource == DigichecksHosted.Value() && row.connector == NoConnector ==>
            r == Ok(CheckOut(row.uuid, row.checkName, row.ruleSource, row.rule, None)))
      && (row.ruleSource == Api.Value() && GetConnectorByInternalId(db.connectors, row.connector).Ok? ==>
            r == Ok(CheckOut(row.uuid, row.checkName, row.ruleSource, row.rule,
                      Some(GetConnectorByInternalId(db.connectors, row.connector).value.uuid))))
    ensures r.Ok? ==> CheckStore.GetCheck(db.checks, checkUuid).Ok?
  {
    Respond(ReadCheckHandler(db, checkUuid), CheckOutIntended)
  }

  // ----- update_check -----------------------------------------------------------

  /** The checks table with every row of the given uuid replaced by `row`. */
  function ReplaceByUuid(checks: seq<Check>, uuid: string, row: Check): (r: seq<Check>)
    ensures |r| == |checks|
    ensures forall i :: 0 <= i < |checks| ==> r[i] == if checks[i].uuid == uuid then row else checks[i]
  {
    if checks == [] then []
    else [if checks[0].uuid == uuid then row else checks[0]] + ReplaceByUuid(checks[1..], uuid, row)
  }

  /** `update_check` as written: the check is looked up by uuid and patched by
      `db_update_check`. An update naming a connector is refused at commit
      and stores nothing; any other update commits, and then the returned row
      (whose `connector_id` is `None` or an integer) fails the response
      model. So the endpoint never answers successfully. */
  function UpdateCheckAsWritten(db: Db, checkUuid: string, input: CheckIn, now: int): (r: (Db, Result<CheckOut>))
    ensures CheckStore.GetCheck(db.checks, checkUuid).Err? ==>
      r == (db, Err(CheckStore.GetCheck(db.checks, checkUuid).error))
    ensures CheckStore.GetCheck(db.checks, checkUuid).Ok? && TruthyOpt(input.connectorId) ==>
      r == (db, Err(ConnectorTextRejected))
    ensures CheckStore.GetCheck(db.checks, checkUuid).Ok? && !TruthyOpt(input.connectorId) ==>
      && r.0 == db.(checks := ReplaceByUuid(db.checks, checkUuid,
                               Merge(CheckStore.GetCheck(db.checks, checkUuid).value, input, now)))
      && r.1.Err? && r.1.error.Raised? && r.1.error.exception == ResponseInvalid
    ensures r.1.Err?
  {
    match CheckStore.GetCheck(db.checks, checkUuid)
    case Err(e) => (db, Err(e))
    case Ok(row) =>
      match CheckStore.UpdateCheck(row, input, now)
      case Err(e) => (db, Err(e))
      case Ok(updated) =>
        var after := db.(checks := ReplaceByUuid(db.checks, checkUuid, updated));
        (after, CheckOutAsDeclared(ToCheckOutValue(updated, RefValue(updated.connector))))
  }

  /** The as-written update never changes which connector a check uses: an
      api check can never be re-pointed at another connector. */
  lemma UpdateAsWrittenKeepsConnectors(db: Db, checkUuid: string, input: CheckIn, now: int)
    ensures var after := UpdateCheckAsWritten(db, checkUuid, input, now).0;
      && |after.checks| == |db.checks|
      && forall i :: 0 <= i < |db.checks| ==> after.checks[i].connector == db.checks[i].connector
  {
    var found := CheckStore.GetCheck(db.checks, checkUuid);
    if found.Ok? && !TruthyOpt(input.connectorId) {
      var merged := Merge(found.value, input, now);
      assert merged.connector == found.value.connector;
      var replaced := ReplaceByUuid(db.checks, checkUuid, merged);
      assert UpdateCheckAsWritten(db, checkUuid, input, now).0.checks == replaced;
      forall i | 0 <= i < |db.checks|
        ensures replaced[i].connector == db.checks[i].connector
      {
        if db.checks[i].uuid == checkUuid {
          assert db.checks[i] in db.checks;
          // the lookup by uuid is unique, so the row found is this one
          assert found.value.uuid == checkUuid;
        }
      }
    }
  }

  /** `db_update_check` with the connector reference evidently intended: a
      submitted connector uuid is looked up (404 when unknown) and its
      internal id is stored, as `create_check` does; every other field follows
      the truthy merge. */
  function PatchCheck(conns: seq<Connector>, row: Check, input: CheckIn, now: int): (r: Result<Check>)
    ensures TruthyOpt(input.connectorId) ==>
      var found := GetConnector(conns, input.connectorId.value);
      && (found.Err? ==> r == Err(found.error))
      && (found.Ok? ==> r.Ok? && r.value.connector == InternalId(found.value.id))
    ensures !TruthyOpt(input.connectorId) ==> r.Ok? && r.value.connector == row.connector
    ensures r.Ok? ==>
      && r.value.id == row.id && r.value.uuid == row.uuid && r.value.companyId == row.companyId
      && r.value.updatedAt == now
      && ParseRuleSource(r.value.ruleSource) == Some(input.ruleSource)
      && r.value.checkName == (if TruthyText(input.checkName) then input.checkName else row.checkName)
      && r.value.rule == (if TruthyText(input.rule) then input.rule else row.rule)
  {
    var patched := Merge(row, input, now);
    if TruthyOpt(input.connectorId) then
      var conn :- GetConnector(conns, input.connectorId.value);
      Ok(patched.(connector := InternalId(conn.id)))
    else
      Ok(patched)
  }

  /** The connector uuid an updated check is answered with: that of the
      connector its reference names, looked up as `get_check` does, or none. */
  function RenderConnector(conns: seq<Connector>, ref: ConnectorRef): (r: Result<PyValue>)
    ensures !RefTruthy(ref) ==> r == Ok(PyNone)
    ensures RefTruthy(ref) ==>
      var c := GetConnectorByInternalId(conns, ref);
      && (c.Err? ==> r == Err(c.error))
      && (c.Ok? ==> r == Ok(PyText(c.value.uuid)))
  {
    if RefTruthy(ref) then
      var c :- GetConnectorByInternalId(conns, ref);
      Ok(PyText(c.uuid))
    else Ok(PyNone)
  }

  /** `update_check` with the corrected patch, answered through the intended
      response model with the connector's uuid. */
  function UpdateCheck(db: Db, checkUuid: string, input: CheckIn, now: int): (r: (Db, Result<CheckOut>))
    ensures CheckStore.GetCheck(db.checks, checkUuid).Err? ==>
      r == (db, Err(CheckStore.GetCheck(db.checks, checkUuid).error))
    ensures CheckStore.GetCheck(db.checks, checkUuid).Ok? ==>
      var patched := PatchCheck(db.connectors, CheckStore.GetCheck(db.checks, checkUuid).value, input, now);
      && (patched.Err? ==> r == (db, Err(patched.error)))
      && (patched.Ok? ==> r.0 == db.(checks := ReplaceByUuid(db.checks, checkUuid, patched.value)))
      && (patched.Ok? && r.1.Ok? ==>
            && r.1.value.checkId == checkUuid
            && r.1.value.checkName == patched.value.checkName && r.1.value.rule == patched.value.rule
            && ParseRuleSource(r.1.value.ruleSource) == Some(input.ruleSource))
    ensures r.0.companies == db.companies && r.0.connectors == db.connectors
    ensures |r.0.checks| == |db.checks|
    ensures forall i :: 0 <= i < |db.checks| && db.checks[i].uuid != checkUuid ==> r.0.checks[i] == db.checks[i]
  {
    match CheckStore.GetCheck(db.checks, checkUuid)
    case Err(e) => (db, Err(e))
    case Ok(row) =>
      match PatchCheck(db.connectors, row, input, now)
      case Err(e) => (db, Err(e))
      case Ok(updated) =>
        var after := db.(checks := ReplaceByUuid(db.checks, checkUuid, updated));
        match RenderConnector(db.connectors, updated.connector)
        case Err(e) => (after, Err(e))
        case Ok(connector) => (after, CheckOutIntended(ToCheckOutValue(updated, connector)))
  }

  /** The corrected patch of a row naming an existing connector (unique,
      positive ids) references it, and renders as its uuid. */
  lemma PatchNamingConnectorRendersIt(conns: seq<Connector>, row: Check, input: CheckIn, now: int, conn: Connector)
    requires forall a, b :: 0 <= a < b < |conns| ==> conns[a].id != conns[b].id
    requires conn in conns && conn.id > 0
    requires TruthyOpt(input.connectorId) && GetConnector(conns, input.connectorId.value) == Ok(conn)
    ensures PatchCheck(conns, row, input, now).Ok?
    ensures PatchCheck(conns, row, input, now).value.connector == InternalId(conn.id)
    ensures RenderConnector(conns, InternalId(conn.id)) == Ok(PyText(input.connectorId.value))
  {
    InternalIdFindsConnector(conns, conn);
  }

  /** An update naming an existing connector (unique, positive ids) stores
      its internal id and answers with the uuid the caller sent. */
  lemma UpdateNamingConnectorReportsIt(db: Db, checkUuid: string, input: CheckIn, now: int, conn: Connector)
    requires forall a, b :: 0 <= a < b < |db.connectors| ==> db.connectors[a].id != db.connectors[b].id
    requires conn in db.connectors && conn.id > 0
    requires TruthyOpt(input.connectorId) && GetConnector(db.connectors, input.connectorId.value) == Ok(conn)
    requires CheckStore.GetCheck(db.checks, checkUuid).Ok?
    ensures var (after, res) := UpdateCheck(db, checkUuid, input, now);
      && res.Ok? && res.value.connectorId == input.connectorId
      && forall i :: 0 <= i < |db.checks| && db.checks[i].uuid == checkUuid ==>
           after.checks[i].connector == InternalId(conn.id)
  {
    var row := CheckStore.GetCheck(db.checks, checkUuid).value;
    PatchNamingConnectorRendersIt(db.connectors, row, input, now, conn);
    var updated := PatchCheck(db.connectors, row, input, now).value;
    var value := ToCheckOutValue(updated, PyText(input.connectorId.value));
    assert CheckOutIntended(value).Ok?;
  }

  /** After the corrected patch, which `UpdateCheck` stores, an api check
      resolves its rule through the connector the caller named, with that
      connector's credentials. */
  lemma UpdatedApiCheckResolvesNamedConnector(
    conns: seq<Connector>, row: Check, input: CheckIn, now: int, vault: Vault.Vault,
    conn: Connector, plain: string, nonce: nat,
    fetch: (string, string, string) -> Fetch, parse: string -> Parse)
    requires forall a, b :: 0 <= a < b < |conns| ==> conns[a].id != conns[b].id
    requires Vault.Sound(vault)
    requires input.ruleSource == Api && TruthyOpt(input.connectorId)
    requires conn in conns && conn.uuid == input.connectorId.value && conn.password == vault.encrypt(plain, nonce)
    requires PatchCheck(conns, row, input, now).Ok?
    ensures var updated := PatchCheck(conns, row, input, now).value;
      ResolveRule(updated, conns, vault, fetch, parse).1 == [RuleRequest(updated.rule, conn.username, plain)]
  {
    var updated := PatchCheck(conns, row, input, now).value;
    // the uuid lookup succeeded, so the named connector is the only one with that uuid
    assert GetConnector(conns, input.connectorId.value) == Ok(conn);
    assert updated.connector == InternalId(conn.id) && updated.ruleSource == Api.Value();
    ApiRuleUsesCreatedPassword(updated, conns, vault, conn, plain, nonce, fetch, parse);
  }

  // ----- run_check ------------------------------------------------------------

  /** The validation step shared by both runs: serialize the data, validate it
      with the rule graph as both shapes and ontology, and report `Pass`
      exactly when the data conforms. The timestamp is the value fixed when
      the response schema was loaded. */
  function Verdict(svc: Services, checkUuid: string, check: Check, rule: Graph, doc: DataDoc): (r: Result<CheckResultOut>)
    ensures svc.asTtl(doc).Err? ==> r == Err(svc.asTtl(doc).error)
    ensures svc.asTtl(doc).Ok? ==>
      var report := svc.validate(svc.asTtl(doc).value, rule, rule);
      && (report.Err? ==> r == Err(report.error))
      && (report.Ok? ==>
            && r.Ok?
            && (r.value.checkResult == Pass <==> report.value.conforms)
            && r.value.description == Some(report.value.text))
    ensures r.Ok? ==> r.value.checkId == checkUuid && r.value.checkName == check.checkName
    ensures r.Ok? ==> r.value.timestamp == svc.schemaLoadedAt
  {
    var ttl :- svc.asTtl(doc);
    var report :- svc.validate(ttl, rule, rule);
    Ok(CheckResultOut(checkUuid, check.checkName, if report.conforms then Pass else Fail,
      Some(report.text), svc.schemaLoadedAt))
  }

  /** `run_check`: look the check up, resolve its rule, validate the data. */
  function RunCheck(db: Db, svc: Services, checkUuid: string, data: DataDoc): (r: (Result<CheckResultOut>, seq<Call>))
    ensures CheckStore.GetCheck(db.checks, checkUuid).Err? ==>
      r == (Err(CheckStore.GetCheck(db.checks, checkUuid).error), [])
    ensures CheckStore.GetCheck(db.checks, checkUuid).Ok? ==>
      var check := CheckStore.GetCheck(db.checks, checkUuid).value;
      var rule := ResolveRule(check, db.connectors, svc.vault, svc.fetch, svc.parse);
      && r.1 == rule.1
      && (rule.0.Err? ==> r.0 == Err(rule.0.error))
      && (rule.0.Ok? ==> r.0 == Verdict(svc, checkUuid, check, rule.0.value, data))
  {
    match CheckStore.GetCheck(db.checks, checkUuid)
    case Err(e) => (Err(e), [])
    case Ok(check) =>
      var (rule, calls) := ResolveRule(check, db.connectors, svc.vault, svc.fetch, svc.parse);
      if rule.Err? then (Err(rule.error), calls)
      else (Verdict(svc, checkUuid, check, rule.value, data), calls)
  }

  /** Running a hosted check just created makes no outbound request and
      validates against the rule text the caller sent. */
  lemma RunJustCreatedHostedCheck(
    db: Db, svc: Services, companyUuid: string, input: CheckIn, id: int, draw: string, now: int, data: DataDoc)
    requires Database.IsUuid4Digits(draw)
    requires input.ruleSource == DigichecksHosted
    requires CreateCheck(db, companyUuid, input, id, draw, now).1.Ok?
    requires forall c :: c in db.checks ==> c.uuid != Database.UuidForInsert(Database.CheckKind, draw)
    ensures var after := CreateCheck(db, companyUuid, input, id, draw, now).0;
      var uuid := Database.UuidForInsert(Database.CheckKind, draw);
      var run := RunCheck(after, svc, uuid, data);
      && run.1 == []
      && (svc.parse(input.rule).ParseFailed? ==> run.0.Err?)
      && (svc.parse(input.rule).Parsed? ==>
            run.0 == Verdict(svc, uuid, after.checks[|db.checks|], svc.parse(input.rule).graph, data))
      && (run.0.Ok? ==> run.0.value.checkId == uuid && run.0.value.checkName == input.checkName)
  {
    var after := CreateCheckHandler(db, companyUuid, input, id, draw, now).0;
    var row := after.checks[|db.checks|];
    assert after.checks == db.checks + [row];
    Store.FindOneAppended(db.checks, (c: Check) => c.uuid == row.uuid, row);
    assert CheckStore.GetCheck(after.checks, row.uuid) == Ok(row);
    assert row.ruleSource == DigichecksHosted.Value();
  }

  // ----- run_dspace_check -----------------------------------------------------

  /** The markup built from the spreadsheet rows: a missing column mapping is
      harmless only when there are no rows to iterate. */
  function ToMarkup(rows: seq<map<string, string>>, mapping: Option<seq<(string, string)>>): (r: Result<Element>)
    ensures mapping.Some? ==> r == Ok(DataFrameToXml(rows, mapping.value, (c: string) => c))
    ensures mapping.None? && rows == [] ==> r.Ok? && r.value.tag == "root" && r.value.children == []
    ensures mapping.None? && rows != [] ==> r == Err(Raised("AttributeError", "'NoneType' object has no attribute 'items'"))
  {
    if mapping.Some? then Ok(DataFrameToXml(rows, mapping.value, (c: string) => c))
    else if rows == [] then Ok(DataFrameToXml(rows, [], (c: string) => c))
    else Err(Raised("AttributeError", "'NoneType' object has no attribute 'items'"))
  }

  /** The dataset-type dispatch: a spreadsheet goes through markup,
      extraction and JSON-LD conversion; a JSON-LD body is decoded as JSON.
      The request schema admits no other type, so the handler's 400 branch
      for one cannot be reached (see `ParseDSpaceCheck`). */
  function Dispatch(svc: Services, data: DSpaceCheck, body: string): (r: Result<DataDoc>)
    ensures data.dataSetType.Excel? ==>
      var rows := svc.readExcel(body);
      && (rows.Err? ==> r == Err(rows.error))
      && (rows.Ok? && ToMarkup(rows.value, data.colMapping).Err? ==> r == Err(ToMarkup(rows.value, data.colMapping).error))
      && (rows.Ok? && ToMarkup(rows.value, data.colMapping).Ok? ==>
            var g := svc.extract(ToMarkup(rows.value, data.colMapping).value, data.namespaces);
            && (g.Err? ==> r == Err(g.error))
            && (g.Ok? ==>
                  var doc := GraphToJsonLd(g.value, svc.qname);
                  && (doc.Err? ==> r == Err(doc.error))
                  && (doc.Ok? ==> r == Ok(Converted(doc.value)))))
    ensures data.dataSetType.JsonLd? ==>
      && (svc.decodeJson(body).Err? ==> r == Err(svc.decodeJson(body).error))
      && (svc.decodeJson(body).Ok? ==> r == Ok(Body(svc.decodeJson(body).value)))
  {
    if data.dataSetType.Excel? then
      var rows :- svc.readExcel(body);
      var markup :- ToMarkup(rows, data.colMapping);
      var g :- svc.extract(markup, data.namespaces);
      var doc :- GraphToJsonLd(g, svc.qname);
      Ok(Converted(doc))
    else
      var json :- svc.decodeJson(body);
      Ok(Body(json))
  }

  /** Start the transfer, then fetch the dataset: one POST to the management
      port and, only when it succeeds with a JSON reply, up to five GETs to
      the data port. */
  function Acquire(svc: Services, datasetId: string): (r: (Result<string>, seq<Call>))
    ensures 1 <= |r.1| <= 6
    ensures r.1[0] == TransferRequest(TransferUrl(TransferHost, datasetId))
    ensures forall i :: 1 <= i < |r.1| ==> r.1[i] == DataRequest(DataUrl(DataHost, datasetId), i - 1)
    ensures |r.1| > 1 <==> StartTransfer(TransferHost, datasetId, svc.post, svc.decodeJson).0.Ok?
    ensures StartTransfer(TransferHost, datasetId, svc.post, svc.decodeJson).0.Err? ==>
      r.0 == StartTransfer(TransferHost, datasetId, svc.post, svc.decodeJson).0
    ensures r.0.Ok? ==> svc.get(DataUrl(DataHost, datasetId), |r.1| - 2) == Success(r.0.value)
  {
    var (started, tcalls) := StartTransfer(TransferHost, datasetId, svc.post, svc.decodeJson);
    if started.Err? then (started, tcalls)
    else
      var (body, dcalls) := FetchDataset(DataHost, datasetId, svc.get);
      (body, tcalls + dcalls)
  }

  /** The acquisition trace is one transfer request followed only by data
      requests, the first of them attempt 0 when the transfer succeeded. */
  lemma AcquireTrace(svc: Services, datasetId: string)
    ensures var calls := Acquire(svc, datasetId).1;
      && PhasesOrdered(calls)
      && (forall c :: c in calls ==> Phase(c) >= 1)
      && (forall c :: c in calls && c.TransferRequest? ==> c == TransferRequest(TransferUrl(TransferHost, datasetId)))
      && (forall c :: c in calls && c.DataRequest? ==> c.url == DataUrl(DataHost, datasetId))
      && (DataRequest(DataUrl(DataHost, datasetId), 0) in calls <==> |calls| > 1)
  {
    var calls := Acquire(svc, datasetId).1;
    if |calls| > 1 {
      assert calls[1] == DataRequest(DataUrl(DataHost, datasetId), 0);
    }
  }

  /** The stage an outbound request belongs to. */
  function Phase(c: Call): nat {
    match c
    case RuleRequest(_, _, _) => 0
    case TransferRequest(_) => 1
    case DataRequest(_, _) => 2
  }

  predicate PhasesOrdered(calls: seq<Call>) {
    forall i, j :: 0 <= i < j < |calls| ==> Phase(calls[i]) <= Phase(calls[j])
  }

  /** Concatenating rule requests with an ordered trace of later stages keeps
      the stages in order. */
  lemma OrderedAfterRules(rcalls: seq<Call>, later: seq<Call>)
    requires forall c :: c in rcalls ==> c.RuleRequest?
    requires PhasesOrdered(later) && forall c :: c in later ==> Phase(c) >= 1
    ensures PhasesOrdered(rcalls + later)
  {
    var calls := rcalls + later;
    forall i, j | 0 <= i < j < |calls|
      ensures Phase(calls[i]) <= Phase(calls[j])
    {
      if i < |rcalls| {
        assert calls[i] == rcalls[i];
        assert calls[i] in rcalls;
      } else {
        assert calls[i] == later[i - |rcalls|] && calls[j] == later[j - |rcalls|];
      }
    }
  }

  /** What follows rule resolution in `run_dspace_check`: acquisition,
      dispatch and validation. */
  function AcquireAndValidate(svc: Services, checkUuid: string, check: Check, rule: Graph, data: DSpaceCheck)
    : (r: (Result<CheckResultOut>, seq<Call>))
    ensures r.1 == Acquire(svc, data.datasetId).1
    ensures Acquire(svc, data.datasetId).0.Err? ==> r.0 == Err(Acquire(svc, data.datasetId).0.error)
    ensures Acquire(svc, data.datasetId).0.Ok? ==>
      var doc := Dispatch(svc, data, Acquire(svc, data.datasetId).0.value);
      && (doc.Err? ==> r.0 == Err(doc.error))
      && (doc.Ok? ==> r.0 == Verdict(svc, checkUuid, check, rule, doc.value))
  {
    var (body, calls) := Acquire(svc, data.datasetId);
    if body.Err? then (Err(body.error), calls)
    else
      match Dispatch(svc, data, body.value)
      case Err(e) => (Err(e), calls)
      case Ok(doc) => (Verdict(svc, checkUuid, check, rule, doc), calls)
  }

  /** `run_dspace_check`: look the check up, resolve its rule, then acquire,
      dispatch and validate; the requests are the resolver's followed by the
      acquisition's. */
  function RunDspaceCheck(db: Db, svc: Services, checkUuid: string, data: DSpaceCheck)
    : (r: (Result<CheckResultOut>, seq<Call>))
    ensures CheckStore.GetCheck(db.checks, checkUuid).Err? ==>
      r == (Err(CheckStore.GetCheck(db.checks, checkUuid).error), [])
    ensures CheckStore.GetCheck(db.checks, checkUuid).Ok? ==>
      var check := CheckStore.GetCheck(db.checks, checkUuid).value;
      var rule := ResolveRule(check, db.connectors, svc.vault, svc.fetch, svc.parse);
      && (rule.0.Err? ==> r == (Err(rule.0.error), rule.1))
      && (rule.0.Ok? ==> r == (AcquireAndValidate(svc, checkUuid, check, rule.0.value, data).0,
                               rule.1 + Acquire(svc, data.datasetId).1))
  {
    match CheckStore.GetCheck(db.checks, checkUuid)
    case Err(e) => (Err(e), [])
    case Ok(check) =>
      var (rule, rcalls) := ResolveRule(check, db.connectors, svc.vault, svc.fetch, svc.parse);
      if rule.Err? then (Err(rule.error), rcalls)
      else
        var (res, acalls) := AcquireAndValidate(svc, checkUuid, check, rule.value, data);
        (res, rcalls + acalls)
  }

  /** The requests of a data-space run go out in stage order: rule, then
      transfer, then data. The transfer is requested only once the rule has
      resolved, and the data only once the transfer has started. */
  lemma DspaceRequestsInStageOrder(db: Db, svc: Services, checkUuid: string, data: DSpaceCheck)
    ensures var calls := RunDspaceCheck(db, svc, checkUuid, data).1;
      && PhasesOrdered(calls)
      && (TransferRequest(TransferUrl(TransferHost, data.datasetId)) in calls ==>
            && CheckStore.GetCheck(db.checks, checkUuid).Ok?
            && ResolveRule(CheckStore.GetCheck(db.checks, checkUuid).value, db.connectors, svc.vault, svc.fetch, svc.parse).0.Ok?)
      && (DataRequest(DataUrl(DataHost, data.datasetId), 0) in calls ==>
            StartTransfer(TransferHost, data.datasetId, svc.post, svc.decodeJson).0.Ok?)
      && (forall c :: c in calls && c.TransferRequest? ==> c == TransferRequest(TransferUrl(TransferHost, data.datasetId)))
      && (forall c :: c in calls && c.DataRequest? ==> c.url == DataUrl(DataHost, data.datasetId))
  {
    if CheckStore.GetCheck(db.checks, checkUuid).Ok? {
      var check := CheckStore.GetCheck(db.checks, checkUuid).value;
      var (rule, rcalls) := ResolveRule(check, db.connectors, svc.vault, svc.fetch, svc.parse);
      if rule.Ok? {
        var acalls := Acquire(svc, data.datasetId).1;
        AcquireTrace(svc, data.datasetId);
        OrderedAfterRules(rcalls, acalls);
        assert forall c :: c in rcalls + acalls ==> c in rcalls || c in acalls;
      }
    }
  }

  /** A successful data-space run fetched the data, and its result names the
      check and carries the timestamp fixed at load. */
  lemma DspaceSuccessFetchedData(db: Db, svc: Services, checkUuid: string, data: DSpaceCheck)
    requires RunDspaceCheck(db, svc, checkUuid, data).0.Ok?
    ensures var r := RunDspaceCheck(db, svc, checkUuid, data);
      && DataRequest(DataUrl(DataHost, data.datasetId), 0) in r.1
      && r.0.value.checkId == checkUuid && r.0.value.timestamp == svc.schemaLoadedAt
  {
    var check := CheckStore.GetCheck(db.checks, checkUuid).value;
    var (rule, rcalls) := ResolveRule(check, db.connectors, svc.vault, svc.fetch, svc.parse);
    var acalls := Acquire(svc, data.datasetId).1;
    AcquireTrace(svc, data.datasetId);
    assert DataRequest(DataUrl(DataHost, data.datasetId), 0) in acalls;
  }

  /** A transfer start whose reply is not JSON ends acquisition after the one
      transfer request, with the decoder's error. */
  lemma NonJsonTransferReplyStopsAcquire(svc: Services, datasetId: string, body: string)
    requires svc.post(TransferUrl(TransferHost, datasetId)) == Success(body)
    requires svc.decodeJson(body).Err?
    ensures Acquire(svc, datasetId) == (Err(svc.decodeJson(body).error), [TransferRequest(TransferUrl(TransferHost, datasetId))])
  {
    var started := StartTransfer(TransferHost, datasetId, svc.post, svc.decodeJson).0;
    assert started == Err(svc.decodeJson(body).error);
  }

  /** A transfer start whose reply is not JSON stops a data-space run: the
      decoder's error is the outcome and no data request is made. */
  lemma NonJsonTransferReplyStopsRun(db: Db, svc: Services, checkUuid: string, data: DSpaceCheck, body: string)
    requires CheckStore.GetCheck(db.checks, checkUuid).Ok?
    requires ResolveRule(CheckStore.GetCheck(db.checks, checkUuid).value, db.connectors, svc.vault, svc.fetch, svc.parse).0.Ok?
    requires svc.post(TransferUrl(TransferHost, data.datasetId)) == Success(body)
    requires svc.decodeJson(body).Err?
    ensures var r := RunDspaceCheck(db, svc, checkUuid, data);
      && r.0 == Err(svc.decodeJson(body).error)
      && forall c :: c in r.1 ==> !c.DataRequest?
  {
    var check := CheckStore.GetCheck(db.checks, checkUuid).value;
    var rule := ResolveRule(check, db.connectors, svc.vault, svc.fetch, svc.parse);
    var transfer := TransferRequest(TransferUrl(TransferHost, data.datasetId));
    NonJsonTransferReplyStopsAcquire(svc, data.datasetId, body);
    var r := RunDspaceCheck(db, svc, checkUuid, data);
    assert r.1 == rule.1 + [transfer];
    forall c | c in r.1
      ensures !c.DataRequest?
    {
      assert c in rule.1 || c == transfer;
    }
  }
}
