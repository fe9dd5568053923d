/** Persistence of checks. A check row stores its rule source as the wire
    value of `RuleSource`, the rule text (inline rule or remote endpoint), the
    owning company's internal id and an optional connector reference. */
module CheckStore {
  import opened Outcomes
  import Store
  import Database
  import opened CheckSchemas
  import opened ConnectorStore

  /** A row of the checks table. */
  datatype Check = Check(
    id: int,
    uuid: string,
    checkName: string,
    ruleSource: string,
    rule: string,
    connector: ConnectorRef,
    companyId: int,
    updatedAt: int)

  const CheckNotFound: string := "No check was found with that id."

  /** `db_get_check`: lookup by public uuid, 404 when absent. */
  function GetCheck(checks: seq<Check>, uuid: string): (r: Result<Check>)
    ensures r.Ok? ==> r.value in checks && r.value.uuid == uuid
    ensures r == Err(HttpError(NotFound, CheckNotFound)) <==> forall c :: c in checks ==> c.uuid != uuid
  {
    Store.OneOrNotFound(checks, (c: Check) => c.uuid == uuid, CheckNotFound)
  }

  /** `db_create_check`: copies name, rule source, rule and company; a falsy
      connector id (`None` or `0`) is stored as no connector. */
  function CreateCheck(
    checks: seq<Check>, input: CheckIn, companyId: int, connectorId: Option<int>,
    id: int, draw: string, now: int): (r: (seq<Check>, Check))
    requires Database.IsUuid4Digits(draw)
    ensures r.0 == checks + [r.1]
    ensures r.1.id == id && r.1.companyId == companyId && r.1.updatedAt == now
    ensures |r.1.uuid| == 35 && r.1.uuid[..3] == "ch_"
    ensures r.1.checkName == input.checkName && r.1.rule == input.rule
    ensures ParseRuleSource(r.1.ruleSource) == Some(input.ruleSource)
    ensures r.1.connector.NoConnector? <==> connectorId.None? || connectorId.value == 0
    ensures r.1.connector.InternalId? ==> connectorId == Some(r.1.connector.id)
  {
    var connector :=
      if connectorId.Some? && TruthyInt(connectorId.value) then InternalId(connectorId.value)
      else NoConnector;
    var row := Check(
      id, Database.UuidForInsert(Database.CheckKind, draw), input.checkName,
      input.ruleSource.Value(), input.rule, connector, companyId, now);
    (checks + [row], row)
  }

  /** The truthy merge of `db_update_check` for the text fields: each
      truthy value of the request replaces the stored one. The rule source is
      always truthy, so it is always replaced. */
  function Merge(row: Check, input: CheckIn, now: int): (r: Check)
    ensures r.id == row.id && r.uuid == row.uuid && r.companyId == row.companyId
    ensures r.connector == row.connector && r.updatedAt == now
    ensures TruthyText(input.checkName) ==> r.checkName == input.checkName
    ensures !TruthyText(input.checkName) ==> r.checkName == row.checkName
    ensures TruthyText(input.rule) ==> r.rule == input.rule
    ensures !TruthyText(input.rule) ==> r.rule == row.rule
    ensures ParseRuleSource(r.ruleSource) == Some(input.ruleSource)
  {
    var name := if TruthyText(input.checkName) then input.checkName else row.checkName;
    var source := if TruthyText(input.ruleSource.Value()) then input.ruleSource.Value() else row.ruleSource;
    var rule := if TruthyText(input.rule) then input.rule else row.rule;
    row.(checkName := name, ruleSource := source, rule := rule, updatedAt := now)
  }

  /** What the database driver raises when a text is bound to the integer
      `connector_id` column. */
  const ConnectorTextRejected: Error :=
    Raised("DataError", "invalid input for query argument: 'str' object cannot be interpreted as an integer")

  /** `db_update_check`: every truthy field of the request is set on the row
      as is, `connector_id` included. A truthy connector id is the
      connector's public uuid, a text, and the column holds an integer, so
      the commit is refused and nothing is stored; otherwise the merged row is
      committed. */
  function UpdateCheck(row: Check, input: CheckIn, now: int): (r: Result<Check>)
    ensures r.Err? <==> TruthyOpt(input.connectorId)
    ensures r.Err? ==> r.error == ConnectorTextRejected
    ensures r.Ok? ==> r.value == Merge(row, input, now)
  {
    if TruthyOpt(input.connectorId) then Err(ConnectorTextRejected)
    else Ok(Merge(row, input, now))
  }

  /** Every rule-source value is truthy, so every update that commits
      overwrites it: an update that leaves `rule_source` at its default turns
      the check into a hosted one, whatever it was before. */
  lemma UpdateAlwaysOverwritesRuleSource(row: Check, input: CheckIn, now: int)
    ensures UpdateCheck(row, input, now).Ok? ==>
      ParseRuleSource(UpdateCheck(row, input, now).value.ruleSource) == Some(input.ruleSource)
    ensures UpdateCheck(row, CheckInWithDefaults(input.checkName, input.rule), now).value.ruleSource
         == "digichecks_hosted"
  {
  }

  /** Applying an update that commits a second time changes nothing more. */
  lemma UpdateIdempotent(row: Check, input: CheckIn, now: int)
    requires UpdateCheck(row, input, now).Ok?
    ensures UpdateCheck(UpdateCheck(row, input, now).value, input, now) == UpdateCheck(row, input, now)
  {
  }

  /** `db_get_all_checks`: exactly the checks owned by the company, in storage order. */
  function GetAllChecks(checks: seq<Check>, companyId: int): (r: seq<Check>)
    ensures forall c :: c in r <==> c in checks && c.companyId == companyId
    ensures multiset(r) <= multiset(checks)
  {
    Store.Where(checks, (c: Check) => c.companyId == companyId)
  }

  /** A check just created is found again by its uuid. */
  lemma CreateThenGetCheck(
    checks: seq<Check>, input: CheckIn, companyId: int, connectorId: Option<int>,
    id: int, draw: string, now: int)
    requires Database.IsUuid4Digits(draw)
    requires forall c :: c in checks ==> c.uuid != Database.UuidForInsert(Database.CheckKind, draw)
    ensures var (after, row) := CreateCheck(checks, input, companyId, connectorId, id, draw, now);
      GetCheck(after, row.uuid) == Ok(row)
  {
    var (after, row) := CreateCheck(checks, input, companyId, connectorId, id, draw, now);
    Store.FindOneAppended(checks, (c: Check) => c.uuid == row.uuid, row);
  }
}
