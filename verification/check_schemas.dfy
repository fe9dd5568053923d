/** The request and response shapes of the check endpoints and the closed
    value sets they use. Enumerations are written as Dafny datatypes; their
    wire values are the strings the service exchanges and stores. */
module CheckSchemas {
  import opened Outcomes

  /** Where a check's rule lives: inline in the check, or behind a remote API. */
  datatype RuleSource = DigichecksHosted | Api {
    function Value(): string {
      match this
      case DigichecksHosted => "digichecks_hosted"
      case Api => "api"
    }
  }

  /** The members of `RuleSource` in declaration order. */
  const AllRuleSources: seq<RuleSource> := [DigichecksHosted, Api]

  /** Reading a stored or submitted rule-source value back into the enumeration. */
  function ParseRuleSource(s: string): (r: Option<RuleSource>)
    ensures r.Some? ==> r.value.Value() == s
    ensures r.None? ==> forall src: RuleSource :: src.Value() != s
  {
    if s == "digichecks_hosted" then Some(DigichecksHosted)
    else if s == "api" then Some(Api)
    else None
  }

  /** `RuleSource` has exactly two members with distinct wire values. */
  lemma RuleSourceClosed(src: RuleSource)
    ensures src in AllRuleSources
    ensures ParseRuleSource(src.Value()) == Some(src)
  {
  }

  datatype CheckResult = Pass | Fail {
    function Value(): string {
      match this
      case Pass => "Pass"
      case Fail => "Fail"
    }
  }

  datatype DataSetType = Excel | JsonLd {
    function Value(): string {
      match this
      case Excel => "excel"
      case JsonLd => "JSON-LD"
    }
  }

  function ParseDataSetType(s: string): (r: Option<DataSetType>)
    ensures r.Some? ==> r.value.Value() == s
    ensures r.None? ==> forall t: DataSetType :: t.Value() != s
  {
    if s == "excel" then Some(Excel)
    else if s == "JSON-LD" then Some(JsonLd)
    else None
  }

  /** `CheckInSchema`, the body of create and update requests. */
  datatype CheckIn = CheckIn(
    checkName: string,
    ruleSource: RuleSource,
    rule: string,
    connectorId: Option<string>)

  /** A `CheckInSchema` built from only its required fields. */
  function CheckInWithDefaults(checkName: string, rule: string): (c: CheckIn)
    ensures c.checkName == checkName && c.rule == rule
    ensures c.ruleSource == DigichecksHosted
    ensures c.connectorId.None?
  {
    CheckIn(checkName, DigichecksHosted, rule, None)
  }

  /** A validated `CheckOutSchema`: the row's public `uuid` is published as
      `check_id`; `connector_id` is the connector's public uuid, when there
      is one. */
  datatype CheckOut = CheckOut(
    checkId: string,
    checkName: string,
    ruleSource: string,
    rule: string,
    connectorId: Option<string>)

  /** The Python value a handler hands over as `connector_id`: `None`, the
      stored integer reference, or a text. */
  datatype PyValue = PyNone | PyInt(n: int) | PyText(s: string)

  /** What a check handler returns for the framework to validate against
      `response_model=CheckOutSchema`: a stored row, a dictionary built from
      one, or an explicitly built schema. `ruleSource` is the stored wire
      value. */
  datatype CheckOutValue = CheckOutValue(
    checkId: string,
    checkName: string,
    ruleSource: string,
    rule: string,
    connectorId: PyValue)

  /** The framework's answer when a handler's return value fails the
      response model: an internal error. */
  const ResponseInvalid: string := "ResponseValidationError"

  /** `CheckOutSchema` as declared, `connector_id: str = None`. The default is
      used only when the field is missing, and every check handler supplies
      it; pydantic 2 refuses a `None` or an integer for a `str` field, so
      only a text passes. The rule source must be one of the enumeration's
      values. */
  function CheckOutAsDeclared(v: CheckOutValue): (r: Result<CheckOut>)
    ensures r.Ok? <==> v.connectorId.PyText? && ParseRuleSource(v.ruleSource).Some?
    ensures r.Ok? ==> r.value == CheckOut(v.checkId, v.checkName, v.ruleSource, v.rule, Some(v.connectorId.s))
    ensures r.Err? ==> r.error.Raised? && r.error.exception == ResponseInvalid
  {
    if ParseRuleSource(v.ruleSource).None? then
      Err(Raised(ResponseInvalid, "rule_source: Input should be 'digichecks_hosted' or 'api'"))
    else
      match v.connectorId
      case PyText(u) => Ok(CheckOut(v.checkId, v.checkName, v.ruleSource, v.rule, Some(u)))
      case _ => Err(Raised(ResponseInvalid, "connector_id: Input should be a valid string"))
  }

  /** `CheckOutSchema` with the connector evidently meant to be optional,
      `connector_id: Optional[str] = None`: a `None` passes as no connector;
      an integer is still refused. */
  function CheckOutIntended(v: CheckOutValue): (r: Result<CheckOut>)
    ensures r.Ok? <==> !v.connectorId.PyInt? && ParseRuleSource(v.ruleSource).Some?
    ensures r.Ok? ==> (r.value.checkId == v.checkId && r.value.checkName == v.checkName
                       && r.value.ruleSource == v.ruleSource && r.value.rule == v.rule)
    ensures r.Ok? ==> (r.value.connectorId.Some? <==> v.connectorId.PyText?)
    ensures r.Ok? && v.connectorId.PyText? ==> r.value.connectorId == Some(v.connectorId.s)
    ensures r.Err? ==> r.error.Raised? && r.error.exception == ResponseInvalid
  {
    if v.connectorId.PyNone? && ParseRuleSource(v.ruleSource).Some? then
      Ok(CheckOut(v.checkId, v.checkName, v.ruleSource, v.rule, None))
    else
      CheckOutAsDeclared(v)
  }

  /** The corrected schema accepts everything the declared one accepts, with
      the same result, and in addition a `None` connector. */
  lemma IntendedExtendsDeclared(v: CheckOutValue)
    ensures CheckOutAsDeclared(v).Ok? ==> CheckOutIntended(v) == CheckOutAsDeclared(v)
    ensures CheckOutIntended(v).Ok? && CheckOutAsDeclared(v).Err? ==>
      v.connectorId.PyNone? && CheckOutIntended(v).value.connectorId.None?
  {
  }

  /** `response_model=list[CheckOutSchema]`: every element is validated; the
      first failure is the error. */
  function ValidateList(vs: seq<CheckOutValue>, validate: CheckOutValue -> Result<CheckOut>): (r: Result<seq<CheckOut>>)
    ensures r.Ok? <==> forall i :: 0 <= i < |vs| ==> validate(vs[i]).Ok?
    ensures r.Ok? ==> |r.value| == |vs| && forall i :: 0 <= i < |vs| ==> r.value[i] == validate(vs[i]).value
  {
    if vs == [] then Ok([])
    else
      var head :- validate(vs[0]);
      var rest :- ValidateList(vs[1..], validate);
      assert forall i :: 1 <= i < |vs| ==> vs[i] == vs[1..][i - 1];
      Ok([head] + rest)
  }

  /** `CheckResultSchema`. `timestamp` is in seconds. */
  datatype CheckResultOut = CheckResultOut(
    checkId: string,
    checkName: string,
    checkResult: CheckResult,
    description: Option<string>,
    timestamp: int)

  /** `DSpaceCheckSchema`: the request body of a data-space run. */
  datatype DSpaceCheck = DSpaceCheck(
    datasetId: string,
    dataSetType: DataSetType,
    colMapping: Option<seq<(string, string)>>,
    namespaces: Option<map<string, string>>)

  /** The request validation the framework runs before the handler: a
      `data_set_type` outside the enumeration is a 422 and the handler never
      runs. */
  function ParseDSpaceCheck(
    datasetId: string, dataSetType: string,
    colMapping: Option<seq<(string, string)>>, namespaces: Option<map<string, string>>): (r: Result<DSpaceCheck>)
    ensures r.Ok? <==> dataSetType == "excel" || dataSetType == "JSON-LD"
    ensures r.Ok? ==> (r.value.dataSetType.Value() == dataSetType && r.value.datasetId == datasetId
                       && r.value.colMapping == colMapping && r.value.namespaces == namespaces)
    ensures r.Err? ==> r.error.HttpError? && r.error.status == UnprocessableEntity
  {
    match ParseDataSetType(dataSetType)
    case Some(t) => Ok(DSpaceCheck(datasetId, t, colMapping, namespaces))
    case None => Err(HttpError(UnprocessableEntity, "data_set_type: Input should be 'excel' or 'JSON-LD'"))
  }

  /** The characters Python's `str.strip()` removes: those for which
      `str.isspace()` holds. */
  predicate IsSpace(c: char) {
    || ('\t' <= c <= '\r')
    || ('\U{1C}' <= c <= '\U{1F}')
    || c == ' ' || c == '\U{85}' || c == '\U{A0}' || c == '\U{1680}'
    || ('\U{2000}' <= c <= '\U{200A}')
    || c == '\U{2028}' || c == '\U{2029}' || c == '\U{202F}' || c == '\U{205F}' || c == '\U{3000}'
  }

  predicate IsBlank(s: string) {
    forall i :: 0 <= i < |s| ==> IsSpace(s[i])
  }

  function StripLeading(s: string): string {
    if s != [] && IsSpace(s[0]) then StripLeading(s[1..]) else s
  }

  function StripTrailing(s: string): string {
    if s != [] && IsSpace(s[|s| - 1]) then StripTrailing(s[..|s| - 1]) else s
  }

  /** `str.strip()`. */
  function Strip(s: string): string {
    StripTrailing(StripLeading(s))
  }

  lemma {:induction false} StripLeadingEmpty(s: string)
    ensures StripLeading(s) == [] <==> IsBlank(s)
  {
    if s != [] && IsSpace(s[0]) {
      StripLeadingEmpty(s[1..]);
      assert forall i :: 1 <= i < |s| ==> s[i] == s[1..][i - 1];
    }
  }

  lemma {:induction false} StripTrailingEmpty(s: string)
    ensures StripTrailing(s) == [] <==> IsBlank(s)
  {
    if s != [] && IsSpace(s[|s| - 1]) {
      StripTrailingEmpty(s[..|s| - 1]);
      assert forall i :: 0 <= i < |s| - 1 ==> s[i] == s[..|s| - 1][i];
    }
  }

  /** Leading whitespace removed, the rest is blank exactly when the whole was. */
  lemma {:induction false} StripLeadingKeepsBlankness(s: string)
    ensures IsBlank(StripLeading(s)) <==> IsBlank(s)
  {
    if s != [] && IsSpace(s[0]) {
      StripLeadingKeepsBlankness(s[1..]);
      assert forall i :: 1 <= i < |s| ==> s[i] == s[1..][i - 1];
    }
  }

  /** A text strips to nothing exactly when every character is whitespace. */
  lemma StripEmptyIffBlank(s: string)
    ensures Strip(s) == [] <==> IsBlank(s)
  {
    StripLeadingKeepsBlankness(s);
    StripTrailingEmpty(StripLeading(s));
  }

  /** `DSpaceCheckSchema.json_ld_to_ttl`: serialize through the graph library
      (a parameter) and refuse a result that strips to nothing. */
  function JsonLdToTtl(jsonLd: string, toTurtle: string -> Result<string>): (r: Result<string>)
    ensures toTurtle(jsonLd).Err? ==> r == toTurtle(jsonLd)
    ensures toTurtle(jsonLd).Ok? ==>
      (r.Ok? <==> exists i :: 0 <= i < |toTurtle(jsonLd).value| && !IsSpace(toTurtle(jsonLd).value[i]))
    ensures r.Ok? ==> r == toTurtle(jsonLd)
    ensures r.Err? && toTurtle(jsonLd).Ok? ==> r.error.HttpError? && r.error.status == BadRequest
  {
    var ttl :- toTurtle(jsonLd);
    StripEmptyIffBlank(ttl);
    if Strip(ttl) == [] then
      Err(HttpError(BadRequest,
        "JSON-LD could not be converted to ttl, are you sure the JSON-LD is correct?"))
    else
      Ok(ttl)
  }
}
