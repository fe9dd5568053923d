/** Rule resolution and data-space acquisition.

    Outbound requests are not performed; each is answered by a function
    parameter and recorded in a trace of `Call`s, so that the order and
    number of requests an operation makes can be stated. */
module CheckHelpers {
  import opened Outcomes
  import opened Rdf
  import opened CheckSchemas
  import opened Vault
  import opened ConnectorStore
  import opened CheckStore

  /** What the graph library reports when parsing Turtle text. */
  datatype Parse = Parsed(graph: Graph) | ParseFailed(exception: string, message: string)

  /** A GET whose status is not checked: either a body or a transport failure. */
  datatype Fetch = Fetched(text: string) | ConnectionFailed(message: string)

  /** A request whose caller raises on an error status: the body, an
      `HTTPError` with its message, or any other exception. */
  datatype Response = Success(body: string) | HttpErr(message: string) | OtherErr(exception: string, message: string)

  /** An outbound request, in the order it is made. */
  datatype Call =
    | RuleRequest(endpoint: string, username: string, password: string)
    | TransferRequest(url: string)
    | DataRequest(url: string, attempt: nat)

  // ----- Rule resolution ----------------------------------------------------

  /** `", ".join(parts)`. */
  function Join(parts: seq<string>, sep: string): string {
    if parts == [] then ""
    else if |parts| == 1 then parts[0]
    else parts[0] + sep + Join(parts[1..], sep)
  }

  function RuleSourceValues(srcs: seq<RuleSource>): (r: seq<string>)
    ensures |r| == |srcs|
    ensures forall i :: 0 <= i < |srcs| ==> r[i] == srcs[i].Value()
  {
    if srcs == [] then [] else [srcs[0].Value()] + RuleSourceValues(srcs[1..])
  }

  /** The detail of the 400 raised for an unknown rule source. */
  function UnsupportedSourceDetail(): string {
    "Rule source not supported, choose: " + Join(RuleSourceValues(AllRuleSources), ", ")
  }

  /** The detail names both rule sources, in declaration order. */
  lemma UnsupportedSourceNamesBoth()
    ensures UnsupportedSourceDetail() == "Rule source not supported, choose: digichecks_hosted, api"
  {
    var values := RuleSourceValues(AllRuleSources);
    assert values == ["digichecks_hosted", "api"];
    assert values[1..] == ["api"];
    assert Join(values, ", ") == "digichecks_hosted" + ", " + "api";
  }

  /** `get_ttl_rule`: one GET with the credentials; a transport failure and a
      body that does not parse are each reported as 500. The response status
      is not inspected. */
  function GetTtlRule(
    endpoint: string, username: string, password: string,
    fetch: (string, string, string) -> Fetch, parse: string -> Parse): (r: Result<Graph>)
    ensures fetch(endpoint, username, password).ConnectionFailed? ==>
      r == Err(HttpError(InternalServerError,
        "Error connecting to API: " + fetch(endpoint, username, password).message))
    ensures fetch(endpoint, username, password).Fetched? ==>
      var p := parse(fetch(endpoint, username, password).text);
      && (p.Parsed? ==> r == Ok(p.graph))
      && (p.ParseFailed? ==> r == Err(HttpError(InternalServerError, "Error parsing response into graph: " + p.message)))
  {
    match fetch(endpoint, username, password)
    case ConnectionFailed(m) => Err(HttpError(InternalServerError, "Error connecting to API: " + m))
    case Fetched(text) =>
      match parse(text)
      case Parsed(g) => Ok(g)
      case ParseFailed(_, m) => Err(HttpError(InternalServerError, "Error parsing response into graph: " + m))
  }

  /** `get_ttl_rule_based_on_rule`: the resolved rule graph and the requests
      made to obtain it. */
  function ResolveRule(
    check: Check, conns: seq<Connector>, vault: Vault,
    fetch: (string, string, string) -> Fetch, parse: string -> Parse): (r: (Result<Graph>, seq<Call>))
    // hosted: the stored rule text is parsed; no lookup and no request
    ensures check.ruleSource == DigichecksHosted.Value() ==>
      && r.1 == []
      && (parse(check.rule).Parsed? ==> r.0 == Ok(parse(check.rule).graph))
      && (parse(check.rule).ParseFailed? ==>
            r.0 == Err(Raised(parse(check.rule).exception, parse(check.rule).message)))
    // api: connector by internal id, then one request with its credentials
    ensures check.ruleSource == Api.Value() ==>
      var c := GetConnectorByInternalId(conns, check.connector);
      && (c.Err? ==> r == (Err(c.error), []))
      && (c.Ok? ==>
            var pw := DecryptPassword(vault, c.value.password);
            && (pw.Err? ==> r == (Err(pw.error), []))
            && (pw.Ok? ==>
                  && r.1 == [RuleRequest(check.rule, c.value.username, pw.value)]
                  && r.0 == GetTtlRule(check.rule, c.value.username, pw.value, fetch, parse)))
    // anything else: 400, nothing requested
    ensures ParseRuleSource(check.ruleSource).None? ==>
      r == (Err(HttpError(BadRequest, UnsupportedSourceDetail())), [])
    ensures r.1 != [] ==> check.ruleSource == Api.Value() && |r.1| == 1
    ensures forall c :: c in r.1 ==> c.RuleRequest?
  {
    if check.ruleSource == DigichecksHosted.Value() then
      match parse(check.rule)
      case Parsed(g) => (Ok(g), [])
      case ParseFailed(e, m) => (Err(Raised(e, m)), [])
    else if check.ruleSource == Api.Value() then
      match GetConnectorByInternalId(conns, check.connector)
      case Err(e) => (Err(e), [])
      case Ok(conn) =>
        match DecryptPassword(vault, conn.password)
        case Err(e) => (Err(e), [])
        case Ok(pw) =>
          (GetTtlRule(check.rule, conn.username, pw, fetch, parse), [RuleRequest(check.rule, conn.username, pw)])
    else
      (Err(HttpError(BadRequest, UnsupportedSourceDetail())), [])
  }

  /** An `api` check whose connector was created through the store and is
      found by its internal id is fetched with the password the connector was
      created with. */
  lemma ApiRuleUsesCreatedPassword(
    check: Check, conns: seq<Connector>, vault: Vault, conn: Connector, plain: string, nonce: nat,
    fetch: (string, string, string) -> Fetch, parse: string -> Parse)
    requires Sound(vault)
    requires check.ruleSource == Api.Value()
    requires conn in conns && conn.password == vault.encrypt(plain, nonce)
    requires check.connector == InternalId(conn.id)
    requires forall i, j :: 0 <= i < j < |conns| ==> conns[i].id != conns[j].id
    ensures ResolveRule(check, conns, vault, fetch, parse).1 == [RuleRequest(check.rule, conn.username, plain)]
  {
    InternalIdFindsConnector(conns, conn);
    DecryptUndoesEncrypt(vault, plain, nonce);
    assert DecryptPassword(vault, conn.password) == Ok(plain);
  }

  /** A remote rule and a hosted rule agree when the remote endpoint serves
      the hosted rule's text: both yield the same graph when the text parses,
      and both fail when it does not (the remote one as a 500). */
  lemma RemoteRuleAgreesWithHosted(
    hosted: Check, conns: seq<Connector>, vault: Vault,
    endpoint: string, username: string, password: string,
    fetch: (string, string, string) -> Fetch, parse: string -> Parse)
    requires hosted.ruleSource == DigichecksHosted.Value()
    requires fetch(endpoint, username, password) == Fetched(hosted.rule)
    ensures GetTtlRule(endpoint, username, password, fetch, parse).Ok?
        <==> ResolveRule(hosted, conns, vault, fetch, parse).0.Ok?
    ensures GetTtlRule(endpoint, username, password, fetch, parse).Ok? ==>
      GetTtlRule(endpoint, username, password, fetch, parse) == ResolveRule(hosted, conns, vault, fetch, parse).0
    ensures GetTtlRule(endpoint, username, password, fetch, parse).Err? ==>
      GetTtlRule(endpoint, username, password, fetch, parse).error.HttpError?
      && GetTtlRule(endpoint, username, password, fetch, parse).error.status == InternalServerError
  {
  }

  // ----- Transfer start ---------------------------------------------------------

  function TransferUrl(host: string, datasetId: string): string {
    "http://" + host + "/api/management/v1/requests/transfer" + "/dataset/" + datasetId
  }

  const TransferFailed: string := "Failed to start transfer process: "

  /** `start_dspace_transfer_process`: exactly one POST; an HTTP error is a 400
      at once, any other exception escapes; a success is then decoded as JSON
      (`decodeJson`, the library's decoder), outside the exception handler, so
      a reply that is not JSON escapes as the decoder's exception. */
  function StartTransfer(
    host: string, datasetId: string, post: string -> Response, decodeJson: string -> Result<string>)
    : (r: (Result<string>, seq<Call>))
    ensures r.1 == [TransferRequest(TransferUrl(host, datasetId))]
    ensures r.0.Ok? <==>
      post(TransferUrl(host, datasetId)).Success? && decodeJson(post(TransferUrl(host, datasetId)).body).Ok?
    ensures r.0.Ok? ==> r.0 == decodeJson(post(TransferUrl(host, datasetId)).body)
    ensures post(TransferUrl(host, datasetId)).Success? ==> r.0 == decodeJson(post(TransferUrl(host, datasetId)).body)
    ensures post(TransferUrl(host, datasetId)).HttpErr? ==>
      r.0 == Err(HttpError(BadRequest, TransferFailed + post(TransferUrl(host, datasetId)).message))
    ensures post(TransferUrl(host, datasetId)).OtherErr? ==>
      r.0 == Err(Raised(post(TransferUrl(host, datasetId)).exception, post(TransferUrl(host, datasetId)).message))
  {
    var url := TransferUrl(host, datasetId);
    var res :=
      match post(url)
      case Success(b) => decodeJson(b)
      case HttpErr(m) => Err(HttpError(BadRequest, TransferFailed + m))
      case OtherErr(e, m) => Err(Raised(e, m));
    (res, [TransferRequest(url)])
  }

  /** The transfer start depends on nothing but the reply to its one request:
      two remote services that answer the transfer URL alike give the same
      outcome and the same trace, whatever they answer elsewhere. */
  lemma StartTransferReadsOnlyItsReply(
    host: string, datasetId: string, post1: string -> Response, post2: string -> Response,
    decodeJson: string -> Result<string>)
    requires post1(TransferUrl(host, datasetId)) == post2(TransferUrl(host, datasetId))
    ensures StartTransfer(host, datasetId, post1, decodeJson) == StartTransfer(host, datasetId, post2, decodeJson)
  {
  }

  // ----- Dataset retrieval with retries ---------------------------------------

  function DataUrl(host: string, datasetId: string): string {
    "http://" + host + "/api/data-plane/v1/consumer/" + datasetId
  }

  const TooManyRetries: string := "Too many retries"

  /** The number of requests a budget allows. */
  function Budget(retry: int): nat {
    if retry > 0 then retry else 0
  }

  /** The retry loop of `get_dspace_dataset`, as a recursion: with `retry`
      requests left, request number `attempt` is answered by
      `respond(attempt)`; `last` is the most recent error message. The
      result is the outcome and the number of requests made. */
  function Poll(respond: nat -> Response, retry: int, attempt: nat, last: string): (r: (Result<string>, nat))
    decreases Budget(retry)
    ensures r.1 <= Budget(retry)
  {
    if retry <= 0 then (Err(HttpError(BadRequest, TransferFailed + last)), 0)
    else
      match respond(attempt)
      case Success(b) => (Ok(b), 1)
      case OtherErr(e, m) => (Err(Raised(e, m)), 1)
      case HttpErr(m) =>
        var rest := Poll(respond, retry - 1, attempt + 1, m);
        (rest.0, rest.1 + 1)
  }

  /** What the retry loop promises: every request but the last met an HTTP
      error, the first success is returned, any other exception escapes on
      its first occurrence, and only an exhausted budget yields the 400 that
      carries the last recorded message. */
  lemma {:induction false} PollSpec(respond: nat -> Response, retry: int, attempt: nat, last: string)
    ensures var r := Poll(respond, retry, attempt, last);
      // every request but the last was answered by an HTTP error
      && (forall k :: attempt <= k < attempt + r.1 - 1 ==> respond(k).HttpErr?)
      // the first success is returned
      && (r.0.Ok? <==> r.1 > 0 && respond(attempt + r.1 - 1).Success?)
      && (r.0.Ok? ==> r.0.value == respond(attempt + r.1 - 1).body)
      // any other exception escapes on its first occurrence
      && (r.1 > 0 && respond(attempt + r.1 - 1).OtherErr? ==>
            r.0 == Err(Raised(respond(attempt + r.1 - 1).exception, respond(attempt + r.1 - 1).message)))
      && (r.0.Err? && r.0.error.Raised? ==> r.1 > 0 && respond(attempt + r.1 - 1).OtherErr?)
      // stopping early happens only on a non-HTTP-error answer
      && (r.1 < Budget(retry) ==> r.1 > 0 && !respond(attempt + r.1 - 1).HttpErr?)
      // exhaustion reports the last recorded message
      && (r.0.Err? && r.0.error.HttpError? ==>
            && r.1 == Budget(retry)
            && r.0.error == HttpError(BadRequest, TransferFailed +
                 if r.1 == 0 then last else respond(attempt + r.1 - 1).message))
  {
    if retry > 0 && respond(attempt).HttpErr? {
      PollSpec(respond, retry - 1, attempt + 1, respond(attempt).message);
    }
  }

  /** `get_dspace_dataset` as the loop it is written as: the outcome and the
      number of requests made, in agreement with `Poll`. */
  method GetDataset(respond: nat -> Response, retry: int) returns (r: Result<string>, attempts: nat)
    ensures (r, attempts) == Poll(respond, retry, 0, TooManyRetries)
    ensures attempts <= Budget(retry)
    ensures r.Ok? ==> attempts > 0 && respond(attempts - 1) == Success(r.value)
  {
    var budget := retry;
    var last := TooManyRetries;
    attempts := 0;
    while budget > 0
      invariant Poll(respond, retry, 0, TooManyRetries) ==
        var rest := Poll(respond, budget, attempts, last); (rest.0, rest.1 + attempts)
      decreases budget
    {
      var answer := respond(attempts);
      if answer.Success? {
        return Ok(answer.body), attempts + 1;
      } else if answer.OtherErr? {
        return Err(Raised(answer.exception, answer.message)), attempts + 1;
      }
      last := answer.message;
      budget := budget - 1;
      attempts := attempts + 1;
    }
    r := Err(HttpError(BadRequest, TransferFailed + last));
  }

  /** With no budget, no request is made and the message is the initial one. */
  lemma NoBudgetNoRequest(respond: nat -> Response, retry: int)
    requires retry <= 0
    ensures Poll(respond, retry, 0, TooManyRetries)
         == (Err(HttpError(BadRequest, "Failed to start transfer process: Too many retries")), 0)
  {
    assert TransferFailed + TooManyRetries == "Failed to start transfer process: Too many retries";
  }

  /** Four HTTP errors and a success: the fifth request's body is returned. */
  lemma SucceedsOnFifthAttempt(respond: nat -> Response, body: string)
    requires forall k: nat :: k < 4 ==> respond(k).HttpErr?
    requires respond(4) == Success(body)
    ensures Poll(respond, 5, 0, TooManyRetries) == (Ok(body), 5)
  {
    var r := Poll(respond, 5, 0, TooManyRetries);
    assert r.1 == 5;
  }

  /** A data plane that always answers with an HTTP error is asked exactly
      `retry` times, and the 400 carries the last message. */
  lemma AlwaysFailingExhaustsBudget(respond: nat -> Response, retry: int)
    requires retry > 0
    requires forall k: nat :: respond(k).HttpErr?
    ensures var r := Poll(respond, retry, 0, TooManyRetries);
      && r.1 == retry
      && r.0 == Err(HttpError(BadRequest, TransferFailed + respond(retry - 1).message))
  {
    PollSpec(respond, retry, 0, TooManyRetries);
  }

  /** The requests the retry loop makes: one GET per attempt, in order. */
  function DataRequests(url: string, attempts: nat): (r: seq<Call>)
    ensures |r| == attempts
    ensures forall k :: 0 <= k < attempts ==> r[k] == DataRequest(url, k)
  {
    if attempts == 0 then [] else DataRequests(url, attempts - 1) + [DataRequest(url, attempts - 1)]
  }

  /** `get_dspace_dataset(host, id)` with its default budget of five: the
      outcome and the requests made. */
  function FetchDataset(host: string, datasetId: string, get: (string, nat) -> Response): (r: (Result<string>, seq<Call>))
    ensures 1 <= |r.1| <= 5
    ensures forall k :: 0 <= k < |r.1| ==> r.1[k] == DataRequest(DataUrl(host, datasetId), k)
    ensures r.0.Ok? ==> get(DataUrl(host, datasetId), |r.1| - 1) == Success(r.0.value)
  {
    var url := DataUrl(host, datasetId);
    var p := Poll((k: nat) => get(url, k), 5, 0, TooManyRetries);
    assert Budget(5) == 5;
    (p.0, DataRequests(url, p.1))
  }
}
