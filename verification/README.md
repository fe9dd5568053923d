# digichecks-shacl-service — a Dafny model of its decision core

The service stores SHACL compliance checks per company. It resolves each
check's rule, either inline ("digichecks_hosted") or fetched from a remote
API through a stored connector. It acquires data: a JSON-LD body, or a
spreadsheet pulled from a data space and converted through markup and RDF to
JSON-LD. It validates the data against the rule and reports `Pass` or
`Fail`. Every endpoint is guarded by a bearer-token authorization: a
three-level role order and a company-membership rule.

This project models that core as immutable datatypes and pure functions.

- **Tables** are sequences of rows in storage order (`Store`). A single-row
  query distinguishes "none", "one" and "many" the way SQLAlchemy's
  `one_or_none()` and `one()` do.
- **Libraries and remote services** become fields of function type in
  records: the graph library, the SHACL validator, the spreadsheet reader,
  HTTP, Fernet (`Vault`) and JWT (`TokenCodec`). What the model relies on
  about them is stated as a ghost predicate (`Vault.Sound`,
  `Security.SoundCodec`) that a lemma must assume explicitly.
- **Outbound requests** are returned as a trace of `Call`s. "No network
  call", "exactly one request" and "rule before transfer before data" are
  therefore properties of the result.
- **Time** is an integer number of seconds, passed in. The random uuid draw
  is a parameter: 32 hex digits.
- **Python truthiness** is written out (`TruthyText`, `TruthyOpt`,
  `TruthyInt`, `Term.Truthy`), since the CRUD merges, the validators and the
  converters all branch on it.

Modules follow the source files: `Outcomes`, `Store`, `Database`,
`CheckSchemas`, `ConnectorSchemas`, `CoreSchemas`, `Vault`,
`ConnectorStore`, `CompanyStore`, `CheckStore`, `Rdf`, `Convertors`,
`CheckHelpers`, `CheckRouter` and `Security`.

A spreadsheet column that a row lacks is written as `N/A`. A column that is
present but holds a missing value (NaN) is rendered by `str`, so its text is
`nan`, not `N/A` (api/utils/convertors.py:16-17).

Pydantic's response validation is part of the model. FastAPI validates each
value an endpoint returns against its `response_model`, and a value the schema
refuses becomes a 500 after the handler has already committed. `CheckOutSchema`
declares `connector_id: str = None`, which refuses an explicit `None` and an
integer. The model therefore carries each check endpoint twice: once with that
schema as declared, and once with the optional connector evidently intended
(see Findings).

## Model

| member | source | states |
|---|---|---|
| Store.Where | api/crud/check.py:58-62 | the filtered rows are exactly the rows satisfying the predicate, no more than the input, drawn from the input's multiset |
| Store.FindOne | api/crud/check.py:11-13 | a single-row query finds nothing iff no row matches, and when it finds one row that row is the only match |
| Store.WhereAppend | api/crud/check.py:58-62 | filtering a table extended by one row extends the filtered result by that row exactly when it matches |
| Store.WhereAppendedOnly | api/crud/check.py:34-38 | appending the only matching row makes the filter return just that row |
| Store.FindOneAppended | api/crud/check.py:34-38 | a row inserted with a key no other row has is found again by that key |
| Store.UniqueMatchFindsOne | api/crud/connector.py:23-26 | on a column whose matching rows are unique, the lookup returns the stored row |
| Store.WhereUniqueMatch | api/crud/connector.py:23-26 | on a unique column a filter returns at most one row |
| Store.OneOrNotFound | api/crud/check.py:10-20 | `one_or_none` plus the `None` check: 404 with the given detail iff no row matches; otherwise a matching row or MultipleResultsFound |
| Store.ExactlyOne | api/crud/companies.py:50-54 | `one()`: a matching row, otherwise a raised error, which is NoResultFound iff nothing matches |
| Database.UuidText | api/dependencies/database.py:38 | the canonical uuid text is 36 characters with dashes at positions 8, 13, 18 and 23 |
| Database.RemoveDashes | api/dependencies/database.py:38 | the result is never longer and holds exactly the non-dash characters of the input |
| Database.RemoveDashesAppend | api/dependencies/database.py:38 | dash removal distributes over concatenation |
| Database.RemoveDashesKeepsDashFree | api/dependencies/database.py:38 | dash removal leaves a dash-free text unchanged |
| Database.RemoveDashesAroundDash | api/dependencies/database.py:38 | removing a dash between two texts joins what remains of both |
| Database.DashFreeSlice | api/dependencies/database.py:38 | any slice of dash-free digits survives dash removal unchanged |
| Database.UuidTextRoundTrip | api/dependencies/database.py:38 | removing the dashes from the canonical rendering gives back the 32 digits |
| Database.GenerateUuid | api/dependencies/database.py:36-38 | the uuid is prefix, underscore and the 32 digits; it starts with `prefix_` and every later character is a hex digit other than `-` |
| Database.UuidForInsert | api/dependencies/database.py:41-44 | an inserted row gets a 35-character uuid beginning with its kind's two-letter prefix and `_` |
| Database.DistinctKindsNeverCollide | api/models.py:21-77 | uuids of rows of different kinds differ whatever the random draws, because the prefixes `co`, `ap`, `ch` and `cn` are distinct |
| Database.Table.Identifier | api/dependencies/database.py:55-57 | the identifier is the table's display followed by `.id` |
| Database.DotAt | api/dependencies/database.py:52-53 | in `a.b` the separator sits right after `a` |
| Database.BeforeDotAt | api/dependencies/database.py:52-53 | in `c.d` the characters before the dot are those of `c` |
| Database.DotNotEarlier | api/dependencies/database.py:52-53 | if the schema part of one display is dot-free, it cannot be longer than that of an equal display |
| Database.DisplayInjective | api/dependencies/database.py:52-53 | two dot-free tables with the same `schema.table` display are the same table |
| CheckSchemas.ParseRuleSource | api/schemas/app/check.py:10-12 | a text parses to a rule source iff it is that member's wire value |
| CheckSchemas.RuleSourceClosed | api/schemas/app/check.py:10-12 | every rule source is one of the two members, and its wire value parses back to it |
| CheckSchemas.ParseDataSetType | api/schemas/app/check.py:20-22 | a text parses to a dataset type iff it is `excel` or `JSON-LD` |
| CheckSchemas.CheckInWithDefaults | api/schemas/app/check.py:25-29 | a request with only the required fields is a hosted check with no connector |
| CheckSchemas.CheckOutAsDeclared | api/schemas/app/check.py:32-41 | response validation against the declared schema accepts a value iff its connector is a text and its rule source is one of the two members; an accepted value keeps every field, and a refused one is a ResponseValidationError |
| CheckSchemas.CheckOutIntended | api/schemas/app/check.py:32-41 | the validation evidently intended for an optional connector: a null connector is accepted and reported as absent, an integer is still refused; an accepted value keeps every field and has a connector iff it had a text |
| CheckSchemas.IntendedExtendsDeclared | api/schemas/app/check.py:32-41 | whatever the declared schema accepts, the intended one accepts with the same result; it accepts more only for a null connector, which it reports as absent |
| CheckSchemas.ValidateList | api/routers/check_router.py:93 | a list response validates iff every element does, and then holds each element's validated value in order |
| CheckSchemas.ParseDSpaceCheck | api/schemas/app/check.py:64-68 | a data-space request body is accepted iff its dataset type is `excel` or `JSON-LD`, keeping the other fields; any other type is a 422 |
| CheckSchemas.StripLeadingEmpty | api/schemas/app/check.py:76 | stripping leading whitespace empties a text iff every character is whitespace |
| CheckSchemas.StripTrailingEmpty | api/schemas/app/check.py:76 | stripping trailing whitespace empties a text iff every character is whitespace |
| CheckSchemas.StripLeadingKeepsBlankness | api/schemas/app/check.py:76 | stripping leading whitespace does not change whether a text is all whitespace |
| CheckSchemas.StripEmptyIffBlank | api/schemas/app/check.py:76 | `str.strip()` gives the empty text iff every character is whitespace |
| CheckSchemas.JsonLdToTtl | api/schemas/app/check.py:70-82 | a serializer failure propagates; a Turtle text made only of Python whitespace characters (`str.isspace`, Unicode included) is a 400; otherwise the Turtle text is returned unchanged |
| Vault.DecryptPassword | api/models.py:98-100 | a ciphertext Fernet refuses raises; an accepted one yields what Fernet decrypts it to, so under a sound vault a stored password decrypts to the plaintext the vault encrypted |
| Vault.DecryptUndoesEncrypt | api/models.py:92-100 | a password the vault encrypted decrypts to itself |
| ConnectorStore.GetConnector | api/crud/connector.py:10-20 | the connector with the given uuid, or 404 iff none has it |
| ConnectorStore.GetConnectorByInternalId | api/crud/connector.py:23-33 | an internal-id reference finds the connector with that id; 404 when none matches or the check holds no connector |
| ConnectorStore.InternalIdFindsConnector | api/crud/connector.py:23-33 | with unique primary keys, a stored connector is found by its own id |
| ConnectorStore.CreateConnector | api/crud/connector.py:35-53 | the row is appended with a `cn_` uuid, the input's fields copied, and a stored password that decrypts to the submitted plaintext |
| ConnectorStore.UpdateConnectorAsWritten | api/crud/connector.py:56-66 | each truthy field overwrites the stored one and a falsy one leaves it; identity is kept; a password update stores the encryption of the previous ciphertext |
| ConnectorStore.PasswordUpdateDiscardsPlaintext | api/crud/connector.py:59-61 | under the same encryption nonce, two different submitted passwords give the same stored row; under any nonce decryption yields the old ciphertext, not the new password |
| ConnectorStore.UpdateConnector | api/crud/connector.py:56-66 | the same truthy merge, but a password update stores a ciphertext that decrypts to the submitted password |
| ConnectorStore.EmptyUpdateChangesOnlyTimestamp | api/schemas/app/connector.py:11-15 | an update with every field left out changes only `updated_at`, in both update variants |
| ConnectorStore.GetAllConnectors | api/crud/connector.py:75-79 | exactly the connectors of the company |
| ConnectorStore.ToConnectorOut | api/schemas/app/connector.py:18-26 | the public view carries the uuid as `connector_id` and copies name, username and token endpoint |
| ConnectorStore.ConnectorOutHidesPassword | api/schemas/app/connector.py:18-22 | the public view does not depend on the stored password |
| ConnectorStore.CreateThenGetConnector | api/crud/connector.py:35-53 | a connector just created is found by its uuid, and its password decrypts to the submitted one |
| CompanyStore.GetCompany | api/crud/companies.py:10-20 | the company with the given uuid, or 404 iff none has it |
| CompanyStore.GetCompanyByInternalId | api/crud/companies.py:50-54 | no 404 path: a missing id raises NoResultFound, and every failure is a raised error |
| CompanyStore.CreateCompany | api/crud/companies.py:23-30 | the row is appended with a `co_` uuid, the given name and the current time |
| CompanyStore.UpdateCompany | api/crud/companies.py:33-41 | the name is overwritten iff the new one is truthy; identity is kept and the timestamp refreshed |
| CompanyStore.ValidatedUpdateOverwritesName | api/schemas/core/company.py:7 | a name between 3 and 100 characters always overwrites the stored one |
| CompanyStore.CreateThenGetCompany | api/crud/companies.py:23-30 | a company just created is found again by its uuid, and by its internal id when no other company had that id |
| CheckStore.GetCheck | api/crud/check.py:10-20 | the check with the given uuid, or 404 iff none has it |
| CheckStore.CreateCheck | api/crud/check.py:23-38 | the row is appended with a `ch_` uuid, copying name, source and rule; a falsy connector id (absent or 0) is stored as no connector |
| CheckStore.Merge | api/crud/check.py:42-46 | each truthy name or rule overwrites the stored one and a falsy one keeps it; the rule source always takes the request's value; identity, owner and connector are kept and the timestamp refreshed |
| CheckStore.UpdateCheck | api/crud/check.py:41-49 | an update naming a connector fails at commit with DataError, because the connector uuid text is bound to the integer connector column; any other update commits the truthy merge |
| CheckStore.UpdateAlwaysOverwritesRuleSource | api/crud/check.py:42-44 | the rule source is always overwritten, so an update that omits it makes the check hosted |
| CheckStore.UpdateIdempotent | api/crud/check.py:41-49 | applying an accepted update twice equals applying it once |
| CheckStore.GetAllChecks | api/crud/check.py:58-62 | exactly the checks owned by the company |
| CheckStore.CreateThenGetCheck | api/crud/check.py:23-38 | a check just created is found again by its uuid |
| Rdf.ValueIsFirstMatch | api/utils/convertors.py:66 | `graph.value(s, p)` is absent iff no triple matches, and otherwise is the object of the first matching triple |
| Convertors.Fields | api/utils/convertors.py:16-17 | one field per mapping entry, in mapping order, tagged with the target name and holding the cell text or `N/A` |
| Convertors.RowElements | api/utils/convertors.py:14-17 | one `row` element per input row, in row order, holding that row's fields |
| Convertors.DataFrameToXml | api/utils/convertors.py:12-19 | the root is `root` with one `row` child per row, each with one child per mapping entry tagged by the target name; an absent column gives `N/A` |
| Convertors.ReadRecord | api/utils/convertors.py:16-17 | reading a record back has a key iff some field carries that tag |
| Convertors.ReadRecordDistinct | api/utils/convertors.py:16-17 | with distinct tags, each tag reads back its own field's text |
| Convertors.MarkupRoundTrip | api/utils/convertors.py:12-19 | when target names are distinct, reading row i back gives each column's rendered cell under its target name, or `N/A` for an absent column |
| Convertors.QuantProps | api/utils/convertors.py:82-92 | `quantitativeProperties` has a key iff some non-type pair of the subject has an object carrying `rdf:value` under that predicate's name |
| Convertors.Relations | api/utils/convertors.py:93-98 | `relations` has a key iff some non-type pair of the subject has an object without `rdf:value` under that predicate's name |
| Convertors.QuantPropsLastWins | api/utils/convertors.py:84-92 | the value stored under a key is the first `rdf:value` and the unit of the last quantitative pair with that key |
| Convertors.RelationsLastWins | api/utils/convertors.py:95-98 | the value stored under a key is the target of the last relation pair with that key: the qname of an IRI, otherwise `str` |
| Convertors.MakeNode | api/utils/convertors.py:69-98 | a node's `@id` and `@type` are the qnames of the subject and its type, `nonQuantitativeProperties` is empty, and the two partitions have exactly the keys above |
| Convertors.PairClassifiedOnce | api/utils/convertors.py:77-98 | an `rdf:type` pair is in neither partition; every other pair is in exactly one, quantitative iff its object has an `rdf:value` |
| Convertors.EmitMapsKeptRows | api/utils/convertors.py:65-100 | the visiting loop emits one output per kept row, in row order, each computed from that row; for the JSON-LD conversion, one node per triple whose subject is typed |
| Convertors.Names | api/utils/convertors.py:70-71 | the total naming used to describe nodes agrees with the namespace manager on every term it can name |
| Convertors.NodesOfTypedTriples | api/utils/convertors.py:65-100 | one node per triple with a typed subject, in triple order, each the node of that triple's subject |
| Convertors.LiteralValue | api/utils/convertors.py:84 | `.value` exists only on a literal; on an IRI or a blank node it raises AttributeError naming the class |
| Convertors.PairStep | api/utils/convertors.py:77-98 | one pair raises nothing if it is a type pair or another subject's triple; a quantitative pair raises on a non-literal value, an unnameable truthy unit or an unnameable predicate, in that order; a relation raises on an unnameable IRI target, then an unnameable predicate |
| Convertors.PairSteps | api/utils/convertors.py:77-98 | the pair loop succeeds iff every pair does, and otherwise fails with the error of the first failing pair |
| Convertors.BuildNode | api/utils/convertors.py:66-100 | a typed subject's node is built iff the subject, its type and every pair can be named; it then has those names as `@id` and `@type` and the partitions stated for MakeNode; an unnameable subject gives that error |
| Convertors.EmitNodes | api/utils/convertors.py:65-100 | the subject loop succeeds iff every typed row's node builds and then emits those nodes in row order; otherwise it fails with the first failing node's error |
| Convertors.GraphToJsonLd | api/utils/convertors.py:55-102 | the conversion succeeds iff the node of every typed subject can be built; then `@context` is the two fixed URIs and `@graph` holds one node per triple with a typed subject; otherwise it fails with the error of a failing node |
| Convertors.NodesDescribeTypedSubjects | api/utils/convertors.py:65-71 | in a successful conversion every emitted node is the node of some typed subject of the graph, with that subject's name as `@id` |
| Convertors.TypedSubjectsGetNodes | api/utils/convertors.py:65-71 | in a successful conversion every typed subject of the graph has its node in the document |
| Convertors.SubjectVisitedOncePerTriple | api/utils/convertors.py:65 | in `a rdf:type C . a p b .` the conversion succeeds iff the four terms can be named, and then yields two identical nodes, so nodes are not distinct |
| Convertors.FailingStepFailsNode | api/utils/convertors.py:77-98 | a pair that raises makes its subject's node fail |
| Convertors.FailingNodeFailsConversion | api/utils/convertors.py:65-100 | a typed subject whose node cannot be built makes the whole conversion fail |
| Convertors.NonLiteralValueFailsConversion | api/utils/convertors.py:82-84 | a quantitative pair whose `rdf:value` object is not a literal makes the conversion raise |
| Convertors.TypedBlankSubjectFailsConversion | api/utils/convertors.py:70 | with a namespace manager that cannot name blank nodes, a typed blank subject makes the conversion raise |
| Convertors.TwoTriplesOfOneSubject | api/utils/convertors.py:65-67 | in `a rdf:type C . a p b .` both triples belong to the typed subject `a` |
| Convertors.TwoTriplesNode | api/utils/convertors.py:69-98 | in that graph the node of `a` is built exactly when the subject, type, predicate and IRI target can be named |
| CheckHelpers.RuleSourceValues | api/utils/check_helpers.py:49 | the wire values of the rule sources, in declaration order |
| CheckHelpers.UnsupportedSourceNamesBoth | api/utils/check_helpers.py:48-53 | the 400 detail for an unknown source lists `digichecks_hosted, api` |
| CheckHelpers.GetTtlRule | api/utils/api.py:6-33 | a transport failure is a 500 "Error connecting to API"; a parse failure is a 500 "Error parsing response into graph"; otherwise the parsed graph |
| CheckHelpers.ResolveRule | api/utils/check_helpers.py:36-55 | hosted parses the stored rule with no request; api looks up the connector, decrypts, then makes one request to the rule endpoint with those credentials; any other source is a 400 |
| CheckHelpers.RemoteRuleAgreesWithHosted | api/utils/api.py:6-33 | a remote API serving a hosted check's rule text yields a graph exactly when resolving the hosted check does, and the same graph; its failure is a 500 |
| CheckHelpers.ApiRuleUsesCreatedPassword | api/utils/check_helpers.py:40-47 | for a connector created with a plaintext password, the rule request carries that plaintext |
| CheckHelpers.StartTransfer | api/utils/check_helpers.py:58-73 | exactly one POST to the transfer URL; it succeeds iff the POST succeeds and its reply decodes as JSON, giving the decoded value; a decoding error escapes; an HTTP error is a 400 with no retry; any other failure escapes |
| CheckHelpers.StartTransferReadsOnlyItsReply | api/utils/check_helpers.py:58-73 | the outcome depends only on the answer to the one transfer POST |
| CheckHelpers.Poll | api/utils/check_helpers.py:84-90 | the retry loop never makes more requests than its budget allows |
| CheckHelpers.PollSpec | api/utils/check_helpers.py:84-96 | all requests but the last failed with an HTTP error; the result is the first success; any other error escapes at once; it stops early only on a non-HTTP-error answer; exhaustion is a 400 with the last message |
| CheckHelpers.GetDataset | api/utils/check_helpers.py:76-96 | the loop gives the same outcome and attempt count as the recursive `Poll`, within the budget; success means the last response was a success with that body |
| CheckHelpers.NoBudgetNoRequest | api/utils/check_helpers.py:84-85 | with `retry <= 0` no request is made and the error carries `Too many retries` |
| CheckHelpers.SucceedsOnFifthAttempt | api/utils/check_helpers.py:85-90 | four HTTP errors then a success return the fifth body after five requests |
| CheckHelpers.AlwaysFailingExhaustsBudget | api/utils/check_helpers.py:85-96 | a data plane that always errs is asked exactly `retry` times and the 400 carries the last message |
| CheckHelpers.DataRequests | api/utils/check_helpers.py:77-81 | one GET per attempt, numbered in order |
| CheckHelpers.FetchDataset | api/utils/check_helpers.py:76-96 | with the default budget, between one and five GETs to the data-plane URL; success is the last response's body |
| CheckRouter.ValidateCreate | api/routers/check_router.py:54-72 | a hosted check without a rule is a 400; an api check without a connector is a 400; an api check's connector is looked up by uuid; it succeeds iff these pass, yielding a connector iff the source is api |
| CheckRouter.CreateCheckHandler | api/routers/check_router.py:49-86 | validation, then company lookup, then insert, with no write on any error; the new row has a `ch_` uuid, the owner, name, rule and source; an api check stores the connector's internal id and answers with its uuid; a hosted check stores no connector and answers with the row, whose connector is null |
| CheckRouter.CreateCheckAsWritten | api/routers/check_router.py:42-86 | with the declared response schema the endpoint answers successfully only for an api check, and the insert stands whatever the answer |
| CheckRouter.HostedCreateCommitsButFails | api/routers/check_router.py:74-86 | a valid hosted check is inserted and then answered with a ResponseValidationError, a 500, because its null connector is refused |
| CheckRouter.CreateCheck | api/routers/check_router.py:49-86 | with the intended response schema: succeeds iff validation and the company lookup pass, with no write on error; answers with the new uuid, the name, rule and source, and the named connector for an api check or none for a hosted one |
| CheckRouter.LookupConnectors | api/routers/check_router.py:104-109 | one internal-id lookup per check with a truthy connector reference; fails iff one of those lookups fails |
| CheckRouter.ConnectorMap | api/routers/check_router.py:110 | every looked-up connector's id is a key, and each key maps to the uuid of a connector with that id |
| CheckRouter.RenderChecks | api/routers/check_router.py:112-118 | one output per check, in order, with the connector reference replaced by the mapped uuid or none |
| CheckRouter.ListChecks | api/routers/check_router.py:96-120 | the listing before response validation: an unknown company propagates its error; it fails iff some owned check's truthy connector reference does not resolve; otherwise one entry per owned check in storage order with its uuid, name, source and rule, never with an integer connector |
| CheckRouter.GetChecksAsWritten | api/routers/check_router.py:89-120 | with the declared response schema, a listing that was built is answered iff every entry has a connector uuid and a valid source |
| CheckRouter.ConnectorlessCheckBreaksListing | api/routers/check_router.py:112-120 | one check without a connector in a company makes that company's listing fail |
| CheckRouter.GetChecks | api/routers/check_router.py:96-120 | with the intended response schema: an unknown company propagates its error; the listing fails iff some owned check's truthy connector reference does not resolve or some stored source is invalid; otherwise one entry per owned check, in storage order, with its uuid, name, source and rule, and a connector iff the check has one |
| CheckRouter.MapHoldsUniqueConnector | api/routers/check_router.py:110 | with unique connector ids, the map sends a looked-up connector's id to that connector's uuid |
| CheckRouter.GetChecksReportsOwnConnector | api/routers/check_router.py:104-118 | with unique connector ids, each listed check reports the uuid of the connector its row references, or none |
| CheckRouter.CreatedCheckIsLastOwned | api/crud/check.py:23-38 | a check just created for a connector is the company's last check and references that connector by its internal id |
| CheckRouter.LastListedReportsConnector | api/routers/check_router.py:104-118 | the company's last check, referencing a stored connector, is listed last with that connector's uuid |
| CheckRouter.CreateThenListReportsConnector | api/routers/check_router.py:49-120 | a check just created for a connector is listed last, with its new uuid and the connector uuid the caller named |
| CheckRouter.ReadCheckHandler | api/routers/check_router.py:130-147 | an unknown check propagates its 404; an api check is answered with the uuid of the connector found by internal id, or that lookup's error; any other check with the stored row |
| CheckRouter.ReadCheckAsWritten | api/routers/check_router.py:123-147 | with the declared response schema only an api check can be read, and one whose connector resolves is answered with that connector's uuid |
| CheckRouter.ReadCheck | api/routers/check_router.py:123-147 | with the intended response schema, a hosted check without a connector is read with none, and an api check with the uuid of its connector; reading succeeds only for a stored check |
| CheckRouter.ReplaceByUuid | api/crud/check.py:41-49 | the table with the matching rows replaced and every other row unchanged |
| CheckRouter.UpdateCheckAsWritten | api/routers/check_router.py:150-165 | 404 for an unknown uuid; an update naming a connector is refused at commit with DataError and nothing changes; any other update commits the truthy merge and then fails response validation, since the row's connector is an integer or null; every answer is an error |
| CheckRouter.UpdateAsWrittenKeepsConnectors | api/crud/check.py:41-49 | an update as written never changes any check's connector |
| CheckRouter.PatchCheck | api/crud/check.py:41-49 | the truthy merge, translating a named connector's uuid to its internal id; an unknown connector is a 404 |
| CheckRouter.RenderConnector | api/routers/check_router.py:137-145 | a truthy reference renders as the uuid of the connector with that internal id, or that lookup's error; no reference renders as null |
| CheckRouter.PatchNamingConnectorRendersIt | api/crud/check.py:41-49 | the corrected patch naming a stored connector stores its internal id, which renders back as the uuid the caller named |
| CheckRouter.UpdateNamingConnectorReportsIt | api/routers/check_router.py:157-165 | the corrected update naming a stored connector succeeds, answers with that connector's uuid, and stores its internal id on the check |
| CheckRouter.UpdateCheck | api/routers/check_router.py:157-165 | 404 for an unknown check; otherwise the corrected patch is committed, every other row and table unchanged, with no write on error; the answer carries the check's uuid, the patched name and rule and the requested source |
| CheckRouter.UpdatedApiCheckResolvesNamedConnector | api/utils/check_helpers.py:40-47 | after the corrected patch that the update stores, the api check's rule request goes to its endpoint with the named connector's username and plaintext password |
| CheckRouter.Verdict | api/routers/check_router.py:200-220 | serialization or validation errors propagate; otherwise `Pass` iff the report conforms, the report text as description, the rule given as both shapes and ontology graph, and the timestamp fixed at load |
| CheckRouter.RunCheck | api/routers/check_router.py:191-221 | an unknown check fails with no request; a rule that does not resolve stops the run with only the resolver's requests; otherwise the verdict on the resolved rule |
| CheckRouter.RunJustCreatedHostedCheck | api/routers/check_router.py:191-221 | running a hosted check just created makes no request, fails when its rule text does not parse, and otherwise is the verdict against that rule, naming the new check |
| CheckRouter.ToMarkup | api/routers/check_router.py:253-256 | with a mapping, the markup of the rows; with no mapping, an empty root for no rows and an AttributeError otherwise |
| CheckRouter.Dispatch | api/routers/check_router.py:250-266 | `excel` runs the spreadsheet through markup, extraction and JSON-LD conversion, each step's error propagating; `JSON-LD` decodes the fetched body as JSON, a decoding error propagating |
| CheckRouter.Acquire | api/routers/check_router.py:240-248 | one transfer request to port 8181; data requests to port 8183 follow iff the transfer succeeded and its reply decoded |
| CheckRouter.AcquireTrace | api/routers/check_router.py:240-248 | the acquisition trace is a transfer request followed only by data requests |
| CheckRouter.OrderedAfterRules | api/routers/check_router.py:237-248 | rule requests followed by an ordered later trace form an ordered trace |
| CheckRouter.AcquireAndValidate | api/routers/check_router.py:240-297 | acquisition errors propagate; otherwise dispatch and the verdict |
| CheckRouter.RunDspaceCheck | api/routers/check_router.py:231-297 | an unknown check fails with no request; a rule that does not resolve stops the run with only the resolver's requests; otherwise acquisition and validation follow, their requests after the resolver's |
| CheckRouter.DspaceRequestsInStageOrder | api/routers/check_router.py:237-248 | requests go out in the order rule, transfer, data; a transfer is requested only after the rule resolved, and data only after the transfer started; all go to the fixed hosts for the dataset |
| CheckRouter.DspaceSuccessFetchedData | api/routers/check_router.py:245-297 | a successful run fetched the data, and its result names the check and carries the timestamp fixed at load |
| CheckRouter.NonJsonTransferReplyStopsAcquire | api/utils/check_helpers.py:58-73 | a transfer reply that is not JSON ends acquisition after the single transfer request, with the decoder's error |
| CheckRouter.NonJsonTransferReplyStopsRun | api/routers/check_router.py:237-248 | in a data-space run whose rule resolves, an undecodable transfer reply is the run's error and no data request is made |
| Security.Rank | api/dependencies/security.py:52-56 | a role has a rank iff it is one of the three roles |
| Security.HasRequiredLevel | api/dependencies/security.py:51-60 | an unknown role raises ValueError naming it; otherwise true iff the role's rank is at least the required one's |
| Security.LevelMatchesOrder | api/dependencies/security.py:51-60 | the ranks implement the order: super user passes all, everyone passes company user, each role passes its own level |
| Security.LevelIsPreorder | api/dependencies/security.py:51-60 | the level check is reflexive and transitive |
| Security.IsMemberOfCompany | api/dependencies/security.py:62-73 | a super user is always a member; others need a truthy company in the path (else 500) equal to the uuid of their own company |
| Security.MemberIffOwnCompany | api/dependencies/security.py:62-73 | for a caller that is not a super user and a non-empty company in the path, membership holds exactly when the path names the caller's own company |
| Security.GetApplication | api/crud/application.py:9-19 | the application with the client id, or 401 iff none has it |
| Security.GetCurrentApplication | api/dependencies/security.py:25-49 | an unverifiable token, or a `sub` that is missing, null or not a text, is a 401 `Could not validate credentials`; otherwise the application named by `sub`; every HTTP error is a 401 |
| Security.Authorize | api/dependencies/security.py:75-98 | authenticate, then membership (403 `Not authorized`), then level (403 `Not enough permissions`), each error stopping the chain |
| Security.AuthorizedOnlyIfAllPass | api/dependencies/security.py:81-98 | the application is returned only when all three checks pass |
| Security.CreateAccessToken | api/dependencies/security.py:106-116 | the expiry is now plus the delta, or now plus 30 minutes when the delta is absent or zero; the token encodes the input extended with that `exp` |
| Security.IssuedTokenAuthenticates | api/dependencies/security.py:25-49 | a token carrying just the `sub` and `exp` claims that login issues, for a registered client, authenticates that client up to its expiry |
| Security.ExpiredTokenRejected | api/dependencies/security.py:35-45 | after its expiry a token is refused with 401, whatever other claims its payload holds |
| Security.NonTextSubjectRejected | api/dependencies/security.py:36-45 | a verified token whose `sub` is not a text is refused with 401 `Could not validate credentials` |

## Left out

- `xml_to_graph` (the Java mapping subprocess and its temporary files) is the opaque `extract` parameter. Its temporary files are removed only on its success path; that cleanup is not modelled.
- The graph library (Turtle parsing and serialization, `DataSchema.as_ttl`, `Check.initialised_ttl_rule`) is represented by the parameters `parse` and `asTtl`.
- The SHACL validator is the parameter `validate`. HTTP is represented by `fetch`, `post` and `get`; the spreadsheet reader by `readExcel`; Fernet by `Vault`; and JWT by `TokenCodec`.
- The five-second sleeps after a transfer and between retries are not modelled: they only delay.
- Session lifecycle, commits, configuration loading, the migration, database initialisation and route wiring are not modelled.
- The thin company, application, auth, connector and convertor routers and the OAuth form are not modelled: they only call the functions modelled here.
- `api/utils/hash.py` is not part of this model.
- Async execution is not modelled: every endpoint is modelled as sequential.
- The delete endpoints are not modelled: they hold no decision beyond the lookup that is modelled.
- Dictionary key order is not modelled: the JSON-LD property maps are maps.
- A literal's `.value` (its Python value) is kept as the RDF term itself.
- The truthiness of a term is modelled as a non-empty text. Typed literals whose Python value is falsy (`0`, `false`) are not distinguished.
- Spreadsheet cells arrive already rendered as text: pandas' `str` of a cell, NaN included, happens inside `readExcel`.
- JSON decoding is the parameter `decodeJson`. The decoded document is kept as its text; `DataSchema(**json_ld)` and the rest of JSON-LD parsing are folded into `asTtl`.
- The rdflib JSON-LD parser fetches each remote `@context` URL when it serializes data (`as_ttl`, `json_ld_to_ttl`). These fetches happen inside `asTtl` and `toTurtle`, so they do not appear in the request trace, and their failures are not distinguished from other serializer errors.
- Fernet's random IV and its timestamp are the `nonce` parameter of `Vault.encrypt`. Token expiry on decryption (`ttl`) is not used by the code and is not modelled.
- The `else` branch of `run_dspace_check` (check_router.py:268-272, a 400 for an unknown dataset type) is unreachable. Pydantic has already refused such a body with a 422 when it parsed `DSpaceCheckSchema` (`CheckSchemas.ParseDSpaceCheck`), so `Dispatch` takes a parsed `DataSetType` and has no such branch.
- The `rule_source` column is a SQLAlchemy `Enum(RuleSource)`. The model keeps the stored value as text and reads it back with `ParseRuleSource`, so an invalid stored value shows up as a response validation error rather than a load error.
- Connector ownership is not checked when a check is created with a connector, and check lookups are not scoped to the company in the path. This matches the code.
- Time zones are not modelled. Naive local times and the codec's UTC expiry check are on one integer clock.
- The `application is None` check in `get_current_application` is not modelled: it is unreachable, because the lookup already raises a 401.
- The token library's claim checks are folded into the codec's `decode`. A `sub` claim that is not a text fails python-jose's check (JWTClaimsError), which the handler turns into the 401 `Could not validate credentials` (`Security.NonTextSubjectRejected`).
- Security.SoundCodec: the `aud`, `nbf`, `iat` and `jti` checks of python-jose are not modelled. Before expiry the codec is assumed to decode only payloads holding just `sub` and `exp`, the claims `login_for_access_token` issues (auth_router.py:36-37); nothing is assumed about an unexpired payload with other claims. Expiry is assumed to refuse every payload.
- CheckStore.UpdateCheck: the DataError is the driver's refusal of a text bound to an integer column (asyncpg). The exact message is that driver's and the rollback after it is not modelled.

## Findings

| source | as written | input that shows it | evidently intended | confidence | as-written member | corrected member |
|---|---|---|---|---|---|---|
| api/crud/connector.py:59-60 | a password update stores the encryption of the connector's current (already encrypted) password and drops the submitted plaintext | update a connector with `password = "new"`: two different new passwords under the same nonce store the same row, and decrypting it gives the old ciphertext, not `"new"` | store the encryption of the submitted password | high; not executed | ConnectorStore.UpdateConnectorAsWritten, ConnectorStore.PasswordUpdateDiscardsPlaintext | ConnectorStore.UpdateConnector |
| api/crud/check.py:42-47 | an update copies the request's `connector_id`, a connector's public uuid text, into the check's integer connector column, which the database refuses at commit | update a check with `connector_id = "cn_…"`: the commit raises DataError and the check keeps its old connector, so no update can ever change a check's connector | translate the uuid to the connector's internal id, as `create_check` does | medium; not executed | CheckStore.UpdateCheck, CheckRouter.UpdateCheckAsWritten, CheckRouter.UpdateAsWrittenKeepsConnectors | CheckRouter.PatchCheck, CheckRouter.UpdateCheck, CheckRouter.UpdateNamingConnectorReportsIt |
| api/schemas/app/check.py:37 | `connector_id: str = None` refuses an explicit `None` and an integer when a response is validated | create a hosted check: the row is committed, then the answer (the row, connector `None`) fails validation with a 500; listing a company with such a check, reading it, and every update answer fail the same way | an optional text connector, `Optional[str] = None` | high; not executed | CheckRouter.CreateCheckAsWritten, CheckRouter.HostedCreateCommitsButFails, CheckRouter.GetChecksAsWritten, CheckRouter.ConnectorlessCheckBreaksListing, CheckRouter.ReadCheckAsWritten, CheckRouter.UpdateCheckAsWritten | CheckSchemas.CheckOutIntended, CheckRouter.CreateCheck, CheckRouter.GetChecks, CheckRouter.ReadCheck, CheckRouter.UpdateCheck |
