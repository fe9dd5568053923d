/** Persistence of connectors: the per-company credential bundles used to
    fetch rules from a remote API. The stored password is always a ciphertext
    produced by the vault. */
module ConnectorStore {
  import opened Outcomes
  import Store
  import Database
  import opened Vault
  import opened ConnectorSchemas

  /** A row of the connectors table. `password` holds ciphertext. */
  datatype Connector = Connector(
    id: int,
    uuid: string,
    connectorName: string,
    tokenEndpoint: Option<string>,
    username: string,
    password: string,
    companyId: int,
    updatedAt: int)

  /** What a check's `connector_id` column holds: nothing, or a connector's
      internal integer id. The column is an integer foreign key, so no other
      value can be committed (see `CheckStore.UpdateCheck`). */
  datatype ConnectorRef = NoConnector | InternalId(id: int)

  const ConnectorNotFound: string := "No connector was found with that id."

  /** `db_get_connector`: lookup by public uuid. */
  function GetConnector(conns: seq<Connector>, uuid: string): (r: Result<Connector>)
    ensures r.Ok? ==> r.value in conns && r.value.uuid == uuid
    ensures r == Err(HttpError(NotFound, ConnectorNotFound)) <==> forall c :: c in conns ==> c.uuid != uuid
  {
    Store.OneOrNotFound(conns, (c: Connector) => c.uuid == uuid, ConnectorNotFound)
  }

  /** `db_get_connector_by_internal_id`: lookup by the integer primary key.
      Only an integer reference can equal a primary key; `None` matches nothing. */
  function GetConnectorByInternalId(conns: seq<Connector>, ref: ConnectorRef): (r: Result<Connector>)
    ensures r.Ok? ==> ref.InternalId? && r.value in conns && r.value.id == ref.id
    ensures r == Err(HttpError(NotFound, ConnectorNotFound))
        <==> !ref.InternalId? || forall c :: c in conns ==> c.id != ref.id
  {
    match ref
    case InternalId(n) => Store.OneOrNotFound(conns, (c: Connector) => c.id == n, ConnectorNotFound)
    case NoConnector => Err(HttpError(NotFound, ConnectorNotFound))
  }

  /** With unique primary keys, an internal-id reference to a stored
      connector finds exactly that connector. */
  lemma InternalIdFindsConnector(conns: seq<Connector>, conn: Connector)
    requires forall i, j :: 0 <= i < j < |conns| ==> conns[i].id != conns[j].id
    requires conn in conns
    ensures GetConnectorByInternalId(conns, InternalId(conn.id)) == Ok(conn)
  {
    Store.UniqueMatchFindsOne(conns, (c: Connector) => c.id == conn.id, conn);
  }

  /** `db_create_connector`: the plaintext password is replaced by its
      encryption before the row is stored; every other field is copied. */
  function CreateConnector(
    conns: seq<Connector>, input: ConnectorIn, companyId: int,
    vault: Vault, nonce: nat, id: int, draw: string, now: int): (r: (seq<Connector>, Connector))
    requires Database.IsUuid4Digits(draw)
    ensures r.0 == conns + [r.1]
    ensures r.1.id == id && r.1.companyId == companyId && r.1.updatedAt == now
    ensures |r.1.uuid| == 35 && r.1.uuid[..3] == "cn_"
    ensures r.1.connectorName == input.connectorName
    ensures r.1.username == input.username
    ensures r.1.tokenEndpoint == input.tokenEndpoint
    ensures Sound(vault) ==> DecryptPassword(vault, r.1.password) == Ok(input.password)
  {
    var row := Connector(
      id, Database.UuidForInsert(Database.ConnectorKind, draw),
      input.connectorName, input.tokenEndpoint, input.username,
      vault.encrypt(input.password, nonce), companyId, now);
    (conns + [row], row)
  }

  /** `db_update_connector` as written: each truthy field of the update is set,
      but for `password` the value written is `encrypt_password()` of the row
      as it stands, that is, the encryption of the ciphertext already stored.
      The incoming plaintext is never read. */
  function UpdateConnectorAsWritten(
    row: Connector, update: ConnectorUpdate, vault: Vault, nonce: nat, now: int): (r: Connector)
    ensures r.id == row.id && r.uuid == row.uuid && r.companyId == row.companyId
    ensures r.updatedAt == now
    ensures TruthyOpt(update.connectorName) ==> r.connectorName == update.connectorName.value
    ensures !TruthyOpt(update.connectorName) ==> r.connectorName == row.connectorName
    ensures TruthyOpt(update.username) ==> r.username == update.username.value
    ensures !TruthyOpt(update.username) ==> r.username == row.username
    ensures TruthyOpt(update.tokenEndpoint) ==> r.tokenEndpoint == update.tokenEndpoint
    ensures !TruthyOpt(update.tokenEndpoint) ==> r.tokenEndpoint == row.tokenEndpoint
    ensures !TruthyOpt(update.password) ==> r.password == row.password
    ensures TruthyOpt(update.password) && Sound(vault) ==>
      DecryptPassword(vault, r.password) == Ok(row.password)
  {
    var name := if TruthyOpt(update.connectorName) then update.connectorName.value else row.connectorName;
    var user := if TruthyOpt(update.username) then update.username.value else row.username;
    var password := if TruthyOpt(update.password) then vault.encrypt(row.password, nonce) else row.password;
    var endpoint := if TruthyOpt(update.tokenEndpoint) then update.tokenEndpoint else row.tokenEndpoint;
    row.(connectorName := name, username := user, password := password,
         tokenEndpoint := endpoint, updatedAt := now)
  }

  /** The password a caller sends to the as-written update is discarded:
      whatever the new password and whatever the cipher's random draw, the
      stored value decrypts to the old ciphertext and never to the new
      password; and with the same draw, two updates that differ only in the
      new password store the same row. */
  lemma PasswordUpdateDiscardsPlaintext(
    row: Connector, update: ConnectorUpdate, vault: Vault, now: int,
    p1: string, n1: nat, p2: string, n2: nat)
    requires Sound(vault)
    requires |p1| > 0 && |p2| > 0
    requires row.password != p1
    ensures UpdateConnectorAsWritten(row, update.(password := Some(p1)), vault, n1, now)
         == UpdateConnectorAsWritten(row, update.(password := Some(p2)), vault, n1, now)
    ensures DecryptPassword(vault, UpdateConnectorAsWritten(row, update.(password := Some(p1)), vault, n1, now).password)
         == DecryptPassword(vault, UpdateConnectorAsWritten(row, update.(password := Some(p2)), vault, n2, now).password)
         == Ok(row.password)
    ensures DecryptPassword(vault, UpdateConnectorAsWritten(row, update.(password := Some(p1)), vault, n1, now).password)
         != Ok(p1)
  {
    var r := UpdateConnectorAsWritten(row, update.(password := Some(p1)), vault, n1, now);
    assert DecryptPassword(vault, r.password) == Ok(row.password);
  }

  /** `db_update_connector` with the password handling evidently intended: a
      truthy password is encrypted from the incoming plaintext. */
  function UpdateConnector(
    row: Connector, update: ConnectorUpdate, vault: Vault, nonce: nat, now: int): (r: Connector)
    ensures r.id == row.id && r.uuid == row.uuid && r.companyId == row.companyId
    ensures r.updatedAt == now
    ensures TruthyOpt(update.connectorName) ==> r.connectorName == update.connectorName.value
    ensures !TruthyOpt(update.connectorName) ==> r.connectorName == row.connectorName
    ensures TruthyOpt(update.username) ==> r.username == update.username.value
    ensures !TruthyOpt(update.username) ==> r.username == row.username
    ensures TruthyOpt(update.tokenEndpoint) ==> r.tokenEndpoint == update.tokenEndpoint
    ensures !TruthyOpt(update.tokenEndpoint) ==> r.tokenEndpoint == row.tokenEndpoint
    ensures !TruthyOpt(update.password) ==> r.password == row.password
    ensures TruthyOpt(update.password) && Sound(vault) ==>
      DecryptPassword(vault, r.password) == Ok(update.password.value)
  {
    var name := if TruthyOpt(update.connectorName) then update.connectorName.value else row.connectorName;
    var user := if TruthyOpt(update.username) then update.username.value else row.username;
    var password := if TruthyOpt(update.password) then vault.encrypt(update.password.value, nonce) else row.password;
    var endpoint := if TruthyOpt(update.tokenEndpoint) then update.tokenEndpoint else row.tokenEndpoint;
    row.(connectorName := name, username := user, password := password,
         tokenEndpoint := endpoint, updatedAt := now)
  }

  /** An update request with no fields changes nothing but the timestamp. */
  lemma EmptyUpdateChangesOnlyTimestamp(row: Connector, vault: Vault, nonce: nat, now: int)
    ensures UpdateConnector(row, EmptyUpdate, vault, nonce, now) == row.(updatedAt := now)
    ensures UpdateConnectorAsWritten(row, EmptyUpdate, vault, nonce, now) == row.(updatedAt := now)
  {
  }

  /** `db_get_all_connectors`: exactly the connectors owned by the company. */
  function GetAllConnectors(conns: seq<Connector>, companyId: int): (r: seq<Connector>)
    ensures forall c :: c in r <==> c in conns && c.companyId == companyId
    ensures multiset(r) <= multiset(conns)
  {
    Store.Where(conns, (c: Connector) => c.companyId == companyId)
  }

  /** The public view of a connector (`ConnectorOutSchema`). */
  function ToConnectorOut(row: Connector): (r: ConnectorOut)
    ensures r.connectorId == row.uuid
    ensures r.connectorName == row.connectorName && r.username == row.username
    ensures r.tokenEndpoint == row.tokenEndpoint
  {
    ConnectorOut(row.uuid, row.connectorName, row.username, row.tokenEndpoint)
  }

  /** The response never depends on the stored credential. */
  lemma ConnectorOutHidesPassword(row: Connector, other: string)
    ensures ToConnectorOut(row.(password := other)) == ToConnectorOut(row)
  {
  }

  /** A connector just created is found again by its uuid, and decrypting its
      stored password gives the plaintext back. */
  lemma CreateThenGetConnector(
    conns: seq<Connector>, input: ConnectorIn, companyId: int,
    vault: Vault, nonce: nat, id: int, draw: string, now: int)
    requires Database.IsUuid4Digits(draw)
    requires Sound(vault)
    requires forall c :: c in conns ==> c.uuid != Database.UuidForInsert(Database.ConnectorKind, draw)
    ensures var (after, row) := CreateConnector(conns, input, companyId, vault, nonce, id, draw, now);
      && GetConnector(after, row.uuid) == Ok(row)
      && DecryptPassword(vault, row.password) == Ok(input.password)
  {
    var (after, row) := CreateConnector(conns, input, companyId, vault, nonce, id, draw, now);
    Store.FindOneAppended(conns, (c: Connector) => c.uuid == row.uuid, row);
  }
}
