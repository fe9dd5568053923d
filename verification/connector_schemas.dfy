/** The request and response shapes of the connector endpoints. */
module ConnectorSchemas {
  import opened Outcomes

  /** `ConnectorInSchema`: name, username and plaintext password are required. */
  datatype ConnectorIn = ConnectorIn(
    connectorName: string,
    username: string,
    password: string,
    tokenEndpoint: Option<string>)

  /** `ConnectorUpdateSchema`: every field may be left out, which means `None`. */
  datatype ConnectorUpdate = ConnectorUpdate(
    connectorName: Option<string>,
    username: Option<string>,
    password: Option<string>,
    tokenEndpoint: Option<string>)

  /** The update a request body with no fields decodes to. */
  const EmptyUpdate: ConnectorUpdate := ConnectorUpdate(None, None, None, None)

  /** `ConnectorOutSchema`: the public uuid as `connector_id`, and no password. */
  datatype ConnectorOut = ConnectorOut(
    connectorId: string,
    connectorName: string,
    username: string,
    tokenEndpoint: Option<string>)
}
