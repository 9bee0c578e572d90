/** The native request, as the exporters, the importers and the editors see it. */
module RequestModel {
  import opened Wrappers
  import opened Json

  datatype KeyValue = KeyValue(key: string, value: string, enabled: bool)

  datatype HeaderEntry = HeaderEntry(key: string, value: string, enabled: bool)

  datatype MultipartPart = MultipartPart(
    name: string, value: string, filePath: Option<string>, contentType: Option<string>, enabled: bool)

  datatype RequestBody =
    | NoBody
    | Raw(text: string, contentType: Option<string>)
    | JsonBody(value: Json)
    | Graphql(query: string, variables: Json, operationName: Option<string>)
    | FormUrlEncoded(fields: seq<KeyValue>)
    | Multipart(parts: seq<MultipartPart>)
    | BinaryFile(path: string, fileContentType: Option<string>)

  datatype ApiKeyLocation = Header | Query

  datatype Auth =
    | NoAuth
    | Basic(username: string, password: string)
    | Digest(username: string, password: string)
    | Bearer(token: string)
    | ApiKey(key: string, value: string, location: ApiKeyLocation)
    | ClientCredentials(tokenUrl: string, clientId: string, secret: string, scope: Option<string>)
    | AuthorizationCodePkce(
        authorizationUrl: string, tokenUrl: string, clientId: string, redirectUri: string,
        code: string, codeVerifier: string, clientSecret: Option<string>, scope: Option<string>)
    | RefreshToken(
        tokenUrl: string, clientId: string, refreshToken: string, clientSecret: Option<string>, scope: Option<string>)
    | DeviceCode(
        deviceAuthorizationUrl: string, tokenUrl: string, clientId: string,
        clientSecret: Option<string>, scope: Option<string>)
    | AwsSignatureV4(
        accessKeyId: string, secretAccessKey: string, region: string, service: string, sessionToken: Option<string>)

  datatype GrpcRequest = GrpcRequest(
    proto: string, reflection: bool, reflectionHost: string, includes: seq<string>, method_: string,
    metadata: seq<KeyValue>)

  /** Only the assertions that carry a JSON value are told apart; the others are `Plain`. */
  datatype Assertion =
    | Plain(description: string)
    | PointerEquals(pointer: string, expected: Json)
    | PointerContains(pointer: string, expected: Json)
    | MatchesSchema(pointer: string, schema: Json)

  datatype ResponseExample = ResponseExample(name: string, status: Option<nat>, body: Option<string>)

  datatype Request = Request(
    id: nat,
    name: string,
    method_: string,
    url: string,
    grpc: Option<GrpcRequest>,
    folder: Option<string>,
    description: Option<string>,
    query: seq<KeyValue>,
    headers: seq<HeaderEntry>,
    cookies: seq<KeyValue>,
    body: RequestBody,
    auth: Auth,
    preRequestScript: Option<string>,
    testScript: Option<string>,
    examples: seq<ResponseExample>,
    assertions: seq<Assertion>)

  /** `Request::new`; the random identifier is a parameter. */
  function NewRequest(id: nat, name: string, method_: string, url: string): Request {
    Request(id, name, method_, url, None, None, None, [], [], [], NoBody, NoAuth, None, None, [], [])
  }
}
