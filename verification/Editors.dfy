/** The text editors of a request: filling them from a request, and making a request from what they hold. */
module Editors {
  import opened Wrappers
  import opened Text
  import opened Json
  import opened RequestModel
  import opened Graphql

  datatype BodyKind =
    | NoneKind | RawKind | JsonKind | XmlKind | HtmlKind | JavaScriptKind | GraphqlKind
    | FormKind | MultipartKind | BinaryKind | AdvancedKind

  datatype AuthKind =
    | NoAuthKind | BearerKind | BasicKind | DigestKind | ApiKeyKind | ClientCredentialsKind | PkceKind
    | RefreshTokenKind | DeviceCodeKind | AwsKind

  datatype BodyEditors = BodyEditors(
    kind: BodyKind, text: string, contentType: string, query: string, variables: string, operationName: string)

  /** The seven text fields that the kinds of authentication share. */
  datatype AuthEditors = AuthEditors(
    kind: AuthKind, primary: string, secondary: string, tertiary: string, quaternary: string, fifth: string,
    sixth: string, seventh: string, location: ApiKeyLocation)

  datatype GrpcEditors = GrpcEditors(
    proto: string, reflection: bool, host: string, includes: string, method_: string, metadata: seq<KeyValue>)

  datatype EditorState = EditorState(
    body: BodyEditors, auth: AuthEditors, grpc: GrpcEditors, preRequestScript: string, testScript: string,
    assertionTexts: seq<string>)

  datatype EditError =
    | JsonBodyInvalid
    | QueryInvalid(error: GraphqlError)
    | VariablesInvalid(error: GraphqlError)
    | AssertionValueInvalid
    | SchemaNotBooleanOrObject
    | ProtoMissing
    | MethodMissing

  /** `(!text.trim().is_empty()).then(|| text)`. */
  function NonBlank(text: string): Option<string> {
    if Blank(text) then None else Some(text)
  }

  function OrEmpty(text: Option<string>): string {
    if text.Some? then text.value else ""
  }

  // ----- Loading -----

  /** The raw editor that a content type asks for. */
  function RawKindOf(contentType: string): BodyKind {
    var parts := SplitOnce(contentType, ';');
    var name := ToLowerAscii(Trim(if parts.Some? then parts.value.0 else contentType));
    if name == "application/xml" || name == "text/xml" then XmlKind
    else if name == "text/html" then HtmlKind
    else if name == "application/javascript" || name == "text/javascript" then JavaScriptKind
    else RawKind
  }

  /** Kinds other than GraphQL leave the GraphQL editors as they were. */
  function LoadedBody(codec: Codec, body: RequestBody, before: BodyEditors): BodyEditors {
    match body
    case NoBody => before.(kind := NoneKind, text := "", contentType := "")
    case Raw(text, contentType) =>
      before.(kind := RawKindOf(OrEmpty(contentType)), text := text, contentType := OrEmpty(contentType))
    case JsonBody(value) => before.(kind := JsonKind, text := codec.show(value), contentType := "")
    case Graphql(query, variables, operationName) =>
      BodyEditors(GraphqlKind, "", "", query, codec.show(variables), OrEmpty(operationName))
    case FormUrlEncoded(_) => before.(kind := FormKind, text := "", contentType := "")
    case Multipart(_) => before.(kind := MultipartKind, text := "", contentType := "")
    case BinaryFile(_, _) => before.(kind := BinaryKind, text := "", contentType := "")
  }

  /** A gRPC request without a body gets an empty JSON object to edit. */
  function LoadedBodyFor(codec: Codec, request: Request, before: BodyEditors): BodyEditors {
    var loaded := LoadedBody(codec, request.body, before);
    if request.grpc.Some? && loaded.kind == NoneKind then loaded.(kind := JsonKind, text := "{}") else loaded
  }

  function LoadedAuth(auth: Auth): AuthEditors {
    match auth
    case NoAuth => AuthEditors(NoAuthKind, "", "", "", "", "", "", "", Header)
    case Bearer(token) => AuthEditors(BearerKind, token, "", "", "", "", "", "", Header)
    case Basic(username, password) => AuthEditors(BasicKind, username, password, "", "", "", "", "", Header)
    case Digest(username, password) => AuthEditors(DigestKind, username, password, "", "", "", "", "", Header)
    case ApiKey(key, value, location) => AuthEditors(ApiKeyKind, key, value, "", "", "", "", "", location)
    case ClientCredentials(tokenUrl, clientId, secret, scope) =>
      AuthEditors(ClientCredentialsKind, tokenUrl, clientId, secret, OrEmpty(scope), "", "", "", Header)
    case AuthorizationCodePkce(authorizationUrl, tokenUrl, clientId, redirectUri, code, codeVerifier, _, scope) =>
      AuthEditors(PkceKind, authorizationUrl, tokenUrl, clientId, redirectUri, code, codeVerifier, OrEmpty(scope),
                  Header)
    case RefreshToken(tokenUrl, clientId, refreshToken, _, scope) =>
      AuthEditors(RefreshTokenKind, tokenUrl, clientId, refreshToken, OrEmpty(scope), "", "", "", Header)
    case DeviceCode(deviceAuthorizationUrl, tokenUrl, clientId, clientSecret, scope) =>
      AuthEditors(DeviceCodeKind, deviceAuthorizationUrl, tokenUrl, clientId, OrEmpty(clientSecret), OrEmpty(scope),
                  "", "", Header)
    case AwsSignatureV4(accessKeyId, secretAccessKey, region, service, sessionToken) =>
      AuthEditors(AwsKind, accessKeyId, secretAccessKey, region, service, OrEmpty(sessionToken), "", "", Header)
  }

  function LoadedGrpc(grpc: Option<GrpcRequest>): GrpcEditors {
    match grpc
    case None => GrpcEditors("", false, "", "", "", [])
    case Some(g) => GrpcEditors(g.proto, g.reflection, g.reflectionHost, Join(g.includes, "\n"), g.method_, g.metadata)
  }

  function AssertionText(codec: Codec, assertion: Assertion): string {
    match assertion
    case Plain(_) => ""
    case PointerEquals(_, expected) => codec.show(expected)
    case PointerContains(_, expected) => codec.show(expected)
    case MatchesSchema(_, schema) => codec.show(schema)
  }

  function AssertionTexts(codec: Codec, assertions: seq<Assertion>): seq<string> {
    if assertions == [] then []
    else [AssertionText(codec, assertions[0])] + AssertionTexts(codec, assertions[1..])
  }

  /** What the editors hold after loading a request. */
  function Loaded(codec: Codec, request: Request, before: EditorState): EditorState {
    EditorState(
      LoadedBodyFor(codec, request, before.body), LoadedAuth(request.auth), LoadedGrpc(request.grpc),
      OrEmpty(request.preRequestScript), OrEmpty(request.testScript), AssertionTexts(codec, request.assertions))
  }

  // ----- Editing -----

  ghost function QueryError(query: string): Option<GraphqlError> {
    if Blank(query) then Some(EmptyQuery) else if Balanced(query) then None else Some(UnbalancedBraces)
  }

  ghost function EditedBody(codec: Codec, body: RequestBody, e: BodyEditors): Result<RequestBody, EditError> {
    match e.kind
    case NoneKind => Ok(NoBody)
    case JsonKind =>
      (match codec.parse(e.text)
       case None => Err(JsonBodyInvalid)
       case Some(value) => Ok(JsonBody(value)))
    case GraphqlKind =>
      if QueryError(e.query).Some? then Err(QueryInvalid(QueryError(e.query).value))
      else
        (match ParseVariables(codec, e.variables)
         case Err(error) => Err(VariablesInvalid(error))
         case Ok(variables) => Ok(Graphql(e.query, variables, NonBlank(e.operationName))))
    case FormKind => Ok(if body.FormUrlEncoded? then body else FormUrlEncoded([]))
    case MultipartKind => Ok(if body.Multipart? then body else Multipart([]))
    case BinaryKind => Ok(if body.BinaryFile? then body else BinaryFile("", None))
    case AdvancedKind => Ok(body)
    case _ => Ok(Raw(e.text, if Blank(e.contentType) then None else Some(Trim(e.contentType))))
  }

  function EditedAuth(e: AuthEditors): Auth {
    match e.kind
    case NoAuthKind => NoAuth
    case BearerKind => Bearer(e.primary)
    case BasicKind => Basic(e.primary, e.secondary)
    case DigestKind => Digest(e.primary, e.secondary)
    case ApiKeyKind => ApiKey(e.primary, e.secondary, e.location)
    case ClientCredentialsKind => ClientCredentials(e.primary, e.secondary, e.tertiary, NonBlank(e.quaternary))
    case PkceKind =>
      AuthorizationCodePkce(e.primary, e.secondary, e.tertiary, e.quaternary, e.fifth, e.sixth, None,
                            NonBlank(e.seventh))
    case RefreshTokenKind => RefreshToken(e.primary, e.secondary, e.tertiary, None, NonBlank(e.quaternary))
    case DeviceCodeKind => DeviceCode(e.primary, e.secondary, e.tertiary, NonBlank(e.quaternary), NonBlank(e.fifth))
    case AwsKind => AwsSignatureV4(e.primary, e.secondary, e.tertiary, e.quaternary, NonBlank(e.fifth))
  }

  function EditedGrpc(e: GrpcEditors): Result<GrpcRequest, EditError> {
    if !e.reflection && Blank(e.proto) then Err(ProtoMissing)
    else if Blank(e.method_) then Err(MethodMissing)
    else
      Ok(GrpcRequest(Trim(e.proto), e.reflection, Trim(e.host), CleanPieces(e.includes, "\n"), Trim(e.method_),
                     e.metadata))
  }

  function EditedAssertion(codec: Codec, assertion: Assertion, text: string): Result<Assertion, EditError> {
    if assertion.Plain? then Ok(assertion)
    else
      match codec.parse(text)
      case None => Err(AssertionValueInvalid)
      case Some(value) =>
        match assertion
        case PointerEquals(pointer, _) => Ok(PointerEquals(pointer, value))
        case PointerContains(pointer, _) => Ok(PointerContains(pointer, value))
        case MatchesSchema(pointer, _) =>
          if value.Bool? || value.Obj? then Ok(MatchesSchema(pointer, value)) else Err(SchemaNotBooleanOrObject)
  }

  /** An assertion without a text reads `null`. */
  function EditedAssertions(codec: Codec, assertions: seq<Assertion>, texts: seq<string>)
    : Result<seq<Assertion>, EditError>
  {
    if assertions == [] then Ok([])
    else
      match EditedAssertion(codec, assertions[0], if texts == [] then "null" else texts[0])
      case Err(error) => Err(error)
      case Ok(first) =>
        match EditedAssertions(codec, assertions[1..], if texts == [] then [] else texts[1..])
        case Err(error) => Err(error)
        case Ok(rest) => Ok([first] + rest)
  }

  /** `edited_request`. */
  ghost function Edited(codec: Codec, request: Request, e: EditorState): Result<Request, EditError> {
    match EditedBody(codec, request.body, e.body)
    case Err(error) => Err(error)
    case Ok(body) =>
      match EditedAssertions(codec, request.assertions, e.assertionTexts)
      case Err(error) => Err(error)
      case Ok(assertions) =>
        var edited := request.(
          preRequestScript := NonBlank(e.preRequestScript), testScript := NonBlank(e.testScript),
          body := body, assertions := assertions, auth := EditedAuth(e.auth));
        if request.grpc.None? then Ok(edited)
        else
          match EditedGrpc(e.grpc)
          case Err(error) => Err(error)
          case Ok(grpc) => Ok(edited.(grpc := Some(grpc)))
  }

  // ----- The application object -----

  /** The request and its editors; editors that are always set together are kept in one record. */
  class RequestEditors {
    var request: Request
    var body: BodyEditors
    var auth: AuthEditors
    var grpc: GrpcEditors
    var preRequestScript: string
    var testScript: string
    var assertionTexts: seq<string>

    constructor (request: Request, state: EditorState)
      ensures this.request == request && View() == state
    {
      this.request := request;
      body, auth, grpc := state.body, state.auth, state.grpc;
      preRequestScript, testScript, assertionTexts := state.preRequestScript, state.testScript, state.assertionTexts;
    }

    function View(): EditorState
      reads this
    {
      EditorState(body, auth, grpc, preRequestScript, testScript, assertionTexts)
    }

    /** `load_request_editors`. */
    method LoadRequestEditors(codec: Codec)
      modifies this
      ensures request == old(request) && View() == Loaded(codec, request, old(View()))
    {
      if request.grpc.Some? {
        var g := request.grpc.value;
        grpc := GrpcEditors(g.proto, g.reflection, g.reflectionHost, Join(g.includes, "\n"), g.method_, g.metadata);
      } else {
        grpc := GrpcEditors("", false, "", "", "", []);
      }
      assertionTexts := AssertionTexts(codec, request.assertions);
      body := LoadedBody(codec, request.body, body);
      if request.grpc.Some? && body.kind == NoneKind {
        body := body.(kind := JsonKind, text := "{}");
      }
      preRequestScript, testScript := OrEmpty(request.preRequestScript), OrEmpty(request.testScript);
      auth := LoadedAuth(request.auth);
    }

    /** `edited_request`. */
    method EditedRequest(codec: Codec) returns (result: Result<Request, EditError>)
      ensures result == Edited(codec, request, View())
    {
      hide EditedAuth, EditedAssertions, CleanPieces;
      var editedBody := BodyFromEditors(codec);
      if editedBody.Err? {
        return Err(editedBody.error);
      }
      var assertions := AssertionsFromEditors(codec);
      if assertions.Err? {
        return Err(assertions.error);
      }
      var edited := request.(
        preRequestScript := NonBlank(preRequestScript), testScript := NonBlank(testScript),
        body := editedBody.value, assertions := assertions.value, auth := EditedAuth(auth));
      if request.grpc.Some? {
        var host, proto, method_ := Trim(grpc.host), Trim(grpc.proto), Trim(grpc.method_);
        if !grpc.reflection && proto == "" {
          return Err(ProtoMissing);
        }
        if method_ == "" {
          return Err(MethodMissing);
        }
        edited := edited.(grpc := Some(GrpcRequest(
          proto, grpc.reflection, host, CleanPieces(grpc.includes, "\n"), method_, grpc.metadata)));
      }
      return Ok(edited);
    }

    method BodyFromEditors(codec: Codec) returns (result: Result<RequestBody, EditError>)
      ensures result == EditedBody(codec, request.body, body)
    {
      hide Balanced, Trim;
      match body.kind {
        case NoneKind => result := Ok(NoBody);
        case JsonKind =>
          var value := codec.parse(body.text);
          result := if value.Some? then Ok(JsonBody(value.value)) else Err(JsonBodyInvalid);
        case GraphqlKind =>
          var valid := ValidateQuery(body.query);
          if valid.Err? {
            return Err(QueryInvalid(valid.error));
          }
          var variables := ParseVariables(codec, body.variables);
          if variables.Err? {
            return Err(VariablesInvalid(variables.error));
          }
          result := Ok(Graphql(body.query, variables.value, NonBlank(body.operationName)));
        case FormKind => result := Ok(if request.body.FormUrlEncoded? then request.body else FormUrlEncoded([]));
        case MultipartKind => result := Ok(if request.body.Multipart? then request.body else Multipart([]));
        case BinaryKind => result := Ok(if request.body.BinaryFile? then request.body else BinaryFile("", None));
        case AdvancedKind => result := Ok(request.body);
        case _ => result := Ok(Raw(body.text, if Blank(body.contentType) then None else Some(Trim(body.contentType))));
      }
    }

    /** The loop over the assertions, which stops at the first text that does not fit. */
    method AssertionsFromEditors(codec: Codec) returns (result: Result<seq<Assertion>, EditError>)
      ensures result == EditedAssertions(codec, request.assertions, assertionTexts)
    {
      hide EditedAssertion, EditedAssertions, Prepended;
      var edited: seq<Assertion> := [];
      assert request.assertions[0..] == request.assertions && TextsFrom(assertionTexts, 0) == assertionTexts;
      PrependedNothing(EditedAssertions(codec, request.assertions, assertionTexts));
      for i := 0 to |request.assertions|
        invariant Prepended(edited, EditedAssertions(codec, request.assertions[i..], TextsFrom(assertionTexts, i)))
                  == EditedAssertions(codec, request.assertions, assertionTexts)
      {
        var text := if i < |assertionTexts| then assertionTexts[i] else "null";
        var assertion := EditedAssertion(codec, request.assertions[i], text);
        EditStep(codec, request.assertions, assertionTexts, i, edited);
        if assertion.Err? {
          return Err(assertion.error);
        }
        edited := edited + [assertion.value];
      }
      assert request.assertions[|request.assertions|..] == [];
      NothingToEdit(codec, TextsFrom(assertionTexts, |request.assertions|), edited);
      return Ok(edited);
    }
  }

  lemma EditStep(codec: Codec, assertions: seq<Assertion>, texts: seq<string>, i: nat, edited: seq<Assertion>)
    requires i < |assertions|
    ensures var rest := EditedAssertions(codec, assertions[i + 1..], TextsFrom(texts, i + 1));
      Prepended(edited, EditedAssertions(codec, assertions[i..], TextsFrom(texts, i)))
      == match EditedAssertion(codec, assertions[i], if i < |texts| then texts[i] else "null")
         case Err(error) => Err(error)
         case Ok(assertion) => Prepended(edited + [assertion], rest)
  {
    hide EditedAssertion;
    assert assertions[i..][0] == assertions[i] && assertions[i..][1..] == assertions[i + 1..];
    TextsStep(texts, i);
    var first := EditedAssertion(codec, assertions[i], if i < |texts| then texts[i] else "null");
    var rest := EditedAssertions(codec, assertions[i + 1..], TextsFrom(texts, i + 1));
    if first.Ok? && rest.Ok? {
      assert edited + ([first.value] + rest.value) == (edited + [first.value]) + rest.value;
    }
  }

  lemma NothingToEdit(codec: Codec, texts: seq<string>, edited: seq<Assertion>)
    ensures Prepended(edited, EditedAssertions(codec, [], texts)) == Ok(edited)
  {
    assert edited + [] == edited;
  }

  /** The texts from an index on; past the end there are none. */
  function TextsFrom(texts: seq<string>, i: nat): seq<string> {
    if i < |texts| then texts[i..] else []
  }

  lemma TextsStep(texts: seq<string>, i: nat)
    ensures var rest := TextsFrom(texts, i);
      (if rest == [] then "null" else rest[0]) == (if i < |texts| then texts[i] else "null")
      && (if rest == [] then [] else rest[1..]) == TextsFrom(texts, i + 1)
  {
  }

  function Prepended(edited: seq<Assertion>, rest: Result<seq<Assertion>, EditError>)
    : Result<seq<Assertion>, EditError>
  {
    match rest
    case Err(error) => Err(error)
    case Ok(assertions) => Ok(edited + assertions)
  }

  lemma PrependedNothing(rest: Result<seq<Assertion>, EditError>)
    ensures Prepended([], rest) == rest
  {
    if rest.Ok? {
      assert [] + rest.value == rest.value;
    }
  }
}

module EditorsTheorems {
  import opened Wrappers
  import opened Text
  import opened Json
  import opened RequestModel
  import opened Graphql
  import opened Editors

  // ----- The normal form, stated on requests alone -----

  /** A text that is present but blank is dropped. */
  function Kept(text: Option<string>): Option<string> {
    if text.Some? then NonBlank(text.value) else None
  }

  function KeptTrimmed(text: Option<string>): Option<string> {
    if text.Some? && !Blank(text.value) then Some(Trim(text.value)) else None
  }

  ghost function NormalBody(codec: Codec, request: Request): Result<RequestBody, EditError> {
    match request.body
    case NoBody =>
      if request.grpc.None? then Ok(NoBody)
      else if codec.parse("{}").Some? then Ok(JsonBody(codec.parse("{}").value))
      else Err(JsonBodyInvalid)
    case Raw(text, contentType) => Ok(Raw(text, KeptTrimmed(contentType)))
    case Graphql(query, variables, operationName) =>
      if QueryError(query).Some? then Err(QueryInvalid(QueryError(query).value))
      else if variables.Null? then Ok(Graphql(query, Json.Obj(map[]), Kept(operationName)))
      else if variables.Obj? then Ok(Graphql(query, variables, Kept(operationName)))
      else Err(VariablesInvalid(VariablesMustBeObject))
    case _ => Ok(request.body)
  }

  /** Blank optional texts are dropped, and so are the client secrets that have no editor. */
  function NormalAuth(auth: Auth): Auth {
    match auth
    case ClientCredentials(tokenUrl, clientId, secret, scope) =>
      ClientCredentials(tokenUrl, clientId, secret, Kept(scope))
    case AuthorizationCodePkce(authorizationUrl, tokenUrl, clientId, redirectUri, code, codeVerifier, _, scope) =>
      AuthorizationCodePkce(authorizationUrl, tokenUrl, clientId, redirectUri, code, codeVerifier, None, Kept(scope))
    case RefreshToken(tokenUrl, clientId, refreshToken, _, scope) =>
      RefreshToken(tokenUrl, clientId, refreshToken, None, Kept(scope))
    case DeviceCode(deviceAuthorizationUrl, tokenUrl, clientId, clientSecret, scope) =>
      DeviceCode(deviceAuthorizationUrl, tokenUrl, clientId, Kept(clientSecret), Kept(scope))
    case AwsSignatureV4(accessKeyId, secretAccessKey, region, service, sessionToken) =>
      AwsSignatureV4(accessKeyId, secretAccessKey, region, service, Kept(sessionToken))
    case _ => auth
  }

  function NormalGrpc(g: GrpcRequest): Result<GrpcRequest, EditError> {
    if !g.reflection && Blank(g.proto) then Err(ProtoMissing)
    else if Blank(g.method_) then Err(MethodMissing)
    else
      Ok(GrpcRequest(Trim(g.proto), g.reflection, Trim(g.reflectionHost), CleanPieces(Join(g.includes, "\n"), "\n"),
                     Trim(g.method_), g.metadata))
  }

  /** Schemas must be booleans or objects. */
  predicate SchemasFit(assertions: seq<Assertion>) {
    forall assertion <- assertions :: assertion.MatchesSchema? ==> assertion.schema.Bool? || assertion.schema.Obj?
  }

  ghost function Normal(codec: Codec, request: Request): Result<Request, EditError> {
    if NormalBody(codec, request).Err? then Err(NormalBody(codec, request).error)
    else if !SchemasFit(request.assertions) then Err(SchemaNotBooleanOrObject)
    else
      var normal := request.(
        preRequestScript := Kept(request.preRequestScript), testScript := Kept(request.testScript),
        body := NormalBody(codec, request).value, auth := NormalAuth(request.auth));
      if request.grpc.None? then Ok(normal)
      else if NormalGrpc(request.grpc.value).Err? then Err(NormalGrpc(request.grpc.value).error)
      else Ok(normal.(grpc := Some(NormalGrpc(request.grpc.value).value)))
  }

  // ----- Editing gives the normal form -----

  lemma EmptyIsBlank()
    ensures Blank("")
  {
  }

  lemma KeptIsEdited(text: Option<string>)
    ensures NonBlank(OrEmpty(text)) == Kept(text)
  {
    EmptyIsBlank();
  }

  lemma RawKindIsRaw(contentType: string)
    ensures RawKindOf(contentType) in [RawKind, XmlKind, HtmlKind, JavaScriptKind]
  {
  }

  lemma BodyIsNormal(codec: Codec, request: Request, before: BodyEditors)
    requires codec.Valid()
    ensures EditedBody(codec, request.body, LoadedBodyFor(codec, request, before)) == NormalBody(codec, request)
  {
    hide Blank, RawKindOf, Balanced;
    EmptyIsBlank();
    match request.body
    case Raw(text, contentType) => RawKindIsRaw(OrEmpty(contentType));
    case JsonBody(value) => assert codec.parse(codec.show(value)) == Some(value);
    case Graphql(query, variables, operationName) =>
      assert codec.parse(codec.show(variables)) == Some(variables);
      KeptIsEdited(operationName);
    case _ =>
  }

  lemma AuthIsNormal(auth: Auth)
    ensures EditedAuth(LoadedAuth(auth)) == NormalAuth(auth)
  {
    hide NonBlank, Kept, OrEmpty;
    match auth
    case ClientCredentials(_, _, _, scope) => KeptIsEdited(scope);
    case AuthorizationCodePkce(_, _, _, _, _, _, _, scope) => KeptIsEdited(scope);
    case RefreshToken(_, _, _, _, scope) => KeptIsEdited(scope);
    case DeviceCode(_, _, _, clientSecret, scope) =>
      KeptIsEdited(clientSecret);
      KeptIsEdited(scope);
    case AwsSignatureV4(_, _, _, _, sessionToken) => KeptIsEdited(sessionToken);
    case _ =>
  }

  lemma {:induction false} AssertionsAreNormal(codec: Codec, assertions: seq<Assertion>)
    requires codec.Valid()
    ensures EditedAssertions(codec, assertions, AssertionTexts(codec, assertions))
            == if SchemasFit(assertions) then Ok(assertions) else Err(SchemaNotBooleanOrObject)
  {
    if assertions != [] {
      var rest := assertions[1..];
      AssertionsAreNormal(codec, rest);
      assert AssertionTexts(codec, assertions)[1..] == AssertionTexts(codec, rest);
      assert assertions == [assertions[0]] + rest;
      match assertions[0] {
        case PointerEquals(_, expected) => assert codec.parse(codec.show(expected)) == Some(expected);
        case PointerContains(_, expected) => assert codec.parse(codec.show(expected)) == Some(expected);
        case MatchesSchema(_, schema) => assert codec.parse(codec.show(schema)) == Some(schema);
        case Plain(_) =>
      }
    }
  }

  /**
   * Main result: what is made of a loaded request is its normal form, whatever the editors held before.
   */
  lemma EditingGivesNormalForm(codec: Codec, request: Request, before: EditorState)
    requires codec.Valid()
    ensures Edited(codec, request, Loaded(codec, request, before)) == Normal(codec, request)
  {
    hide LoadedBodyFor, EditedBody, NormalBody, LoadedAuth, EditedAuth, NormalAuth, NonBlank, Kept, OrEmpty,
         EditedAssertions, AssertionTexts, SchemasFit, CleanPieces, Join, Trim, Blank;
    BodyIsNormal(codec, request, before.body);
    AuthIsNormal(request.auth);
    AssertionsAreNormal(codec, request.assertions);
    KeptIsEdited(request.preRequestScript);
    KeptIsEdited(request.testScript);
  }

  // ----- The normal form is stable -----

  lemma TrimTwice(s: string)
    ensures Trim(Trim(s)) == Trim(s) && (Blank(s) <==> Blank(Trim(s)))
  {
    TrimIsPart(s);
    TrimOfTrimmed(Trim(s));
  }

  lemma GrpcIsStable(g: GrpcRequest)
    requires NormalGrpc(g).Ok?
    ensures NormalGrpc(NormalGrpc(g).value) == NormalGrpc(g)
  {
    hide Trim, Blank, CleanPieces, Join;
    TrimTwice(g.proto);
    TrimTwice(g.reflectionHost);
    TrimTwice(g.method_);
    var text := Join(g.includes, "\n");
    CleanPiecesAreClean(text, "\n");
    CleanPiecesOfJoin(CleanPieces(text, "\n"), '\n', "\n");
    BlankProto(g);
  }

  lemma BlankProto(g: GrpcRequest)
    ensures Blank(Trim(g.proto)) <==> Blank(g.proto)
    ensures Blank(Trim(g.method_)) <==> Blank(g.method_)
  {
    TrimTwice(g.proto);
    TrimTwice(g.method_);
  }

  lemma BodyIsStable(codec: Codec, request: Request, normal: Request)
    requires NormalBody(codec, request).Ok? && normal.body == NormalBody(codec, request).value
    requires normal.grpc.Some? <==> request.grpc.Some?
    ensures NormalBody(codec, normal) == NormalBody(codec, request)
  {
    hide Balanced, Trim, Blank;
    if request.body.Raw? && request.body.contentType.Some? {
      TrimTwice(request.body.contentType.value);
    }
  }

  /** Main result: normalising twice is normalising once; editing a request again changes nothing more. */
  lemma NormalIsStable(codec: Codec, request: Request)
    requires Normal(codec, request).Ok?
    ensures Normal(codec, Normal(codec, request).value) == Normal(codec, request)
  {
    hide NormalBody, NormalGrpc, SchemasFit, Blank;
    var normal := Normal(codec, request).value;
    BodyIsStable(codec, request, normal);
    if request.grpc.Some? {
      GrpcIsStable(request.grpc.value);
    }
  }

  lemma EditingTwiceIsEditingOnce(codec: Codec, request: Request, before: EditorState, later: EditorState)
    requires codec.Valid() && Edited(codec, request, Loaded(codec, request, before)).Ok?
    ensures var once := Edited(codec, request, Loaded(codec, request, before));
      Edited(codec, once.value, Loaded(codec, once.value, later)) == once
  {
    hide Edited, Loaded, Normal;
    EditingGivesNormalForm(codec, request, before);
    NormalIsStable(codec, request);
    EditingGivesNormalForm(codec, Normal(codec, request).value, later);
  }

  /** Everything that has no text editor of its own is kept. */
  lemma EditingKeepsTheRest(codec: Codec, request: Request, e: EditorState)
    requires Edited(codec, request, e).Ok?
    ensures var r := Edited(codec, request, e).value;
      && r.id == request.id && r.name == request.name && r.method_ == request.method_ && r.url == request.url
      && r.folder == request.folder && r.description == request.description && r.query == request.query
      && r.headers == request.headers && r.cookies == request.cookies && r.examples == request.examples
      && (r.grpc.Some? <==> request.grpc.Some?) && |r.assertions| == |request.assertions|
  {
    hide EditedBody, EditedAuth, EditedGrpc, NonBlank;
    AssertionsKeepTheirNumber(codec, request.assertions, e.assertionTexts);
  }

  lemma {:induction false} AssertionsKeepTheirNumber(codec: Codec, assertions: seq<Assertion>, texts: seq<string>)
    requires EditedAssertions(codec, assertions, texts).Ok?
    ensures |EditedAssertions(codec, assertions, texts).value| == |assertions|
  {
    hide EditedAssertion;
    if assertions != [] {
      AssertionsKeepTheirNumber(codec, assertions[1..], if texts == [] then [] else texts[1..]);
    }
  }

  // ----- Which requests editing leaves alone -----

  predicate KeptAsIs(text: Option<string>) {
    text.Some? ==> !Blank(text.value)
  }

  predicate AuthIsPlain(auth: Auth) {
    match auth
    case ClientCredentials(_, _, _, scope) => KeptAsIs(scope)
    case AuthorizationCodePkce(_, _, _, _, _, _, clientSecret, scope) => clientSecret.None? && KeptAsIs(scope)
    case RefreshToken(_, _, _, clientSecret, scope) => clientSecret.None? && KeptAsIs(scope)
    case DeviceCode(_, _, _, clientSecret, scope) => KeptAsIs(clientSecret) && KeptAsIs(scope)
    case AwsSignatureV4(_, _, _, _, sessionToken) => KeptAsIs(sessionToken)
    case _ => true
  }

  ghost predicate BodyIsPlain(request: Request) {
    match request.body
    case NoBody => request.grpc.None?
    case Raw(_, contentType) => contentType.Some? ==> contentType.value != "" && Trimmed(contentType.value)
    case Graphql(query, variables, operationName) =>
      QueryError(query).None? && variables.Obj? && KeptAsIs(operationName)
    case _ => true
  }

  predicate GrpcIsPlain(g: GrpcRequest) {
    && Trimmed(g.proto) && (g.proto != "" || g.reflection) && Trimmed(g.reflectionHost)
    && Trimmed(g.method_) && g.method_ != "" && forall path <- g.includes :: Clean(path, "\n")
  }

  /** What a caller can look at to know that editing leaves a request alone. */
  ghost predicate LeftAlone(request: Request) {
    && KeptAsIs(request.preRequestScript) && KeptAsIs(request.testScript) && AuthIsPlain(request.auth)
    && BodyIsPlain(request) && SchemasFit(request.assertions)
    && (request.grpc.Some? ==> GrpcIsPlain(request.grpc.value))
  }

  lemma TrimChangesNothing(s: string)
    ensures Trim(s) == s <==> Trimmed(s)
  {
    TrimIsPart(s);
    if Trimmed(s) {
      TrimOfTrimmed(s);
    }
  }

  lemma BlankWhenTrimmed(s: string)
    requires Trimmed(s)
    ensures Blank(s) <==> s == ""
  {
    TrimOfTrimmed(s);
  }

  lemma GrpcUnchangedExactlyWhenPlain(g: GrpcRequest)
    ensures NormalGrpc(g) == Ok(g) <==> GrpcIsPlain(g)
  {
    hide Trim, Blank, CleanPieces, Join, Trimmed, Clean;
    TrimChangesNothing(g.proto);
    TrimChangesNothing(g.reflectionHost);
    TrimChangesNothing(g.method_);
    if Trimmed(g.proto) {
      BlankWhenTrimmed(g.proto);
    }
    if Trimmed(g.method_) {
      BlankWhenTrimmed(g.method_);
    }
    CleanPiecesAreClean(Join(g.includes, "\n"), "\n");
    if forall path <- g.includes :: Clean(path, "\n") {
      CleanPiecesOfJoin(g.includes, '\n', "\n");
    }
  }

  lemma BodyUnchangedExactlyWhenPlain(codec: Codec, request: Request)
    ensures NormalBody(codec, request) == Ok(request.body) <==> BodyIsPlain(request)
  {
    hide Trim, Blank, Balanced, Trimmed, QueryError;
    if request.body.Raw? && request.body.contentType.Some? {
      var contentType := request.body.contentType.value;
      TrimChangesNothing(contentType);
      TrimmedOrNot(contentType);
    }
  }

  lemma TrimmedOrNot(s: string)
    ensures Trimmed(s) ==> (Blank(s) <==> s == "")
  {
    if Trimmed(s) {
      BlankWhenTrimmed(s);
    }
  }

  /** Main result: opening a request in the editors and taking it back changes nothing exactly when it is plain. */
  lemma UnchangedExactlyWhenPlain(codec: Codec, request: Request, before: EditorState)
    requires codec.Valid()
    ensures Edited(codec, request, Loaded(codec, request, before)) == Ok(request) <==> LeftAlone(request)
  {
    hide Edited, Loaded, NormalBody, BodyIsPlain, NormalGrpc, GrpcIsPlain, SchemasFit, Blank;
    EditingGivesNormalForm(codec, request, before);
    BodyUnchangedExactlyWhenPlain(codec, request);
    if request.grpc.Some? {
      GrpcUnchangedExactlyWhenPlain(request.grpc.value);
    }
  }
}
