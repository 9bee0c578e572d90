/** Which editor shows which part of a request, and what is made of what the user types there. */
module EditorsShown {
  import opened Wrappers
  import opened Text
  import opened Json
  import opened RequestModel
  import opened Graphql
  import opened Editors

  /** The parameters of a content type, and white space around it, do not matter. */
  lemma MediaTypeIsRead(start: string, name: string, end: string, parameters: string)
    requires ';' !in name && ';' !in start && ';' !in end && Trimmed(name)
    requires (forall c <- start :: IsSpace(c)) && (forall c <- end :: IsSpace(c))
    ensures RawKindOf(start + name + end + ";" + parameters) == RawKindOf(name)
  {
    hide Trim, ToLowerAscii, IsSpace, Trimmed;
    var text := start + name + end;
    SplitOnceAt(text, ';', parameters);
    assert text + [';'] + parameters == text + ";" + parameters;
    TrimTakesSpace(start, name, end);
    TrimOfTrimmed(name);
    NoParameters(name);
  }

  lemma NoParameters(name: string)
    requires ';' !in name
    ensures SplitOnce(name, ';').None?
  {
  }

  /** Five types, in capital or small letters, have an editor of their own; all others share one. */
  lemma EditorsOfTypes(name: string)
    requires ';' !in name && Trimmed(name)
    ensures RawKindOf(name) == XmlKind <==> ToLowerAscii(name) in ["application/xml", "text/xml"]
    ensures RawKindOf(name) == HtmlKind <==> ToLowerAscii(name) == "text/html"
    ensures RawKindOf(name) == JavaScriptKind <==> ToLowerAscii(name) in ["application/javascript", "text/javascript"]
    ensures RawKindOf(name) in [XmlKind, HtmlKind, JavaScriptKind, RawKind]
  {
    hide Trim, ToLowerAscii, Trimmed;
    TrimOfTrimmed(name);
    NoParameters(name);
    TypesDiffer();
  }

  lemma TypesDiffer()
    ensures "text/html" != "application/xml" && "text/html" != "text/xml"
    ensures "application/javascript" != "application/xml" && "application/javascript" != "text/xml"
    ensures "text/javascript" != "application/xml" && "text/javascript" != "text/xml"
    ensures "application/javascript" != "text/html" && "text/javascript" != "text/html"
  {
    assert |"text/html"| == 9 && |"text/xml"| == 8 && |"application/xml"| == 15;
    assert |"text/javascript"| == 15 && |"application/javascript"| == 22;
    assert "text/javascript"[0] == 't' && "application/xml"[0] == 'a';
  }

  /** The fields that the user fills in are the parts of the authentication, kind by kind. */
  lemma TypedAuthIsTaken(a: string, b: string, c: string, d: string, e: string, f: string, g: string)
    ensures var fields := (kind: AuthKind) => AuthEditors(kind, a, b, c, d, e, f, g, Query);
      && EditedAuth(fields(NoAuthKind)) == NoAuth
      && EditedAuth(fields(BearerKind)) == Bearer(a)
      && EditedAuth(fields(BasicKind)) == Basic(a, b)
      && EditedAuth(fields(DigestKind)) == Digest(a, b)
      && EditedAuth(fields(ApiKeyKind)) == ApiKey(a, b, Query)
  {
    hide NonBlank;
  }

  lemma TypedTokenAuthIsTaken(a: string, b: string, c: string, d: string, e: string, f: string, g: string)
    ensures var fields := (kind: AuthKind) => AuthEditors(kind, a, b, c, d, e, f, g, Header);
      && EditedAuth(fields(ClientCredentialsKind)) == ClientCredentials(a, b, c, NonBlank(d))
      && EditedAuth(fields(PkceKind)) == AuthorizationCodePkce(a, b, c, d, e, f, None, NonBlank(g))
      && EditedAuth(fields(RefreshTokenKind)) == RefreshToken(a, b, c, None, NonBlank(d))
      && EditedAuth(fields(DeviceCodeKind)) == DeviceCode(a, b, c, NonBlank(d), NonBlank(e))
      && EditedAuth(fields(AwsKind)) == AwsSignatureV4(a, b, c, d, NonBlank(e))
  {
    hide NonBlank;
  }

  /** What the user types in the text editor is the body, for every kind that has a text. */
  lemma TypedTextIsTheBody(codec: Codec, body: RequestBody, e: BodyEditors, r: Result<RequestBody, EditError>)
    requires r == EditedBody(codec, body, e)
    ensures e.kind in [RawKind, XmlKind, HtmlKind, JavaScriptKind] ==>
      r == Ok(Raw(e.text, if Trim(e.contentType) == "" then None else Some(Trim(e.contentType))))
    ensures e.kind == JsonKind ==>
      r == if codec.parse(e.text).Some? then Ok(JsonBody(codec.parse(e.text).value)) else Err(JsonBodyInvalid)
  {
    hide Trim, Balanced;
  }

  /** A GraphQL body is made of a valid query and of variables that are an object or absent. */
  lemma TypedQueryIsTheBody(codec: Codec, body: RequestBody, e: BodyEditors, r: Result<RequestBody, EditError>)
    requires r == EditedBody(codec, body, e) && e.kind == GraphqlKind
    ensures r.Ok? <==>
      Trim(e.query) != "" && Balanced(e.query) && codec.parse(e.variables).Some?
      && (codec.parse(e.variables).value.Obj? || codec.parse(e.variables).value.Null?)
    ensures r.Ok? ==>
      var variables := codec.parse(e.variables).value;
      r.value == Graphql(e.query, if variables.Null? then Json.Obj(map[]) else variables,
                         if Trim(e.operationName) == "" then None else Some(e.operationName))
    ensures r.Err? ==>
      r.error == (if Trim(e.query) == "" then QueryInvalid(EmptyQuery)
                  else if !Balanced(e.query) then QueryInvalid(UnbalancedBraces)
                  else if codec.parse(e.variables).None? then VariablesInvalid(InvalidVariables)
                  else VariablesInvalid(VariablesMustBeObject))
  {
    hide Trim, Balanced;
  }

  /** Kinds without a text keep a body of that kind, and start with an empty one; `Advanced` keeps any body. */
  lemma OtherKindsKeepTheBody(codec: Codec, body: RequestBody, e: BodyEditors, r: Result<RequestBody, EditError>)
    requires r == EditedBody(codec, body, e)
    ensures e.kind == NoneKind ==> r == Ok(NoBody)
    ensures e.kind == AdvancedKind ==> r == Ok(body)
    ensures e.kind == FormKind ==> r == Ok(if body.FormUrlEncoded? then body else FormUrlEncoded([]))
    ensures e.kind == MultipartKind ==> r == Ok(if body.Multipart? then body else Multipart([]))
    ensures e.kind == BinaryKind ==> r == Ok(if body.BinaryFile? then body else BinaryFile("", None))
  {
    hide Trim, Balanced;
  }

  /** The text of an assertion's value; one without a text is `null`. */
  function TypedValue(texts: seq<string>, i: nat): string {
    if i < |texts| then texts[i] else "null"
  }

  /** The typed value of an assertion, if it has one that fits. */
  predicate Fits(codec: Codec, assertion: Assertion, text: string) {
    assertion.Plain?
    || (codec.parse(text).Some?
        && (assertion.MatchesSchema? ==> codec.parse(text).value.Bool? || codec.parse(text).value.Obj?))
  }

  function WithValue(codec: Codec, assertion: Assertion, text: string): Assertion
    requires Fits(codec, assertion, text)
  {
    match assertion
    case Plain(_) => assertion
    case PointerEquals(pointer, _) => PointerEquals(pointer, codec.parse(text).value)
    case PointerContains(pointer, _) => PointerContains(pointer, codec.parse(text).value)
    case MatchesSchema(pointer, _) => MatchesSchema(pointer, codec.parse(text).value)
  }

  lemma OneTypedValue(codec: Codec, assertion: Assertion, text: string)
    ensures EditedAssertion(codec, assertion, text)
         == if Fits(codec, assertion, text) then Ok(WithValue(codec, assertion, text))
            else Err(if codec.parse(text).None? then AssertionValueInvalid else SchemaNotBooleanOrObject)
  {
  }

  /** Assertions are taken when all typed values fit, each with its own; else the first that does not fit decides. */
  lemma {:induction false} TypedValuesAreTaken(codec: Codec, assertions: seq<Assertion>, texts: seq<string>)
    ensures var r := EditedAssertions(codec, assertions, texts);
      && (r.Ok? <==> forall i | 0 <= i < |assertions| :: Fits(codec, assertions[i], TypedValue(texts, i)))
      && (r.Ok? ==> |r.value| == |assertions|
                    && forall i | 0 <= i < |assertions| ::
                         r.value[i] == WithValue(codec, assertions[i], TypedValue(texts, i)))
      && (r.Err? ==> exists i | 0 <= i < |assertions| ::
                       IsFirstMisfit(codec, assertions, texts, i)
                       && r.error == (if codec.parse(TypedValue(texts, i)).None? then AssertionValueInvalid
                                      else SchemaNotBooleanOrObject))
    decreases |assertions|
  {
    hide EditedAssertion, Fits, WithValue;
    if assertions != [] {
      OneTypedValue(codec, assertions[0], TypedValue(texts, 0));
      var rest, more := assertions[1..], if texts == [] then [] else texts[1..];
      TypedValuesAreTaken(codec, rest, more);
      forall i | 0 <= i < |rest|
        ensures rest[i] == assertions[i + 1] && TypedValue(more, i) == TypedValue(texts, i + 1)
      {
      }
      var r, later := EditedAssertions(codec, assertions, texts), EditedAssertions(codec, rest, more);
      if !Fits(codec, assertions[0], TypedValue(texts, 0)) {
        assert IsFirstMisfit(codec, assertions, texts, 0);
      } else if later.Err? {
        var i :| 0 <= i < |rest| && IsFirstMisfit(codec, rest, more, i)
                 && later.error == (if codec.parse(TypedValue(more, i)).None? then AssertionValueInvalid
                                    else SchemaNotBooleanOrObject);
        assert IsFirstMisfit(codec, assertions, texts, i + 1) by { LaterMisfit(codec, assertions, texts, more, i); }
      } else {
        forall i | 0 <= i < |assertions| ensures Fits(codec, assertions[i], TypedValue(texts, i)) {
          if i > 0 {
            assert rest[i - 1] == assertions[i];
          }
        }
      }
    }
  }

  predicate IsFirstMisfit(codec: Codec, assertions: seq<Assertion>, texts: seq<string>, i: nat) {
    i < |assertions| && !Fits(codec, assertions[i], TypedValue(texts, i))
    && forall j | 0 <= j < i :: Fits(codec, assertions[j], TypedValue(texts, j))
  }

  lemma LaterMisfit(
    codec: Codec, assertions: seq<Assertion>, texts: seq<string>, more: seq<string>, i: nat)
    requires assertions != [] && more == (if texts == [] then [] else texts[1..])
    requires IsFirstMisfit(codec, assertions[1..], more, i) && Fits(codec, assertions[0], TypedValue(texts, 0))
    ensures IsFirstMisfit(codec, assertions, texts, i + 1)
  {
    hide Fits;
    forall j | 0 <= j < i + 1 ensures Fits(codec, assertions[j], TypedValue(texts, j)) {
      if j > 0 {
        assert assertions[1..][j - 1] == assertions[j] && TypedValue(more, j - 1) == TypedValue(texts, j);
      }
    }
    assert assertions[1..][i] == assertions[i + 1] && TypedValue(more, i) == TypedValue(texts, i + 1);
  }
}
