/** Requests as cURL command lines, and back. */
module Curl {
  import opened Wrappers
  import opened Text
  import opened Json
  import opened RequestModel
  import opened ShellWords

  /** Query strings are printed by another library; only the empty list is known to print as nothing. */
  datatype Printers = Printers(json: Codec, form: seq<(string, string)> -> string) {
    ghost predicate Valid() {
      json.Valid() && form([]) == ""
    }
  }

  // ----- Export -----

  datatype ExportWarning =
    | GrpcPreview
    | UnresolvedQueryKey
    | NotMaterialized(auth: Auth)

  datatype CurlExport = CurlExport(command: string, warnings: seq<ExportWarning>)

  function EnabledPairs(pairs: seq<KeyValue>): seq<(string, string)> {
    if pairs == [] then []
    else (if pairs[0].enabled then [(pairs[0].key, pairs[0].value)] else []) + EnabledPairs(pairs[1..])
  }

  function AppendQuery(url: string, pairs: seq<KeyValue>, p: Printers): string {
    var query := p.form(EnabledPairs(pairs));
    if query == "" then url else url + (if '?' in url then "&" else "?") + query
  }

  predicate SameHeader(key: string, name: string) {
    ToLowerAscii(key) == ToLowerAscii(name)
  }

  predicate HasHeader(headers: seq<HeaderEntry>, name: string) {
    exists i | 0 <= i < |headers| :: headers[i].enabled && SameHeader(headers[i].key, name)
  }

  function BodyContentType(body: RequestBody): Option<string> {
    match body
    case JsonBody(_) => Some("application/json")
    case Graphql(_, _, _) => Some("application/json")
    case FormUrlEncoded(_) => Some("application/x-www-form-urlencoded")
    case _ => None
  }

  function GraphqlPayload(query: string, variables: Json, operationName: Option<string>): Json {
    var base := map["query" := Str(query), "variables" := variables];
    Obj(if operationName.Some? then base["operationName" := Str(operationName.value)] else base)
  }

  /** The lines of the enabled headers, in order. */
  function HeaderLines(headers: seq<HeaderEntry>): seq<string> {
    if headers == [] then []
    else (if headers[0].enabled then [headers[0].key + ": " + headers[0].value] else []) + HeaderLines(headers[1..])
  }

  /** The enabled pairs written `key=value`, in order. */
  function PairLines(pairs: seq<KeyValue>): seq<string> {
    if pairs == [] then []
    else (if pairs[0].enabled then [pairs[0].key + "=" + pairs[0].value] else []) + PairLines(pairs[1..])
  }

  function PartLine(part: MultipartPart): string {
    if part.filePath.Some? then
      part.name + "=@" + part.filePath.value
      + (if part.contentType.Some? then ";type=" + part.contentType.value else "")
    else part.name + "=" + part.value
  }

  function PartLines(parts: seq<MultipartPart>): seq<string> {
    if parts == [] then [] else (if parts[0].enabled then [PartLine(parts[0])] else []) + PartLines(parts[1..])
  }

  /** The same option once for each value. */
  function Options(name: string, values: seq<string>): seq<Argument> {
    if values == [] then [] else [Bare(name), Quoted(values[0])] + Options(name, values[1..])
  }

  function ContentTypeLines(r: Request): seq<string> {
    if !HasHeader(r.headers, "content-type") && BodyContentType(r.body).Some?
    then ["Content-Type: " + BodyContentType(r.body).value] else []
  }

  function AuthHeaderLines(auth: Auth): seq<string> {
    match auth
    case Bearer(token) => ["Authorization: Bearer " + token]
    case ApiKey(key, value, Header) => [key + ": " + value]
    case _ => []
  }

  function AuthArguments(auth: Auth): seq<Argument> {
    match auth
    case Basic(username, password) => Options("--user", [username + ":" + password])
    case Digest(username, password) => [Bare("--digest")] + Options("--user", [username + ":" + password])
    case _ => Options("--header", AuthHeaderLines(auth))
  }

  function BodyArguments(body: RequestBody, p: Printers): seq<Argument> {
    match body
    case NoBody => []
    case Raw(text, _) => Options("--data-raw", [text])
    case JsonBody(value) => Options("--data-raw", [p.json.show(value)])
    case Graphql(query, variables, name) => Options("--data-raw", [p.json.show(GraphqlPayload(query, variables, name))])
    case FormUrlEncoded(fields) => Options("--data-urlencode", PairLines(fields))
    case Multipart(parts) => Options("--form", PartLines(parts))
    case BinaryFile(path, _) => Options("--data-binary", ["@" + path])
  }

  /** An API key that travels in the query is appended to the URL. */
  function WithQueryKey(url: string, auth: Auth, p: Printers): string {
    match auth
    case ApiKey(key, value, Query) => AppendQuery(url, [KeyValue(key, value, true)], p)
    case _ => url
  }

  function ExportedUrl(r: Request, p: Printers): string {
    WithQueryKey(AppendQuery(r.url, r.query, p), r.auth, p)
  }

  function Arguments(r: Request, p: Printers): seq<Argument> {
    [Bare("curl"), Bare("--request"), Quoted(r.method_), Quoted(ExportedUrl(r, p))]
    + Options("--header", HeaderLines(r.headers))
    + Options("--header", ContentTypeLines(r))
    + Options("--cookie", PairLines(r.cookies))
    + AuthArguments(r.auth)
    + BodyArguments(r.body, p)
  }

  function AuthWarnings(auth: Auth): seq<ExportWarning> {
    match auth
    case ApiKey(_, _, Query) => [UnresolvedQueryKey]
    case ApiKey(_, _, Header) => []
    case NoAuth => []
    case Basic(_, _) => []
    case Digest(_, _) => []
    case Bearer(_) => []
    case other => [NotMaterialized(other)]
  }

  function ExportWarnings(r: Request): seq<ExportWarning> {
    (if r.grpc.Some? then [GrpcPreview] else []) + AuthWarnings(r.auth)
  }

  /** The texts of an option and its values, pushed one after the other. */
  method PushOptions(arguments0: seq<string>, name: string, values: seq<string>) returns (arguments: seq<string>)
    ensures arguments == arguments0 + Texts(Options(name, values))
  {
    arguments := arguments0;
    for i := 0 to |values|
      invariant arguments + Texts(Options(name, values[i..])) == arguments0 + Texts(Options(name, values))
    {
      assert values[i..][1..] == values[i + 1..];
      TextsOfOption(name, values[i..]);
      arguments := arguments + [name, ShellQuote(values[i])];
    }
  }

  lemma NoTexts()
    ensures Texts([]) == []
  {
  }

  lemma NoOptions(name: string)
    ensures Texts(Options(name, [])) == []
  {
  }

  lemma TextsOfOption(name: string, values: seq<string>)
    requires values != []
    ensures Texts(Options(name, values)) == [name, ShellQuote(values[0])] + Texts(Options(name, values[1..]))
  {
    TextsConcat([Bare(name), Quoted(values[0])], Options(name, values[1..]));
    assert [Bare(name), Quoted(values[0])][1..] == [Quoted(values[0])] && [Quoted(values[0])][1..] == [];
  }

  lemma {:induction false} TextsConcat(s: seq<Argument>, t: seq<Argument>)
    ensures Texts(s + t) == Texts(s) + Texts(t)
  {
    if s == [] {
      assert s + t == t;
    } else {
      assert (s + t)[1..] == s[1..] + t;
      TextsConcat(s[1..], t);
    }
  }

  method PushBody(arguments0: seq<string>, body: RequestBody, p: Printers) returns (arguments: seq<string>)
    ensures arguments == arguments0 + Texts(BodyArguments(body, p))
  {
    hide Options, PairLines, PartLines, Texts;
    arguments := arguments0;
    match body {
      case NoBody => assert Texts([]) == [] by { NoTexts(); }
      case Raw(text, _) => arguments := PushOptions(arguments, "--data-raw", [text]);
      case JsonBody(value) => arguments := PushOptions(arguments, "--data-raw", [p.json.show(value)]);
      case Graphql(query, variables, name) =>
        arguments := PushOptions(arguments, "--data-raw", [p.json.show(GraphqlPayload(query, variables, name))]);
      case FormUrlEncoded(fields) => arguments := PushOptions(arguments, "--data-urlencode", PairLines(fields));
      case Multipart(parts) => arguments := PushOptions(arguments, "--form", PartLines(parts));
      case BinaryFile(path, _) => arguments := PushOptions(arguments, "--data-binary", ["@" + path]);
    }
  }

  method PushAuth(arguments0: seq<string>, warnings0: seq<ExportWarning>, url: string, auth: Auth, p: Printers)
    returns (arguments: seq<string>, warnings: seq<ExportWarning>)
    requires |arguments0| > 3 && arguments0[3] == ShellQuote(url)
    ensures arguments == arguments0[3 := ShellQuote(WithQueryKey(url, auth, p))] + AuthTexts(auth)
    ensures warnings == warnings0 + AuthWarnings(auth)
  {
    hide Options, Texts, AppendQuery;
    NoOptions("--header");
    arguments, warnings := arguments0, warnings0;
    match auth {
      case NoAuth =>
      case Basic(username, password) => arguments := PushOptions(arguments, "--user", [username + ":" + password]);
      case Digest(username, password) =>
        arguments := arguments + ["--digest"];
        arguments := PushOptions(arguments, "--user", [username + ":" + password]);
      case Bearer(token) => arguments := PushOptions(arguments, "--header", ["Authorization: Bearer " + token]);
      case ApiKey(key, value, Header) => arguments := PushOptions(arguments, "--header", [key + ": " + value]);
      case ApiKey(key, value, Query) =>
        warnings := warnings + [UnresolvedQueryKey];
        arguments := arguments[3 := ShellQuote(AppendQuery(url, [KeyValue(key, value, true)], p))];
      case other => warnings := warnings + [NotMaterialized(other)];
    }
  }

  method ExportCurlCommand(r: Request, p: Printers) returns (export_: CurlExport)
    ensures export_ == CurlExport(Join(Texts(Arguments(r, p)), " "), ExportWarnings(r))
  {
    hide Options, HeaderLines, PairLines, Texts, Join, AppendQuery, WithQueryKey, AuthWarnings, AuthTexts,
         BodyArguments, ContentTypeLines, Arguments, ShellQuote;
    var arguments := ["curl"];
    var warnings := if r.grpc.Some? then [GrpcPreview] else [];
    var url := AppendQuery(r.url, r.query, p);
    arguments := arguments + ["--request", ShellQuote(r.method_), ShellQuote(url)];
    arguments := PushOptions(arguments, "--header", HeaderLines(r.headers));
    arguments := PushOptions(arguments, "--header", ContentTypeLines(r));
    arguments := PushOptions(arguments, "--cookie", PairLines(r.cookies));
    ghost var common := Texts(Options("--header", HeaderLines(r.headers)))
      + Texts(Options("--header", ContentTypeLines(r))) + Texts(Options("--cookie", PairLines(r.cookies)));
    assert arguments == ["curl", "--request", ShellQuote(r.method_), ShellQuote(url)] + common;
    arguments, warnings := PushAuth(arguments, warnings, url, r.auth, p);
    assert arguments == ["curl", "--request", ShellQuote(r.method_), ShellQuote(ExportedUrl(r, p))]
                        + common + AuthTexts(r.auth);
    arguments := PushBody(arguments, r.body, p);
    ArgumentTexts(r, p);
    assert arguments == Texts(Arguments(r, p));
    return CurlExport(Join(arguments, " "), warnings);
  }

  /** The texts of all arguments, section by section. */
  lemma ArgumentTexts(r: Request, p: Printers)
    ensures Texts(Arguments(r, p))
         == ["curl", "--request", ShellQuote(r.method_), ShellQuote(ExportedUrl(r, p))]
            + Texts(Options("--header", HeaderLines(r.headers)))
            + Texts(Options("--header", ContentTypeLines(r)))
            + Texts(Options("--cookie", PairLines(r.cookies)))
            + AuthTexts(r.auth)
            + Texts(BodyArguments(r.body, p))
  {
    hide Options, HeaderLines, PairLines, PartLines, ExportedUrl, AuthArguments, BodyArguments, ContentTypeLines;
    var head := [Bare("curl"), Bare("--request"), Quoted(r.method_), Quoted(ExportedUrl(r, p))];
    var s1, s2 := Options("--header", HeaderLines(r.headers)), Options("--header", ContentTypeLines(r));
    var s3, s4, s5 := Options("--cookie", PairLines(r.cookies)), AuthArguments(r.auth), BodyArguments(r.body, p);
    HeadTexts(r.method_, ExportedUrl(r, p));
    TextsConcat(head + s1 + s2 + s3 + s4, s5);
    TextsConcat(head + s1 + s2 + s3, s4);
    TextsConcat(head + s1 + s2, s3);
    TextsConcat(head + s1, s2);
    TextsConcat(head, s1);
    AuthTextsAgree(r.auth);
  }

  lemma HeadTexts(m: string, url: string)
    ensures Texts([Bare("curl"), Bare("--request"), Quoted(m), Quoted(url)])
         == ["curl", "--request", ShellQuote(m), ShellQuote(url)]
  {
    var head := [Bare("curl"), Bare("--request"), Quoted(m), Quoted(url)];
    var t1, t2, t3 := head[1..], head[1..][1..], head[1..][1..][1..];
    assert t3 == [Quoted(url)] && t3[1..] == [] && Texts(t3) == [ShellQuote(url)];
    assert Texts(t2) == [ShellQuote(m)] + Texts(t3);
    assert Texts(t1) == ["--request"] + Texts(t2);
  }

  ghost function AuthTexts(auth: Auth): seq<string> {
    match auth
    case Digest(username, password) => ["--digest"] + Texts(Options("--user", [username + ":" + password]))
    case _ => Texts(AuthArguments(auth))
  }

  lemma AuthTextsAgree(auth: Auth)
    ensures AuthTexts(auth) == Texts(AuthArguments(auth))
  {
    if auth.Digest? {
      TextsConcat([Bare("--digest")], Options("--user", [auth.username + ":" + auth.password]));
      assert [Bare("--digest")][1..] == [];
    }
  }
}
