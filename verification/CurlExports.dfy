/** What an exported command says: its words, its URL and its warnings, for every request. */
module CurlExports {
  import opened Wrappers
  import opened Text
  import opened Json
  import opened RequestModel
  import opened ShellWords
  import opened Curl
  import CurlTheorems

  /** The words of an option that is given once for each of the chosen elements, in order. */
  function Each<T>(xs: seq<T>, option: string, chosen: T -> bool, text: T -> string): seq<string> {
    if xs == [] then []
    else (if chosen(xs[0]) then [option, text(xs[0])] else []) + Each(xs[1..], option, chosen, text)
  }

  /** A shell has no word for an empty text here. */
  function NotEmpty(words: seq<string>): seq<string> {
    if words == [] then [] else (if words[0] == "" then [] else [words[0]]) + NotEmpty(words[1..])
  }

  /** The texts that are put behind a URL: a `?` before the first unless the URL has one, and `&` before the others. */
  function Extended(url: string, additions: seq<string>): string {
    if additions == [] then url else url + (if '?' in url then "&" else "?") + Join(additions, "&")
  }

  function Chosen<T, U>(xs: seq<T>, chosen: T -> bool, f: T -> U): seq<U> {
    if xs == [] then [] else (if chosen(xs[0]) then [f(xs[0])] else []) + Chosen(xs[1..], chosen, f)
  }

  /** The enabled query parameters, and the API key that travels in the query, as far as they print as something. */
  function Additions(r: Request, p: Printers): seq<string> {
    var query := p.form(Chosen(r.query, (q: KeyValue) => q.enabled, (q: KeyValue) => (q.key, q.value)));
    var key := if r.auth.ApiKey? && r.auth.location == Query then p.form([(r.auth.key, r.auth.value)]) else "";
    (if query == "" then [] else [query]) + (if key == "" then [] else [key])
  }

  /** A content type of the request's own keeps the exporter from adding one. */
  predicate GivesContentType(headers: seq<HeaderEntry>) {
    exists h <- headers :: h.enabled && ToLowerAscii(h.key) == "content-type"
  }

  function ContentTypeWords(r: Request): seq<string> {
    if GivesContentType(r.headers) then []
    else if r.body.JsonBody? || r.body.Graphql? then ["--header", "Content-Type: application/json"]
    else if r.body.FormUrlEncoded? then ["--header", "Content-Type: application/x-www-form-urlencoded"]
    else []
  }

  function AuthWords(auth: Auth): seq<string> {
    match auth
    case Basic(username, password) => ["--user", username + ":" + password]
    case Digest(username, password) => ["--digest", "--user", username + ":" + password]
    case Bearer(token) => ["--header", "Authorization: Bearer " + token]
    case ApiKey(key, value, Header) => ["--header", key + ": " + value]
    case _ => []
  }

  /** A part of a form: its value, or the path of its file and the type of it. */
  function FormText(part: MultipartPart): string {
    match (part.filePath, part.contentType)
    case (None, _) => part.name + "=" + part.value
    case (Some(path), None) => part.name + "=@" + path
    case (Some(path), Some(contentType)) => part.name + "=@" + path + ";type=" + contentType
  }

  function BodyWords(body: RequestBody, p: Printers): seq<string> {
    match body
    case NoBody => []
    case Raw(text, _) => ["--data-raw", text]
    case JsonBody(value) => ["--data-raw", p.json.show(value)]
    case Graphql(query, variables, None) =>
      ["--data-raw", p.json.show(Obj(map["query" := Str(query), "variables" := variables]))]
    case Graphql(query, variables, Some(name)) =>
      ["--data-raw",
       p.json.show(Obj(map["query" := Str(query), "variables" := variables, "operationName" := Str(name)]))]
    case FormUrlEncoded(fields) =>
      Each(fields, "--data-urlencode", (f: KeyValue) => f.enabled, (f: KeyValue) => f.key + "=" + f.value)
    case Multipart(parts) => Each(parts, "--form", (part: MultipartPart) => part.enabled, FormText)
    case BinaryFile(path, _) => ["--data-binary", "@" + path]
  }

  function WordsSaid(r: Request, p: Printers): seq<string> {
    ["curl", "--request", r.method_, Extended(r.url, Additions(r, p))]
    + Each(r.headers, "--header", (h: HeaderEntry) => h.enabled, (h: HeaderEntry) => h.key + ": " + h.value)
    + ContentTypeWords(r)
    + Each(r.cookies, "--cookie", (c: KeyValue) => c.enabled, (c: KeyValue) => c.key + "=" + c.value)
    + AuthWords(r.auth)
    + BodyWords(r.body, p)
  }

  // ----- The arguments have these words -----

  function Words(args: seq<Argument>): seq<string> {
    if args == [] then [] else [args[0].word] + Words(args[1..])
  }

  lemma {:induction false} WordsConcat(s: seq<Argument>, t: seq<Argument>)
    ensures Words(s + t) == Words(s) + Words(t)
  {
    if s == [] {
      assert s + t == t;
    } else {
      assert (s + t)[1..] == s[1..] + t;
      WordsConcat(s[1..], t);
    }
  }

  lemma {:induction false} NonEmptyWordsAre(args: seq<Argument>)
    ensures NonEmptyWords(args) == NotEmpty(Words(args))
  {
    if args != [] {
      NonEmptyWordsAre(args[1..]);
      assert Words(args)[1..] == Words(args[1..]);
    }
  }

  lemma WordsOfOption(name: string, values: seq<string>)
    ensures values == [] ==> Words(Options(name, values)) == []
    ensures values != [] ==> Words(Options(name, values)) == [name, values[0]] + Words(Options(name, values[1..]))
  {
    if values != [] {
      var first := [Bare(name), Quoted(values[0])];
      WordsConcat(first, Options(name, values[1..]));
      assert first[1..] == [Quoted(values[0])] && first[1..][1..] == [];
    }
  }

  lemma OneOption(name: string, value: string)
    ensures Words(Options(name, [value])) == [name, value]
  {
    WordsOfOption(name, [value]);
    WordsOfOption(name, []);
    assert [value][1..] == [];
  }

  /** An option for each line, and the lines are those of the chosen elements. */
  lemma {:induction false} OptionsAreEach<T>(
    xs: seq<T>, name: string, chosen: T -> bool, text: T -> string, lines: seq<T> -> seq<string>)
    requires lines([]) == []
    requires forall x, rest: seq<T> :: lines([x] + rest) == (if chosen(x) then [text(x)] else []) + lines(rest)
    ensures Words(Options(name, lines(xs))) == Each(xs, name, chosen, text)
  {
    WordsOfOption(name, lines(xs));
    if xs != [] {
      assert xs == [xs[0]] + xs[1..];
      OptionsAreEach(xs[1..], name, chosen, text, lines);
      if chosen(xs[0]) {
        assert lines(xs)[1..] == lines(xs[1..]);
      } else {
        assert lines(xs) == lines(xs[1..]);
      }
    }
  }

  lemma HeaderWords(headers: seq<HeaderEntry>)
    ensures Words(Options("--header", HeaderLines(headers)))
         == Each(headers, "--header", (h: HeaderEntry) => h.enabled, (h: HeaderEntry) => h.key + ": " + h.value)
  {
    forall x, rest: seq<HeaderEntry>
      ensures HeaderLines([x] + rest) == (if x.enabled then [x.key + ": " + x.value] else []) + HeaderLines(rest)
    {
      assert ([x] + rest)[1..] == rest;
    }
    OptionsAreEach(headers, "--header", (h: HeaderEntry) => h.enabled, (h: HeaderEntry) => h.key + ": " + h.value,
                   HeaderLines);
  }

  lemma PairWords(pairs: seq<KeyValue>, option: string)
    ensures Words(Options(option, PairLines(pairs)))
         == Each(pairs, option, (c: KeyValue) => c.enabled, (c: KeyValue) => c.key + "=" + c.value)
  {
    forall x, rest: seq<KeyValue>
      ensures PairLines([x] + rest) == (if x.enabled then [x.key + "=" + x.value] else []) + PairLines(rest)
    {
      assert ([x] + rest)[1..] == rest;
    }
    OptionsAreEach(pairs, option, (c: KeyValue) => c.enabled, (c: KeyValue) => c.key + "=" + c.value, PairLines);
  }

  lemma PartIsWritten(part: MultipartPart)
    ensures PartLine(part) == FormText(part)
  {
    assert part.filePath.Some? && part.contentType.None? ==>
      part.name + "=@" + part.filePath.value + "" == part.name + "=@" + part.filePath.value;
    if part.filePath.Some? && part.contentType.Some? {
      assert part.name + "=@" + part.filePath.value + (";type=" + part.contentType.value)
          == part.name + "=@" + part.filePath.value + ";type=" + part.contentType.value;
    }
  }

  lemma PartWords(parts: seq<MultipartPart>)
    ensures Words(Options("--form", PartLines(parts)))
         == Each(parts, "--form", (part: MultipartPart) => part.enabled, FormText)
  {
    hide PartLine, FormText;
    forall x, rest: seq<MultipartPart>
      ensures PartLines([x] + rest) == (if x.enabled then [FormText(x)] else []) + PartLines(rest)
    {
      assert ([x] + rest)[1..] == rest;
      PartIsWritten(x);
    }
    OptionsAreEach(parts, "--form", (part: MultipartPart) => part.enabled, FormText, PartLines);
  }

  lemma BodyWordsAre(body: RequestBody, p: Printers)
    ensures Words(BodyArguments(body, p)) == BodyWords(body, p)
  {
    hide Options, Words, PairLines, PartLines, Each;
    match body
    case NoBody => NoWords();
    case Raw(text, _) => OneOption("--data-raw", text);
    case JsonBody(value) => OneOption("--data-raw", p.json.show(value));
    case Graphql(query, variables, name) =>
      OneOption("--data-raw", p.json.show(GraphqlPayload(query, variables, name)));
      assert name.Some? ==>
        map["query" := Str(query), "variables" := variables]["operationName" := Str(name.value)]
        == map["query" := Str(query), "variables" := variables, "operationName" := Str(name.value)];
    case FormUrlEncoded(fields) => PairWords(fields, "--data-urlencode");
    case Multipart(parts) => PartWords(parts);
    case BinaryFile(path, _) => OneOption("--data-binary", "@" + path);
  }

  lemma NoWords()
    ensures Words([]) == []
  {
  }

  lemma AuthWordsAre(auth: Auth)
    ensures Words(AuthArguments(auth)) == AuthWords(auth)
  {
    hide Options, Words;
    WordsOfOption("--header", []);
    match auth
    case Basic(username, password) => OneOption("--user", username + ":" + password);
    case Digest(username, password) =>
      OneOption("--user", username + ":" + password);
      WordsConcat([Bare("--digest")], Options("--user", [username + ":" + password]));
      assert Words([Bare("--digest")]) == ["--digest"] by { OneWord("--digest"); }
    case Bearer(token) => OneOption("--header", "Authorization: Bearer " + token);
    case ApiKey(key, value, location) => OneOption("--header", key + ": " + value);
    case _ =>
  }

  lemma OneWord(word: string)
    ensures Words([Bare(word)]) == [word]
  {
    assert [Bare(word)][1..] == [];
  }

  lemma ContentTypeIsGiven(headers: seq<HeaderEntry>)
    ensures HasHeader(headers, "content-type") <==> GivesContentType(headers)
  {
    assert ToLowerAscii("content-type") == "content-type" by { AlreadyLower(); }
    hide ToLowerAscii;
    if GivesContentType(headers) {
      var h :| h in headers && h.enabled && ToLowerAscii(h.key) == "content-type";
      var i :| 0 <= i < |headers| && headers[i] == h;
      assert headers[i].enabled && SameHeader(headers[i].key, "content-type");
    }
  }

  lemma AlreadyLower()
    ensures ToLowerAscii("content-type") == "content-type"
  {
    NoCapitals("content-type");
  }

  lemma NoCapitals(s: string)
    requires forall c <- s :: !('A' <= c <= 'Z')
    ensures ToLowerAscii(s) == s
  {
    LowerEach(s);
    hide ToLowerAscii;
    forall i | 0 <= i < |s| ensures ToLowerAscii(s)[i] == s[i] {
      assert s[i] in s;
    }
  }

  function TypeLines(body: RequestBody): seq<string> {
    if body.JsonBody? || body.Graphql? then ["Content-Type: application/json"]
    else if body.FormUrlEncoded? then ["Content-Type: application/x-www-form-urlencoded"]
    else []
  }

  lemma ContentTypeLinesAre(r: Request)
    ensures ContentTypeLines(r) == if GivesContentType(r.headers) then [] else TypeLines(r.body)
  {
    ContentTypeIsGiven(r.headers);
    JsonLine();
    FormLine();
    hide HasHeader, GivesContentType, BodyContentType;
    TypeIs(r.body);
  }

  lemma JsonLine()
    ensures "Content-Type: " + "application/json" == "Content-Type: application/json"
  {
  }

  lemma FormLine()
    ensures "Content-Type: " + "application/x-www-form-urlencoded" == "Content-Type: application/x-www-form-urlencoded"
  {
  }

  lemma TypeIs(body: RequestBody)
    ensures BodyContentType(body)
         == if body.JsonBody? || body.Graphql? then Some("application/json")
            else if body.FormUrlEncoded? then Some("application/x-www-form-urlencoded")
            else None
  {
  }

  lemma ContentTypeWordsAre(r: Request)
    ensures Words(Options("--header", ContentTypeLines(r))) == ContentTypeWords(r)
  {
    hide Options, Words, GivesContentType, ContentTypeLines;
    ContentTypeLinesAre(r);
    WordsOfOption("--header", []);
    OneOption("--header", "Content-Type: application/json");
    OneOption("--header", "Content-Type: application/x-www-form-urlencoded");
  }

  // ----- The URL -----

  lemma {:induction false} EnabledAreChosen(pairs: seq<KeyValue>)
    ensures EnabledPairs(pairs) == Chosen(pairs, (q: KeyValue) => q.enabled, (q: KeyValue) => (q.key, q.value))
  {
    if pairs != [] {
      EnabledAreChosen(pairs[1..]);
    }
  }

  /** What a text is appended as, and what two are. */
  function Appended(url: string, query: string): string {
    if query == "" then url else url + (if '?' in url then "&" else "?") + query
  }

  lemma AppendedTwice(url: string, query: string, key: string)
    ensures Appended(Appended(url, query), key)
         == Extended(url, (if query == "" then [] else [query]) + (if key == "" then [] else [key]))
  {
    hide Join;
    JoinOf(query, key);
    JoinOf(key, query);
    assert [query] + [] == [query] && [] + [key] == [key] && [query] + [key] == [query, key];
    if query != "" && key != "" {
      var mark := if '?' in url then "&" else "?";
      MarkIsThere(url, mark, query);
      assert url + mark + query + "&" + key == url + mark + (query + "&" + key);
    }
  }

  lemma UrlIsExtended(r: Request, p: Printers)
    ensures ExportedUrl(r, p) == Extended(r.url, Additions(r, p))
  {
    hide Chosen, EnabledPairs, Extended;
    EnabledAreChosen(r.query);
    var query := p.form(EnabledPairs(r.query));
    if r.auth.ApiKey? && r.auth.location == Query {
      OnePair(r.auth.key, r.auth.value);
      AppendedTwice(r.url, query, p.form([(r.auth.key, r.auth.value)]));
    } else {
      AppendedTwice(r.url, query, "");
    }
  }

  lemma MarkIsThere(url: string, mark: string, query: string)
    requires mark == if '?' in url then "&" else "?"
    ensures '?' in url + mark + query
  {
    if '?' !in url {
      assert (url + mark + query)[|url|] == '?';
    }
  }

  lemma OnePair(key: string, value: string)
    ensures EnabledPairs([KeyValue(key, value, true)]) == [(key, value)]
  {
    assert [KeyValue(key, value, true)][1..] == [];
  }

  lemma JoinOf(a: string, b: string)
    ensures Join([a], "&") == a && Join([a, b], "&") == a + "&" + b
  {
    assert [a, b][1..] == [b];
  }

  // ----- The command -----

  lemma HeadWords(m: string, url: string)
    ensures Words([Bare("curl"), Bare("--request"), Quoted(m), Quoted(url)]) == ["curl", "--request", m, url]
  {
    var head := [Bare("curl"), Bare("--request"), Quoted(m), Quoted(url)];
    var t1, t2, t3 := head[1..], head[1..][1..], head[1..][1..][1..];
    assert t3 == [Quoted(url)] && t3[1..] == [] && Words(t3) == [url];
    assert Words(t2) == [m] + Words(t3);
    assert Words(t1) == ["--request"] + Words(t2);
  }

  lemma ArgumentsHaveWords(r: Request, p: Printers)
    ensures Words(Arguments(r, p)) == WordsSaid(r, p)
  {
    hide Words, Options, HeaderLines, PairLines, PartLines, ExportedUrl, AuthArguments, BodyArguments, ContentTypeLines,
         Extended, Additions, Each, ContentTypeWords, AuthWords, BodyWords;
    var head := [Bare("curl"), Bare("--request"), Quoted(r.method_), Quoted(ExportedUrl(r, p))];
    var s1, s2 := Options("--header", HeaderLines(r.headers)), Options("--header", ContentTypeLines(r));
    var s3, s4, s5 := Options("--cookie", PairLines(r.cookies)), AuthArguments(r.auth), BodyArguments(r.body, p);
    WordsConcat(head + s1 + s2 + s3 + s4, s5);
    WordsConcat(head + s1 + s2 + s3, s4);
    WordsConcat(head + s1 + s2, s3);
    WordsConcat(head + s1, s2);
    WordsConcat(head, s1);
    HeadWords(r.method_, ExportedUrl(r, p));
    UrlIsExtended(r, p);
    HeaderWords(r.headers);
    ContentTypeWordsAre(r);
    PairWords(r.cookies, "--cookie");
    AuthWordsAre(r.auth);
    BodyWordsAre(r.body, p);
  }

  /**
   * Main result, for every request: the words of the exported command, as a shell splits it, without the empty ones.
   * Each enabled header, cookie, field and part has its own option, in order, and nothing else is there.
   */
  lemma CommandSays(r: Request, p: Printers)
    ensures WordsOf(Join(Texts(Arguments(r, p)), " ")) == Ok(NotEmpty(WordsSaid(r, p)))
  {
    hide *;
    CurlTheorems.ArgumentsAreSafe(r, p);
    SplittingUndoesQuoting(Arguments(r, p));
    NonEmptyWordsAre(Arguments(r, p));
    ArgumentsHaveWords(r, p);
  }

  /** A warning for gRPC, one for a key in the query, and one for each way to authenticate that needs a token first. */
  lemma WarnsExactlyOf(r: Request, warning: ExportWarning)
    ensures warning in ExportWarnings(r)
       <==> (warning == GrpcPreview && r.grpc.Some?)
            || (warning == UnresolvedQueryKey && r.auth.ApiKey? && r.auth.location == Query)
            || (warning == NotMaterialized(r.auth)
                && (r.auth.ClientCredentials? || r.auth.AuthorizationCodePkce? || r.auth.RefreshToken?
                    || r.auth.DeviceCode? || r.auth.AwsSignatureV4?))
    ensures |ExportWarnings(r)| <= 2
  {
  }
}
