/** Exporting a request and reading the command back. */
module CurlTheorems {
  import opened Wrappers
  import opened Text
  import opened Json
  import opened RequestModel
  import opened ShellWords
  import opened Curl
  import opened CurlImport

  // ----- The words of an exported command -----

  lemma {:induction false} WordsConcat(s: seq<Argument>, t: seq<Argument>)
    ensures NonEmptyWords(s + t) == NonEmptyWords(s) + NonEmptyWords(t)
  {
    if s == [] {
      assert s + t == t;
    } else {
      assert (s + t)[1..] == s[1..] + t;
      WordsConcat(s[1..], t);
    }
  }

  predicate NonEmpty(values: seq<string>) {
    forall i | 0 <= i < |values| :: values[i] != ""
  }

  /** The option names the exporter writes with a value. */
  predicate Written(name: string) {
    name in ["--request", "--header", "--cookie", "--user", "--data-raw", "--data-urlencode", "--form", "--data-binary"]
  }

  /** The loop reads such an option and its value in one pass. */
  lemma TakesOption(name: string, value: string, rest: seq<string>, st: Parse)
    requires Written(name)
    ensures NeedsValue(name)
    ensures Take([name, value] + rest, st)
         == match TakeValue(st, name, value) case Err(e) => Err(e) case Ok(next) => Ok(Pass(next, 2))
  {
    hide TakeValue, ParseHeader, Written, NeedsValue, InlineOption, InlineData;
    NotInline(name);
    NotAFlag(name);
  }

  lemma NotAFlag(name: string)
    requires Written(name)
    ensures NeedsValue(name)
    ensures name != "--" && name != "-G" && name != "--get" && name != "--digest" && name != "-k"
      && name != "--insecure"
    ensures name != "-L" && name != "--location" && name != "--compressed"
  {
    assert |name| > 5 && name[2] != 'g';
  }

  /** Without a value after it, the option is refused. */
  lemma RefusesLastOption(name: string, st: Parse)
    requires Written(name)
    ensures Take([name], st) == Err(MissingOptionValue(name))
  {
    hide TakeValue, ParseHeader, Written, NeedsValue, InlineOption, InlineData;
    NotInline(name);
    NotAFlag(name);
  }

  lemma NotInline(name: string)
    requires Written(name)
    ensures InlineOption(name, "--request", "-X").None? && InlineOption(name, "--header", "-H").None?
    ensures InlineData(name).None? && InlineOption(name, "--url", "--url").None?
  {
    assert forall i | 0 <= i < |name| :: name[i] != '=';
    NoInline(name, "--request", "-X");
    NoInline(name, "--header", "-H");
    NoInline(name, "--data", "-d");
    NoInline(name, "--data-raw", "--data-raw");
    NoInline(name, "--data-binary", "--data-binary");
    NoInline(name, "--url", "--url");
  }

  lemma NoInline(token: string, long: string, short: string)
    requires forall i | 0 <= i < |token| :: token[i] != '='
    ensures InlineOption(token, long, short).None?
  {
    assert (long + "=")[|long|] == '=' && (short + "=")[|short|] == '=';
  }

  /** The same option with each value in turn. */
  function TakeValues(name: string, values: seq<string>, st: Parse): Result<Parse, CurlError>
    requires NeedsValue(name)
    decreases |values|
  {
    if values == [] then Ok(st)
    else
      match TakeValue(st, name, values[0])
      case Err(e) => Err(e)
      case Ok(next) => TakeValues(name, values[1..], next)
  }

  function Then(r: Result<Parse, CurlError>, rest: seq<string>): Result<Parse, CurlError> {
    match r case Err(e) => Err(e) case Ok(st) => TakeAll(rest, st)
  }

  lemma {:induction false} TakesOptions(name: string, values: seq<string>, rest: seq<string>, st: Parse)
    requires Written(name) && NonEmpty(values)
    ensures NeedsValue(name)
    ensures TakeAll(NonEmptyWords(Options(name, values)) + rest, st) == Then(TakeValues(name, values, st), rest)
    decreases |values|
  {
    hide Take, TakeValue;
    if values == [] {
      assert [] + rest == rest;
      assert NeedsValue(name);
    } else {
      var option := [Bare(name), Quoted(values[0])];
      var more := NonEmptyWords(Options(name, values[1..])) + rest;
      WordsConcat(option, Options(name, values[1..]));
      assert option[1..] == [Quoted(values[0])] && option[1..][1..] == [];
      assert NonEmptyWords(option) == [name, values[0]];
      assert NonEmptyWords(Options(name, values)) + rest == [name, values[0]] + more;
      TakesOption(name, values[0], more, st);
      assert ([name, values[0]] + more)[2..] == more;
      var next := TakeValue(st, name, values[0]);
      if next.Ok? {
        TakesOptions(name, values[1..], rest, next.value);
      }
    }
  }

  /** The entries of header lines, or the first error. */
  function ParseHeaders(lines: seq<string>): Result<seq<HeaderEntry>, CurlError>
    decreases |lines|
  {
    if lines == [] then Ok([])
    else
      match ParseHeader(lines[0])
      case Err(e) => Err(e)
      case Ok(first) =>
        match ParseHeaders(lines[1..])
        case Err(e) => Err(e)
        case Ok(rest) => Ok([first] + rest)
  }

  lemma {:induction false} TakesHeaders(lines: seq<string>, st: Parse)
    ensures TakeValues("--header", lines, st)
         == match ParseHeaders(lines)
            case Err(e) => Err(e)
            case Ok(headers) => Ok(st.(headers := st.headers + headers))
    decreases |lines|
  {
    hide ParseHeader;
    if lines == [] {
      assert st.headers + [] == st.headers;
    } else if ParseHeader(lines[0]).Ok? {
      var first := ParseHeader(lines[0]).value;
      TakesHeaders(lines[1..], st.(headers := st.headers + [first]));
      if ParseHeaders(lines[1..]).Ok? {
        assert st.headers + [first] + ParseHeaders(lines[1..]).value
            == st.headers + ([first] + ParseHeaders(lines[1..]).value);
      }
    }
  }

  lemma {:induction false} ParseHeadersConcat(s: seq<string>, t: seq<string>)
    ensures ParseHeaders(s + t)
         == match ParseHeaders(s)
            case Err(e) => Err(e)
            case Ok(first) => (match ParseHeaders(t) case Err(e) => Err(e) case Ok(rest) => Ok(first + rest))
  {
    hide ParseHeader;
    if s == [] {
      assert s + t == t;
      if ParseHeaders(t).Ok? {
        assert [] + ParseHeaders(t).value == ParseHeaders(t).value;
      }
    } else {
      assert (s + t)[1..] == s[1..] + t;
      ParseHeadersConcat(s[1..], t);
      if ParseHeader(s[0]).Ok? && ParseHeaders(s[1..]).Ok? && ParseHeaders(t).Ok? {
        var a, b, c := ParseHeader(s[0]).value, ParseHeaders(s[1..]).value, ParseHeaders(t).value;
        assert [a] + b + c == [a] + (b + c);
      }
    }
  }

  function Last(values: seq<string>): Option<string> {
    if values == [] then None else Some(values[|values| - 1])
  }

  lemma {:induction false} TakesCookies(lines: seq<string>, st: Parse)
    ensures TakeValues("--cookie", lines, st) == Ok(if lines == [] then st else st.(cookies := Last(lines)))
    decreases |lines|
  {
    if lines != [] {
      TakesCookies(lines[1..], st.(cookies := Some(lines[0])));
    }
  }

  function Repeat<T>(x: T, n: nat): seq<T> {
    if n == 0 then [] else [x] + Repeat(x, n - 1)
  }

  lemma {:induction false} TakesEncoded(lines: seq<string>, st: Parse)
    ensures TakeValues("--data-urlencode", lines, st)
         == Ok(st.(bodyValues := st.bodyValues + lines,
                   warnings := st.warnings + Repeat(ReviewUrlEncoding, |lines|)))
    decreases |lines|
  {
    if lines == [] {
      assert st.bodyValues + [] == st.bodyValues && st.warnings + [] == st.warnings;
    } else {
      TakesEncoded(
        lines[1..], st.(bodyValues := st.bodyValues + [lines[0]], warnings := st.warnings + [ReviewUrlEncoding]));
      assert st.bodyValues + [lines[0]] + lines[1..] == st.bodyValues + lines;
      assert st.warnings + [ReviewUrlEncoding] + Repeat(ReviewUrlEncoding, |lines| - 1)
          == st.warnings + Repeat(ReviewUrlEncoding, |lines|);
    }
  }

  lemma {:induction false} TakesForms(lines: seq<string>, st: Parse)
    ensures TakeValues("--form", lines, st) == Ok(st.(warnings := st.warnings + Repeat(ReviewMultipart, |lines|)))
    decreases |lines|
  {
    if lines == [] {
      assert st.warnings + [] == st.warnings;
    } else {
      TakesForms(lines[1..], st.(warnings := st.warnings + [ReviewMultipart]));
      assert st.warnings + [ReviewMultipart] + Repeat(ReviewMultipart, |lines| - 1)
          == st.warnings + Repeat(ReviewMultipart, |lines|);
    }
  }

  // ----- The normal form -----

  function AllHeaderLines(r: Request): seq<string> {
    HeaderLines(r.headers) + ContentTypeLines(r) + AuthHeaderLines(r.auth)
  }

  /** The body texts the command carries. */
  function BodyValues(body: RequestBody, p: Printers): seq<string> {
    match body
    case NoBody => []
    case Raw(text, _) => [text]
    case JsonBody(value) => [p.json.show(value)]
    case Graphql(query, variables, name) => [p.json.show(GraphqlPayload(query, variables, name))]
    case FormUrlEncoded(fields) => PairLines(fields)
    case Multipart(_) => []
    case BinaryFile(path, _) => ["@" + path]
  }

  function BodyWarnings(body: RequestBody): seq<ImportWarning> {
    match body
    case FormUrlEncoded(fields) => Repeat(ReviewUrlEncoding, |PairLines(fields)|)
    case Multipart(parts) => Repeat(ReviewMultipart, |PartLines(parts)|)
    case _ => []
  }

  /** A user name ends at its first colon. */
  function NormalAuth(auth: Auth): Auth {
    match auth
    case Basic(username, password) =>
      var (u, w) := SplitOnce(username + ":" + password, ':').value; Basic(u, w)
    case Digest(username, password) =>
      var (u, w) := SplitOnce(username + ":" + password, ':').value; Digest(u, w)
    case _ => NoAuth
  }

  /** What the shell and the option loop can carry: every part that must be a word is not empty. */
  predicate Addressed(r: Request) {
    r.method_ != "" && r.url != "" && r.url[0] != '-'
  }

  /** The name of a header as it is read back ends at the first colon. */
  function NameOf(key: string): string {
    match SplitOnce(key, ':')
    case None => key
    case Some((name, _)) => name
  }

  /** What comes back of a name and a value. */
  function ReadBack(key: string, value: string): HeaderEntry {
    match SplitOnce(key, ':')
    case None => HeaderEntry(Trim(key), Trim(value), true)
    case Some((name, more)) => HeaderEntry(Trim(name), Trim(more + ": " + value), true)
  }

  /** What comes back of the enabled headers, in order. */
  function ReadBackAll(headers: seq<HeaderEntry>): seq<HeaderEntry> {
    if headers == [] then []
    else (if headers[0].enabled then [ReadBack(headers[0].key, headers[0].value)] else []) + ReadBackAll(headers[1..])
  }

  /** The content type that a body asks for, when the request has none. */
  function TypeHeader(r: Request): seq<HeaderEntry> {
    if !HasHeader(r.headers, "content-type") && BodyContentType(r.body).Some?
    then [HeaderEntry("Content-Type", BodyContentType(r.body).value, true)] else []
  }

  function AuthHeader(auth: Auth): seq<HeaderEntry> {
    match auth
    case Bearer(token) => [HeaderEntry("Authorization", Trim("Bearer " + token), true)]
    case ApiKey(key, value, Header) => [ReadBack(key, value)]
    case _ => []
  }

  /** The last enabled cookie, as the importer keeps it. */
  function CookieHeader(r: Request): seq<HeaderEntry> {
    if PairLines(r.cookies) == [] then [] else [HeaderEntry("cookie", Last(PairLines(r.cookies)).value, true)]
  }

  /** No name that becomes a header is blank. */
  predicate NamesAreThere(headers: seq<HeaderEntry>, auth: Auth) {
    && (forall i | 0 <= i < |headers| && headers[i].enabled :: !Blank(NameOf(headers[i].key)))
    && (auth.ApiKey? && auth.location == Header ==> !Blank(NameOf(auth.key)))
  }

  predicate Exportable(r: Request) {
    Addressed(r) && NamesAreThere(r.headers, r.auth) && !(r.body.Raw? && r.body.text == "")
  }

  /** The headers without the cookie. */
  function OwnHeaders(r: Request): seq<HeaderEntry> {
    ReadBackAll(r.headers) + TypeHeader(r) + AuthHeader(r.auth)
  }

  function NormalHeaders(r: Request): seq<HeaderEntry> {
    OwnHeaders(r) + CookieHeader(r)
  }

  /** A text that is sent as it is comes back as JSON only when some content type says so and it is JSON. */
  function NormalText(text: string, json: bool, p: Printers): RequestBody {
    if !json then Raw(text, None)
    else if p.json.parse(text).Some? then JsonBody(p.json.parse(text).value)
    else Raw(text, Some("application/json"))
  }

  function NormalJson(value: Json, json: bool, p: Printers): RequestBody {
    if json then JsonBody(value) else Raw(p.json.show(value), None)
  }

  function NormalBody(r: Request, p: Printers): RequestBody {
    var json := SaysJson(NormalHeaders(r));
    match r.body
    case NoBody => NoBody
    case Multipart(_) => NoBody
    case JsonBody(value) => NormalJson(value, json, p)
    case Graphql(query, variables, name) => NormalJson(GraphqlPayload(query, variables, name), json, p)
    case Raw(text, _) => NormalText(text, json, p)
    case FormUrlEncoded(fields) =>
      if PairLines(fields) == [] then NoBody else NormalText(Join(PairLines(fields), "&"), json, p)
    case BinaryFile(path, _) => NormalText("@" + path, json, p)
  }

  /** The request that a command line can say: query, cookies and header-like auth become URL and headers. */
  function Normal(id: nat, r: Request, p: Printers): Request {
    NewRequest(id, "Imported cURL request", r.method_, ExportedUrl(r, p))
    .(headers := NormalHeaders(r), auth := NormalAuth(r.auth), body := NormalBody(r, p))
  }

  // ----- The normal form is what is read -----

  lemma HeaderIsRead(key: string, value: string)
    ensures ParseHeader(key + ": " + value).Ok? <==> !Blank(NameOf(key))
    ensures !Blank(NameOf(key)) ==> ParseHeader(key + ": " + value) == Ok(ReadBack(key, value))
  {
    var line := key + ": " + value;
    match SplitOnce(key, ':')
    case None =>
      assert line == key + ":" + (" " + value);
      SplitOnceAt(key, ':', " " + value);
      assert (" " + value)[1..] == value;
    case Some((name, more)) =>
      assert line == name + ":" + (more + ": " + value);
      SplitOnceAt(name, ':', more + ": " + value);
  }

  lemma {:induction false} HeadersAreReadBack(headers: seq<HeaderEntry>)
    ensures ParseHeaders(HeaderLines(headers)).Ok?
       <==> forall i | 0 <= i < |headers| && headers[i].enabled :: !Blank(NameOf(headers[i].key))
    ensures ParseHeaders(HeaderLines(headers)).Ok? ==> ParseHeaders(HeaderLines(headers)).value == ReadBackAll(headers)
    decreases |headers|
  {
    hide ParseHeader, ParseHeaders, HeaderLines, NameOf, ReadBack, Blank;
    if headers == [] {
      NoHeaderLines();
    } else {
      HeadersAreReadBack(headers[1..]);
      assert forall i | 0 < i < |headers| :: headers[i] == headers[1..][i - 1];
      FirstHeaderIsRead(headers);
    }
  }

  lemma NoHeaderLines()
    ensures ParseHeaders(HeaderLines([])) == Ok([])
  {
  }

  lemma FirstHeaderIsRead(headers: seq<HeaderEntry>)
    requires headers != []
    ensures var h := headers[0]; var rest := ParseHeaders(HeaderLines(headers[1..]));
      ParseHeaders(HeaderLines(headers)).Ok? <==> (h.enabled ==> !Blank(NameOf(h.key))) && rest.Ok?
    ensures var h := headers[0]; var rest := ParseHeaders(HeaderLines(headers[1..]));
      ParseHeaders(HeaderLines(headers)).Ok? && rest.Ok? ==>
        ParseHeaders(HeaderLines(headers)).value == (if h.enabled then [ReadBack(h.key, h.value)] else []) + rest.value
  {
    hide ParseHeader, NameOf, ReadBack, Blank;
    var h := headers[0];
    if h.enabled {
      HeaderIsRead(h.key, h.value);
      assert HeaderLines(headers)[0] == h.key + ": " + h.value
        && HeaderLines(headers)[1..] == HeaderLines(headers[1..]);
    } else {
      assert HeaderLines(headers) == HeaderLines(headers[1..]);
    }
  }

  lemma TypeIsRead(r: Request)
    ensures ParseHeaders(ContentTypeLines(r)) == Ok(TypeHeader(r))
  {
    hide HasHeader, ParseHeader, Trim;
    if TypeHeader(r) != [] {
      var h := TypeHeader(r)[0];
      NameIsFixed("Content-Type", h.value);
      TypesAreTrimmed(r.body);
      assert "Content-Type: " == "Content-Type" + ": ";
      assert ContentTypeLines(r) == [h.key + ": " + h.value];
      OneHeader(h.key + ": " + h.value);
    }
  }

  lemma TypesAreTrimmed(body: RequestBody)
    ensures BodyContentType(body).Some? ==> Trim(BodyContentType(body).value) == BodyContentType(body).value
  {
    hide Trim;
    if BodyContentType(body).Some? {
      TrimOfTrimmed(BodyContentType(body).value);
    }
  }

  lemma NameIsFixed(name: string, value: string)
    requires name == "Content-Type" || name == "Authorization"
    ensures ParseHeader(name + ": " + value) == Ok(HeaderEntry(name, Trim(value), true))
  {
    hide Trim;
    assert ':' !in name && Trimmed(name);
    TrimOfTrimmed(name);
    assert name + ": " + value == name + ":" + (" " + value);
    SplitOnceAt(name, ':', " " + value);
    LeadingSpace(value);
  }

  lemma LeadingSpace(value: string)
    ensures Trim(" " + value) == Trim(value)
  {
    assert (" " + value)[1..] == value;
  }

  lemma AuthIsRead(auth: Auth)
    ensures ParseHeaders(AuthHeaderLines(auth)).Ok? <==> NamesAreThere([], auth)
    ensures NamesAreThere([], auth) ==> ParseHeaders(AuthHeaderLines(auth)) == Ok(AuthHeader(auth))
  {
    hide ParseHeader, Trim, NameOf, ReadBack, Blank;
    match auth {
      case Bearer(token) =>
        NameIsFixed("Authorization", "Bearer " + token);
        var line := "Authorization" + ": " + ("Bearer " + token);
        assert "Authorization: Bearer " + token == line;
        assert AuthHeaderLines(auth) == [line];
        OneHeader(line);
      case ApiKey(key, value, Header) =>
        HeaderIsRead(key, value);
        assert [key + ": " + value][1..] == [];
        if !Blank(NameOf(key)) {
          OneHeader(key + ": " + value);
        }
      case _ =>
    }
  }

  /** The importer reads the headers exactly when their names are there, and then as the normal form says. */
  lemma HeadersAreRead(r: Request)
    ensures ParseHeaders(AllHeaderLines(r)).Ok? <==> NamesAreThere(r.headers, r.auth)
    ensures NamesAreThere(r.headers, r.auth) ==> ParseHeaders(AllHeaderLines(r)) == Ok(OwnHeaders(r))
  {
    hide ParseHeaders, HeaderLines, ContentTypeLines, AuthHeaderLines, AuthHeader, TypeHeader, ReadBackAll, NameOf,
         Blank;
    HeadersAreReadBack(r.headers);
    TypeIsRead(r);
    AuthIsRead(r.auth);
    CollectedHeaders(r);
  }

  lemma BodyIsRead(r: Request, p: Printers)
    requires p.Valid()
    ensures var texts := BodyValues(r.body, p);
      (if texts == [] then NoBody else ImportedBody(NormalHeaders(r), Join(texts, "&"), p)) == NormalBody(r, p)
  {
    hide NormalHeaders, SaysJson, PairLines, GraphqlPayload;
    match r.body {
      case JsonBody(value) => assert p.json.parse(p.json.show(value)) == Some(value);
      case Graphql(query, variables, name) =>
        var value := GraphqlPayload(query, variables, name);
        assert p.json.parse(p.json.show(value)) == Some(value);
      case _ =>
    }
  }

  // ----- The round trip -----

  lemma LinesAreNonEmpty(r: Request)
    ensures NonEmpty(HeaderLines(r.headers)) && NonEmpty(ContentTypeLines(r)) && NonEmpty(AuthHeaderLines(r.auth))
    ensures NonEmpty(PairLines(r.cookies))
  {
    hide HeaderLines, PairLines, HasHeader, BodyContentType;
    HeaderLinesNonEmpty(r.headers);
    PairLinesNonEmpty(r.cookies);
    assert forall line <- ContentTypeLines(r) :: |line| >= |"Content-Type: "|;
    AuthLinesNonEmpty(r.auth);
  }

  lemma AuthLinesNonEmpty(auth: Auth)
    ensures NonEmpty(AuthHeaderLines(auth))
  {
    forall line <- AuthHeaderLines(auth) ensures line != "" {
      match auth
      case Bearer(token) => assert |line| == |"Authorization: Bearer "| + |token|;
      case ApiKey(key, value, Header) => assert |line| == |key| + |": "| + |value|;
    }
  }

  lemma {:induction false} HeaderLinesNonEmpty(headers: seq<HeaderEntry>)
    ensures NonEmpty(HeaderLines(headers))
  {
    if headers != [] {
      HeaderLinesNonEmpty(headers[1..]);
    }
  }

  lemma {:induction false} PairLinesNonEmpty(pairs: seq<KeyValue>)
    ensures NonEmpty(PairLines(pairs))
  {
    if pairs != [] {
      PairLinesNonEmpty(pairs[1..]);
    }
  }

  lemma {:induction false} PartLinesNonEmpty(parts: seq<MultipartPart>)
    ensures NonEmpty(PartLines(parts))
  {
    if parts != [] {
      PartLinesNonEmpty(parts[1..]);
    }
  }

  lemma OptionsAreSafe(name: string, values: seq<string>)
    requires Safe(name)
    ensures BareAreSafe(Options(name, values))
  {
    if values != [] {
      OptionsAreSafe(name, values[1..]);
    }
  }

  lemma ArgumentsAreSafe(r: Request, p: Printers)
    ensures BareAreSafe(Arguments(r, p))
  {
    hide Options, AuthArguments, BodyArguments, HeaderLines, PairLines, ContentTypeLines, ExportedUrl, Safe;
    var head := [Bare("curl"), Bare("--request"), Quoted(r.method_), Quoted(ExportedUrl(r, p))];
    NamesAreSafe();
    OptionsAreSafe("--header", HeaderLines(r.headers));
    OptionsAreSafe("--header", ContentTypeLines(r));
    OptionsAreSafe("--cookie", PairLines(r.cookies));
    AuthIsSafe(r.auth);
    BodyIsSafe(r.body, p);
    assert BareAreSafe(head);
    SafeConcat(head, Options("--header", HeaderLines(r.headers)));
    var more := head + Options("--header", HeaderLines(r.headers));
    SafeConcat(more, Options("--header", ContentTypeLines(r)));
    more := more + Options("--header", ContentTypeLines(r));
    SafeConcat(more, Options("--cookie", PairLines(r.cookies)));
    more := more + Options("--cookie", PairLines(r.cookies));
    SafeConcat(more, AuthArguments(r.auth));
    SafeConcat(more + AuthArguments(r.auth), BodyArguments(r.body, p));
    hide BareAreSafe;
  }

  lemma SafeConcat(s: seq<Argument>, t: seq<Argument>)
    requires BareAreSafe(s) && BareAreSafe(t)
    ensures BareAreSafe(s + t)
  {
    hide Safe;
  }

  lemma NamesAreSafe()
    ensures Safe("curl") && Safe("--request") && Safe("--header") && Safe("--cookie")
    ensures Safe("--user") && Safe("--digest")
  {
  }

  lemma BodyNamesAreSafe()
    ensures Safe("--data-raw") && Safe("--data-urlencode") && Safe("--form") && Safe("--data-binary")
  {
  }

  lemma AuthIsSafe(auth: Auth)
    ensures BareAreSafe(AuthArguments(auth))
  {
    hide Safe, Options, AuthHeaderLines;
    NamesAreSafe();
    match auth {
      case Basic(u, w) => OptionsAreSafe("--user", [u + ":" + w]);
      case Digest(u, w) =>
        OptionsAreSafe("--user", [u + ":" + w]);
        SafeConcat([Bare("--digest")], Options("--user", [u + ":" + w]));
      case _ => OptionsAreSafe("--header", AuthHeaderLines(auth));
    }
  }

  lemma BodyIsSafe(body: RequestBody, p: Printers)
    ensures BareAreSafe(BodyArguments(body, p))
  {
    hide Safe, Options, PairLines, PartLines, GraphqlPayload;
    BodyNamesAreSafe();
    match body {
      case NoBody =>
      case Raw(text, _) => OptionsAreSafe("--data-raw", [text]);
      case JsonBody(value) => OptionsAreSafe("--data-raw", [p.json.show(value)]);
      case Graphql(query, variables, name) =>
        OptionsAreSafe("--data-raw", [p.json.show(GraphqlPayload(query, variables, name))]);
      case FormUrlEncoded(fields) => OptionsAreSafe("--data-urlencode", PairLines(fields));
      case Multipart(parts) => OptionsAreSafe("--form", PartLines(parts));
      case BinaryFile(path, _) => OptionsAreSafe("--data-binary", ["@" + path]);
    }
  }

  lemma UrlStaysAddressed(r: Request, p: Printers)
    requires r.url != "" && r.url[0] != '-'
    ensures ExportedUrl(r, p) != "" && ExportedUrl(r, p)[0] != '-'
  {
  }

  /** The authentication section, read from any state. */
  lemma TakesAuth(auth: Auth, rest: seq<string>, st: Parse)
    requires st.auth == NoAuth && !st.digestMode
    ensures TakeAll(NonEmptyWords(AuthArguments(auth)) + rest, st)
         == match ParseHeaders(AuthHeaderLines(auth))
            case Err(e) => Err(e)
            case Ok(headers) =>
              var normal := NormalAuth(auth);
              TakeAll(rest, st.(headers := st.headers + headers,
                                auth := if normal.Digest? then Basic(normal.username, normal.password) else normal,
                                digestMode := auth.Digest?))
  {
    hide Take, ParseHeader, SplitOnce;
    if auth.Basic? {
      TakesUser(auth.username, auth.password, rest, st);
      assert st.headers + [] == st.headers;
    } else if auth.Digest? {
      var user := Options("--user", [auth.username + ":" + auth.password]);
      WordsConcat([Bare("--digest")], user);
      assert [Bare("--digest")][1..] == [];
      var more := NonEmptyWords(user) + rest;
      assert NonEmptyWords(AuthArguments(auth)) + rest == ["--digest"] + more;
      TakesDigest(more, st);
      TakesUser(auth.username, auth.password, rest, st.(digestMode := true));
      assert st.headers + [] == st.headers;
    } else {
      assert NonEmpty(AuthHeaderLines(auth));
      TakesOptions("--header", AuthHeaderLines(auth), rest, st);
      TakesHeaders(AuthHeaderLines(auth), st);
    }
  }

  lemma TakesDigest(rest: seq<string>, st: Parse)
    ensures TakeAll(["--digest"] + rest, st) == TakeAll(rest, st.(digestMode := true))
  {
    assert (["--digest"] + rest)[1..] == rest;
  }

  lemma TakesUser(username: string, password: string, rest: seq<string>, st: Parse)
    ensures SplitOnce(username + ":" + password, ':').Some?
    ensures var (u, w) := SplitOnce(username + ":" + password, ':').value;
      TakeAll(NonEmptyWords(Options("--user", [username + ":" + password])) + rest, st)
      == TakeAll(rest, st.(auth := Basic(u, w)))
  {
    hide Take;
    var value := username + ":" + password;
    assert value[|username|] == ':';
    TakesOptions("--user", [value], rest, st);
    assert [value][1..] == [];
    assert TakeValues("--user", [], st.(auth := TakeValue(st, "--user", value).value.auth))
        == Ok(TakeValue(st, "--user", value).value);
  }

  /** The body section, read from any state. */
  lemma TakesBody(body: RequestBody, p: Printers, st: Parse)
    requires p.Valid() && st.bodyValues == []
    ensures TakeAll(NonEmptyWords(BodyArguments(body, p)), st)
         == if body.Raw? && body.text == "" then Err(MissingOptionValue("--data-raw"))
            else Ok(st.(bodyValues := BodyValues(body, p), warnings := st.warnings + BodyWarnings(body)))
  {
    hide Take;
    var words := NonEmptyWords(BodyArguments(body, p));
    assert words + [] == words && st.warnings + [] == st.warnings;
    match body {
      case NoBody =>
      case Raw(text, _) =>
        if text == "" {
          assert Options("--data-raw", [text]) == [Bare("--data-raw"), Quoted("")] by {
            assert [text][1..] == [];
          }
          EmptyRawIsRefused(st);
        } else {
          TakesData("--data-raw", text, st);
        }
      case JsonBody(value) => TakesData("--data-raw", p.json.show(value), st);
      case Graphql(query, variables, name) =>
        TakesData("--data-raw", p.json.show(GraphqlPayload(query, variables, name)), st);
      case FormUrlEncoded(fields) =>
        PairLinesNonEmpty(fields);
        TakesOptions("--data-urlencode", PairLines(fields), [], st);
        TakesEncoded(PairLines(fields), st);
        assert [] + PairLines(fields) == PairLines(fields);
      case Multipart(parts) =>
        PartLinesNonEmpty(parts);
        TakesOptions("--form", PartLines(parts), [], st);
        TakesForms(PartLines(parts), st);
      case BinaryFile(path, _) => TakesData("--data-binary", "@" + path, st);
    }
  }

  lemma TakesData(name: string, text: string, st: Parse)
    requires (name == "--data-raw" || name == "--data-binary") && text != "" && st.bodyValues == []
    ensures TakeAll(NonEmptyWords(Options(name, [text])), st) == Ok(st.(bodyValues := [text]))
  {
    hide Take;
    var words := NonEmptyWords(Options(name, [text]));
    assert words + [] == words;
    TakesOptions(name, [text], [], st);
    var next := st.(bodyValues := [text]);
    assert TakeValue(st, name, text) == Ok(next) by {
      assert st.bodyValues + [text] == [text];
    }
    assert [text][1..] == [];
    assert TakeValues(name, [], next) == Ok(next);
  }

  lemma EmptyRawIsRefused(st: Parse)
    ensures TakeAll(NonEmptyWords([Bare("--data-raw"), Quoted("")]), st) == Err(MissingOptionValue("--data-raw"))
  {
    var args := [Bare("--data-raw"), Quoted("")];
    assert args[1..] == [Quoted("")] && args[1..][1..] == [];
    assert NonEmptyWords(args) == ["--data-raw"];
    hide Take;
    RefusesLastOption("--data-raw", st);
  }

  lemma TakesUrl(url: string, rest: seq<string>, st: Parse)
    requires url != "" && url[0] != '-' && st.url.None?
    ensures TakeAll([url] + rest, st) == TakeAll(rest, st.(url := Some(url)))
  {
    assert ([url] + rest)[1..] == rest;
    assert Take([url] + rest, st) == Ok(Pass(st.(url := Some(url)), 1)) by {
      NotAnOption(url);
    }
  }

  lemma NotAnOption(url: string)
    requires url != "" && url[0] != '-'
    ensures InlineOption(url, "--request", "-X").None? && InlineOption(url, "--header", "-H").None?
    ensures InlineData(url).None? && InlineOption(url, "--url", "--url").None? && !NeedsValue(url)
  {
  }

  /** The words of the command, section by section. */
  lemma CommandWords(r: Request, p: Printers)
    requires Addressed(r)
    ensures NonEmptyWords(Arguments(r, p))
         == ["curl"] + (["--request", r.method_] + ([ExportedUrl(r, p)]
            + (NonEmptyWords(Options("--header", HeaderLines(r.headers)))
            + (NonEmptyWords(Options("--header", ContentTypeLines(r)))
            + (NonEmptyWords(Options("--cookie", PairLines(r.cookies)))
            + (NonEmptyWords(AuthArguments(r.auth)) + NonEmptyWords(BodyArguments(r.body, p))))))))
  {
    UrlStaysAddressed(r, p);
    var url := ExportedUrl(r, p);
    HeadWords(r.method_, url);
    hide *;
    WordsOfSections(
      [Bare("curl"), Bare("--request"), Quoted(r.method_), Quoted(url)],
      Options("--header", HeaderLines(r.headers)), Options("--header", ContentTypeLines(r)),
      Options("--cookie", PairLines(r.cookies)), AuthArguments(r.auth), BodyArguments(r.body, p));
    Unfold(r, p);
    Regroup(r.method_, url, NonEmptyWords(Options("--header", HeaderLines(r.headers)))
            + (NonEmptyWords(Options("--header", ContentTypeLines(r)))
            + (NonEmptyWords(Options("--cookie", PairLines(r.cookies)))
            + (NonEmptyWords(AuthArguments(r.auth)) + NonEmptyWords(BodyArguments(r.body, p))))));
  }

  lemma Regroup(m: string, url: string, rest: seq<string>)
    ensures ["curl", "--request", m, url] + rest == ["curl"] + (["--request", m] + ([url] + rest))
  {
  }

  lemma Unfold(r: Request, p: Printers)
    ensures Arguments(r, p)
         == [Bare("curl"), Bare("--request"), Quoted(r.method_), Quoted(ExportedUrl(r, p))]
            + Options("--header", HeaderLines(r.headers)) + Options("--header", ContentTypeLines(r))
            + Options("--cookie", PairLines(r.cookies)) + AuthArguments(r.auth) + BodyArguments(r.body, p)
  {
    hide Options, HeaderLines, PairLines, AuthArguments, BodyArguments, ContentTypeLines, ExportedUrl;
  }

  lemma WordsOfSections(a: seq<Argument>, b: seq<Argument>, c: seq<Argument>, d: seq<Argument>, e: seq<Argument>,
                        f: seq<Argument>)
    ensures NonEmptyWords(a + b + c + d + e + f)
         == NonEmptyWords(a) + (NonEmptyWords(b) + (NonEmptyWords(c)
            + (NonEmptyWords(d) + (NonEmptyWords(e) + NonEmptyWords(f)))))
  {
    hide NonEmptyWords;
    WordsConcat(a + b + c + d + e, f);
    WordsConcat(a + b + c + d, e);
    WordsConcat(a + b + c, d);
    WordsConcat(a + b, c);
    WordsConcat(a, b);
  }

  lemma HeadWords(m: string, url: string)
    requires m != "" && url != ""
    ensures NonEmptyWords([Bare("curl"), Bare("--request"), Quoted(m), Quoted(url)]) == ["curl", "--request", m, url]
  {
    var head := [Bare("curl"), Bare("--request"), Quoted(m), Quoted(url)];
    var t1, t2, t3 := head[1..], head[1..][1..], head[1..][1..][1..];
    assert t3 == [Quoted(url)] && t3[1..] == [] && NonEmptyWords(t3) == [url];
    assert NonEmptyWords(t2) == [m] + NonEmptyWords(t3);
    assert NonEmptyWords(t1) == ["--request"] + NonEmptyWords(t2);
  }

  /** The option loop over a whole exported command, in closed form. */
  function Collected(r: Request, p: Printers): Result<Parse, CurlError> {
    match ParseHeaders(AllHeaderLines(r))
    case Err(e) => Err(e)
    case Ok(headers) =>
      if r.body.Raw? && r.body.text == "" then Err(MissingOptionValue("--data-raw"))
      else
        var normal := NormalAuth(r.auth);
        Ok(Parse(Some(r.method_), Some(ExportedUrl(r, p)), headers, BodyValues(r.body, p),
                 if normal.Digest? then Basic(normal.username, normal.password) else normal,
                 Last(PairLines(r.cookies)), BodyWarnings(r.body), false, r.auth.Digest?))
  }

  lemma TakesSections(r: Request, p: Printers, st: Parse)
    requires p.Valid() && st.headers == [] && st.bodyValues == [] && st.auth == NoAuth && !st.digestMode
    requires st.cookies == None && st.warnings == []
    ensures TakeAll(NonEmptyWords(Options("--header", HeaderLines(r.headers)))
                    + (NonEmptyWords(Options("--header", ContentTypeLines(r)))
                    + (NonEmptyWords(Options("--cookie", PairLines(r.cookies)))
                    + (NonEmptyWords(AuthArguments(r.auth)) + NonEmptyWords(BodyArguments(r.body, p))))), st)
         == match Collected(r, p)
            case Err(e) => Err(e)
            case Ok(all) => Ok(all.(method_ := st.method_, url := st.url, getMode := st.getMode))
  {
    hide Options, Take, TakeAll, ParseHeaders, AuthArguments, BodyArguments, ContentTypeLines, HeaderLines, PairLines,
         AuthHeaderLines, AllHeaderLines, NormalAuth, BodyValues, BodyWarnings, Last, NonEmptyWords, ExportedUrl;
    LinesAreNonEmpty(r);
    var l1, l2, l3 := HeaderLines(r.headers), ContentTypeLines(r), AuthHeaderLines(r.auth);
    var tail := NonEmptyWords(AuthArguments(r.auth)) + NonEmptyWords(BodyArguments(r.body, p));
    var fromCookies := NonEmptyWords(Options("--cookie", PairLines(r.cookies))) + tail;
    HeaderSection(l1, NonEmptyWords(Options("--header", l2)) + fromCookies, st);
    CollectedHeaders(r);
    if ParseHeaders(l1).Ok? {
      var h1 := ParseHeaders(l1).value;
      var st1 := st.(headers := h1);
      assert [] + h1 == h1;
      HeaderSection(l2, fromCookies, st1);
      if ParseHeaders(l2).Ok? {
        var st2 := st1.(headers := h1 + ParseHeaders(l2).value);
        CookieSection(PairLines(r.cookies), tail, st2);
        TailSections(r, p, st2.(cookies := Last(PairLines(r.cookies))));
      }
    }
  }

  lemma HeaderSection(lines: seq<string>, rest: seq<string>, st: Parse)
    requires NonEmpty(lines)
    ensures TakeAll(NonEmptyWords(Options("--header", lines)) + rest, st)
         == if ParseHeaders(lines).Err? then Err(ParseHeaders(lines).error)
            else TakeAll(rest, st.(headers := st.headers + ParseHeaders(lines).value))
  {
    hide TakeAll, ParseHeaders, TakeValues, Options, NonEmptyWords;
    TakesOptions("--header", lines, rest, st);
    TakesHeaders(lines, st);
  }

  lemma CookieSection(lines: seq<string>, rest: seq<string>, st: Parse)
    requires NonEmpty(lines) && st.cookies == None
    ensures TakeAll(NonEmptyWords(Options("--cookie", lines)) + rest, st) == TakeAll(rest, st.(cookies := Last(lines)))
  {
    hide TakeAll, TakeValues, Options, NonEmptyWords;
    TakesOptions("--cookie", lines, rest, st);
    TakesCookies(lines, st);
  }

  /** The last two sections: what authentication and body add. */
  lemma TailSections(r: Request, p: Printers, st: Parse)
    requires p.Valid() && st.bodyValues == [] && st.auth == NoAuth && !st.digestMode && st.warnings == []
    ensures TakeAll(NonEmptyWords(AuthArguments(r.auth)) + NonEmptyWords(BodyArguments(r.body, p)), st)
         == if ParseHeaders(AuthHeaderLines(r.auth)).Err? then Err(ParseHeaders(AuthHeaderLines(r.auth)).error)
            else Finished(r, p, st, st.headers + ParseHeaders(AuthHeaderLines(r.auth)).value)
  {
    hide TakeAll, ParseHeaders, NonEmptyWords, AuthArguments, BodyArguments, AuthHeaderLines, NormalAuth, BodyValues,
         BodyWarnings;
    TakesAuth(r.auth, NonEmptyWords(BodyArguments(r.body, p)), st);
    if ParseHeaders(AuthHeaderLines(r.auth)).Ok? {
      var normal := NormalAuth(r.auth);
      TakesBody(r.body, p, st.(headers := st.headers + ParseHeaders(AuthHeaderLines(r.auth)).value,
                               auth := if normal.Digest? then Basic(normal.username, normal.password) else normal,
                               digestMode := r.auth.Digest?));
      assert [] + BodyWarnings(r.body) == BodyWarnings(r.body);
    }
  }

  /** The loop variables at the end, once the headers are known. */
  function Finished(r: Request, p: Printers, st: Parse, headers: seq<HeaderEntry>): Result<Parse, CurlError> {
    if r.body.Raw? && r.body.text == "" then Err(MissingOptionValue("--data-raw"))
    else
      var normal := NormalAuth(r.auth);
      Ok(st.(headers := headers, bodyValues := BodyValues(r.body, p), warnings := BodyWarnings(r.body),
             auth := if normal.Digest? then Basic(normal.username, normal.password) else normal,
             digestMode := r.auth.Digest?))
  }

  /** The headers of a command are read section by section. */
  lemma CollectedHeaders(r: Request)
    ensures ParseHeaders(AllHeaderLines(r))
         == match ParseHeaders(HeaderLines(r.headers))
            case Err(e) => Err(e)
            case Ok(h1) =>
              match ParseHeaders(ContentTypeLines(r))
              case Err(e) => Err(e)
              case Ok(h2) =>
                match ParseHeaders(AuthHeaderLines(r.auth))
                case Err(e) => Err(e)
                case Ok(h3) => Ok(h1 + h2 + h3)
  {
    hide ParseHeaders, HeaderLines, ContentTypeLines, AuthHeaderLines;
    ParseHeadersConcat(HeaderLines(r.headers) + ContentTypeLines(r), AuthHeaderLines(r.auth));
    ParseHeadersConcat(HeaderLines(r.headers), ContentTypeLines(r));
  }

  lemma TakesCommand(r: Request, p: Printers)
    requires p.Valid() && Addressed(r)
    ensures NonEmptyWords(Arguments(r, p)) != [] && NonEmptyWords(Arguments(r, p))[0] == "curl"
    ensures TakeAll(NonEmptyWords(Arguments(r, p))[1..], START) == Collected(r, p)
  {
    CommandWords(r, p);
    UrlStaysAddressed(r, p);
    hide Options, Take, AuthArguments, BodyArguments, ContentTypeLines, Collected, ExportedUrl, HeaderLines, PairLines;
    var url := ExportedUrl(r, p);
    var sections := NonEmptyWords(Options("--header", HeaderLines(r.headers)))
                    + (NonEmptyWords(Options("--header", ContentTypeLines(r)))
                    + (NonEmptyWords(Options("--cookie", PairLines(r.cookies)))
                    + (NonEmptyWords(AuthArguments(r.auth)) + NonEmptyWords(BodyArguments(r.body, p)))));
    var words := NonEmptyWords(Arguments(r, p));
    assert words == ["curl"] + (["--request", r.method_] + ([url] + sections));
    assert words[1..] == ["--request", r.method_] + ([url] + sections);
    var st1 := START.(method_ := Some(r.method_));
    TakesOption("--request", r.method_, [url] + sections, START);
    assert (["--request", r.method_] + ([url] + sections))[2..] == [url] + sections;
    TakesUrl(url, sections, st1);
    TakesSections(r, p, st1.(url := Some(url)));
    CollectedNames(r, p);
  }

  lemma CollectedNames(r: Request, p: Printers)
    ensures Collected(r, p).Ok? ==>
      var st := Collected(r, p).value; st.method_ == Some(r.method_) && st.url == Some(ExportedUrl(r, p)) && !st.getMode
  {
  }

  /**
   * Main result: reading an exported command gives the normal form of the request. Together with the
   * next lemma this says exactly which requests survive.
   */
  lemma ParsingGivesNormalForm(id: nat, r: Request, p: Printers)
    requires p.Valid() && Exportable(r)
    ensures ParseCommand(id, Join(Texts(Arguments(r, p)), " "), p) == Ok((Normal(id, r, p), BodyWarnings(r.body)))
  {
    hide *;
    CollectedIs(r, p);
    BuiltFrom(id, r, p, Collected(r, p).value);
    ArgumentsAreSafe(r, p);
    SplittingUndoesQuoting(Arguments(r, p));
    IsAddressed(r);
    TakesCommand(r, p);
    WordsAreBuilt(id, NonEmptyWords(Arguments(r, p)), Join(Texts(Arguments(r, p)), " "), p);
  }

  lemma IsAddressed(r: Request)
    requires Exportable(r)
    ensures Addressed(r)
  {
  }

  lemma WordsAreBuilt(id: nat, words: seq<string>, command: string, p: Printers)
    requires WordsOf(command) == Ok(words) && words != [] && words[0] == "curl" && TakeAll(words[1..], START).Ok?
    ensures ParseCommand(id, command, p) == Build(id, TakeAll(words[1..], START).value, p)
  {
    hide WordsOf, TakeAll, Build;
  }

  lemma CollectedIs(r: Request, p: Printers)
    requires Exportable(r)
    ensures Collected(r, p).Ok?
    ensures var st := Collected(r, p).value;
      && st.method_ == Some(r.method_) && st.url == Some(ExportedUrl(r, p)) && st.headers == OwnHeaders(r)
      && st.bodyValues == BodyValues(r.body, p) && st.cookies == Last(PairLines(r.cookies)) && !st.getMode
      && st.warnings == BodyWarnings(r.body)
      && (if st.digestMode && st.auth.Basic? then Digest(st.auth.username, st.auth.password) else st.auth)
        == NormalAuth(r.auth)
  {
    HeadersAreRead(r);
    hide ParseHeaders, AllHeaderLines, BodyValues, BodyWarnings, OwnHeaders, PairLines, NamesAreThere, ExportedUrl,
         Last, SplitOnce;
  }

  lemma BuiltFrom(id: nat, r: Request, p: Printers, st: Parse)
    requires p.Valid()
    requires st.method_ == Some(r.method_) && st.url == Some(ExportedUrl(r, p)) && st.headers == OwnHeaders(r)
    requires st.bodyValues == BodyValues(r.body, p) && st.cookies == Last(PairLines(r.cookies)) && !st.getMode
    requires st.warnings == BodyWarnings(r.body)
    requires (if st.digestMode && st.auth.Basic? then Digest(st.auth.username, st.auth.password) else st.auth)
      == NormalAuth(r.auth)
    ensures Build(id, st, p) == Ok((Normal(id, r, p), BodyWarnings(r.body)))
  {
    BodyIsRead(r, p);
    CookieIsAdded(r);
    hide ImportedBody, BodyValues, BodyWarnings, NormalBody, OwnHeaders, PairLines, ExportedUrl, NormalAuth, Join,
         NormalHeaders, Last;
    var auth := if st.digestMode && st.auth.Basic? then Digest(st.auth.username, st.auth.password) else st.auth;
    var blank := NewRequest(id, "Imported cURL request", r.method_, ExportedUrl(r, p))
                 .(headers := NormalHeaders(r), auth := auth);
    assert Normal(id, r, p) == blank.(body := NormalBody(r, p));
    if st.bodyValues == [] {
      assert Build(id, st, p) == Ok((blank, st.warnings));
    } else {
      assert Build(id, st, p)
          == Ok((blank.(body := ImportedBody(NormalHeaders(r), Join(st.bodyValues, "&"), p)), st.warnings));
    }
  }

  lemma CookieIsAdded(r: Request)
    ensures var cookies := Last(PairLines(r.cookies));
      OwnHeaders(r) + (if cookies.Some? then [HeaderEntry("cookie", cookies.value, true)] else []) == NormalHeaders(r)
  {
    hide OwnHeaders, PairLines;
  }

  /**
   * Main result: an addressed request's command is readable exactly when no name of an enabled header, or of a
   * key sent as a header, is blank before its first colon, and a raw body is not empty.
   */
  lemma ParsesExactlyWhenExportable(id: nat, r: Request, p: Printers)
    requires p.Valid() && Addressed(r)
    ensures ParseCommand(id, Join(Texts(Arguments(r, p)), " "), p).Ok? <==> Exportable(r)
  {
    if Exportable(r) {
      ParsingGivesNormalForm(id, r, p);
    } else {
      ArgumentsAreSafe(r, p);
      SplittingUndoesQuoting(Arguments(r, p));
      TakesCommand(r, p);
      CollectedFails(r, p);
      hide *;
      FailureIsReported(id, NonEmptyWords(Arguments(r, p)), p);
      Reads(id, Join(Texts(Arguments(r, p)), " "), p);
    }
  }

  lemma CollectedFails(r: Request, p: Printers)
    requires Addressed(r) && !Exportable(r)
    ensures Collected(r, p).Err?
  {
    HeadersAreRead(r);
    hide AllHeaderLines, ParseHeaders, NamesAreThere;
  }

  lemma FailureIsReported(id: nat, tokens: seq<string>, p: Printers)
    requires tokens != [] && TakeAll(tokens[1..], START).Err?
    ensures ParseWords(id, tokens, p).Err?
  {
    hide TakeAll;
  }

  lemma Reads(id: nat, command: string, p: Printers)
    ensures WordsOf(command).Ok? ==> ParseCommand(id, command, p) == ParseWords(id, WordsOf(command).value, p)
  {
    hide WordsOf, ParseWords;
  }

  // ----- The second round trip -----

  /** A header as the importer makes them. */
  predicate Canonical(h: HeaderEntry) {
    h.enabled && h.key != "" && ':' !in h.key && Trimmed(h.key) && Trimmed(h.value)
  }

  lemma ParsedIsCanonical(line: string)
    requires ParseHeader(line).Ok?
    ensures Canonical(ParseHeader(line).value)
  {
    var (key, value) := SplitOnce(line, ':').value;
    TrimIsPart(key);
    TrimIsPart(value);
  }

  /** A header whose name has no colon and is not blank comes back trimmed. */
  lemma HeaderSurvives(h: HeaderEntry)
    requires ':' !in h.key && Trim(h.key) != ""
    ensures ParseHeader(h.key + ": " + h.value) == Ok(HeaderEntry(Trim(h.key), Trim(h.value), true))
  {
    assert h.key + ": " + h.value == h.key + ":" + (" " + h.value);
    SplitOnceAt(h.key, ':', " " + h.value);
    assert (" " + h.value)[1..] == h.value;
  }

  lemma CanonicalSurvives(h: HeaderEntry)
    requires Canonical(h)
    ensures ParseHeader(h.key + ": " + h.value) == Ok(h)
  {
    TrimOfTrimmed(h.key);
    TrimOfTrimmed(h.value);
    HeaderSurvives(h);
  }

  lemma {:induction false} ParsedAreCanonical(lines: seq<string>)
    requires ParseHeaders(lines).Ok?
    ensures forall i | 0 <= i < |ParseHeaders(lines).value| :: Canonical(ParseHeaders(lines).value[i])
    decreases |lines|
  {
    if lines != [] {
      ParsedIsCanonical(lines[0]);
      ParsedAreCanonical(lines[1..]);
    }
  }

  lemma {:induction false} CanonicalAllSurvive(headers: seq<HeaderEntry>)
    requires forall i | 0 <= i < |headers| :: Canonical(headers[i])
    ensures ParseHeaders(HeaderLines(headers)) == Ok(headers)
    decreases |headers|
  {
    hide ParseHeader;
    if headers != [] {
      CanonicalSurvives(headers[0]);
      CanonicalAllSurvive(headers[1..]);
      var line := headers[0].key + ": " + headers[0].value;
      assert HeaderLines(headers)[0] == line && HeaderLines(headers)[1..] == HeaderLines(headers[1..]);
      assert headers == [headers[0]] + headers[1..];
    }
  }

  lemma {:induction false} HeaderLinesConcat(s: seq<HeaderEntry>, t: seq<HeaderEntry>)
    ensures HeaderLines(s + t) == HeaderLines(s) + HeaderLines(t)
  {
    if s == [] {
      assert s + t == t;
    } else {
      assert (s + t)[1..] == s[1..] + t;
      HeaderLinesConcat(s[1..], t);
    }
  }

  /** What a second import makes of the cookie header. */
  function TrimmedCookieHeader(r: Request): seq<HeaderEntry> {
    if PairLines(r.cookies) == [] then []
    else [HeaderEntry("cookie", Trim(Last(PairLines(r.cookies)).value), true)]
  }

  lemma NormalHeadersAgain(id: nat, r: Request, p: Printers)
    requires p.Valid() && Exportable(r)
    ensures ParseHeaders(AllHeaderLines(Normal(id, r, p))) == Ok(OwnHeaders(r) + TrimmedCookieHeader(r))
  {
    HeadersAreRead(r);
    NormalFields(id, r, p);
    hide ParseHeader, HeaderLines, PairLines, Last, OwnHeaders, NamesAreThere, Normal, CookieHeader,
         TrimmedCookieHeader;
    var first := OwnHeaders(r);
    var cookie := CookieHeader(r);
    NoExtraLines(id, r, p);
    assert AllHeaderLines(Normal(id, r, p)) == HeaderLines(first + cookie);
    ParsedAreCanonical(AllHeaderLines(r));
    CanonicalAllSurvive(first);
    HeaderLinesConcat(first, cookie);
    ParseHeadersConcat(HeaderLines(first), HeaderLines(cookie));
    CookieAgain(r);
  }

  lemma OneHeader(line: string)
    requires ParseHeader(line).Ok?
    ensures ParseHeaders([line]) == Ok([ParseHeader(line).value])
  {
    hide ParseHeader;
    assert [line][1..] == [] && ParseHeaders([]) == Ok([]);
    assert [ParseHeader(line).value] + [] == [ParseHeader(line).value];
  }

  lemma CookieAgain(r: Request)
    ensures ParseHeaders(HeaderLines(CookieHeader(r))) == Ok(TrimmedCookieHeader(r))
  {
    hide ParseHeader, PairLines, Last;
    if PairLines(r.cookies) != [] {
      var h := CookieHeader(r)[0];
      assert Trimmed(h.key);
      TrimOfTrimmed(h.key);
      HeaderSurvives(h);
      assert CookieHeader(r)[1..] == [];
      var line := h.key + ": " + h.value;
      assert HeaderLines(CookieHeader(r)) == [line] by { assert HeaderLines([]) == []; }
      OneHeader(line);
    }
  }

  /** The normal form needs no content type of its own, and no header for authentication. */
  lemma NoExtraLines(id: nat, r: Request, p: Printers)
    requires p.Valid() && Exportable(r)
    ensures ContentTypeLines(Normal(id, r, p)) == [] && AuthHeaderLines(Normal(id, r, p).auth) == []
  {
    hide *;
    NormalFields(id, r, p);
    NormalHeadersEnabled(r, p);
    if Normal(id, r, p).body.JsonBody? {
      JsonHasContentType(NormalHeaders(r));
    }
    NoLines(Normal(id, r, p));
  }

  lemma NoLines(n: Request)
    requires n.auth.NoAuth? || n.auth.Basic? || n.auth.Digest?
    requires n.body.NoBody? || n.body.Raw? || (n.body.JsonBody? && HasHeader(n.headers, "content-type"))
    ensures ContentTypeLines(n) == [] && AuthHeaderLines(n.auth) == []
  {
    hide HasHeader;
  }

  lemma NormalFields(id: nat, r: Request, p: Printers)
    requires Exportable(r)
    ensures var n := Normal(id, r, p);
      && n.headers == NormalHeaders(r) && n.url == ExportedUrl(r, p) && n.query == [] && n.cookies == []
      && n.method_ == r.method_ && n.auth == NormalAuth(r.auth)
      && (n.auth.NoAuth? || n.auth.Basic? || n.auth.Digest?)
      && (n.body.NoBody? || n.body.Raw? || (n.body.JsonBody? && SaysJson(NormalHeaders(r))))
  {
    hide PairLines, SaysJson, NormalHeaders, ExportedUrl, Join, SplitOnce, GraphqlPayload;
  }

  lemma NormalHeadersEnabled(r: Request, p: Printers)
    requires Exportable(r)
    ensures forall i | 0 <= i < |NormalHeaders(r)| :: NormalHeaders(r)[i].enabled
  {
    HeadersAreRead(r);
    hide ParseHeaders, AllHeaderLines, PairLines, Last, Canonical, OwnHeaders, NamesAreThere;
    var parsed := OwnHeaders(r);
    ParsedAreCanonical(AllHeaderLines(r));
    forall i | 0 <= i < |parsed| ensures parsed[i].enabled {
      CanonicalIsEnabled(parsed[i]);
    }
  }

  lemma CanonicalIsEnabled(h: HeaderEntry)
    requires Canonical(h)
    ensures h.enabled
  {
  }

  lemma JsonHasContentType(headers: seq<HeaderEntry>)
    requires SaysJson(headers) && forall i | 0 <= i < |headers| :: headers[i].enabled
    ensures HasHeader(headers, "content-type")
  {
    hide SameHeader, Contains;
  }

  lemma NormalAuthTwice(auth: Auth)
    ensures NormalAuth(NormalAuth(auth)) == NormalAuth(auth)
  {
    if auth.Basic? || auth.Digest? {
      var text := auth.username + ":" + auth.password;
      assert text[|auth.username|] == ':';
      var (u, w) := SplitOnce(text, ':').value;
      SplitOnceAt(u, ':', w);
    }
  }

  lemma CookieIsNotContentType()
    ensures !SameHeader("cookie", "content-type")
  {
    hide ToLowerAscii;
    assert |ToLowerAscii("cookie")| == 6 && |ToLowerAscii("content-type")| == 12;
  }

  lemma SaysJsonIgnoresCookie(headers: seq<HeaderEntry>, value: string)
    ensures SaysJson(headers + [HeaderEntry("cookie", value, true)]) <==> SaysJson(headers)
  {
    hide Contains, SameHeader;
    var all := headers + [HeaderEntry("cookie", value, true)];
    assert !SameHeader("cookie", "content-type") by { CookieIsNotContentType(); }
    if SaysJson(all) {
      var i :| 0 <= i < |all| && SameHeader(all[i].key, "content-type") && Contains(all[i].value, "json");
      assert headers[i] == all[i];
    }
    if SaysJson(headers) {
      var i :| 0 <= i < |headers| && SameHeader(headers[i].key, "content-type") && Contains(headers[i].value, "json");
      assert all[i] == headers[i];
    }
  }

  lemma BodyAgain(id: nat, r: Request, p: Printers, headers: seq<HeaderEntry>)
    requires p.Valid() && Exportable(r) && (SaysJson(headers) <==> SaysJson(NormalHeaders(r)))
    ensures var body := Normal(id, r, p).body; var texts := BodyValues(body, p);
      (if texts == [] then NoBody else ImportedBody(headers, Join(texts, "&"), p)) == body
    ensures var body := Normal(id, r, p).body; !(body.Raw? && body.text == "")
  {
    BodyIsRead(r, p);
    hide PairLines, SaysJson, NormalHeaders, NormalBody, NamesAreThere, ExportedUrl, NormalAuth, Addressed;
    var body := Normal(id, r, p).body;
    var texts := BodyValues(r.body, p);
    if texts != [] {
      JoinIsNonEmpty(texts) by { BodyValuesNonEmpty(r.body, p); }
      assert BodyValues(body, p) == [if body.JsonBody? then p.json.show(body.value) else body.text];
    }
  }

  lemma BodyValuesNonEmpty(body: RequestBody, p: Printers)
    requires p.Valid() && !(body.Raw? && body.text == "")
    ensures NonEmpty(BodyValues(body, p))
  {
    if body.FormUrlEncoded? {
      PairLinesNonEmpty(body.fields);
    }
  }

  lemma JoinIsNonEmpty(texts: seq<string>)
    requires texts != [] && NonEmpty(texts)
    ensures Join(texts, "&") != ""
  {
  }

  lemma UrlAgain(id: nat, r: Request, p: Printers)
    requires p.Valid() && Exportable(r)
    ensures ExportedUrl(Normal(id, r, p), p) == ExportedUrl(r, p)
  {
    NormalFields(id, r, p);
    NothingAppended(ExportedUrl(r, p), p);
    hide Normal, AppendQuery, NormalAuth;
    var n := Normal(id, r, p);
    assert ExportedUrl(n, p) == WithQueryKey(AppendQuery(n.url, n.query, p), n.auth, p);
  }

  lemma NothingAppended(url: string, p: Printers)
    requires p.Valid()
    ensures AppendQuery(url, [], p) == url
  {
  }

  /**
   * Main result: the normal form can be exported again, and is its own normal form up to the identifier
   * exactly when the last enabled cookie, if any, has no white space around it.
   */
  lemma SecondRoundTripIsIdentity(id: nat, again: nat, r: Request, p: Printers)
    requires p.Valid() && Exportable(r)
    ensures Exportable(Normal(id, r, p))
    ensures Normal(again, Normal(id, r, p), p) == Normal(again, r, p)
       <==> (PairLines(r.cookies) == [] || Trimmed(Last(PairLines(r.cookies)).value))
  {
    var n := Normal(id, r, p);
    UrlStaysAddressed(r, p);
    NormalHeadersAgain(id, r, p);
    UrlAgain(id, r, p);
    NormalAuthTwice(r.auth);
    var first := OwnHeaders(r);
    JsonStays(first, r);
    BodyAgain(id, r, p, first + TrimmedCookieHeader(r));
    HeadersAreRead(n);
    BodyIsRead(n, p);
    NormalFields(id, r, p);
    hide AllHeaderLines, ParseHeaders, PairLines, ImportedBody, BodyValues, ExportedUrl, NormalAuth, SaysJson, Join,
         Trim, NormalBody, OwnHeaders, NamesAreThere;
    assert NormalHeaders(n) == first + TrimmedCookieHeader(r) by { NoCookies(n); }
    TrimmedCookieDiffers(r, first);
  }

  /** A cookie whose value ends with a space comes back with it once, and without it the second time. */
  lemma CookieLosesItsSpace(id: nat, again: nat, r: Request, p: Printers, key: string, value: string)
    requires p.Valid() && Exportable(r) && r.cookies == [KeyValue(key, value + " ", true)]
    ensures Normal(again, Normal(id, r, p), p) != Normal(again, r, p)
  {
    hide *;
    SecondRoundTripIsIdentity(id, again, r, p);
    var line := key + "=" + (value + " ");
    assert PairLines(r.cookies) == [line] && Last([line]) == Some(line) by { OneCookie(r.cookies); }
    assert !Trimmed(line) by { EndsWithSpace(key + "=" + value, line); }
  }

  lemma OneCookie(cookies: seq<KeyValue>)
    requires |cookies| == 1 && cookies[0].enabled
    ensures var line := cookies[0].key + "=" + cookies[0].value;
      PairLines(cookies) == [line] && Last([line]) == Some(line)
  {
    assert PairLines(cookies[1..]) == [];
  }

  lemma EndsWithSpace(start: string, line: string)
    requires line == start + " "
    ensures !Trimmed(line)
  {
  }

  lemma NoCookies(n: Request)
    requires n.cookies == []
    ensures NormalHeaders(n) == OwnHeaders(n)
  {
    hide OwnHeaders;
    assert OwnHeaders(n) + [] == OwnHeaders(n);
  }

  lemma JsonStays(first: seq<HeaderEntry>, r: Request)
    requires first == OwnHeaders(r)
    ensures SaysJson(first + TrimmedCookieHeader(r)) <==> SaysJson(NormalHeaders(r))
  {
    hide OwnHeaders, PairLines, Trim, SaysJson;
    if PairLines(r.cookies) != [] {
      SaysJsonIgnoresCookie(first, Last(PairLines(r.cookies)).value);
      SaysJsonIgnoresCookie(first, Trim(Last(PairLines(r.cookies)).value));
    }
  }

  lemma TrimmedCookieDiffers(r: Request, first: seq<HeaderEntry>)
    ensures first + TrimmedCookieHeader(r) == first + CookieHeader(r)
       <==> (PairLines(r.cookies) == [] || Trimmed(Last(PairLines(r.cookies)).value))
  {
    hide PairLines;
    if PairLines(r.cookies) != [] {
      var line := Last(PairLines(r.cookies)).value;
      TrimIsPart(line);
      if Trimmed(line) {
        TrimOfTrimmed(line);
      }
      hide Trim;
      assert (first + TrimmedCookieHeader(r))[|first|].value == Trim(line);
      assert (first + CookieHeader(r))[|first|].value == line;
    }
  }

  // ----- Requests whose headers survive as written -----

  function EnabledHeaders(headers: seq<HeaderEntry>): seq<HeaderEntry> {
    if headers == [] then [] else (if headers[0].enabled then [headers[0]] else []) + EnabledHeaders(headers[1..])
  }

  lemma CanonicalIsReadBack(h: HeaderEntry)
    requires Canonical(h)
    ensures !Blank(NameOf(h.key)) && ReadBack(h.key, h.value) == h
  {
    TrimOfTrimmed(h.key);
    TrimOfTrimmed(h.value);
  }

  lemma {:induction false} CanonicalAreReadBack(headers: seq<HeaderEntry>)
    requires forall i | 0 <= i < |headers| :: headers[i].enabled ==> Canonical(headers[i])
    ensures NamesAreThere(headers, NoAuth) && ReadBackAll(headers) == EnabledHeaders(headers)
    decreases |headers|
  {
    hide Canonical, NameOf, ReadBack, Blank;
    if headers != [] {
      CanonicalAreReadBack(headers[1..]);
      assert forall i | 0 < i < |headers| :: headers[i] == headers[1..][i - 1];
      if headers[0].enabled {
        CanonicalIsReadBack(headers[0]);
      }
    }
  }

  /** The header that authentication adds, written as the user wrote it. */
  function WrittenAuthHeader(auth: Auth): seq<HeaderEntry> {
    match auth
    case Bearer(token) => [HeaderEntry("Authorization", "Bearer " + token, true)]
    case ApiKey(key, value, Header) => [HeaderEntry(key, value, true)]
    case _ => []
  }

  lemma BearerIsTrimmed(token: string)
    requires token != "" && Trimmed(token)
    ensures Trim("Bearer " + token) == "Bearer " + token
  {
    hide Trim;
    var text := "Bearer " + token;
    assert text[0] == 'B' && text[|text| - 1] == token[|token| - 1];
    TrimOfTrimmed(text);
  }

  lemma AuthIsReadBack(auth: Auth)
    requires auth.Bearer? ==> auth.token != "" && Trimmed(auth.token)
    requires auth.ApiKey? && auth.location == Header ==> Canonical(HeaderEntry(auth.key, auth.value, true))
    ensures NamesAreThere([], auth) && AuthHeader(auth) == WrittenAuthHeader(auth)
  {
    hide Trim, NameOf, ReadBack, Blank, Canonical;
    match auth {
      case Bearer(token) => BearerIsTrimmed(token);
      case ApiKey(key, value, Header) => CanonicalIsReadBack(HeaderEntry(key, value, true));
      case _ =>
    }
  }

  /**
   * Main result: when names and values are trimmed and names have no colon, the enabled headers come back as they
   * are, in order, followed by the content type that the body asks for when there is none, the token or key as a
   * header, and the last enabled cookie.
   */
  lemma TrimmedHeadersComeBack(id: nat, r: Request, p: Printers)
    requires Addressed(r) && !(r.body.Raw? && r.body.text == "")
    requires forall i | 0 <= i < |r.headers| :: r.headers[i].enabled ==> Canonical(r.headers[i])
    requires r.auth.Bearer? ==> r.auth.token != "" && Trimmed(r.auth.token)
    requires r.auth.ApiKey? && r.auth.location == Header ==> Canonical(HeaderEntry(r.auth.key, r.auth.value, true))
    ensures Exportable(r)
    ensures Normal(id, r, p).headers
         == EnabledHeaders(r.headers) + TypeHeader(r) + WrittenAuthHeader(r.auth) + CookieHeader(r)
  {
    hide TypeHeader, WrittenAuthHeader, AuthHeader, CookieHeader, Canonical, NameOf, Blank, ReadBackAll, EnabledHeaders,
         NormalBody, ExportedUrl, NormalAuth;
    CanonicalAreReadBack(r.headers);
    AuthIsReadBack(r.auth);
  }

  /** Main result: JSON comes back as it is, unless the request says with a content type of its own what it is. */
  lemma JsonComesBack(id: nat, r: Request, p: Printers)
    requires r.body.JsonBody? && !HasHeader(r.headers, "content-type")
    ensures Normal(id, r, p).body == r.body
  {
    hide HasHeader, SaysJson, ReadBackAll, AuthHeader, CookieHeader, ExportedUrl, NormalAuth;
    SaysJsonByType(ReadBackAll(r.headers), AuthHeader(r.auth) + CookieHeader(r));
    var h := HeaderEntry("Content-Type", "application/json", true);
    assert TypeHeader(r) == [h];
    assert NormalHeaders(r) == ReadBackAll(r.headers) + [h] + (AuthHeader(r.auth) + CookieHeader(r));
  }

  lemma SaysJsonByType(before: seq<HeaderEntry>, after: seq<HeaderEntry>)
    ensures SaysJson(before + [HeaderEntry("Content-Type", "application/json", true)] + after)
  {
    hide ToLowerAscii, Find;
    var h := HeaderEntry("Content-Type", "application/json", true);
    var all := before + [h] + after;
    LowerContentType();
    assert Contains(h.value, "json") by {
      assert h.value == "application/" + ("json" + "");
      FindSkips("application/", "json" + "", "json");
      FindAtOnce("json", "");
    }
    assert all[|before|] == h;
  }

  lemma LowerContentType()
    ensures ToLowerAscii("Content-Type") == ToLowerAscii("content-type")
  {
    hide ToLowerAscii;
    LowerStep('T', 't', "ype", "ype");
    assert "Type" == "T" + "ype" && "type" == "t" + "ype";
    LowerSame("ontent-", "Type", "type");
    assert "ontent-Type" == "ontent-" + "Type" && "ontent-type" == "ontent-" + "type";
    LowerStep('C', 'c', "ontent-Type", "ontent-type");
    assert "Content-Type" == "C" + "ontent-Type" && "content-type" == "c" + "ontent-type";
  }

  lemma LowerStep(a: char, b: char, s: string, t: string)
    requires 'A' <= a <= 'Z' && b == a - 'A' + 'a' && ToLowerAscii(s) == ToLowerAscii(t)
    ensures ToLowerAscii([a] + s) == ToLowerAscii([b] + t)
  {
    assert ([a] + s)[1..] == s && ([b] + t)[1..] == t;
  }

  lemma {:induction false} LowerSame(same: string, s: string, t: string)
    requires ToLowerAscii(s) == ToLowerAscii(t)
    ensures ToLowerAscii(same + s) == ToLowerAscii(same + t)
  {
    if same == "" {
      assert same + s == s && same + t == t;
    } else {
      assert (same + s)[1..] == same[1..] + s && (same + t)[1..] == same[1..] + t;
      LowerSame(same[1..], s, t);
    }
  }
}
