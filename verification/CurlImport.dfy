/** Reading a cURL command line. */
module CurlImport {
  import opened Wrappers
  import opened Text
  import opened Json
  import opened RequestModel
  import opened ShellWords
  import opened Curl

  datatype CurlError =
    | MissingCurl
    | MissingOptionValue(option: string)
    | InvalidHeader(text: string)
    | InvalidBasicAuth
    | MissingUrl
    | UnsupportedOption(option: string)

  datatype ImportWarning =
    | ReviewInsecure
    | HandledByEngine(token: string)
    | ReviewUrlEncoding
    | ReviewMultipart
    | IgnoredToken(token: string)

  /** The variables of the option loop. */
  datatype Parse = Parse(
    method_: Option<string>,
    url: Option<string>,
    headers: seq<HeaderEntry>,
    bodyValues: seq<string>,
    auth: Auth,
    cookies: Option<string>,
    warnings: seq<ImportWarning>,
    getMode: bool,
    digestMode: bool)

  const START := Parse(None, None, [], [], NoAuth, None, [], false, false)

  function ParseHeader(line: string): Result<HeaderEntry, CurlError> {
    match SplitOnce(line, ':')
    case None => Err(InvalidHeader(line))
    case Some((key, value)) =>
      if Trim(key) == "" then Err(InvalidHeader(value)) else Ok(HeaderEntry(Trim(key), Trim(value), true))
  }

  function StripPrefix(token: string, prefix: string): Option<string> {
    if prefix <= token then Some(token[|prefix|..]) else None
  }

  /** `--long=value` or `-s=value`. */
  function InlineOption(token: string, long: string, short: string): Option<string> {
    match StripPrefix(token, long + "=")
    case Some(value) => Some(value)
    case None => StripPrefix(token, short + "=")
  }

  function InlineData(token: string): Option<string> {
    match InlineOption(token, "--data", "-d")
    case Some(value) => Some(value)
    case None =>
      match InlineOption(token, "--data-raw", "--data-raw")
      case Some(value) => Some(value)
      case None => InlineOption(token, "--data-binary", "--data-binary")
  }

  predicate NeedsValue(token: string) {
    token in ["-X", "--request", "-H", "--header", "-d", "--data", "--data-raw", "--data-binary",
              "--data-urlencode", "-u", "--user", "-b", "--cookie", "-A", "--user-agent", "-e",
              "--referer", "-F", "--form"]
  }

  /** An option and the value after it. */
  function TakeValue(st: Parse, option: string, value: string): Result<Parse, CurlError>
    requires NeedsValue(option)
  {
    if option in ["-X", "--request"] then Ok(st.(method_ := Some(value)))
    else if option in ["-H", "--header"] then
      match ParseHeader(value)
      case Err(e) => Err(e)
      case Ok(header) => Ok(st.(headers := st.headers + [header]))
    else if option in ["-d", "--data", "--data-raw", "--data-binary"] then
      Ok(st.(bodyValues := st.bodyValues + [value]))
    else if option == "--data-urlencode" then
      Ok(st.(bodyValues := st.bodyValues + [value], warnings := st.warnings + [ReviewUrlEncoding]))
    else if option in ["-u", "--user"] then
      match SplitOnce(value, ':')
      case None => Err(InvalidBasicAuth)
      case Some((username, password)) => Ok(st.(auth := Basic(username, password)))
    else if option in ["-b", "--cookie"] then Ok(st.(cookies := Some(value)))
    else if option in ["-A", "--user-agent"] then
      Ok(st.(headers := st.headers + [HeaderEntry("user-agent", value, true)]))
    else if option in ["-e", "--referer"] then
      Ok(st.(headers := st.headers + [HeaderEntry("referer", value, true)]))
    else Ok(st.(warnings := st.warnings + [ReviewMultipart]))
  }

  /** What one pass through the loop does: the new variables and how many tokens it used. */
  datatype Pass = Pass(st: Parse, used: nat)

  function Take(tokens: seq<string>, st: Parse): (r: Result<Pass, CurlError>)
    requires tokens != []
    ensures r.Ok? ==> 0 < r.value.used <= |tokens|
  {
    var token := tokens[0];
    if token == "--" then
      Ok(Pass(if |tokens| > 1 then st.(url := Some(tokens[1])) else st, |tokens|))
    else if token == "-G" || token == "--get" then Ok(Pass(st.(getMode := true), 1))
    else if token == "--digest" then Ok(Pass(st.(digestMode := true), 1))
    else if token == "-k" || token == "--insecure" then Ok(Pass(st.(warnings := st.warnings + [ReviewInsecure]), 1))
    else if token == "-L" || token == "--location" || token == "--compressed" then
      Ok(Pass(st.(warnings := st.warnings + [HandledByEngine(token)]), 1))
    else if InlineOption(token, "--request", "-X").Some? then
      Ok(Pass(st.(method_ := InlineOption(token, "--request", "-X")), 1))
    else if InlineOption(token, "--header", "-H").Some? then
      match ParseHeader(InlineOption(token, "--header", "-H").value)
      case Err(e) => Err(e)
      case Ok(header) => Ok(Pass(st.(headers := st.headers + [header]), 1))
    else if InlineData(token).Some? then
      Ok(Pass(st.(bodyValues := st.bodyValues + [InlineData(token).value]), 1))
    else if InlineOption(token, "--url", "--url").Some? then
      Ok(Pass(st.(url := InlineOption(token, "--url", "--url")), 1))
    else if NeedsValue(token) then
      if |tokens| == 1 then Err(MissingOptionValue(token))
      else
        match TakeValue(st, token, tokens[1])
        case Err(e) => Err(e)
        case Ok(next) => Ok(Pass(next, 2))
    else if token != "" && token[0] == '-' then Err(UnsupportedOption(token))
    else if st.url.None? then Ok(Pass(st.(url := Some(token)), 1))
    else Ok(Pass(st.(warnings := st.warnings + [IgnoredToken(token)]), 1))
  }

  function TakeAll(tokens: seq<string>, st: Parse): Result<Parse, CurlError>
    decreases |tokens|
  {
    if tokens == [] then Ok(st)
    else
      match Take(tokens, st)
      case Err(e) => Err(e)
      case Ok(pass) => TakeAll(tokens[pass.used..], pass.st)
  }

  predicate SaysJson(headers: seq<HeaderEntry>) {
    exists i | 0 <= i < |headers| ::
      SameHeader(headers[i].key, "content-type") && Contains(headers[i].value, "json")
  }

  /** How body text is read, given the headers. */
  function ImportedBody(headers: seq<HeaderEntry>, text: string, p: Printers): RequestBody {
    if SaysJson(headers) then
      match p.json.parse(text)
      case Some(value) => JsonBody(value)
      case None => Raw(text, Some("application/json"))
    else Raw(text, None)
  }

  /** The request made of the collected parts. */
  function Build(id: nat, st: Parse, p: Printers): Result<(Request, seq<ImportWarning>), CurlError> {
    if st.url.None? then Err(MissingUrl)
    else
      var auth := if st.digestMode && st.auth.Basic? then Digest(st.auth.username, st.auth.password) else st.auth;
      var method_ :=
        if st.method_.Some? then st.method_.value
        else if st.bodyValues == [] && !st.getMode then "GET" else "POST";
      var headers :=
        st.headers + (if st.cookies.Some? then [HeaderEntry("cookie", st.cookies.value, true)] else []);
      var request := NewRequest(id, "Imported cURL request", method_, st.url.value).(headers := headers, auth := auth);
      if st.bodyValues == [] then Ok((request, st.warnings))
      else
        var text := Join(st.bodyValues, "&");
        if st.getMode then
          var separator := if '?' in request.url then "&" else "?";
          Ok((request.(method_ := "GET", url := request.url + separator + text), st.warnings))
        else Ok((request.(body := ImportedBody(headers, text, p)), st.warnings))
  }

  function ParseWords(id: nat, tokens: seq<string>, p: Printers): Result<(Request, seq<ImportWarning>), CurlError> {
    if tokens == [] || tokens[0] != "curl" then Err(MissingCurl)
    else
      match TakeAll(tokens[1..], START)
      case Err(e) => Err(e)
      case Ok(st) => Build(id, st, p)
  }

  function ParseCommand(id: nat, command: string, p: Printers): Result<(Request, seq<ImportWarning>), CurlError> {
    match WordsOf(command)
    case Err(quote) => Err(InvalidHeader("unclosed quote " + [quote]))
    case Ok(tokens) => ParseWords(id, tokens, p)
  }

  method ParseCurlCommand(id: nat, command: string, p: Printers)
    returns (r: Result<(Request, seq<ImportWarning>), CurlError>)
    ensures r == ParseCommand(id, command, p)
  {
    hide Take, Build;
    var split := SplitWords(command);
    if split.Err? {
      return Err(InvalidHeader("unclosed quote " + [split.error]));
    }
    var tokens := split.value;
    if tokens == [] || tokens[0] != "curl" {
      return Err(MissingCurl);
    }
    var st, index := START, 1;
    while index < |tokens|
      invariant 1 <= index <= |tokens|
      invariant TakeAll(tokens[1..], START) == TakeAll(tokens[index..], st)
    {
      var taken := Take(tokens[index..], st);
      if taken.Err? {
        return Err(taken.error);
      }
      assert tokens[index..][taken.value.used..] == tokens[index + taken.value.used..];
      st, index := taken.value.st, index + taken.value.used;
    }
    return Build(id, st, p);
  }
}
