/** Commands as a user pastes them: every spelling of every option, and every list of words. */
module CurlCommands {
  import opened Wrappers
  import opened Text
  import opened Json
  import opened RequestModel
  import opened ShellWords
  import opened Curl
  import opened CurlImport
  import ShellLines

  /** What a part of a command line means. */
  datatype Item =
    | SetMethod(value: string)
    | AddHeader(value: string)
    | AddData(value: string)
    | AddEncoded(value: string)
    | SetUser(value: string)
    | SetCookie(value: string)
    | SetAgent(value: string)
    | SetReferer(value: string)
    | AddForm(value: string)
    | SetUrl(value: string)
    | UseGet
    | UseDigest
    | AllowInsecure
    | Mention(option: string)
    | Plain(word: string)

  /** The ways to write it. */
  predicate Spells(item: Item, words: seq<string>) {
    match item
    case SetMethod(v) => words in [["-X", v], ["--request", v], ["-X=" + v], ["--request=" + v]]
    case AddHeader(v) => words in [["-H", v], ["--header", v], ["-H=" + v], ["--header=" + v]]
    case AddData(v) =>
      words in [["-d", v], ["--data", v], ["--data-raw", v], ["--data-binary", v],
                ["-d=" + v], ["--data=" + v], ["--data-raw=" + v], ["--data-binary=" + v]]
    case AddEncoded(v) => words == ["--data-urlencode", v]
    case SetUser(v) => words in [["-u", v], ["--user", v]]
    case SetCookie(v) => words in [["-b", v], ["--cookie", v]]
    case SetAgent(v) => words in [["-A", v], ["--user-agent", v]]
    case SetReferer(v) => words in [["-e", v], ["--referer", v]]
    case AddForm(v) => words in [["-F", v], ["--form", v]]
    case SetUrl(v) => words == ["--url=" + v]
    case UseGet => words in [["-G"], ["--get"]]
    case UseDigest => words == ["--digest"]
    case AllowInsecure => words in [["-k"], ["--insecure"]]
    case Mention(option) => words == [option] && option in ["-L", "--location", "--compressed"]
    case Plain(word) => words == [word] && (word == "" || word[0] != '-')
  }

  /** How a command line ends: nothing more, `--`, an option without its value, or a word that is no option here. */
  datatype Ending =
    | Nothing
    | DashDash(more: seq<string>)
    | NoValue(option: string)
    | Unknown(word: string, more: seq<string>)

  predicate TakesAValue(word: string) {
    word in ["-X", "--request", "-H", "--header", "-d", "--data", "--data-raw", "--data-binary", "--data-urlencode",
             "-u", "--user", "-b", "--cookie", "-A", "--user-agent", "-e", "--referer", "-F", "--form"]
  }

  predicate IsKnown(word: string) {
    TakesAValue(word)
    || word in ["--", "-G", "--get", "--digest", "-k", "--insecure", "-L", "--location", "--compressed"]
    || "-X=" <= word || "--request=" <= word || "-H=" <= word || "--header=" <= word || "-d=" <= word
    || "--data=" <= word || "--data-raw=" <= word || "--data-binary=" <= word || "--url=" <= word
  }

  predicate Fits(ending: Ending) {
    match ending
    case Nothing => true
    case DashDash(_) => true
    case NoValue(option) => TakesAValue(option)
    case Unknown(word, _) => word != "" && word[0] == '-' && !IsKnown(word)
  }

  function WordsAfter(ending: Ending): seq<string> {
    match ending
    case Nothing => []
    case DashDash(more) => ["--"] + more
    case NoValue(option) => [option]
    case Unknown(word, more) => [word] + more
  }

  function Together(spellings: seq<seq<string>>): seq<string> {
    if spellings == [] then [] else spellings[0] + Together(spellings[1..])
  }

  // ----- What all items mean together -----

  function Init(items: seq<Item>): seq<Item>
    requires items != []
  {
    items[..|items| - 1]
  }

  function Final(items: seq<Item>): Item
    requires items != []
  {
    items[|items| - 1]
  }

  /** The last method, cookie and user. */
  function MethodOf(items: seq<Item>): Option<string> {
    if items == [] then None else if Final(items).SetMethod? then Some(Final(items).value) else MethodOf(Init(items))
  }

  function CookieOf(items: seq<Item>): Option<string> {
    if items == [] then None else if Final(items).SetCookie? then Some(Final(items).value) else CookieOf(Init(items))
  }

  function UserOf(items: seq<Item>): Option<string> {
    if items == [] then None else if Final(items).SetUser? then Some(Final(items).value) else UserOf(Init(items))
  }

  /** All data in order. */
  function DataOf(items: seq<Item>): seq<string> {
    if items == [] then []
    else DataOf(Init(items)) + if Final(items).AddData? || Final(items).AddEncoded? then [Final(items).value] else []
  }

  /** The last `--url`, or else the first plain word. */
  function UrlOf(items: seq<Item>): Option<string> {
    if items == [] then None
    else if Final(items).SetUrl? then Some(Final(items).value)
    else if Final(items).Plain? && UrlOf(Init(items)).None? then Some(Final(items).word)
    else UrlOf(Init(items))
  }

  predicate HeaderIsGood(line: string) {
    SplitOnce(line, ':').Some? && !Blank(SplitOnce(line, ':').value.0)
  }

  /** All headers in order; a header without a name is not one. */
  function HeadersOf(items: seq<Item>): seq<HeaderEntry> {
    if items == [] then []
    else
      HeadersOf(Init(items))
      + match Final(items)
        case AddHeader(line) =>
          if !HeaderIsGood(line) then []
          else
            [HeaderEntry(Trim(SplitOnce(line, ':').value.0), Trim(SplitOnce(line, ':').value.1), true)]
        case SetAgent(value) => [HeaderEntry("user-agent", value, true)]
        case SetReferer(value) => [HeaderEntry("referer", value, true)]
        case _ => []
  }

  function WarningsOf(items: seq<Item>): seq<ImportWarning> {
    if items == [] then []
    else
      WarningsOf(Init(items))
      + match Final(items)
        case AddEncoded(_) => [ReviewUrlEncoding]
        case AddForm(_) => [ReviewMultipart]
        case AllowInsecure => [ReviewInsecure]
        case Mention(option) => [HandledByEngine(option)]
        case Plain(word) => if UrlOf(Init(items)).Some? then [IgnoredToken(word)] else []
        case _ => []
  }

  /** What is wrong with an item. */
  function ErrorOf(item: Item): Option<CurlError> {
    match item
    case AddHeader(line) =>
      if HeaderIsGood(line) then None
      else if SplitOnce(line, ':').None? then Some(InvalidHeader(line))
      else Some(InvalidHeader(SplitOnce(line, ':').value.1))
    case SetUser(value) => if ':' in value then None else Some(InvalidBasicAuth)
    case _ => None
  }

  function FirstError(items: seq<Item>): Option<CurlError> {
    if items == [] then None
    else if ErrorOf(items[0]).Some? then ErrorOf(items[0])
    else FirstError(items[1..])
  }

  function AuthOf(user: Option<string>): Auth {
    if user.None? || SplitOnce(user.value, ':').None? then NoAuth
    else Basic(SplitOnce(user.value, ':').value.0, SplitOnce(user.value, ':').value.1)
  }

  /** The variables of the loop after these items. */
  function StateOf(items: seq<Item>): Parse {
    Parse(MethodOf(items), UrlOf(items), HeadersOf(items), DataOf(items), AuthOf(UserOf(items)), CookieOf(items),
          WarningsOf(items), UseGet in items, UseDigest in items)
  }

  // ----- One item -----

  lemma OneMore(items: seq<Item>, item: Item)
    ensures Init(items + [item]) == items && Final(items + [item]) == item
    ensures UseGet in items + [item] <==> UseGet in items || item == UseGet
    ensures UseDigest in items + [item] <==> UseDigest in items || item == UseDigest
  {
    assert (items + [item])[|items|] == item;
  }

  lemma StateGrows(items: seq<Item>, item: Item)
    ensures var st, next := StateOf(items), StateOf(items + [item]);
      next.method_ == (if item.SetMethod? then Some(item.value) else st.method_)
      && next.cookies == (if item.SetCookie? then Some(item.value) else st.cookies)
      && next.auth == (if item.SetUser? then AuthOf(Some(item.value)) else st.auth)
      && next.bodyValues == (if item.AddData? || item.AddEncoded? then st.bodyValues + [item.value] else st.bodyValues)
      && next.url == (if item.SetUrl? then Some(item.value)
                      else if item.Plain? && st.url.None? then Some(item.word) else st.url)
      && next.getMode == (st.getMode || item == UseGet) && next.digestMode == (st.digestMode || item == UseDigest)
  {
    OneMore(items, item);
    hide Init, Final, AuthOf, HeadersOf, WarningsOf;
    assert DataOf(items) + [] == DataOf(items);
  }

  lemma ListsGrow(items: seq<Item>, item: Item)
    ensures var st, next := StateOf(items), StateOf(items + [item]);
      next.headers == st.headers
        + (match item
           case AddHeader(line) =>
             if !HeaderIsGood(line) then []
             else [HeaderEntry(Trim(SplitOnce(line, ':').value.0), Trim(SplitOnce(line, ':').value.1), true)]
           case SetAgent(value) => [HeaderEntry("user-agent", value, true)]
           case SetReferer(value) => [HeaderEntry("referer", value, true)]
           case _ => [])
      && next.warnings == st.warnings
        + (match item
           case AddEncoded(_) => [ReviewUrlEncoding]
           case AddForm(_) => [ReviewMultipart]
           case AllowInsecure => [ReviewInsecure]
           case Mention(option) => [HandledByEngine(option)]
           case Plain(word) => if st.url.Some? then [IgnoredToken(word)] else []
           case _ => [])
  {
    OneMore(items, item);
    hide Init, Final, AuthOf, HeaderIsGood, SplitOnce, Trim, UrlOf, DataOf, MethodOf, CookieOf, UserOf;
  }

  // ----- Inline forms -----

  /** The value of an inline form, when the word has this beginning. */
  lemma BeginsWith(start: string, value: string, other: string)
    ensures start <= start + value && (start + value)[|start|..] == value
    ensures other <= start + value ==>
      forall i | 0 <= i < |other| && i < |start| :: other[i] == start[i]
  {
  }

  /** Two beginnings that differ somewhere are not beginnings of the same word. */
  lemma Apart(start: string, value: string, other: string, i: nat)
    requires i < |start| && i < |other| && start[i] != other[i]
    ensures !(other <= start + value)
  {
    assert (start + value)[i] == start[i];
  }

  datatype Inline =
    | InMethod(value: string)
    | InHeader(value: string)
    | InData(value: string)
    | InUrl(value: string)
    | NotInline

  /** How the loop reads a word that has its value in it. */
  function InlineOf(word: string): Inline {
    if InlineOption(word, "--request", "-X").Some? then InMethod(InlineOption(word, "--request", "-X").value)
    else if InlineOption(word, "--header", "-H").Some? then InHeader(InlineOption(word, "--header", "-H").value)
    else if InlineData(word).Some? then InData(InlineData(word).value)
    else if InlineOption(word, "--url", "--url").Some? then InUrl(InlineOption(word, "--url", "--url").value)
    else NotInline
  }

  lemma InlineRequest(value: string)
    ensures InlineOf("--request=" + value) == InMethod(value) && InlineOf("-X=" + value) == InMethod(value)
  {
    assert "--request" + "=" == "--request=" && "-X" + "=" == "-X=";
    Apart("-X=", value, "--request=", 1);
  }

  lemma InlineHeader(value: string)
    ensures InlineOf("--header=" + value) == InHeader(value) && InlineOf("-H=" + value) == InHeader(value)
  {
    assert "--request" + "=" == "--request=" && "-X" + "=" == "-X=";
    assert "--header" + "=" == "--header=" && "-H" + "=" == "-H=";
    Apart("--header=", value, "--request=", 2);
    Apart("--header=", value, "-X=", 1);
    Apart("-H=", value, "--request=", 1);
    Apart("-H=", value, "-X=", 1);
    Apart("-H=", value, "--header=", 1);
  }

  lemma NotRequestNorHeader(start: string, value: string)
    requires start in ["--data=", "-d=", "--data-raw=", "--data-binary=", "--url="]
    ensures InlineOption(start + value, "--request", "-X").None? && InlineOption(start + value, "--header", "-H").None?
  {
    assert "--request" + "=" == "--request=" && "-X" + "=" == "-X=";
    assert "--header" + "=" == "--header=" && "-H" + "=" == "-H=";
    var i := if start == "-d=" then 1 else 2;
    Apart(start, value, "--request=", i);
    Apart(start, value, "--header=", i);
    Apart(start, value, "-X=", 1);
    Apart(start, value, "-H=", 1);
  }

  lemma InlineDataIs(start: string, value: string)
    requires start in ["--data=", "-d=", "--data-raw=", "--data-binary="]
    ensures InlineOf(start + value) == InData(value)
  {
    NotRequestNorHeader(start, value);
    assert "--data" + "=" == "--data=" && "-d" + "=" == "-d=";
    assert "--data-raw" + "=" == "--data-raw=" && "--data-binary" + "=" == "--data-binary=";
    if start == "-d=" {
      Apart(start, value, "--data=", 1);
    } else if start == "--data-raw=" {
      Apart(start, value, "--data=", 6);
      Apart(start, value, "-d=", 1);
    } else if start == "--data-binary=" {
      Apart(start, value, "--data=", 6);
      Apart(start, value, "-d=", 1);
      Apart(start, value, "--data-raw=", 7);
    }
  }

  lemma InlineUrlIs(value: string)
    ensures InlineOf("--url=" + value) == InUrl(value)
  {
    NotRequestNorHeader("--url=", value);
    assert "--data" + "=" == "--data=" && "-d" + "=" == "-d=" && "--url" + "=" == "--url=";
    assert "--data-raw" + "=" == "--data-raw=" && "--data-binary" + "=" == "--data-binary=";
    Apart("--url=", value, "--data=", 2);
    Apart("--url=", value, "-d=", 1);
    Apart("--url=", value, "--data-raw=", 2);
    Apart("--url=", value, "--data-binary=", 2);
  }

  /** Only words with one of these beginnings are inline forms. */
  lemma InlineNeedsBeginning(word: string)
    ensures InlineOf(word) == NotInline
       <==> !("-X=" <= word || "--request=" <= word || "-H=" <= word || "--header=" <= word || "-d=" <= word
              || "--data=" <= word || "--data-raw=" <= word || "--data-binary=" <= word || "--url=" <= word)
  {
    assert "--request" + "=" == "--request=" && "-X" + "=" == "-X=";
    assert "--header" + "=" == "--header=" && "-H" + "=" == "-H=";
    assert "--data" + "=" == "--data=" && "-d" + "=" == "-d=" && "--url" + "=" == "--url=";
    assert "--data-raw" + "=" == "--data-raw=" && "--data-binary" + "=" == "--data-binary=";
  }

  // ----- One pass through the loop -----

  predicate IsFlag(word: string) {
    word in ["--", "-G", "--get", "--digest", "-k", "--insecure", "-L", "--location", "--compressed"]
  }

  /** No flag and no option with a value after it has a value in it. */
  lemma FixedWordsAreNotInline(word: string)
    requires IsFlag(word) || NeedsValue(word)
    ensures InlineOf(word) == NotInline
  {
    InlineNeedsBeginning(word);
    NoEqualsSign(word);
    hide InlineOf, NeedsValue, IsFlag;
    EndsWithEqualsSign("-X=", word, 2);
    EndsWithEqualsSign("--request=", word, 9);
    EndsWithEqualsSign("-H=", word, 2);
    EndsWithEqualsSign("--header=", word, 8);
    EndsWithEqualsSign("-d=", word, 2);
    EndsWithEqualsSign("--data=", word, 6);
    EndsWithEqualsSign("--data-raw=", word, 10);
    EndsWithEqualsSign("--data-binary=", word, 13);
    EndsWithEqualsSign("--url=", word, 5);
  }

  lemma EndsWithEqualsSign(start: string, word: string, i: nat)
    requires i < |start| && start[i] == '='
    ensures start <= word ==> '=' in word
  {
    if start <= word {
      assert word[i] == '=';
    }
  }

  lemma NoEqualsSign(word: string)
    requires IsFlag(word) || NeedsValue(word)
    ensures '=' !in word
  {
  }

  /** What a pass does, by the kind of its first word. */
  lemma PassIs(tokens: seq<string>, st: Parse)
    requires tokens != [] && !IsFlag(tokens[0])
    ensures var word := tokens[0];
      Take(tokens, st)
      == match InlineOf(word)
         case InMethod(value) => Ok(CurlImport.Pass(st.(method_ := Some(value)), 1))
         case InHeader(value) =>
           (match ParseHeader(value)
            case Err(e) => Err(e)
            case Ok(header) => Ok(CurlImport.Pass(st.(headers := st.headers + [header]), 1)))
         case InData(value) => Ok(CurlImport.Pass(st.(bodyValues := st.bodyValues + [value]), 1))
         case InUrl(value) => Ok(CurlImport.Pass(st.(url := Some(value)), 1))
         case NotInline =>
           if NeedsValue(word) then
             if |tokens| == 1 then Err(MissingOptionValue(word))
             else
               match TakeValue(st, word, tokens[1])
               case Err(e) => Err(e)
               case Ok(next) => Ok(CurlImport.Pass(next, 2))
           else if word != "" && word[0] == '-' then Err(UnsupportedOption(word))
           else if st.url.None? then Ok(CurlImport.Pass(st.(url := Some(word)), 1))
           else Ok(CurlImport.Pass(st.(warnings := st.warnings + [IgnoredToken(word)]), 1))
  {
    hide InlineOption, InlineData, ParseHeader, TakeValue, NeedsValue;
  }

  lemma HeaderIs(line: string)
    ensures ParseHeader(line)
         == if ErrorOf(AddHeader(line)).Some? then Err(ErrorOf(AddHeader(line)).value)
            else Ok(HeaderEntry(Trim(SplitOnce(line, ':').value.0), Trim(SplitOnce(line, ':').value.1), true))
  {
    hide Trim;
  }

  /** What an item does to the variables. */
  function After(st: Parse, item: Item): Parse {
    match item
    case SetMethod(v) => st.(method_ := Some(v))
    case AddHeader(line) =>
      if !HeaderIsGood(line) then st
      else
        var header := HeaderEntry(Trim(SplitOnce(line, ':').value.0), Trim(SplitOnce(line, ':').value.1), true);
        st.(headers := st.headers + [header])
    case AddData(v) => st.(bodyValues := st.bodyValues + [v])
    case AddEncoded(v) => st.(bodyValues := st.bodyValues + [v], warnings := st.warnings + [ReviewUrlEncoding])
    case SetUser(v) => st.(auth := AuthOf(Some(v)))
    case SetCookie(v) => st.(cookies := Some(v))
    case SetAgent(v) => st.(headers := st.headers + [HeaderEntry("user-agent", v, true)])
    case SetReferer(v) => st.(headers := st.headers + [HeaderEntry("referer", v, true)])
    case AddForm(v) => st.(warnings := st.warnings + [ReviewMultipart])
    case SetUrl(v) => st.(url := Some(v))
    case UseGet => st.(getMode := true)
    case UseDigest => st.(digestMode := true)
    case AllowInsecure => st.(warnings := st.warnings + [ReviewInsecure])
    case Mention(option) => st.(warnings := st.warnings + [HandledByEngine(option)])
    case Plain(word) =>
      if st.url.None? then st.(url := Some(word)) else st.(warnings := st.warnings + [IgnoredToken(word)])
  }

  lemma AfterIs(items: seq<Item>, item: Item)
    ensures StateOf(items + [item]) == After(StateOf(items), item)
  {
    StateGrows(items, item);
    ListsGrow(items, item);
    hide StateOf, HeaderIsGood, SplitOnce, Trim, AuthOf;
    assert forall h: seq<HeaderEntry> :: h + [] == h;
    assert forall m: seq<ImportWarning> :: m + [] == m;
  }

  /** The item that an option with its value in a word of its own is. */
  function ItemFor(option: string, v: string): Item
    requires TakesAValue(option)
  {
    if option in ["-X", "--request"] then SetMethod(v)
    else if option in ["-H", "--header"] then AddHeader(v)
    else if option in ["-d", "--data", "--data-raw", "--data-binary"] then AddData(v)
    else if option == "--data-urlencode" then AddEncoded(v)
    else if option in ["-u", "--user"] then SetUser(v)
    else if option in ["-b", "--cookie"] then SetCookie(v)
    else if option in ["-A", "--user-agent"] then SetAgent(v)
    else if option in ["-e", "--referer"] then SetReferer(v)
    else AddForm(v)
  }

  lemma TwoWords(item: Item, words: seq<string>)
    requires Spells(item, words) && |words| == 2
    ensures TakesAValue(words[0]) && item == ItemFor(words[0], words[1])
  {
    if item.SetMethod? || item.AddHeader? || item.AddData? || item.AddEncoded? {
      TwoBodyWords(item, words);
    } else {
      assert words == [words[0], words[1]];
    }
  }

  lemma TwoBodyWords(item: Item, words: seq<string>)
    requires Spells(item, words) && |words| == 2
    requires item.SetMethod? || item.AddHeader? || item.AddData? || item.AddEncoded?
    ensures TakesAValue(words[0]) && item == ItemFor(words[0], words[1])
  {
    assert words == [words[0], words[1]];
  }

  lemma TakesValue(option: string, v: string, st: Parse)
    requires TakesAValue(option)
    ensures NeedsValue(option) && !IsFlag(option)
  {
  }

  lemma ValueIs(option: string, v: string, st: Parse)
    requires TakesAValue(option) && NeedsValue(option)
    ensures var item := ItemFor(option, v);
      TakeValue(st, option, v) == if ErrorOf(item).Some? then Err(ErrorOf(item).value) else Ok(After(st, item))
  {
    HeaderIs(v);
    SplitsAtColon(v);
    hide ParseHeader, HeaderIsGood, SplitOnce, Trim, NeedsValue;
  }

  lemma SplitsAtColon(value: string)
    ensures SplitOnce(value, ':').Some? <==> ':' in value
  {
  }

  lemma TakesTwoWords(item: Item, words: seq<string>, rest: seq<string>, st: Parse)
    requires Spells(item, words) && |words| == 2
    ensures Take(words + rest, st)
         == if ErrorOf(item).Some? then Err(ErrorOf(item).value) else Ok(CurlImport.Pass(After(st, item), 2))
  {
    TwoWords(item, words);
    TakesValue(words[0], words[1], st);
    ValueIs(words[0], words[1], st);
    FixedWordsAreNotInline(words[0]);
    hide *;
    var tokens := words + rest;
    assert tokens[0] == words[0] && tokens[1] == words[1];
    PassIs(tokens, st);
  }

  lemma FlagPass(tokens: seq<string>, st: Parse)
    requires tokens != []
    ensures tokens[0] in ["-G", "--get"] ==> Take(tokens, st) == Ok(CurlImport.Pass(After(st, UseGet), 1))
    ensures tokens[0] == "--digest" ==> Take(tokens, st) == Ok(CurlImport.Pass(After(st, UseDigest), 1))
    ensures tokens[0] in ["-k", "--insecure"] ==> Take(tokens, st) == Ok(CurlImport.Pass(After(st, AllowInsecure), 1))
    ensures tokens[0] in ["-L", "--location", "--compressed"] ==>
      Take(tokens, st) == Ok(CurlImport.Pass(After(st, Mention(tokens[0])), 1))
    ensures tokens[0] == "--" ==>
      Take(tokens, st)
      == Ok(CurlImport.Pass(if |tokens| > 1 then st.(url := Some(tokens[1])) else st, |tokens|))
  {
    hide InlineOption, InlineData, NeedsValue, TakeValue;
  }

  /** The item of a word that has its value in it. */
  function InlineItem(inline: Inline): Item
    requires inline != NotInline
  {
    match inline
    case InMethod(v) => SetMethod(v)
    case InHeader(v) => AddHeader(v)
    case InData(v) => AddData(v)
    case InUrl(v) => SetUrl(v)
  }

  lemma OneWord(item: Item, words: seq<string>)
    requires Spells(item, words) && |words| != 2
    ensures |words| == 1
    ensures if item.SetMethod? || item.AddHeader? || item.AddData? || item.SetUrl? then
        InlineOf(words[0]) != NotInline && InlineItem(InlineOf(words[0])) == item
      else item.UseGet? || item.UseDigest? || item.AllowInsecure? || item.Mention? || item.Plain?
  {
    hide InlineOf;
    match item {
      case SetMethod(v) => InlineRequest(v);
      case AddHeader(v) => InlineHeader(v);
      case AddData(v) =>
        InlineDataIs("--data=", v);
        InlineDataIs("-d=", v);
        InlineDataIs("--data-raw=", v);
        InlineDataIs("--data-binary=", v);
      case SetUrl(v) => InlineUrlIs(v);
      case _ =>
    }
  }

  lemma InlinePass(tokens: seq<string>, st: Parse)
    requires tokens != [] && InlineOf(tokens[0]) != NotInline
    ensures var item := InlineItem(InlineOf(tokens[0]));
      Take(tokens, st)
      == if ErrorOf(item).Some? then Err(ErrorOf(item).value) else Ok(CurlImport.Pass(After(st, item), 1))
  {
    if IsFlag(tokens[0]) || NeedsValue(tokens[0]) {
      FixedWordsAreNotInline(tokens[0]);
    }
    PassIs(tokens, st);
    hide Take, IsFlag, NeedsValue, HeaderIsGood, SplitOnce, Trim, ParseHeader, TakeValue, InlineOf;
    var inline := InlineOf(tokens[0]);
    if inline.InHeader? {
      HeaderIs(inline.value);
      GoodOrNot(inline.value);
    }
  }

  lemma GoodOrNot(line: string)
    ensures ErrorOf(AddHeader(line)).None? <==> HeaderIsGood(line)
  {
  }

  lemma PlainPass(tokens: seq<string>, st: Parse)
    requires tokens != [] && (tokens[0] == "" || tokens[0][0] != '-')
    ensures Take(tokens, st) == Ok(CurlImport.Pass(After(st, Item.Plain(tokens[0])), 1))
  {
    if IsFlag(tokens[0]) || NeedsValue(tokens[0]) {
      FixedWordsAreDashed(tokens[0]);
    }
    InlineNeedsBeginning(tokens[0]);
    PassIs(tokens, st);
    hide Take, IsFlag, NeedsValue, InlineOf;
  }

  lemma FixedWordsAreDashed(word: string)
    requires IsFlag(word) || NeedsValue(word)
    ensures word != "" && word[0] == '-'
  {
  }

  /** Every item, however it is spelled, does what it means, and uses the words it is spelled with. */
  lemma TakesItem(item: Item, words: seq<string>, rest: seq<string>, st: Parse)
    requires Spells(item, words)
    ensures Take(words + rest, st)
         == if ErrorOf(item).Some? then Err(ErrorOf(item).value) else Ok(CurlImport.Pass(After(st, item), |words|))
  {
    hide Take, After;
    if |words| == 2 {
      TakesTwoWords(item, words, rest, st);
    } else {
      OneWord(item, words);
      assert (words + rest)[0] == words[0];
      hide InlineOf;
      if item.SetMethod? || item.AddHeader? || item.AddData? || item.SetUrl? {
        InlinePass(words + rest, st);
      } else if item.Plain? {
        PlainPass(words + rest, st);
      } else {
        FlagPass(words + rest, st);
      }
    }
  }

  // ----- Whole command lines -----

  lemma {:induction false} ReadsItems(
      items: seq<Item>, spellings: seq<seq<string>>, done: seq<Item>, rest: seq<string>)
    requires |items| == |spellings| && forall i | 0 <= i < |items| :: Spells(items[i], spellings[i])
    ensures TakeAll(Together(spellings) + rest, StateOf(done))
         == if FirstError(items).Some? then Err(FirstError(items).value) else TakeAll(rest, StateOf(done + items))
    decreases |items|
  {
    hide Take, After, StateOf, Spells, ErrorOf;
    if items == [] {
      assert [] + rest == rest && done + items == done;
    } else {
      var item, words := items[0], spellings[0];
      assert Spells(item, words);
      var more := Together(spellings[1..]) + rest;
      assert Together(spellings) + rest == words + more;
      TakesItem(item, words, more, StateOf(done));
      SpelledWithWords(item, words);
      assert (words + more)[|words|..] == more;
      AfterIs(done, item);
      assert done + items == done + [item] + items[1..];
      ReadsItems(items[1..], spellings[1..], done + [item], rest);
    }
  }

  lemma SpelledWithWords(item: Item, words: seq<string>)
    requires Spells(item, words)
    ensures words != []
  {
  }

  lemma NothingIsStart()
    ensures StateOf([]) == START
  {
  }

  lemma ValuesAreNeeded(word: string)
    ensures TakesAValue(word) <==> NeedsValue(word)
    ensures IsKnown(word) <==> IsFlag(word) || NeedsValue(word) || InlineOf(word) != NotInline
  {
    InlineNeedsBeginning(word);
    hide InlineOf;
  }

  /** How the loop ends, by the ending of the command line. */
  lemma EndsAs(ending: Ending, st: Parse)
    requires Fits(ending)
    ensures TakeAll(WordsAfter(ending), st)
         == match ending
            case Nothing => Ok(st)
            case DashDash(more) => Ok(if more == [] then st else st.(url := Some(more[0])))
            case NoValue(option) => Err(MissingOptionValue(option))
            case Unknown(word, _) => Err(UnsupportedOption(word))
  {
    var words := WordsAfter(ending);
    match ending {
      case Nothing =>
      case DashDash(more) =>
        FlagPass(words, st);
        hide Take;
        assert words[0] == "--" && words[|words|..] == [];
        assert more != [] ==> words[1] == more[0];
      case NoValue(option) =>
        ValuesAreNeeded(option);
        FixedWordsAreNotInline(option);
        TakesValue(option, "", st);
        PassIs(words, st);
        hide Take, NeedsValue, IsFlag, InlineOf;
      case Unknown(word, more) =>
        ValuesAreNeeded(word);
        hide IsKnown, IsFlag, NeedsValue, InlineOf;
        assert words[0] == word;
        PassIs(words, st);
        hide Take;
    }
  }

  lemma InlineIsSpelled(word: string)
    requires InlineOf(word) != NotInline
    ensures Spells(InlineItem(InlineOf(word)), [word])
  {
    InlineNeedsBeginning(word);
    hide InlineOf;
    if "-X=" <= word {
      InlineRequest(word[3..]);
      assert word == "-X=" + word[3..];
    } else if "--request=" <= word {
      InlineRequest(word[10..]);
      assert word == "--request=" + word[10..];
    } else if "-H=" <= word {
      InlineHeader(word[3..]);
      assert word == "-H=" + word[3..];
    } else if "--header=" <= word {
      InlineHeader(word[9..]);
      assert word == "--header=" + word[9..];
    } else if "-d=" <= word {
      InlineDataIs("-d=", word[3..]);
      assert word == "-d=" + word[3..];
    } else if "--data=" <= word {
      InlineDataIs("--data=", word[7..]);
      assert word == "--data=" + word[7..];
    } else if "--data-raw=" <= word {
      InlineDataIs("--data-raw=", word[11..]);
      assert word == "--data-raw=" + word[11..];
    } else if "--data-binary=" <= word {
      InlineDataIs("--data-binary=", word[14..]);
      assert word == "--data-binary=" + word[14..];
    } else {
      InlineUrlIs(word[6..]);
      assert word == "--url=" + word[6..];
    }
  }

  lemma ItemForIsSpelled(option: string, v: string)
    requires TakesAValue(option)
    ensures Spells(ItemFor(option, v), [option, v])
  {
  }

  function FlagItem(word: string): Item
    requires IsFlag(word) && word != "--"
  {
    if word == "-G" || word == "--get" then UseGet
    else if word == "--digest" then UseDigest
    else if word == "-k" || word == "--insecure" then AllowInsecure
    else Mention(word)
  }

  lemma FlagIsSpelled(word: string)
    requires IsFlag(word) && word != "--"
    ensures Spells(FlagItem(word), [word])
  {
  }

  /** The first item of a command line, or its ending. */
  lemma FirstOf(words: seq<string>) returns (item: Item, used: nat, ending: Ending)
    requires words != []
    ensures used <= |words|
    ensures used > 0 ==> Spells(item, words[..used])
    ensures used == 0 ==> Fits(ending) && WordsAfter(ending) == words
  {
    var word := words[0];
    item, used, ending := Item.Plain(word), 1, Nothing;
    assert words[..1] == [word] && words == [word] + words[1..];
    ValuesAreNeeded(word);
    if word == "--" {
      used, ending := 0, DashDash(words[1..]);
    } else if IsFlag(word) {
      FlagIsSpelled(word);
      item := FlagItem(word);
    } else if InlineOf(word) != NotInline {
      InlineIsSpelled(word);
      item := InlineItem(InlineOf(word));
    } else if NeedsValue(word) {
      if |words| == 1 {
        used, ending := 0, NoValue(word);
      } else {
        assert words[..2] == [word, words[1]];
        ItemForIsSpelled(word, words[1]);
        item, used := ItemFor(word, words[1]), 2;
      }
    } else if word != "" && word[0] == '-' {
      used, ending := 0, Unknown(word, words[1..]);
    }
  }

  /** Every list of words is a list of items and an ending. */
  lemma {:induction false} EveryCommandIsSpelled(words: seq<string>)
    returns (items: seq<Item>, spellings: seq<seq<string>>, ending: Ending)
    ensures |items| == |spellings| && (forall i | 0 <= i < |items| :: Spells(items[i], spellings[i])) && Fits(ending)
    ensures words == Together(spellings) + WordsAfter(ending)
    decreases |words|
  {
    hide Spells, Fits, WordsAfter, Together;
    if words == [] {
      items, spellings, ending := [], [], Nothing;
      NothingFits();
    } else {
      var item, used, last := FirstOf(words);
      if used == 0 {
        items, spellings, ending := [], [], last;
        NothingFits();
        assert [] + words == words;
      } else {
        var more, rest;
        more, rest, ending := EveryCommandIsSpelled(words[used..]);
        SplitTogether(words, used, rest, WordsAfter(ending));
        items, spellings := [item] + more, [words[..used]] + rest;
      }
    }
  }

  lemma SplitTogether(words: seq<string>, used: nat, spellings: seq<seq<string>>, last: seq<string>)
    requires used <= |words| && words[used..] == Together(spellings) + last
    ensures words == Together([words[..used]] + spellings) + last
  {
    assert words == words[..used] + (Together(spellings) + last);
    assert ([words[..used]] + spellings)[1..] == spellings;
  }

  lemma NothingFits()
    ensures Fits(Nothing) && WordsAfter(Nothing) == [] && Together([]) == []
  {
  }

  // ----- The request -----

  /** Some content type is JSON. */
  predicate MentionsJson(headers: seq<HeaderEntry>) {
    exists i | 0 <= i < |headers| ::
      ToLowerAscii(headers[i].key) == ToLowerAscii("content-type") && Contains(headers[i].value, "json")
  }

  /** The variables that the items and the ending leave, and the request that is made of them. */
  ghost predicate Makes(
      id: nat, items: seq<Item>, url: string, p: Printers, r: Request, warnings: seq<ImportWarning>)
  {
    var data, get, text := DataOf(items), UseGet in items, Join(DataOf(items), "&");
    && r.id == id && r.name == "Imported cURL request"
    && r.method_ == (if data != [] && get then "GET"
                     else if MethodOf(items).Some? then MethodOf(items).value
                     else if data == [] && !get then "GET"
                     else "POST")
    && r.url == (if data != [] && get then url + (if '?' in url then "&" else "?") + text else url)
    && r.headers
       == HeadersOf(items)
          + (if CookieOf(items).Some? then [HeaderEntry("cookie", CookieOf(items).value, true)] else [])
    && r.auth == (match AuthOf(UserOf(items))
                  case Basic(username, password) =>
                    if UseDigest in items then Digest(username, password) else Basic(username, password)
                  case auth => auth)
    && r.body == (if data == [] || get then NoBody
                  else if !MentionsJson(r.headers) then Raw(text, None)
                  else if p.json.parse(text).Some? then JsonBody(p.json.parse(text).value)
                  else Raw(text, Some("application/json")))
    && r.grpc == None && r.folder == None && r.description == None && r.query == [] && r.cookies == []
    && r.preRequestScript == None && r.testScript == None && r.examples == [] && r.assertions == []
    && warnings == WarningsOf(items)
  }

  lemma BuildMakes(id: nat, items: seq<Item>, st: Parse, p: Printers)
    requires st == StateOf(items).(url := st.url)
    ensures st.url.None? ==> Build(id, st, p) == Err(MissingUrl)
    ensures st.url.Some? ==>
      Build(id, st, p).Ok? && Makes(id, items, st.url.value, p, Build(id, st, p).value.0, Build(id, st, p).value.1)
  {
    hide MethodOf, UserOf, CookieOf, HeadersOf, DataOf, WarningsOf, UrlOf, AuthOf, Join, Contains, ToLowerAscii;
  }

  /**
   * Main result, for every list of words: a command is refused for the first header or user that is not one, for an
   * option that is not known or has no value, or for the lack of a URL; else it gives the request that its items say,
   * whichever way they are spelled and ordered. What follows `--` is the URL; what follows that is dropped.
   */
  lemma ImportsWhatItSays(
      id: nat, items: seq<Item>, spellings: seq<seq<string>>, ending: Ending, p: Printers)
    requires |items| == |spellings| && (forall i | 0 <= i < |items| :: Spells(items[i], spellings[i])) && Fits(ending)
    ensures var r := ParseWords(id, ["curl"] + (Together(spellings) + WordsAfter(ending)), p);
      if FirstError(items).Some? then r == Err(FirstError(items).value)
      else if ending.NoValue? then r == Err(MissingOptionValue(ending.option))
      else if ending.Unknown? then r == Err(UnsupportedOption(ending.word))
      else
        var url := if ending.DashDash? && ending.more != [] then Some(ending.more[0]) else UrlOf(items);
        if url.None? then r == Err(MissingUrl)
        else r.Ok? && Makes(id, items, url.value, p, r.value.0, r.value.1)
  {
    hide TakeAll, Build, Makes, StateOf, Spells, Fits, WordsAfter, FirstError, UrlOf;
    var words := Together(spellings) + WordsAfter(ending);
    assert (["curl"] + words)[1..] == words && (["curl"] + words)[0] == "curl";
    NothingIsStart();
    ReadsItems(items, spellings, [], WordsAfter(ending));
    assert [] + items == items;
    if FirstError(items).None? {
      var st := StateOf(items);
      EndsAs(ending, st);
      UrlIs(items);
      if ending.DashDash? && ending.more != [] {
        BuildMakes(id, items, st.(url := Some(ending.more[0])), p);
      } else {
        BuildMakes(id, items, st, p);
      }
    }
  }

  lemma UrlIs(items: seq<Item>)
    ensures StateOf(items).url == UrlOf(items)
  {
  }

  /** A line that does not start with `curl` is no command. */
  lemma OnlyCurlIsRead(id: nat, words: seq<string>, p: Printers)
    ensures words == [] || words[0] != "curl" ==> ParseWords(id, words, p) == Err(MissingCurl)
  {
  }

  // ----- Commands as they are typed -----

  predicate NoOption(word: string) {
    word == "" || word[0] != '-'
  }

  lemma TakesOne(item: Item, words: seq<string>, rest: seq<string>, st: Parse)
    requires Spells(item, words) && ErrorOf(item).None?
    ensures TakeAll(words + rest, st) == TakeAll(rest, After(st, item))
  {
    hide Take, After, ErrorOf, Spells;
    TakesItem(item, words, rest, st);
    SpelledWithWords(item, words);
    assert (words + rest)[|words|..] == rest;
  }

  /** What the loop leaves when no header, cookie or user is given, and the request that is made of it. */
  lemma BuildsBare(id: nat, words: seq<string>, st: Parse, p: Printers)
    requires words != [] && words[0] == "curl" && TakeAll(words[1..], START) == TakeAll([], st)
    requires st.headers == [] && st.cookies == None && st.auth == NoAuth && st.url.Some?
    ensures var fetched := st.bodyValues != [] && st.getMode;
      var text, url := Join(st.bodyValues, "&"), st.url.value;
      ParseWords(id, words, p)
      == Ok((NewRequest(id, "Imported cURL request",
                        if fetched then "GET" else if st.method_.Some? then st.method_.value
                        else if st.bodyValues == [] && !st.getMode then "GET" else "POST",
                        if fetched then url + (if '?' in url then "&" else "?") + text else url)
             .(body := if st.bodyValues == [] || fetched then NoBody else Raw(text, None)),
             st.warnings))
  {
    hide Take, Join, SaysJson;
    assert TakeAll([], st) == Ok(st);
    assert st.headers + [] == [];
    assert !SaysJson([]) by { NothingSaysJson(); }
  }

  /** A URL alone is fetched: no header, no body, nothing to warn of. */
  lemma UrlAloneIsFetched(id: nat, url: string, p: Printers)
    requires NoOption(url)
    ensures ParseWords(id, ["curl", url], p) == Ok((NewRequest(id, "Imported cURL request", "GET", url), []))
  {
    hide TakeAll, ParseWords;
    TakesOne(Item.Plain(url), [url], [], START);
    assert [url] + [] == [url] && ["curl", url][1..] == [url];
    BuildsBare(id, ["curl", url], START.(url := Some(url)), p);
  }

  /** With data and no method the request is a POST whose body is the data, joined by `&`. */
  lemma DataIsPosted(id: nat, url: string, a: string, b: string, p: Printers)
    requires NoOption(url)
    ensures ParseWords(id, ["curl", url, "-d", a, "--data", b], p)
         == Ok((NewRequest(id, "Imported cURL request", "POST", url).(body := Raw(a + "&" + b, None)), []))
  {
    hide TakeAll, ParseWords;
    var st := START.(url := Some(url));
    TakesOne(Item.Plain(url), [url], ["-d", a, "--data", b], START);
    TakesOne(AddData(a), ["-d", a], ["--data", b], st);
    TakesOne(AddData(b), ["--data", b], [], st.(bodyValues := [a]));
    assert [] + [a] == [a] && [a] + [b] == [a, b] && ["--data", b] + [] == ["--data", b];
    assert ["-d", a] + ["--data", b] == ["-d", a, "--data", b];
    assert [url] + ["-d", a, "--data", b] == ["curl", url, "-d", a, "--data", b][1..];
    BuildsBare(id, ["curl", url, "-d", a, "--data", b], st.(bodyValues := [a, b]), p);
    assert [a, b][1..] == [b] && Join([a, b], "&") == a + "&" + b;
  }

  lemma NothingSaysJson()
    ensures !SaysJson([])
  {
  }

  /** With `-G` the data becomes the query of a GET without a body, whatever method is asked for. */
  lemma GetPutsDataIntoTheQuery(id: nat, method_: string, url: string, data: string, p: Printers)
    requires NoOption(url)
    ensures ParseWords(id, ["curl", "-X", method_, "-G", url, "-d", data], p)
         == Ok((NewRequest(id, "Imported cURL request", "GET", url + (if '?' in url then "&" else "?") + data), []))
  {
    hide TakeAll, ParseWords;
    var st := START.(method_ := Some(method_));
    TakesOne(SetMethod(method_), ["-X", method_], ["-G", url, "-d", data], START);
    TakesOne(UseGet, ["-G"], [url, "-d", data], st);
    TakesOne(Item.Plain(url), [url], ["-d", data], st.(getMode := true));
    TakesOne(AddData(data), ["-d", data], [], st.(getMode := true, url := Some(url)));
    assert [] + [data] == [data] && ["-d", data] + [] == ["-d", data];
    assert [url] + ["-d", data] == [url, "-d", data] && ["-G"] + [url, "-d", data] == ["-G", url, "-d", data];
    assert ["-X", method_] + ["-G", url, "-d", data] == ["curl", "-X", method_, "-G", url, "-d", data][1..];
    BuildsBare(id, ["curl", "-X", method_, "-G", url, "-d", data],
               st.(getMode := true, url := Some(url), bodyValues := [data]), p);
    assert Join([data], "&") == data;
  }

  /** `-G` without data is imported as a POST, although cURL would send a GET. */
  lemma GetWithoutDataIsPosted(id: nat, url: string, p: Printers)
    requires NoOption(url)
    ensures ParseWords(id, ["curl", "-G", url], p) == Ok((NewRequest(id, "Imported cURL request", "POST", url), []))
  {
    hide TakeAll, ParseWords;
    TakesOne(UseGet, ["-G"], [url], START);
    TakesOne(Item.Plain(url), [url], [], START.(getMode := true));
    assert [url] + [] == [url] && ["-G"] + [url] == ["curl", "-G", url][1..];
    BuildsBare(id, ["curl", "-G", url], START.(getMode := true, url := Some(url)), p);
  }

  /** `--url` is read with an equals sign only; followed by a word it is refused. */
  lemma UrlOptionNeedsEqualsSign(id: nat, url: string, p: Printers)
    ensures ParseWords(id, ["curl", "--url", url], p) == Err(UnsupportedOption("--url"))
    ensures ParseWords(id, ["curl", "--url=" + url], p)
         == Ok((NewRequest(id, "Imported cURL request", "GET", url), []))
  {
    hide TakeAll, ParseWords;
    UrlIsRefused(id, url, p);
    var word := "--url=" + url;
    TakesOne(SetUrl(url), [word], [], START);
    assert [word] + [] == [word] && ["curl", word][1..] == [word];
    BuildsBare(id, ["curl", word], START.(url := Some(url)), p);
  }

  lemma UrlIsRefused(id: nat, url: string, p: Printers)
    ensures ParseWords(id, ["curl", "--url", url], p) == Err(UnsupportedOption("--url"))
  {
    hide TakeAll;
    UrlIsNoOption();
    EndsAs(Unknown("--url", [url]), START);
    assert ["--url"] + [url] == ["curl", "--url", url][1..];
  }

  lemma UrlIsNoOption()
    ensures Fits(Unknown("--url", []))
    ensures forall more :: Fits(Unknown("--url", more))
  {
    var word := "--url";
    assert "-X="[1] != word[1] && "-H="[1] != word[1] && "-d="[1] != word[1];
    assert |"--url="| > |word| && |"--data="| > |word| && |"--header="| > |word| && |"--request="| > |word|;
    assert !IsKnown(word);
  }

  lemma ContinuedWords(url: string)
    requires Safe(url) && url != ""
    ensures WordsOf("curl " + ("\\\n" + (" " + url))) == Ok(["curl", "\n", url])
  {
    hide FeedAll, IsSpace;
    var st := Splitter([], "", None, false);
    var named, broken := st.(current := "curl"), Splitter(["curl"], "\n", None, false);
    FeedConcat(st, "curl ", "\\\n" + (" " + url));
    FeedConcat(st, "curl", " ");
    NameIsSafe();
    FeedSafe(st, "curl");
    assert "" + "curl" == "curl" && "curl" + " " == "curl ";
    FeedASpace(named);
    FeedConcat(Splitter(["curl"], "", None, false), "\\\n", " " + url);
    ShellLines.FeedTwo(Splitter(["curl"], "", None, false), '\\', '\n');
    assert "\\\n" == ['\\', '\n'] && "" + ['\n'] == "\n";
    FeedConcat(broken, " ", url);
    FeedASpace(broken);
    FeedSafe(Splitter(["curl", "\n"], "", None, false), url);
    assert "" + url == url && [] + ["curl"] == ["curl"] && ["curl"] + ["\n"] == ["curl", "\n"];
    assert ["curl", "\n"] + [url] == ["curl", "\n", url];
  }

  lemma NameIsSafe()
    ensures Safe("curl")
  {
  }

  lemma FeedASpace(st: Splitter)
    requires st.quote == None && !st.escaped && st.current != ""
    ensures FeedAll(st, " ") == st.(words := st.words + [st.current], current := "")
  {
    ShellLines.FeedOne(st, ' ');
    hide FeedAll;
  }

  /**
   * A backslash at the end of a line does not join it to the next one: it makes a word of the line feed, and a URL on
   * the next line is not imported.
   */
  lemma ContinuedLineIsMisread(id: nat, url: string, p: Printers)
    requires Safe(url) && url != "" && NoOption(url)
    ensures ParseCommand(id, "curl " + ("\\\n" + (" " + url)), p)
         == Ok((NewRequest(id, "Imported cURL request", "GET", "\n"), [IgnoredToken(url)]))
  {
    hide TakeAll, ParseWords, WordsOf, Safe;
    ContinuedWords(url);
    var st := START.(url := Some("\n"));
    TakesOne(Item.Plain("\n"), ["\n"], [url], START);
    TakesOne(Item.Plain(url), [url], [], st);
    assert [url] + [] == [url] && ["\n"] + [url] == ["curl", "\n", url][1..];
    assert [] + [IgnoredToken(url)] == [IgnoredToken(url)];
    BuildsBare(id, ["curl", "\n", url], st.(warnings := [IgnoredToken(url)]), p);
  }
}
