/** Command lines as a user types them: words with quotes and backslashes, and how a line may end. */
module ShellLines {
  import opened Wrappers
  import opened Text
  import opened ShellWords

  /** A character between double quotes, as it is or after a backslash. */
  datatype Inner = Inner(c: char, escaped: bool)

  /** A part of a line: white space between words, or a part of a word. */
  datatype Segment =
    | Space(c: char)
    | Letter(c: char)
    | Escaped(c: char)
    | SingleQuoted(text: string)
    | DoubleQuoted(inner: seq<Inner>)

  /** How a line ends: at once, with a backslash, or inside a quotation that is never closed. */
  datatype End = Complete | Backslash | OpenSingle(text: string) | OpenDouble(inner: seq<Inner>, backslash: bool)

  predicate IsInner(inner: seq<Inner>) {
    forall i | 0 <= i < |inner| :: inner[i].escaped || (inner[i].c != '"' && inner[i].c != '\\')
  }

  predicate IsSegment(s: Segment) {
    match s
    case Space(c) => IsSpace(c)
    case Letter(c) => c != '\'' && c != '"' && c != '\\' && !IsSpace(c)
    case Escaped(_) => true
    case SingleQuoted(text) => '\'' !in text
    case DoubleQuoted(inner) => IsInner(inner)
  }

  predicate IsEnd(end: End) {
    match end
    case OpenSingle(text) => '\'' !in text
    case OpenDouble(inner, _) => IsInner(inner)
    case _ => true
  }

  function InnerText(inner: seq<Inner>): string {
    if inner == [] then ""
    else (if inner[0].escaped then ['\\', inner[0].c] else [inner[0].c]) + InnerText(inner[1..])
  }

  function SegmentText(s: Segment): string {
    match s
    case Space(c) => [c]
    case Letter(c) => [c]
    case Escaped(c) => ['\\', c]
    case SingleQuoted(text) => "'" + text + "'"
    case DoubleQuoted(inner) => "\"" + InnerText(inner) + "\""
  }

  function EndText(end: End): string {
    match end
    case Complete => ""
    case Backslash => "\\"
    case OpenSingle(text) => "'" + text
    case OpenDouble(inner, backslash) => "\"" + InnerText(inner) + (if backslash then "\\" else "")
  }

  function LineText(segments: seq<Segment>, end: End): string {
    if segments == [] then EndText(end) else SegmentText(segments[0]) + LineText(segments[1..], end)
  }

  function Characters(inner: seq<Inner>): (r: string)
    ensures |r| == |inner| && forall i | 0 <= i < |r| :: r[i] == inner[i].c
  {
    seq(|inner|, i requires 0 <= i < |inner| => inner[i].c)
  }

  /** What a part adds to its word. */
  function Meaning(s: Segment): string
    requires !s.Space?
  {
    match s
    case Letter(c) => [c]
    case Escaped(c) => [c]
    case SingleQuoted(text) => text
    case DoubleQuoted(inner) => Characters(inner)
  }

  /** The words, without the empty ones; `current` has been read of the first. */
  function WordsSaid(segments: seq<Segment>, current: string): seq<string>
    decreases |segments|
  {
    if segments == [] then (if current == "" then [] else [current])
    else if segments[0].Space? then (if current == "" then [] else [current]) + WordsSaid(segments[1..], "")
    else WordsSaid(segments[1..], current + Meaning(segments[0]))
  }

  // ----- The splitter reads a line as that -----

  lemma FeedOne(st: Splitter, c: char)
    ensures FeedAll(st, [c]) == Feed(st, c)
  {
    assert [c][1..] == "";
  }

  lemma FeedTwo(st: Splitter, c: char, d: char)
    ensures FeedAll(st, [c, d]) == Feed(Feed(st, c), d)
  {
    assert [c, d][1..] == [d];
    FeedOne(Feed(st, c), d);
  }

  lemma {:induction false} FeedInner(st: Splitter, inner: seq<Inner>)
    requires IsInner(inner) && st.quote == Some('"') && !st.escaped
    ensures FeedAll(st, InnerText(inner)) == st.(current := st.current + Characters(inner))
    decreases |inner|
  {
    if inner == [] {
      assert st.current + "" == st.current && Characters([]) == "";
    } else {
      hide FeedAll, IsInner;
      var rest, next := inner[1..], st.(current := st.current + [inner[0].c]);
      RestIsInner(inner);
      FeedOneInner(st, inner[0], InnerText(rest));
      FeedInner(next, rest);
      assert st.current + [inner[0].c] + Characters(rest) == st.current + Characters(inner);
    }
  }

  lemma RestIsInner(inner: seq<Inner>)
    requires IsInner(inner) && inner != []
    ensures IsInner(inner[1..]) && (inner[0].escaped || (inner[0].c != '"' && inner[0].c != '\\'))
  {
  }

  lemma FeedOneInner(st: Splitter, first: Inner, rest: string)
    requires st.quote == Some('"') && !st.escaped && (first.escaped || (first.c != '"' && first.c != '\\'))
    ensures FeedAll(st, (if first.escaped then ['\\', first.c] else [first.c]) + rest)
         == FeedAll(st.(current := st.current + [first.c]), rest)
  {
    hide FeedAll;
    FeedConcat(st, if first.escaped then ['\\', first.c] else [first.c], rest);
    if first.escaped {
      FeedTwo(st, '\\', first.c);
    } else {
      FeedOne(st, first.c);
    }
  }

  lemma {:induction false} FeedPlain(st: Splitter, text: string)
    requires '\'' !in text && st.quote == Some('\'') && !st.escaped
    ensures FeedAll(st, text) == st.(current := st.current + text)
    decreases |text|
  {
    if text == "" {
      assert st.current + "" == st.current;
    } else {
      FeedPlain(st.(current := st.current + [text[0]]), text[1..]);
      assert st.current + [text[0]] + text[1..] == st.current + text;
    }
  }

  predicate Open(st: Splitter) {
    st.quote == None && !st.escaped
  }

  lemma FeedWordPart(st: Splitter, s: Segment)
    requires Open(st) && IsSegment(s) && !s.Space?
    ensures FeedAll(st, SegmentText(s)) == st.(current := st.current + Meaning(s))
  {
    hide FeedAll, IsSpace;
    match s
    case Letter(c) => FeedOne(st, c);
    case Escaped(c) => FeedTwo(st, '\\', c);
    case SingleQuoted(text) =>
      var inside := st.(quote := Some('\''));
      FeedConcat(st, "'" + text, "'");
      FeedConcat(st, "'", text);
      FeedOne(st, '\'');
      FeedPlain(inside, text);
      FeedOne(inside.(current := st.current + text), '\'');
    case DoubleQuoted(inner) =>
      var inside := st.(quote := Some('"'));
      FeedConcat(st, "\"" + InnerText(inner), "\"");
      FeedConcat(st, "\"", InnerText(inner));
      FeedOne(st, '"');
      FeedInner(inside, inner);
      FeedOne(inside.(current := st.current + Characters(inner)), '"');
  }

  /** The quotation that a line leaves open. */
  function OpenQuote(end: End): Option<char> {
    match end
    case OpenSingle(_) => Some('\'')
    case OpenDouble(_, _) => Some('"')
    case _ => None
  }

  function AtEnd(words: seq<string>, current: string, end: End): Result<seq<string>, char> {
    if OpenQuote(end).Some? then Err(OpenQuote(end).value)
    else
      var last := if end == Backslash then current + "\\" else current;
      Ok(words + if last == "" then [] else [last])
  }

  lemma FeedEnd(words: seq<string>, current: string, end: End)
    requires IsEnd(end)
    ensures Finish(FeedAll(Splitter(words, current, None, false), EndText(end))) == AtEnd(words, current, end)
  {
    hide FeedAll;
    var st := Splitter(words, current, None, false);
    assert words + [] == words;
    match end
    case Complete => assert FeedAll(st, "") == st by { FeedNothing(st); }
    case Backslash => FeedOne(st, '\\');
    case OpenSingle(text) =>
      FeedConcat(st, "'", text);
      FeedOne(st, '\'');
      FeedPlain(st.(quote := Some('\'')), text);
    case OpenDouble(inner, backslash) =>
      var inside := st.(quote := Some('"'));
      var last := inside.(current := current + Characters(inner));
      FeedConcat(st, "\"" + InnerText(inner), if backslash then "\\" else "");
      FeedConcat(st, "\"", InnerText(inner));
      FeedOne(st, '"');
      FeedInner(inside, inner);
      FeedOne(last, '\\');
      FeedNothing(last);
  }

  lemma FeedNothing(st: Splitter)
    ensures FeedAll(st, "") == st
  {
  }

  /** The words of a line that ends like this; an open quotation leaves none. */
  function LineSays(words: seq<string>, segments: seq<Segment>, current: string, end: End): Result<seq<string>, char>
    decreases |segments|
  {
    if OpenQuote(end).Some? then Err(OpenQuote(end).value)
    else Ok(words + WordsSaid(if end == Backslash then segments + [Letter('\\')] else segments, current))
  }

  lemma {:induction false} FeedLine(words: seq<string>, segments: seq<Segment>, current: string, end: End)
    requires (forall s <- segments :: IsSegment(s)) && IsEnd(end)
    ensures Finish(FeedAll(Splitter(words, current, None, false), LineText(segments, end)))
         == LineSays(words, segments, current, end)
    decreases |segments|
  {
    hide FeedAll, Finish, IsSegment, SegmentText, EndText;
    var st := Splitter(words, current, None, false);
    if segments == [] {
      FeedEnd(words, current, end);
      assert [] + [Letter('\\')] == [Letter('\\')] && [Letter('\\')][1..] == [];
    } else {
      var s, rest := segments[0], segments[1..];
      assert IsSegment(s) && forall t <- rest :: t in segments;
      assert (segments + [Letter('\\')])[1..] == rest + [Letter('\\')];
      FeedConcat(st, SegmentText(s), LineText(rest, end));
      if s.Space? {
        FeedSpace(words, current, s);
        var first := if current == "" then [] else [current];
        FeedLine(words + first, rest, "", end);
        var more := WordsSaid(if end == Backslash then rest + [Letter('\\')] else rest, "");
        assert words + first + more == words + (first + more);
      } else {
        FeedWordPart(st, s);
        FeedLine(words, rest, current + Meaning(s), end);
      }
    }
  }

  lemma FeedSpace(words: seq<string>, current: string, s: Segment)
    requires s.Space? && IsSegment(s)
    ensures FeedAll(Splitter(words, current, None, false), SegmentText(s))
         == Splitter(words + (if current == "" then [] else [current]), "", None, false)
  {
    FeedOne(Splitter(words, current, None, false), s.c);
    assert words + [] == words;
  }

  /**
   * Main result: a line is split at the white space outside quotations; quotes are dropped, a backslash stands for the
   * character after it, except between single quotes, and at the end for itself. An open quotation is an error.
   */
  lemma LinesAreSplit(segments: seq<Segment>, end: End)
    requires (forall s <- segments :: IsSegment(s)) && IsEnd(end)
    ensures WordsOf(LineText(segments, end))
         == if end.OpenSingle? then Err('\'')
            else if end.OpenDouble? then Err('"')
            else Ok(WordsSaid(segments + (if end == Backslash then [Letter('\\')] else []), ""))
  {
    hide FeedAll, Finish, WordsSaid, LineText;
    FeedLine([], segments, "", end);
    assert segments + [] == segments;
    var more := WordsSaid(segments + (if end == Backslash then [Letter('\\')] else []), "");
    assert [] + more == more;
  }

  // ----- Every text is such a line -----

  /** What double quotes hold, up to the closing one. */
  lemma {:induction false} ReadInner(s: string) returns (inner: seq<Inner>, rest: Option<string>, backslash: bool)
    ensures IsInner(inner)
    ensures rest.Some? ==> s == InnerText(inner) + ("\"" + rest.value) && !backslash
    ensures rest.None? ==> s == InnerText(inner) + if backslash then "\\" else ""
    ensures rest.Some? ==> |rest.value| < |s|
    decreases |s|
  {
    if s == "" {
      inner, rest, backslash := [], None, false;
    } else if s[0] == '"' {
      inner, rest, backslash := [], Some(s[1..]), false;
      assert s == "" + ("\"" + s[1..]);
    } else if s == "\\" {
      inner, rest, backslash := [], None, true;
    } else {
      var escaped := s[0] == '\\';
      var first := Inner(if escaped then s[1] else s[0], escaped);
      var text := if escaped then ['\\', first.c] else [first.c];
      var more;
      assert |s| == 1 && escaped ==> s == "\\";
      more, rest, backslash := ReadInner(s[|text|..]);
      inner := [first] + more;
      assert inner[1..] == more && InnerText(inner) == text + InnerText(more);
      assert s == text + s[|text|..];
      Behind(text, InnerText(more), if rest.Some? then "\"" + rest.value else if backslash then "\\" else "");
    }
  }

  lemma Behind(a: string, b: string, c: string)
    ensures a + (b + c) == a + b + c
  {
  }

  /** The first part of a line, or its end. */
  lemma ReadSegment(s: string) returns (segment: Option<Segment>, end: End, rest: string)
    requires s != ""
    ensures segment.Some? ==> IsSegment(segment.value) && s == SegmentText(segment.value) + rest && |rest| < |s|
    ensures segment.None? ==> IsEnd(end) && s == EndText(end)
  {
    hide IsSpace;
    var c := s[0];
    end, rest := Complete, s[1..];
    assert s == [c] + rest;
    if c == '\'' {
      match SplitOnce(rest, '\'') {
        case None => segment, end := None, OpenSingle(rest);
        case Some((text, more)) =>
          segment, rest := Some(SingleQuoted(text)), more;
          assert s == "'" + text + "'" + more;
      }
    } else if c == '"' {
      var inner, after, backslash := ReadInner(rest);
      if after.Some? {
        Around("\"", InnerText(inner), "\"", after.value);
        segment, rest := Some(DoubleQuoted(inner)), after.value;
      } else {
        Behind("\"", InnerText(inner), if backslash then "\\" else "");
        segment, end := None, OpenDouble(inner, backslash);
      }
    } else if c == '\\' {
      if rest == "" {
        segment, end := None, Backslash;
      } else {
        segment, rest := Some(Escaped(s[1])), s[2..];
        assert s == ['\\', s[1]] + s[2..];
      }
    } else {
      segment := Some(if IsSpace(c) then Space(c) else Letter(c));
    }
  }

  lemma Around(a: string, b: string, c: string, d: string)
    ensures a + (b + (c + d)) == a + b + c + d
  {
  }

  /** Every text is a line. */
  lemma {:induction false} EveryTextIsALine(s: string) returns (segments: seq<Segment>, end: End)
    ensures (forall t <- segments :: IsSegment(t)) && IsEnd(end) && s == LineText(segments, end)
    decreases |s|
  {
    hide IsSegment, SegmentText, IsSpace;
    if s == "" {
      segments, end := [], Complete;
    } else {
      var segment, last, rest := ReadSegment(s);
      if segment.None? {
        segments, end := [], last;
      } else {
        var more;
        more, end := EveryTextIsALine(rest);
        segments := [segment.value] + more;
        assert segments[1..] == more;
      }
    }
  }
}
