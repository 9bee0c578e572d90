/** The safe text preview of an HTML response: a scanner that drops markup, and scripts with what they hold. */
module HtmlPreview {
  import opened Wrappers
  import opened Text

  const MAX_HTML_PREVIEW_BYTES := 2 * 1024 * 1024

  /**
   * Text that is shown, a tag that was read, source that contributes nothing, or the end of a suppressed
   * element together with what is left of its content.
   */
  datatype Kind = Shown | Tag(closing: bool, name: string) | Dropped | Resume(name: string)

  /** A stretch of the source and what the scanner made of it. */
  datatype Piece = Piece(text: string, kind: Kind)

  datatype PreviewError = NotHtml | TooLarge

  const SUPPRESSED: seq<string> := ["script", "style", "noscript", "template"]

  const BLOCK: seq<string> :=
    ["address", "article", "aside", "blockquote", "div", "footer", "form", "h1", "h2", "h3", "h4", "h5", "h6",
     "header", "hr", "main", "nav", "ol", "p", "pre", "section", "table", "tr", "ul"]

  predicate IsAlphanumeric(c: char) {
    'a' <= c <= 'z' || 'A' <= c <= 'Z' || '0' <= c <= '9'
  }

  function NamePart(s: string): string {
    if s != "" && IsAlphanumeric(s[0]) then [s[0]] + NamePart(s[1..]) else ""
  }

  /** `html_tag_name`, on the text between `<` and `>`. */
  function KindOf(tag: string): (kind: Kind)
    ensures kind.Tag? || kind.Dropped?
  {
    var trimmed := TrimStart(tag);
    var closing := "/" <= trimmed;
    var start := if closing then TrimStart(trimmed[1..]) else trimmed;
    var name := ToLowerAscii(NamePart(start));
    if "!" <= start || "?" <= start || name == "" then Dropped else Tag(closing, name)
  }

  predicate Suppresses(kind: Kind) {
    kind.Tag? && !kind.closing && kind.name in SUPPRESSED
  }

  /** Where a tag that starts at the first `<` ends, just after its `>`. */
  function TagEnd(s: string): (r: Option<(nat, nat)>)
    ensures r.Some? ==> r.value.0 < r.value.1 - 1 < |s| && s[r.value.0] == '<' && s[r.value.1 - 1] == '>'
  {
    match Find(s, "<")
    case None => None
    case Some(i) =>
      match Find(s[i..], ">")
      case None => None
      case Some(j) =>
        assert s[i..][j..j + 1][0] == s[i + j] && s[i..i + 1][0] == s[i];
        Some((i, i + j + 1))
  }

  /** Where the text before the next `<` ends. */
  function TextEnd(s: string): (end: nat)
    requires s != "" && s[0] != '<'
    ensures 0 < end <= |s|
  {
    match Find(s, "<")
    case None => |s|
    case Some(i) => assert s[i..i + 1][0] == '<'; i
  }

  /**
   * One turn of the scanner at a place in the source, outside or inside a suppressed element: the piece that
   * it takes, and whether an element is suppressed after it.
   */
  function Next(s: string, suppressed: Option<string>): (r: (Piece, Option<string>))
    requires s != ""
    ensures r.0.text != "" && r.0.text <= s
  {
    if suppressed.Some? then
      match TagEnd(s)
      case None => (Piece(s, Dropped), suppressed)
      case Some((start, end)) =>
        if KindOf(s[start + 1..end - 1]) == Tag(true, suppressed.value)
        then (Piece(s[..end], Resume(suppressed.value)), None)
        else (Piece(s[..end], Dropped), suppressed)
    else if "<!--" <= s then
      match Find(s[4..], "-->")
      case None => (Piece(s, Dropped), None)
      case Some(i) => (Piece(s[..i + 7], Dropped), None)
    else if s[0] != '<' then
      (Piece(s[..TextEnd(s)], Shown), None)
    else
      match Find(s, ">")
      case None => (Piece(s, Shown), None)
      case Some(i) =>
        var kind := KindOf(s[1..i]);
        (Piece(s[..i + 1], kind), if Suppresses(kind) then Some(kind.name) else None)
  }

  /** What the scanner makes of the source from a given place on. */
  function Scan(s: string, suppressed: Option<string>): seq<Piece>
    decreases |s|
  {
    if s == "" then []
    else
      var (piece, after) := Next(s, suppressed);
      [piece] + Scan(s[|piece.text|..], after)
  }

  function NewLine(output: string): string {
    if output != "" && output[|output| - 1] == '\n' then output else output + "\n"
  }

  /** What a piece adds to the output; `decode` replaces the entities of shown text. */
  function Emit(decode: string -> string, output: string, piece: Piece): string {
    match piece.kind
    case Shown => output + decode(piece.text)
    case Dropped => output
    case Resume(_) => output
    case Tag(closing, name) =>
      if Suppresses(piece.kind) then output
      else if !closing && name == "br" then NewLine(output)
      else if name == "li" && !closing then NewLine(output) + "• "
      else if name in BLOCK then NewLine(output)
      else output
  }

  function Output(decode: string -> string, pieces: seq<Piece>, output: string): string
    decreases |pieces|
  {
    if pieces == [] then output else Output(decode, pieces[1..], Emit(decode, output, pieces[0]))
  }

  /** The lines of the output that are left when white space is trimmed. */
  function Preview(decode: string -> string, source: string): string {
    var lines := CleanPieces(Output(decode, Scan(source, None), ""), "\n");
    if lines == [] then "(empty HTML document)" else Join(lines, "\n")
  }

  lemma NothingLeft(decode: string -> string, suppressed: Option<string>, output: string)
    ensures Output(decode, Scan("", suppressed), output) == output
  {
  }

  lemma Step(decode: string -> string, s: string, suppressed: Option<string>, output: string)
    requires s != ""
    ensures var (piece, after) := Next(s, suppressed);
      Output(decode, Scan(s, suppressed), output)
      == Output(decode, Scan(s[|piece.text|..], after), Emit(decode, output, piece))
  {
    hide Next, Emit;
    var (piece, after) := Next(s, suppressed);
    var rest := Scan(s[|piece.text|..], after);
    assert ([piece] + rest)[1..] == rest;
  }

  /** `response_preview_text`; `size` is the length of the body in bytes, `source` its text. */
  method ResponsePreviewText(isHtml: bool, size: nat, source: string, decode: string -> string)
    returns (preview: Result<string, PreviewError>)
    ensures !isHtml ==> preview == Err(NotHtml)
    ensures isHtml && size > 2_097_152 ==> preview == Err(TooLarge)
    ensures isHtml && size <= 2_097_152 ==> preview == Ok(Preview(decode, source))
  {
    if !isHtml {
      return Err(NotHtml);
    }
    if size > MAX_HTML_PREVIEW_BYTES {
      return Err(TooLarge);
    }
    var output := ScanAll(source, decode);
    var lines := CleanPieces(output, "\n");
    preview := Ok(if lines == [] then "(empty HTML document)" else Join(lines, "\n"));
  }

  /** The loop of `response_preview_text`, moving a cursor over the source. */
  method ScanAll(source: string, decode: string -> string) returns (output: string)
    ensures output == Output(decode, Scan(source, None), "")
  {
    hide Scan, Output, KindOf, Find, TagEnd, TextEnd, NewLine;
    output := "";
    var cursor := 0;
    var suppressed: Option<string> := None;
    assert source[cursor..] == source;
    while cursor < |source|
      invariant cursor <= |source|
      invariant Output(decode, Scan(source, None), "") == Output(decode, Scan(source[cursor..], suppressed), output)
    {
      var s := source[cursor..];
      var length := |s|;
      assert s[|s|..] == "";
      Step(decode, s, suppressed, output);
      if suppressed.Some? {
        var end := TagEnd(s);
        if end.None? {
          NothingLeft(decode, suppressed, output);
          return;
        }
        if KindOf(s[end.value.0 + 1..end.value.1 - 1]) == Tag(true, suppressed.value) {
          suppressed := None;
        }
        length := end.value.1;
      } else if "<!--" <= s {
        var end := Find(s[4..], "-->");
        if end.None? {
          NothingLeft(decode, None, output);
          return;
        }
        length := end.value + 7;
      } else if s[0] != '<' {
        length := TextEnd(s);
        output := output + decode(s[..length]);
      } else {
        var end := Find(s, ">");
        if end.None? {
          output := output + decode(s);
          NothingLeft(decode, None, output);
          return;
        }
        var kind := KindOf(s[1..end.value]);
        if Suppresses(kind) {
          suppressed := Some(kind.name);
        } else if kind.Tag? {
          if !kind.closing && kind.name == "br" {
            output := NewLine(output);
          } else if kind.name == "li" && !kind.closing {
            output := NewLine(output) + "• ";
          } else if kind.name in BLOCK {
            output := NewLine(output);
          }
        }
        length := end.value + 1;
      }
      assert source[cursor + length..] == s[length..];
      cursor := cursor + length;
    }
    assert source[cursor..] == "";
    NothingLeft(decode, suppressed, output);
  }
}

module HtmlPreviewTheorems {
  import opened Wrappers
  import opened Text
  import opened HtmlPreview

  /** The source that the pieces were cut from. */
  function Source(pieces: seq<Piece>): string {
    if pieces == [] then "" else pieces[0].text + Source(pieces[1..])
  }

  /** Main result: the scanner cuts the source into non-empty pieces, and loses none of it. */
  lemma {:induction false} PiecesTileTheSource(s: string, suppressed: Option<string>)
    ensures Source(Scan(s, suppressed)) == s && forall piece <- Scan(s, suppressed) :: piece.text != ""
    decreases |s|
  {
    hide Next;
    if s != "" {
      var (piece, after) := Next(s, suppressed);
      var rest := Scan(s[|piece.text|..], after);
      PiecesTileTheSource(s[|piece.text|..], after);
      assert ([piece] + rest)[1..] == rest;
      assert piece.text + s[|piece.text|..] == s;
    }
  }

  /** Inside a suppressed element nothing is shown before the piece that ends it. */
  lemma {:induction false} HiddenUntilResumed(s: string, name: string, j: nat)
    requires j < |Scan(s, Some(name))| && !Scan(s, Some(name))[j].kind.Dropped?
    ensures exists k :: 0 <= k <= j && Scan(s, Some(name))[k].kind == Resume(name)
    decreases |s|
  {
    hide TagEnd, KindOf;
    var pieces := Scan(s, Some(name));
    var (piece, after) := Next(s, Some(name));
    if after.Some? {
      assert piece.kind == Dropped && after == Some(name);
      var rest := s[|piece.text|..];
      HiddenUntilResumed(rest, name, j - 1);
      var k :| 0 <= k <= j - 1 && Scan(rest, Some(name))[k].kind == Resume(name);
      assert pieces[k + 1].kind == Resume(name);
    } else {
      assert pieces[0].kind == Resume(name);
    }
  }

  lemma OpeningSuppresses(s: string, suppressed: Option<string>)
    requires s != ""
    ensures var (piece, after) := Next(s, suppressed); Suppresses(piece.kind) ==> after == Some(piece.kind.name)
  {
    hide TagEnd, KindOf, TextEnd, Find;
  }

  /**
   * Main result: between the opening tag of a script, style, noscript or template element and any piece that
   * contributes to the output there is the closing tag of the same name.
   */
  lemma {:induction false} NothingSuppressedIsShown(s: string, suppressed: Option<string>, i: nat, j: nat)
    requires i < j < |Scan(s, suppressed)|
    requires Suppresses(Scan(s, suppressed)[i].kind) && !Scan(s, suppressed)[j].kind.Dropped?
    ensures exists k :: i < k <= j && Scan(s, suppressed)[k].kind == Resume(Scan(s, suppressed)[i].kind.name)
    decreases |s|
  {
    hide Next;
    var pieces := Scan(s, suppressed);
    var (piece, after) := Next(s, suppressed);
    var rest := s[|piece.text|..];
    OpeningSuppresses(s, suppressed);
    assert pieces[1..] == Scan(rest, after);
    if i == 0 {
      HiddenUntilResumed(rest, piece.kind.name, j - 1);
      var k :| 0 <= k <= j - 1 && Scan(rest, after)[k].kind == Resume(piece.kind.name);
      assert pieces[k + 1].kind == Resume(piece.kind.name);
    } else {
      NothingSuppressedIsShown(rest, after, i - 1, j - 1);
      var k :| i - 1 < k <= j - 1 && Scan(rest, after)[k].kind == Resume(pieces[i].kind.name);
      assert pieces[k + 1].kind == Resume(pieces[i].kind.name);
    }
  }

  /** What `Resume` and `Shown` say about the source. */
  ghost predicate Explained(piece: Piece) {
    match piece.kind
    case Resume(name) =>
      exists start :: 0 <= start < |piece.text| - 1 && piece.text[start] == '<' && piece.text[|piece.text| - 1] == '>'
                      && KindOf(piece.text[start + 1..|piece.text| - 1]) == Tag(true, name)
    case Shown => '<' !in piece.text || ('>' !in piece.text && piece.text[0] == '<')
    case _ => true
  }

  lemma FindFirst(s: string, c: char)
    ensures Find(s, [c]).Some? <==> c in s
    ensures Find(s, [c]).Some? ==> c !in s[..Find(s, [c]).value]
  {
    if s != "" && s[0] != c {
      FindFirst(s[1..], c);
      FindStep(s, [c]);
      assert s == [s[0]] + s[1..];
      var i := Find(s, [c]);
      if i.Some? {
        assert s[..i.value] == [s[0]] + s[1..][..i.value - 1];
      }
    } else if s != "" {
      assert [c] <= s;
    }
  }

  lemma NextIsExplained(s: string, suppressed: Option<string>)
    requires s != ""
    ensures Explained(Next(s, suppressed).0)
  {
    hide KindOf, Find;
    FindFirst(s, '<');
    FindFirst(s, '>');
    if suppressed.Some? && TagEnd(s).Some? {
      var (start, end) := TagEnd(s).value;
      assert s[..end][start + 1..end - 1] == s[start + 1..end - 1];
    }
  }

  /** Main result: no complete tag is ever shown, and suppression is only lifted by a closing tag of that name. */
  lemma {:induction false} PiecesAreExplained(s: string, suppressed: Option<string>)
    ensures forall piece <- Scan(s, suppressed) :: Explained(piece)
    decreases |s|
  {
    hide Next, Explained;
    if s != "" {
      var (piece, after) := Next(s, suppressed);
      NextIsExplained(s, suppressed);
      PiecesAreExplained(s[|piece.text|..], after);
    }
  }

  /** Tags and comments add nothing but a line break and a bullet. */
  lemma MarkupAddsOnlyMarkers(decode: string -> string, output: string, piece: Piece)
    requires !piece.kind.Shown?
    ensures exists marker <- ["", "\n", "• ", "\n• "] :: Emit(decode, output, piece) == output + marker
  {
    var after := Emit(decode, output, piece);
    assert output + "" == output && output + "\n" + "• " == output + "\n• ";
    var markers := ["", "\n", "• ", "\n• "];
    assert after == output + markers[0] || after == output + markers[1] || after == output + markers[2]
           || after == output + markers[3];
  }

  lemma ShownIsDecoded(decode: string -> string, output: string, piece: Piece)
    requires piece.kind.Shown?
    ensures Emit(decode, output, piece) == output + decode(piece.text)
  {
  }

  /** Main result: every character of the output is a marker, or comes from text that is shown. */
  lemma {:induction false} OutputComesFromShownText(decode: string -> string, pieces: seq<Piece>, output: string)
    ensures forall c <- Output(decode, pieces, output) ::
      c in output || c in "\n• " || exists piece <- pieces :: piece.kind.Shown? && c in decode(piece.text)
    decreases |pieces|
  {
    hide Emit;
    if pieces != [] {
      var after := Emit(decode, output, pieces[0]);
      OutputComesFromShownText(decode, pieces[1..], after);
      if !pieces[0].kind.Shown? {
        MarkupAddsOnlyMarkers(decode, output, pieces[0]);
      } else {
        ShownIsDecoded(decode, output, pieces[0]);
      }
    }
  }

  lemma {:induction false} NamePartIsRead(name: string, attributes: string)
    requires forall c <- name :: IsAlphanumeric(c) && !('A' <= c <= 'Z')
    requires attributes == "" || !IsAlphanumeric(attributes[0])
    ensures NamePart(name + attributes) == name && ToLowerAscii(name) == name
  {
    if name == "" {
      assert name + attributes == attributes;
    } else {
      assert (name + attributes)[1..] == name[1..] + attributes && name == [name[0]] + name[1..];
      NamePartIsRead(name[1..], attributes);
    }
  }

  /** A lower-case name with anything that ends it is read as that name, in opening and in closing tags. */
  lemma TagNameIsRead(name: string, attributes: string)
    requires name != "" && forall c <- name :: IsAlphanumeric(c) && !('A' <= c <= 'Z')
    requires attributes == "" || !IsAlphanumeric(attributes[0])
    ensures KindOf(name + attributes) == Tag(false, name)
    ensures KindOf("/" + name + attributes) == Tag(true, name)
  {
    hide NamePart, ToLowerAscii;
    NamePartIsRead(name, attributes);
    var opening, closing := name + attributes, "/" + name + attributes;
    assert IsAlphanumeric(name[0]) && opening[0] == name[0];
    assert TrimStart(opening) == opening && TrimStart(closing) == closing;
    assert closing[1..] == opening;
  }

  lemma TagsAreNoComments(tag: string)
    requires KindOf(tag).Tag?
    ensures !("!" <= tag)
  {
  }

  lemma OpeningTurn(tag: string, rest: string)
    requires '>' !in tag && Suppresses(KindOf(tag))
    ensures Next("<" + tag + ">" + rest, None) == (Piece("<" + tag + ">", KindOf(tag)), Some(KindOf(tag).name))
  {
    hide KindOf, Find;
    var s := "<" + tag + ">" + rest;
    assert s == ("<" + tag) + (">" + rest);
    FindSkips("<" + tag, ">" + rest, ">");
    FindAtOnce(">", rest);
    assert s[1..|tag| + 1] == tag && s[..|tag| + 2] == "<" + tag + ">";
    TagsAreNoComments(tag);
    assert s[1] == (tag + ">")[0] && (tag + ">")[0] != '!';
  }

  lemma TagEndAt(hidden: string, tag: string, rest: string)
    requires '<' !in hidden && '>' !in tag
    ensures TagEnd(hidden + ("<" + tag + ">" + rest)) == Some((|hidden|, |hidden| + |tag| + 2))
  {
    hide Find;
    var end := "<" + tag + ">" + rest;
    assert end == ("<" + tag) + (">" + rest) && end == "<" + (tag + ">" + rest);
    FindSkips(hidden, end, "<");
    FindAtOnce("<", tag + ">" + rest);
    FindSkips("<" + tag, ">" + rest, ">");
    FindAtOnce(">", rest);
    assert (hidden + end)[|hidden|..] == end;
  }

  /** Inside a suppressed element, the first `<` starts a tag; only the right closing tag ends the element. */
  lemma HiddenTurn(hidden: string, tag: string, name: string, rest: string)
    requires '<' !in hidden && '>' !in tag
    ensures Next(hidden + "<" + tag + ">" + rest, Some(name))
            == if KindOf(tag) == Tag(true, name) then (Piece(hidden + "<" + tag + ">", Resume(name)), None)
               else (Piece(hidden + "<" + tag + ">", Dropped), Some(name))
  {
    hide KindOf, TagEnd;
    var s := hidden + "<" + tag + ">" + rest;
    assert s == hidden + ("<" + tag + ">" + rest);
    TagEndAt(hidden, tag, rest);
    assert s[|hidden| + 1..|hidden| + 1 + |tag|] == tag && s[..|hidden| + |tag| + 2] == hidden + "<" + tag + ">";
  }

  /** The text before a `>` holds a closing tag of that name from its first `<` on. */
  predicate Closes(segment: string, name: string) {
    SplitOnce(segment, '<').Some? && KindOf(SplitOnce(segment, '<').value.1) == Tag(true, name)
  }

  /** What follows the first `>` that ends a closing tag of the name; nothing when none does. */
  function AfterElement(s: string, name: string): (r: Option<string>)
    ensures r.Some? ==> |r.value| < |s|
    decreases |s|
  {
    match SplitOnce(s, '>')
    case None => None
    case Some((segment, more)) => if Closes(segment, name) then Some(more) else AfterElement(more, name)
  }

  /** The same as the scanner looks for it: from tag to tag. */
  function AfterTags(s: string, name: string): Option<string>
    decreases |s|
  {
    match TagEnd(s)
    case None => None
    case Some((start, end)) =>
      if KindOf(s[start + 1..end - 1]) == Tag(true, name) then Some(s[end..]) else AfterTags(s[end..], name)
  }

  lemma TagEndShifts(skipped: string, s: string)
    requires '<' !in skipped
    ensures TagEnd(skipped + s).Some? <==> TagEnd(s).Some?
    ensures TagEnd(s).Some? ==>
      TagEnd(skipped + s) == Some((|skipped| + TagEnd(s).value.0, |skipped| + TagEnd(s).value.1))
  {
    hide Find;
    FindSkips(skipped, s, "<");
    var at := Find(s, "<");
    if at.Some? {
      assert (skipped + s)[|skipped| + at.value..] == s[at.value..];
    }
  }

  lemma {:induction false} TagsAreSegments(s: string, name: string)
    ensures AfterTags(s, name) == AfterElement(s, name)
    decreases |s|
  {
    hide TagEnd, KindOf, Closes;
    match SplitOnce(s, '>')
    case None =>
    case Some((segment, more)) =>
      TagsAreSegments(more, name);
      if SplitOnce(segment, '<').Some? {
        TagInSegment(segment, more, name);
      } else {
        NoTagInSegment(segment, more, name);
      }
  }

  lemma TagInSegment(segment: string, more: string, name: string)
    requires '>' !in segment && SplitOnce(segment, '<').Some?
    ensures AfterTags(segment + ">" + more, name) == if Closes(segment, name) then Some(more) else AfterTags(more, name)
  {
    hide TagEnd, KindOf;
    var (before, tag) := SplitOnce(segment, '<').value;
    var s := segment + ">" + more;
    Regrouped(before, tag, more);
    TagEndAt(before, tag, more);
  }

  lemma Regrouped(before: string, tag: string, more: string)
    ensures var s := before + ['<'] + tag + ">" + more;
      s == before + ("<" + tag + ">" + more)
      && s[|before| + 1..|before| + 1 + |tag|] == tag && s[|before| + |tag| + 2..] == more
  {
  }

  lemma NoTagInSegment(segment: string, more: string, name: string)
    requires '<' !in segment
    ensures !Closes(segment, name) && AfterTags(segment + ">" + more, name) == AfterTags(more, name)
  {
    hide TagEnd, KindOf;
    var skipped := segment + ">";
    var s := skipped + more;
    TagEndShifts(skipped, more);
    if TagEnd(more).Some? {
      var (start, end) := TagEnd(more).value;
      assert s[|skipped| + start + 1..|skipped| + end - 1] == more[start + 1..end - 1];
      assert s[|skipped| + end..] == more[end..];
    }
  }

  /** The output goes on after the element, or stays as it is. */
  function OutputAfter(decode: string -> string, rest: Option<string>, output: string): string {
    if rest.Some? then Output(decode, Scan(rest.value, None), output) else output
  }

  lemma HiddenIsSkipped(decode: string -> string, s: string, name: string, output: string)
    ensures Output(decode, Scan(s, Some(name)), output) == OutputAfter(decode, AfterElement(s, name), output)
  {
    hide Scan, Output, AfterElement, AfterTags;
    TagsAreSegments(s, name);
    TagsAreSkipped(decode, s, name, output);
  }

  lemma {:induction false} TagsAreSkipped(decode: string -> string, s: string, name: string, output: string)
    ensures Output(decode, Scan(s, Some(name)), output) == OutputAfter(decode, AfterTags(s, name), output)
    decreases |s|
  {
    hide KindOf, Scan, Output, Find;
    if s == "" {
      NothingLeft(decode, Some(name), output);
      FindInNothing("<");
    } else {
      Step(decode, s, Some(name), output);
      var (piece, after) := Next(s, Some(name));
      if after.Some? {
        if TagEnd(s).Some? {
          TagsAreSkipped(decode, s[|piece.text|..], name, output);
        } else {
          assert s[|s|..] == "";
          NothingLeft(decode, Some(name), output);
        }
      }
    }
  }

  /**
   * Main result: a suppressed element is skipped, whatever it holds: the output is that of what follows the
   * first closing tag of the same name.
   */
  lemma SuppressedElementIsSkipped(decode: string -> string, opening: string, inner: string, output: string)
    requires '>' !in opening && Suppresses(KindOf(opening))
    ensures Output(decode, Scan("<" + opening + ">" + inner, None), output)
            == OutputAfter(decode, AfterElement(inner, KindOf(opening).name), output)
  {
    hide KindOf, Next, Scan, Output, AfterElement, OutputAfter;
    var s := "<" + opening + ">" + inner;
    OpeningTurn(opening, inner);
    Step(decode, s, None, output);
    assert s[|"<" + opening + ">"|..] == inner;
    HiddenIsSkipped(decode, inner, KindOf(opening).name, output);
  }

  // ----- When an element ends at its closing tag -----

  /** The text after the last `>`. */
  function LastSegment(s: string): string
    decreases |s|
  {
    match SplitOnce(s, '>')
    case None => s
    case Some((_, more)) => LastSegment(more)
  }

  lemma {:induction false} NameStopsAtBracket(start: string, more: string)
    ensures NamePart(start + ("<" + more)) == NamePart(start)
  {
    if start == "" {
      assert start + ("<" + more) == "<" + more;
    } else {
      assert (start + ("<" + more))[1..] == start[1..] + ("<" + more);
      NameStopsAtBracket(start[1..], more);
    }
  }

  lemma {:induction false} TrimStopsAtBracket(s: string, more: string)
    ensures TrimStart(s + ("<" + more)) == TrimStart(s) + ("<" + more)
  {
    var end := "<" + more;
    if s == "" {
      assert end[0] == '<' && TrimStart(end) == end;
      assert s + end == end && TrimStart(s) + end == end;
    } else {
      assert (s + end)[0] == s[0] && (s + end)[1..] == s[1..] + end;
      TrimStopsAtBracket(s[1..], more);
    }
  }

  /** A tag is read as what it is before any `<` in it. */
  lemma BracketEndsTag(tag: string, more: string)
    ensures KindOf(tag + ("<" + more)) == KindOf(tag)
  {
    hide NamePart, ToLowerAscii, TrimStart;
    var end := "<" + more;
    TrimStopsAtBracket(tag, more);
    var trimmed := TrimStart(tag);
    FirstStays(trimmed, end);
    NameStopsAtBracket("", more);
    assert "" + end == end;
    if "/" <= trimmed {
      assert (trimmed + end)[1..] == trimmed[1..] + end;
      TrimStopsAtBracket(trimmed[1..], more);
      FirstStays(TrimStart(trimmed[1..]), end);
      NameStopsAtBracket(TrimStart(trimmed[1..]), more);
    } else {
      NameStopsAtBracket(trimmed, more);
    }
  }

  lemma FirstStays(s: string, end: string)
    requires "<" <= end
    ensures "/" <= s + end <==> "/" <= s
    ensures "!" <= s + end <==> "!" <= s
    ensures "?" <= s + end <==> "?" <= s
  {
    assert s != "" ==> (s + end)[0] == s[0];
    assert s == "" ==> (s + end)[0] == '<';
  }

  /**
   * Main result: behind content in which no closing tag of the name is read, a closing tag ends the element if
   * and only if the text after the last `>` of the content has no `<`, or reads as that closing tag itself;
   * otherwise the tag is swallowed and the element goes on.
   */
  lemma {:induction false} ElementEndsExactly(hidden: string, closing: string, rest: string, name: string)
    requires AfterElement(hidden, name).None?
    requires '<' !in closing && '>' !in closing && KindOf(closing) == Tag(true, name)
    ensures var ends := '<' !in LastSegment(hidden) || Closes(LastSegment(hidden), name);
      AfterElement(hidden + ("<" + closing + ">" + rest), name) == if ends then Some(rest) else AfterElement(rest, name)
    ensures AfterElement(hidden + ("<" + closing + ">" + rest), name) == Some(rest)
       <==> ('<' !in LastSegment(hidden) || Closes(LastSegment(hidden), name))
    decreases |hidden|
  {
    hide KindOf;
    var end := "<" + closing + ">" + rest;
    var s := hidden + end;
    match SplitOnce(hidden, '>')
    case Some((segment, more)) =>
      assert s == segment + ">" + (more + end);
      SplitOnceAt(segment, '>', more + end);
      ElementEndsExactly(more, closing, rest, name);
    case None =>
      var segment := hidden + ("<" + closing);
      assert s == segment + ">" + rest;
      SplitOnceAt(segment, '>', rest);
      match SplitOnce(hidden, '<') {
        case None =>
          assert segment == hidden + "<" + closing;
          SplitOnceAt(hidden, '<', closing);
        case Some((before, tag)) =>
          assert segment == before + "<" + (tag + ("<" + closing));
          SplitOnceAt(before, '<', tag + ("<" + closing));
          BracketEndsTag(tag, closing);
      }
  }

  /** The same for the preview: the output goes on right after the closing tag, or is still suppressed there. */
  lemma SuppressedElementEndsExactly(
      decode: string -> string, opening: string, hidden: string, closing: string, rest: string, output: string)
    requires '>' !in opening && Suppresses(KindOf(opening)) && AfterElement(hidden, KindOf(opening).name).None?
    requires '<' !in closing && '>' !in closing && KindOf(closing) == Tag(true, KindOf(opening).name)
    ensures var name := KindOf(opening).name;
      Output(decode, Scan("<" + opening + ">" + (hidden + ("<" + closing + ">" + rest)), None), output)
      == Output(
        decode,
        Scan(rest, if '<' !in LastSegment(hidden) || Closes(LastSegment(hidden), name) then None else Some(name)),
        output)
  {
    hide KindOf, Scan, Output, AfterElement, LastSegment, Closes;
    SuppressedElementIsSkipped(decode, opening, hidden + ("<" + closing + ">" + rest), output);
    ElementEndsExactly(hidden, closing, rest, KindOf(opening).name);
    HiddenIsSkipped(decode, rest, KindOf(opening).name, output);
  }

  /** An element whose content has no `<` leaves no trace: the output is that of the source without it. */
  lemma SuppressedElementLeavesNoTrace(
      decode: string -> string, opening: string, hidden: string, closing: string, rest: string, output: string)
    requires '>' !in opening && Suppresses(KindOf(opening))
    requires '<' !in hidden && '>' !in closing && KindOf(closing) == Tag(true, KindOf(opening).name)
    ensures Output(decode, Scan("<" + opening + ">" + (hidden + "<" + closing + ">" + rest), None), output)
            == Output(decode, Scan(rest, None), output)
  {
    hide KindOf, Next, Scan, Output;
    var inner := hidden + "<" + closing + ">" + rest;
    var s := "<" + opening + ">" + inner;
    OpeningTurn(opening, inner);
    Step(decode, s, None, output);
    assert s[|"<" + opening + ">"|..] == inner;
    HiddenTurn(hidden, closing, KindOf(opening).name, rest);
    Step(decode, inner, Some(KindOf(opening).name), output);
    assert inner[|hidden + "<" + closing + ">"|..] == rest;
  }

  /** Nor does a comment. */
  lemma CommentLeavesNoTrace(decode: string -> string, hidden: string, rest: string, output: string)
    requires Find(hidden + "-->" + rest, "-->") == Some(|hidden|)
    ensures Output(decode, Scan("<!--" + (hidden + "-->" + rest), None), output)
      == Output(decode, Scan(rest, None), output)
  {
    hide Find, Scan, Output;
    var inner := hidden + "-->" + rest;
    var s := "<!--" + inner;
    assert s[4..] == inner;
    Step(decode, s, None, output);
    assert s[|hidden| + 7..] == rest;
  }

  /** One way to fail: after `a<b` in a script the closing tag is taken for a part of a tag `b`. */
  lemma ComparisonSwallowsClosingTag(
      decode: string -> string, hidden: string, word: string, name: string, rest: string, output: string)
    requires '<' !in hidden && '>' !in name
    requires word != "" && forall c <- word :: IsAlphanumeric(c) && !('A' <= c <= 'Z')
    ensures Output(decode, Scan(hidden + "<" + (word + "</" + name) + ">" + rest, Some(name)), output)
            == Output(decode, Scan(rest, Some(name)), output)
  {
    hide KindOf, Next, Scan, Output;
    var tag := word + "</" + name;
    assert tag == word + ("</" + name);
    TagNameIsRead(word, "</" + name);
    HiddenTurn(hidden, tag, name, rest);
    var s := hidden + "<" + tag + ">" + rest;
    Step(decode, s, Some(name), output);
    assert s[|hidden + "<" + tag + ">"|..] == rest;
  }

  /** The preview is a list of trimmed, non-empty lines, and never empty. */
  lemma PreviewIsCleanLines(decode: string -> string, source: string)
    ensures var lines := CleanPieces(Preview(decode, source), "\n");
      lines != [] && Preview(decode, source) == Join(lines, "\n") && forall line <- lines :: Clean(line, "\n")
  {
    hide Output, Scan, Trim;
    var lines := CleanPieces(Output(decode, Scan(source, None), ""), "\n");
    CleanPiecesAreClean(Output(decode, Scan(source, None), ""), "\n");
    var shown := if lines == [] then ["(empty HTML document)"] else lines;
    CleanPiecesOfJoin(shown, '\n', "\n");
  }
}
