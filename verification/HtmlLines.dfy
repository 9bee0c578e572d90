/** Which lines the preview of a document has: what breaks a line, what does not, and what is left out. */
module HtmlLines {
  import opened Wrappers
  import opened Text
  import opened HtmlPreview
  import opened HtmlPreviewTheorems

  // ----- How tags are read -----

  predicate Spaces(s: string) {
    forall c <- s :: IsSpace(c)
  }

  /** What may follow the name in a tag. */
  predicate EndsName(attributes: string) {
    attributes == "" || !IsAlphanumeric(attributes[0])
  }

  predicate IsName(name: string) {
    name != "" && forall c <- name :: IsAlphanumeric(c)
  }

  lemma {:induction false} NamePartIs(name: string, attributes: string)
    requires (forall c <- name :: IsAlphanumeric(c)) && EndsName(attributes)
    ensures NamePart(name + attributes) == name
  {
    if name == "" {
      assert name + attributes == attributes;
    } else {
      assert (name + attributes)[1..] == name[1..] + attributes && name == [name[0]] + name[1..];
      NamePartIs(name[1..], attributes);
    }
  }

  lemma NameIsNoSpace(name: string, attributes: string)
    requires IsName(name)
    ensures TrimStart(name + attributes) == name + attributes
    ensures !("/" <= name + attributes) && !("!" <= name + attributes) && !("?" <= name + attributes)
  {
    var s := name + attributes;
    assert s[0] == name[0] && name[0] in name && IsAlphanumeric(s[0]);
  }

  lemma LowerIsNotEmpty(name: string)
    requires name != ""
    ensures ToLowerAscii(name) != ""
  {
  }

  /** White space before the name, and around the slash, does not matter; nor does the case of the letters. */
  lemma TagsAreRead(before: string, after: string, name: string, attributes: string)
    requires Spaces(before) && Spaces(after) && IsName(name) && EndsName(attributes)
    ensures KindOf(before + (name + attributes)) == Tag(false, ToLowerAscii(name))
    ensures KindOf(before + ("/" + (after + (name + attributes)))) == Tag(true, ToLowerAscii(name))
  {
    hide NamePart, ToLowerAscii, TrimStart, IsSpace;
    var inner := name + attributes;
    var slashed := "/" + (after + inner);
    NamePartIs(name, attributes);
    NameIsNoSpace(name, attributes);
    LowerIsNotEmpty(name);
    TrimStartTakesSpace(before, inner);
    TrimStartTakesSpace(after, inner);
    TrimStartTakesSpace(before, slashed);
    SlashStays(slashed);
    assert slashed[1..] == after + inner;
  }

  lemma SlashStays(s: string)
    requires "/" <= s
    ensures TrimStart(s) == s
  {
    assert s[0] == '/';
  }

  /** Nothing else is a tag. */
  lemma OtherTagsAreDropped(before: string, after: string, text: string)
    requires Spaces(before) && Spaces(after)
    requires text == "" || (!IsAlphanumeric(text[0]) && !IsSpace(text[0]))
    ensures (text == "" || text[0] != '/') ==> KindOf(before + text) == Dropped
    ensures KindOf(before + ("/" + (after + text))) == Dropped
  {
    hide ToLowerAscii, TrimStart, IsSpace;
    var slashed := "/" + (after + text);
    TrimStartTakesSpace(before, text);
    TrimStartTakesSpace(after, text);
    TrimStartTakesSpace(before, slashed);
    SlashStays(slashed);
    assert slashed[1..] == after + text;
    assert TrimStart(text) == text by { NoSpaceFirst(text); }
    assert NamePart(text) == "" && ToLowerAscii("") == "" by { NothingLower(); }
  }

  lemma NoSpaceFirst(text: string)
    requires text == "" || !IsSpace(text[0])
    ensures TrimStart(text) == text
  {
  }

  lemma NothingLower()
    ensures ToLowerAscii("") == ""
  {
  }

  // ----- Documents -----

  /** A part of a document: words, a tag, a comment, an element that is not shown. */
  datatype Part =
    | Words(text: string)
    | Markup(tag: string)
    | Comment(hidden: string)
    | Element(opening: string, content: string, closing: string)

  /** What a tag does: it starts a new line, and an item has a bullet. */
  predicate Breaks(kind: Kind) {
    kind.Tag?
    && ((!kind.closing && (kind.name == "br" || kind.name == "li"))
        || kind.name in ["address", "article", "aside", "blockquote", "div", "footer", "form", "h1", "h2", "h3", "h4",
                         "h5", "h6", "header", "hr", "main", "nav", "ol", "p", "pre", "section", "table", "tr", "ul"])
  }

  predicate IsItem(kind: Kind) {
    kind == Tag(false, "li")
  }

  predicate IsHidden(kind: Kind) {
    kind.Tag? && !kind.closing && kind.name in ["script", "style", "noscript", "template"]
  }

  predicate IsPart(part: Part) {
    match part
    case Words(text) => text != "" && '<' !in text
    case Markup(tag) => '>' !in tag && !("!--" <= tag) && !IsHidden(KindOf(tag))
    case Comment(hidden) => Find(hidden + "-->", "-->") == Some(|hidden|)
    case Element(opening, content, closing) =>
      && '>' !in opening && IsHidden(KindOf(opening)) && '<' !in content
      && '>' !in closing && KindOf(closing) == Tag(true, KindOf(opening).name)
  }

  function PartText(part: Part): string {
    match part
    case Words(text) => text
    case Markup(tag) => "<" + tag + ">"
    case Comment(hidden) => "<!--" + (hidden + "-->")
    case Element(opening, content, closing) => "<" + opening + ">" + (content + "<" + closing + ">")
  }

  /** How a document ends: at once, or with a `<` that no `>` follows, with which it is shown. */
  predicate IsEnd(end: string) {
    end == "" || (end[0] == '<' && '>' !in end && !("<!--" <= end))
  }

  function Document(parts: seq<Part>, end: string): string {
    if parts == [] then end else PartText(parts[0]) + Document(parts[1..], end)
  }

  /** Parts of a document as the scanner sees them: words go on to the next `<`. */
  predicate AreParts(parts: seq<Part>) {
    && (forall part <- parts :: IsPart(part))
    && forall i | 0 <= i < |parts| - 1 :: parts[i].Words? ==> !parts[i + 1].Words?
  }

  /** The lines of a document; `current` is what is already on the current line. */
  function Lines(decode: string -> string, parts: seq<Part>, end: string, current: string): seq<string>
    decreases |parts|
  {
    if parts == [] then CleanPieces(current + (if end == "" then "" else decode(end)), "\n")
    else
      match parts[0]
      case Words(text) => Lines(decode, parts[1..], end, current + decode(text))
      case Markup(tag) =>
        if Breaks(KindOf(tag)) then
          CleanPieces(current, "\n") + Lines(decode, parts[1..], end, if IsItem(KindOf(tag)) then "• " else "")
        else Lines(decode, parts[1..], end, current)
      case Comment(_) => Lines(decode, parts[1..], end, current)
      case Element(_, _, _) => Lines(decode, parts[1..], end, current)
  }

  // ----- Line breaks -----

  function OneLine(text: string): seq<string> {
    if Trim(text) == "" then [] else [Trim(text)]
  }

  lemma LastLine(s: string)
    requires '\n' !in s
    ensures CleanPieces(s, "\n") == OneLine(s)
  {
    hide Trim, UpTo;
    UpToSeparator(s, "", "\n");
    assert s + "" == s && s[..|s|] == s;
  }

  lemma FirstLine(line: string, rest: string)
    requires '\n' !in line
    ensures CleanPieces(line + ("\n" + rest), "\n") == OneLine(line) + CleanPieces(rest, "\n")
  {
    hide Trim, UpTo;
    var s := line + ("\n" + rest);
    UpToSeparator(line, "\n" + rest, "\n");
    assert s[..|line|] == line && s[|line| + 1..] == rest;
  }

  /** A line feed ends a line. */
  lemma {:induction false} LinesApart(s: string, more: string)
    ensures CleanPieces(s + "\n" + more, "\n") == CleanPieces(s, "\n") + CleanPieces(more, "\n")
    decreases |s|
  {
    hide CleanPieces, OneLine;
    if '\n' !in s {
      LastLine(s);
      FirstLine(s, more);
      assert s + "\n" + more == s + ("\n" + more);
    } else {
      var (line, rest) := SplitOnce(s, '\n').value;
      assert s == line + ("\n" + rest);
      assert s + "\n" + more == line + ("\n" + (rest + "\n" + more));
      FirstLine(line, rest);
      FirstLine(line, rest + "\n" + more);
      LinesApart(rest, more);
      Associate(OneLine(line), CleanPieces(rest, "\n"), CleanPieces(more, "\n"));
    }
  }

  lemma NothingClean()
    ensures CleanPieces("", "\n") == []
  {
  }

  /** Text that nothing is open in: it is empty or ends with a line feed. */
  predicate AtLineStart(done: string) {
    done == "" || done[|done| - 1] == '\n'
  }

  lemma DoneAndCurrent(done: string, current: string)
    requires AtLineStart(done)
    ensures CleanPieces(done + current, "\n") == CleanPieces(done, "\n") + CleanPieces(current, "\n")
  {
    hide CleanPieces;
    NothingClean();
    if done == "" {
      assert done + current == current && [] + CleanPieces(current, "\n") == CleanPieces(current, "\n");
    } else {
      var before := done[..|done| - 1];
      assert done == before + "\n" && done + current == before + "\n" + current && done == before + "\n" + "";
      LinesApart(before, current);
      LinesApart(before, "");
      assert CleanPieces(before, "\n") + [] == CleanPieces(before, "\n");
    }
  }

  lemma NewLineStarts(output: string)
    ensures AtLineStart(NewLine(output)) && CleanPieces(NewLine(output), "\n") == CleanPieces(output, "\n")
  {
    hide CleanPieces;
    NothingClean();
    LinesApart(output, "");
    assert output + "\n" + "" == output + "\n" && CleanPieces(output, "\n") + [] == CleanPieces(output, "\n");
  }

  // ----- One part -----

  lemma WordsTurn(text: string, rest: string)
    requires text != "" && '<' !in text && (rest == "" || rest[0] == '<')
    ensures Next(text + rest, None) == (Piece(text, Shown), None)
  {
    hide KindOf, Find;
    var s := text + rest;
    assert s[0] == text[0] && text[0] in text;
    FindSkips(text, rest, "<");
    if rest == "" {
      FindInNothing("<");
      assert s == text;
    } else {
      assert rest == "<" + rest[1..];
      FindAtOnce("<", rest[1..]);
    }
    assert s[..|text|] == text && s[..|s|] == s;
  }

  lemma MarkupTurn(tag: string, rest: string)
    requires '>' !in tag && !("!--" <= tag) && !Suppresses(KindOf(tag))
    ensures Next("<" + tag + ">" + rest, None) == (Piece("<" + tag + ">", KindOf(tag)), None)
  {
    hide KindOf, Find;
    var s := "<" + tag + ">" + rest;
    assert s == ("<" + tag) + (">" + rest);
    FindSkips("<" + tag, ">" + rest, ">");
    FindAtOnce(">", rest);
    assert s[1..|tag| + 1] == tag && s[..|tag| + 2] == "<" + tag + ">";
    if "<!--" <= s {
      CommentStart(tag, rest);
    }
  }

  lemma CommentStart(tag: string, rest: string)
    requires '>' !in tag && "<!--" <= "<" + tag + ">" + rest
    ensures "!--" <= tag
  {
    var s, start := "<" + tag + ">" + rest, "<!--";
    assert s[1] == start[1] != '>' && s[2] == start[2] != '>' && s[3] == start[3] != '>';
    assert s[|tag| + 1] == '>';
    assert |tag| >= 3;
    assert tag[0] == s[1] && tag[1] == s[2] && tag[2] == s[3];
    assert tag[..3] == "!--";
  }

  lemma SameHidden(kind: Kind)
    ensures IsHidden(kind) <==> Suppresses(kind)
  {
  }

  /** What a tag that is shown adds to the output. */
  lemma MarkupEmits(decode: string -> string, output: string, piece: Piece)
    requires !piece.kind.Shown? && !IsHidden(piece.kind)
    ensures Emit(decode, output, piece)
         == if Breaks(piece.kind) then NewLine(output) + (if IsItem(piece.kind) then "• " else "") else output
  {
    SameHidden(piece.kind);
    assert NewLine(output) + "" == NewLine(output);
  }

  lemma {:induction false} FoundInLonger(s: string, rest: string, needle: string)
    requires Find(s, needle).Some?
    ensures Find(s + rest, needle) == Find(s, needle)
  {
    if !(needle <= s) {
      assert (s + rest)[1..] == s[1..] + rest;
      FoundInLonger(s[1..], rest, needle);
    }
    SamePrefix(s, rest, needle);
  }

  lemma SamePrefix(s: string, rest: string, needle: string)
    ensures |needle| <= |s| ==> (needle <= s + rest <==> needle <= s)
  {
    if |needle| <= |s| {
      assert (s + rest)[..|needle|] == s[..|needle|];
    }
  }

  lemma OpenEndTurn(end: string)
    requires IsEnd(end) && end != ""
    ensures Next(end, None) == (Piece(end, Shown), None)
  {
    hide KindOf, Find;
    FindFirst(end, '>');
  }

  // ----- The whole document -----

  lemma EndIsShown(decode: string -> string, end: string, output: string)
    requires IsEnd(end)
    ensures Output(decode, Scan(end, None), output) == output + (if end == "" then "" else decode(end))
  {
    hide Scan, Output, Next;
    if end == "" {
      NothingLeft(decode, None, output);
      assert output + "" == output;
    } else {
      OpenEndTurn(end);
      Step(decode, end, None, output);
      ShownIsDecoded(decode, output, Piece(end, Shown));
      assert end[|end|..] == "";
      NothingLeft(decode, None, output + decode(end));
    }
  }

  lemma WordsAreShown(decode: string -> string, text: string, rest: string, output: string)
    requires text != "" && '<' !in text && (rest == "" || rest[0] == '<')
    ensures Output(decode, Scan(text + rest, None), output) == Output(decode, Scan(rest, None), output + decode(text))
  {
    hide Scan, Output, Next;
    WordsTurn(text, rest);
    Step(decode, text + rest, None, output);
    ShownIsDecoded(decode, output, Piece(text, Shown));
    assert (text + rest)[|text|..] == rest;
  }

  lemma MarkupIsRead(decode: string -> string, tag: string, rest: string, output: string)
    requires IsPart(Markup(tag))
    ensures Output(decode, Scan("<" + tag + ">" + rest, None), output)
         == Output(decode, Scan(rest, None),
                   if Breaks(KindOf(tag)) then NewLine(output) + (if IsItem(KindOf(tag)) then "• " else "")
                   else output)
  {
    hide KindOf, Scan, Output, Next, Breaks, NewLine, Emit;
    var piece := Piece("<" + tag + ">", KindOf(tag));
    SameHidden(KindOf(tag));
    MarkupTurn(tag, rest);
    Step(decode, "<" + tag + ">" + rest, None, output);
    MarkupEmits(decode, output, piece);
    assert ("<" + tag + ">" + rest)[|piece.text|..] == rest;
  }

  /** A comment or an element that is not shown leaves no trace. */
  lemma HiddenPartLeavesNoTrace(decode: string -> string, part: Part, rest: string, output: string)
    requires IsPart(part) && (part.Comment? || part.Element?)
    ensures Output(decode, Scan(PartText(part) + rest, None), output) == Output(decode, Scan(rest, None), output)
  {
    hide KindOf, Scan, Output, Find;
    match part
    case Comment(hidden) =>
      FoundInLonger(hidden + "-->", rest, "-->");
      assert PartText(part) + rest == "<!--" + (hidden + "-->" + rest);
      CommentLeavesNoTrace(decode, hidden, rest, output);
    case Element(opening, content, closing) =>
      SameHidden(KindOf(opening));
      assert PartText(part) + rest == "<" + opening + ">" + (content + "<" + closing + ">" + rest);
      SuppressedElementLeavesNoTrace(decode, opening, content, closing, rest, output);
  }

  lemma RestOfParts(parts: seq<Part>, end: string)
    requires AreParts(parts) && parts != [] && IsEnd(end)
    ensures AreParts(parts[1..]) && IsPart(parts[0])
    ensures parts[0].Words? ==> Document(parts[1..], end) == "" || Document(parts[1..], end)[0] == '<'
  {
    hide IsPart;
    assert forall part <- parts[1..] :: part in parts;
    if parts[0].Words? && |parts| > 1 {
      assert !parts[1].Words?;
      var next := PartText(parts[1]);
      assert next[0] == '<' && Document(parts[1..], end)[0] == next[0];
    }
  }

  lemma {:induction false} OutputHasLines(
    decode: string -> string, parts: seq<Part>, end: string, done: string, current: string)
    requires AreParts(parts) && IsEnd(end) && AtLineStart(done)
    ensures CleanPieces(Output(decode, Scan(Document(parts, end), None), done + current), "\n")
         == CleanPieces(done, "\n") + Lines(decode, parts, end, current)
    decreases |parts|
  {
    hide KindOf, Scan, Output, CleanPieces, AreParts, IsPart, PartText, Breaks, NewLine, IsEnd, AtLineStart;
    if parts == [] {
      var last := if end == "" then "" else decode(end);
      EndIsShown(decode, end, done + current);
      assert done + current + last == done + (current + last);
      DoneAndCurrent(done, current + last);
    } else {
      var rest := Document(parts[1..], end);
      RestOfParts(parts, end);
      match parts[0]
      case Words(text) =>
        assert PartText(parts[0]) == text && IsPart(parts[0]) by { TextOfWords(text, parts[0]); }
        WordsAreParts(text);
        WordsAreShown(decode, text, rest, done + current);
        assert done + current + decode(text) == done + (current + decode(text));
        OutputHasLines(decode, parts[1..], end, done, current + decode(text));
      case Markup(tag) =>
        TextOfMarkup(tag);
        MarkupIsRead(decode, tag, rest, done + current);
        if Breaks(KindOf(tag)) {
          var mark := if IsItem(KindOf(tag)) then "• " else "";
          NewLineStarts(done + current);
          DoneAndCurrent(done, current);
          OutputHasLines(decode, parts[1..], end, NewLine(done + current), mark);
          Associate(CleanPieces(done, "\n"), CleanPieces(current, "\n"), Lines(decode, parts[1..], end, mark));
        } else {
          OutputHasLines(decode, parts[1..], end, done, current);
        }
      case _ =>
        HiddenPartLeavesNoTrace(decode, parts[0], rest, done + current);
        OutputHasLines(decode, parts[1..], end, done, current);
    }
  }

  lemma Associate<T>(a: seq<T>, b: seq<T>, c: seq<T>)
    ensures a + b + c == a + (b + c)
  {
  }

  lemma TextOfWords(text: string, part: Part)
    requires part == Words(text) && IsPart(part)
    ensures PartText(part) == text && IsPart(part)
  {
  }

  lemma WordsAreParts(text: string)
    ensures IsPart(Words(text)) ==> text != "" && '<' !in text
  {
  }

  lemma TextOfMarkup(tag: string)
    ensures PartText(Markup(tag)) == "<" + tag + ">"
  {
  }

  /**
   * Main result: the preview of a document has these lines, trimmed and without empty ones. `br`, `li` and the block
   * tags start a line, an item with a bullet; other tags do not; comments and hidden elements leave no trace.
   */
  lemma PreviewHasLines(decode: string -> string, parts: seq<Part>, end: string)
    requires AreParts(parts) && IsEnd(end)
    ensures var lines := Lines(decode, parts, end, "");
      Preview(decode, Document(parts, end)) == if lines == [] then "(empty HTML document)" else Join(lines, "\n")
  {
    hide Scan, Output, CleanPieces, AreParts, IsEnd, Document, Lines;
    OutputHasLines(decode, parts, end, "", "");
    NothingClean();
    assert "" + "" == "" && [] + Lines(decode, parts, end, "") == Lines(decode, parts, end, "");
  }

  /** Text before and after a tag is on two lines exactly when the tag breaks the line. */
  lemma TagSeparates(decode: string -> string, before: string, tag: string, after: string)
    requires IsPart(Words(before)) && IsPart(Markup(tag)) && IsPart(Words(after))
    ensures var lines :=
        if Breaks(KindOf(tag)) then
          CleanPieces(decode(before), "\n")
          + CleanPieces((if IsItem(KindOf(tag)) then "• " else "") + decode(after), "\n")
        else CleanPieces(decode(before) + decode(after), "\n");
      Preview(decode, before + ("<" + tag + ">" + after))
      == if lines == [] then "(empty HTML document)" else Join(lines, "\n")
  {
    hide KindOf, CleanPieces, Preview, IsPart, Breaks, IsItem;
    var last := [Words(after)];
    var parts := [Words(before)] + ([Markup(tag)] + last);
    assert parts[1..] == [Markup(tag)] + last && ([Markup(tag)] + last)[1..] == last && last[1..] == [];
    assert AreParts(parts);
    PreviewHasLines(decode, parts, "");
    assert Document(last, "") == after + "" == after;
    assert Document([Markup(tag)] + last, "") == "<" + tag + ">" + after;
    assert Document(parts, "") == before + ("<" + tag + ">" + after);
    LastWords(decode, after, "");
    LastWords(decode, after, "• ");
    LastWords(decode, after, decode(before));
    assert "" + decode(before) == decode(before);
    assert Lines(decode, parts, "", "") == Lines(decode, [Markup(tag)] + last, "", decode(before));
  }

  lemma LastWords(decode: string -> string, text: string, current: string)
    ensures Lines(decode, [Words(text)], "", current) == CleanPieces(current + decode(text), "\n")
  {
    hide CleanPieces;
    assert [Words(text)][1..] == [] && current + decode(text) + "" == current + decode(text);
  }
}
