/** Resolving a template means expanding it, for every context whose values are templates. */
module VariablesTheorems {
  import opened Wrappers
  import opened Text
  import opened Variables

  // ----- Templates and their text -----

  /** Literal text, or `{{raw}}`, where `raw` is a name that may have white space around it, or is blank. */
  datatype Piece = Lit(text: string) | Var(raw: string)

  type Template = seq<Piece>

  /** A character that is neither doubled nor last. */
  predicate Single(s: string, c: char) {
    forall i | 0 <= i < |s| && s[i] == c :: i + 1 < |s| && s[i + 1] != c
  }

  /** A literal does not open an expression, alone or with what follows; an expression is not closed early. */
  predicate WellFormedPiece(p: Piece) {
    match p
    case Lit(text) => Single(text, '{')
    case Var(raw) => Single(raw, '}')
  }

  predicate WellFormed(t: Template) {
    forall i | 0 <= i < |t| :: WellFormedPiece(t[i])
  }

  function ShowPiece(p: Piece): string {
    match p
    case Lit(text) => text
    case Var(raw) => "{{" + raw + "}}"
  }

  function Show(t: Template): string {
    if t == [] then "" else ShowPiece(t[0]) + Show(t[1..])
  }

  predicate Named(p: Piece) {
    p.Var? && !Blank(p.raw)
  }

  /** The names a template mentions, in order. */
  function Names(t: Template): seq<string> {
    if t == [] then []
    else (if Named(t[0]) then [Trim(t[0].raw)] else []) + Names(t[1..])
  }

  /** An empty name for each blank between double braces. */
  function Blanks(t: Template): seq<string> {
    if t == [] then []
    else (if t[0].Var? && Blank(t[0].raw) then [""] else []) + Blanks(t[1..])
  }

  /** A text in which the character never comes twice in a row. */
  predicate NoPair(s: string, c: char) {
    forall i | 0 <= i < |s| - 1 :: !(s[i] == c && s[i + 1] == c)
  }

  /** How a text goes on after its last expression: it opens no further one, or one that it never closes. */
  predicate Closing(end: string) {
    NoPair(end, '{') || ("{{" <= end && NoPair(end[2..], '}'))
  }

  /** What is missing its closing braces at the end. */
  function LeftOpen(end: string): seq<string> {
    if "{{" <= end then [Trim(end[2..])] else []
  }

  /** Definitions of names by templates. */
  type Definitions = map<string, Template>

  /** What a template mentions is defined here, or not at all in the context. */
  predicate Covers(t: Template, defs: Definitions, context: VariableContext) {
    forall name <- Names(t) :: name in defs || Lookup(context, name).None?
  }

  /**
   * The context gives each defined name the text of its template, and no value to another name that the template or
   * a definition mentions. So the definitions are those that are reachable from the template; other variables of the
   * context may have any value.
   */
  ghost predicate Describes(t: Template, defs: Definitions, context: VariableContext) {
    Covers(t, defs, context)
    && forall name <- defs ::
      WellFormed(defs[name]) && Lookup(context, name) == Some(Show(defs[name])) && Covers(defs[name], defs, context)
  }

  lemma CoversRest(t: Template, defs: Definitions, context: VariableContext)
    requires t != [] && Covers(t, defs, context)
    ensures Covers(t[1..], defs, context)
    ensures Named(t[0]) ==> Trim(t[0].raw) in defs || Lookup(context, Trim(t[0].raw)).None?
  {
    forall name <- Names(t[1..]) ensures name in Names(t) {
    }
    if Named(t[0]) {
      assert Names(t)[0] == Trim(t[0].raw);
    }
  }

  lemma CoversBoth(s: Template, t: Template, defs: Definitions, context: VariableContext)
    requires Covers(s, defs, context) && Covers(t, defs, context)
    ensures Covers(s + t, defs, context)
  {
    NamesConcat(s, t);
  }

  lemma CoversOne(p: Piece, defs: Definitions, context: VariableContext)
    requires Named(p) ==> Trim(p.raw) in defs || Lookup(context, Trim(p.raw)).None?
    ensures Covers([p], defs, context)
  {
    assert [p][1..] == [];
  }

  // ----- One round of substitution is one round of expansion -----

  predicate Inserts(p: Piece, defs: Definitions) {
    Named(p) && Trim(p.raw) in defs
  }

  function ExpandPiece(p: Piece, defs: Definitions): Template {
    if Inserts(p, defs) then defs[Trim(p.raw)] else [p]
  }

  function Expand(t: Template, defs: Definitions): Template {
    if t == [] then [] else ExpandPiece(t[0], defs) + Expand(t[1..], defs)
  }

  lemma {:induction false} ShowConcat(s: Template, t: Template)
    ensures Show(s + t) == Show(s) + Show(t)
  {
    if s == [] {
      assert s + t == t;
    } else {
      assert (s + t)[1..] == s[1..] + t;
      ShowConcat(s[1..], t);
    }
  }

  /** Text with single characters only is skipped by the search for the doubled one. */
  lemma {:induction false} FindSkipsSingle(text: string, rest: string, c: char)
    requires Single(text, c)
    ensures Find(text + rest, [c, c]).Some? <==> Find(rest, [c, c]).Some?
    ensures Find(rest, [c, c]).Some? ==> Find(text + rest, [c, c]) == Some(|text| + Find(rest, [c, c]).value)
  {
    hide Find;
    var all := text + rest;
    if text == "" {
      assert all == rest;
    } else {
      assert all[1..] == text[1..] + rest;
      assert forall i | 0 <= i < |text[1..]| :: text[1..][i] == text[i + 1];
      FindSkipsSingle(text[1..], rest, c);
      NotThere(text, rest, c);
      FindNext(all, [c, c]);
    }
  }

  lemma FindNext(s: string, needle: string)
    requires s != "" && !(needle <= s)
    ensures Find(s, needle) == match Find(s[1..], needle) case None => None case Some(i) => Some(i + 1)
  {
  }

  lemma NotThere(text: string, rest: string, c: char)
    requires Single(text, c) && text != ""
    ensures !([c, c] <= text + rest)
  {
    assert [c, c][1] == c && (text + rest)[0] == text[0];
    if text[0] == c {
      assert (text + rest)[1] == text[1] != c;
    }
  }

  lemma SkipScan(text: string, rest: string)
    requires Single(text, '{')
    ensures NextExpression(text + rest)
         == match NextExpression(rest)
            case Expression(before, raw, after) => Expression(text + before, raw, after)
            case scan => scan
  {
    hide Find;
    FindSkipsSingle(text, rest, '{');
    if Find(rest, "{{").Some? {
      var start := Find(rest, "{{").value;
      assert (text + rest)[|text| + start + 2..] == rest[start + 2..];
    }
  }

  lemma SkipLiteral(text: string, rest: string, context: VariableContext)
    requires Single(text, '{')
    ensures var p := Substitute(rest, context);
      Substitute(text + rest, context) == Pass(text + p.value, p.names, p.malformed)
  {
    hide NextExpression, Trim, Shown;
    SkipScan(text, rest);
    var scan := NextExpression(rest);
    if scan.Expression? {
      var tail := Substitute(scan.after, context).value;
      var inserted := Shown(context, scan.raw);
      assert (text + scan.before) + inserted + tail == text + (scan.before + inserted + tail);
    }
  }

  lemma ReadVariable(raw: string, rest: string, context: VariableContext)
    requires Single(raw, '}')
    ensures var p := Substitute(rest, context);
      Substitute("{{" + raw + "}}" + rest, context)
      == Pass(Shown(context, raw) + p.value, (if Blank(raw) then [] else [Trim(raw)]) + p.names,
              (if Blank(raw) then [""] else []) + p.malformed)
  {
    hide Trim, Shown, NextExpression;
    ScanVariable(raw, rest);
  }

  lemma ScanVariable(raw: string, rest: string)
    requires Single(raw, '}')
    ensures NextExpression("{{" + raw + "}}" + rest) == Expression("", raw, rest)
  {
    hide Find, Single;
    var open_, close := "{{", "}}";
    var inner := raw + (close + rest);
    Bracketed(open_, raw, close, rest);
    FindAtOnce(open_, inner);
    FindSkipsSingle(raw, close + rest, '}');
    FindAtOnce(close, rest);
    assert ['}', '}'] == close;
  }

  lemma Bracketed(start: string, raw: string, end: string, rest: string)
    requires |start| == |end| == 2
    ensures var input := start + raw + end + rest;
      input == start + (raw + (end + rest)) && input[2..] == raw + (end + rest) && input[..0] == ""
      && input[2..2 + |raw|] == raw && input[2 + |raw| + 2..] == rest
  {
  }

  /** What the search finds is the first occurrence, and it finds nothing only where there is none. */
  lemma {:induction false} PairNotFound(s: string, c: char)
    ensures NoPair(s, c) <==> Find(s, [c, c]).None?
    ensures Find(s, [c, c]).Some? ==> Single(s[..Find(s, [c, c]).value], c)
  {
    if s != "" {
      PairNotFound(s[1..], c);
      if [c, c] <= s {
        assert s[0] == [c, c][0] && s[1] == [c, c][1];
      } else {
        NoPairStep(s, c);
        if Find(s[1..], [c, c]).Some? {
          SingleStep(s, Find(s[1..], [c, c]).value, c);
        }
      }
    }
  }

  lemma NoPairStep(s: string, c: char)
    requires s != "" && !([c, c] <= s)
    ensures NoPair(s, c) <==> NoPair(s[1..], c)
  {
    if NoPair(s[1..], c) {
      forall i | 0 <= i < |s| - 1 ensures !(s[i] == c && s[i + 1] == c) {
        if i > 0 {
          assert s[1..][i - 1] == s[i] && s[1..][i] == s[i + 1];
        }
      }
    }
    if NoPair(s, c) {
      forall i | 0 <= i < |s[1..]| - 1 ensures !(s[1..][i] == c && s[1..][i + 1] == c) {
        assert s[1..][i] == s[i + 1] && s[1..][i + 1] == s[i + 2];
      }
    }
  }

  lemma SingleStep(s: string, n: nat, c: char)
    requires n + 3 <= |s| && !([c, c] <= s) && Single(s[1..][..n], c) && s[1..][n] == c
    ensures Single(s[..n + 1], c)
  {
    var start := s[..n + 1];
    forall i | 0 <= i < |start| && start[i] == c ensures i + 1 < |start| && start[i + 1] != c {
      if i > 0 {
        assert s[1..][..n][i - 1] == start[i];
        assert i < n && s[1..][..n][i] == start[i + 1];
      } else {
        assert s[1] == s[1..][0];
      }
    }
  }

  /** The end of a text is kept as it is written; an expression that it does not close is malformed. */
  lemma SubstituteClosing(end: string, context: VariableContext)
    requires Closing(end)
    ensures Substitute(end, context) == Pass(end, [], LeftOpen(end))
  {
    hide Find, Trim;
    PairNotFound(end, '{');
    assert "{{" == ['{', '{'] && "}}" == ['}', '}'];
    if "{{" <= end {
      assert end == "{{" + end[2..];
      FindAtOnce("{{", end[2..]);
      PairNotFound(end[2..], '}');
      assert !NoPair(end, '{') by { assert end[0] == "{{"[0] && end[1] == "{{"[1]; }
    }
  }

  lemma {:induction false} NamesConcat(s: Template, t: Template)
    ensures Names(s + t) == Names(s) + Names(t)
  {
    hide Named, Trim, Blank;
    if s == [] {
      assert s + t == t;
    } else {
      assert (s + t)[1..] == s[1..] + t;
      NamesConcat(s[1..], t);
    }
  }

  lemma {:induction false} BlanksConcat(s: Template, t: Template)
    ensures Blanks(s + t) == Blanks(s) + Blanks(t)
  {
    if s == [] {
      assert s + t == t;
    } else {
      assert (s + t)[1..] == s[1..] + t;
      BlanksConcat(s[1..], t);
    }
  }

  lemma ShowOne(p: Piece)
    ensures Show([p]) == ShowPiece(p)
  {
    hide ShowPiece;
    assert [p][1..] == [] && ShowPiece(p) + "" == ShowPiece(p);
  }

  lemma NamesOfOne(p: Piece)
    ensures Names([p]) == if Named(p) then [Trim(p.raw)] else []
    ensures Blanks([p]) == if p.Var? && Blank(p.raw) then [""] else []
  {
    hide Named, Blank, Trim;
    assert [p][1..] == [];
  }

  lemma ConcatOne(t: Template)
    requires t != []
    ensures t == [t[0]] + t[1..] && Show(t) == ShowPiece(t[0]) + Show(t[1..])
    ensures Names(t) == Names([t[0]]) + Names(t[1..]) && Blanks(t) == Blanks([t[0]]) + Blanks(t[1..])
  {
    hide *;
    assert t == [t[0]] + t[1..];
    ShowConcat([t[0]], t[1..]);
    ShowOne(t[0]);
    NamesConcat([t[0]], t[1..]);
    BlanksConcat([t[0]], t[1..]);
  }

  lemma ReadLiteral(text: string, rest: string, defs: Definitions, context: VariableContext)
    requires Single(text, '{')
    ensures var p, r := Lit(text), Substitute(rest, context);
      Substitute(ShowPiece(p) + rest, context)
      == Pass(Show(ExpandPiece(p, defs)) + r.value, Names([p]) + r.names, Blanks([p]) + r.malformed)
  {
    hide Find, Trim, Substitute, Single, Show, Names, Blanks;
    var r := Substitute(rest, context);
    ShowOne(Lit(text));
    NamesOfOne(Lit(text));
    SkipLiteral(text, rest, context);
    assert [] + r.names == r.names && [] + r.malformed == r.malformed;
  }

  lemma ReadPiece(p: Piece, rest: string, defs: Definitions, context: VariableContext)
    requires WellFormedPiece(p)
    requires Inserts(p, defs) ==> Lookup(context, Trim(p.raw)) == Some(Show(defs[Trim(p.raw)]))
    requires Named(p) && !Inserts(p, defs) ==> Lookup(context, Trim(p.raw)).None?
    ensures var r := Substitute(rest, context);
      Substitute(ShowPiece(p) + rest, context)
      == Pass(Show(ExpandPiece(p, defs)) + r.value, Names([p]) + r.names, Blanks([p]) + r.malformed)
  {
    hide Trim, Substitute, Shown, Lookup, Single, Show, Names, Blanks, Blank, ExpandPiece, Inserts;
    match p
    case Lit(text) => ReadLiteral(text, rest, defs, context);
    case Var(raw) =>
      NamesOfOne(p);
      ReadVariable(raw, rest, context);
      ShownIsExpansion(raw, defs, context);
  }

  lemma Regroup<T>(a: seq<T>, b: seq<T>, c: seq<T>)
    ensures a + b + c == a + (b + c)
  {
  }

  lemma DescribesFirst(t: Template, defs: Definitions, context: VariableContext)
    requires t != [] && WellFormed(t) && Describes(t, defs, context)
    ensures WellFormedPiece(t[0]) && WellFormed(t[1..]) && Describes(t[1..], defs, context)
    ensures Inserts(t[0], defs) ==> Lookup(context, Trim(t[0].raw)) == Some(Show(defs[Trim(t[0].raw)]))
    ensures Named(t[0]) && !Inserts(t[0], defs) ==> Lookup(context, Trim(t[0].raw)).None?
  {
    hide Trim, Lookup, Show, Names, WellFormedPiece;
    CoversRest(t, defs, context);
  }

  lemma ExpandFirst(t: Template, defs: Definitions)
    requires t != []
    ensures Show(Expand(t, defs)) == Show(ExpandPiece(t[0], defs)) + Show(Expand(t[1..], defs))
  {
    ShowConcat(ExpandPiece(t[0], defs), Expand(t[1..], defs));
  }

  /**
   * Every text is a template and an end. The string rewriting of it is exactly the expansion of the template: a blank
   * between double braces and the end are kept as they are written, and both are malformed.
   */
  lemma {:induction false} SubstituteExpands(t: Template, end: string, defs: Definitions, context: VariableContext)
    requires WellFormed(t) && Closing(end) && Describes(t, defs, context)
    ensures Substitute(Show(t) + end, context)
         == Pass(Show(Expand(t, defs)) + end, Names(t), Blanks(t) + LeftOpen(end))
  {
    hide *;
    if t == [] {
      SubstituteClosing(end, context);
      NothingShown(defs);
      assert "" + end == end && [] + LeftOpen(end) == LeftOpen(end);
    } else {
      var rest := Show(t[1..]) + end;
      DescribesFirst(t, defs, context);
      SubstituteExpands(t[1..], end, defs, context);
      ReadPiece(t[0], rest, defs, context);
      ConcatOne(t);
      ExpandFirst(t, defs);
      Regroup(ShowPiece(t[0]), Show(t[1..]), end);
      Regroup(Show(ExpandPiece(t[0], defs)), Show(Expand(t[1..], defs)), end);
      Regroup(Blanks([t[0]]), Blanks(t[1..]), LeftOpen(end));
    }
  }

  lemma NothingShown(defs: Definitions)
    ensures Show([]) == "" && Show(Expand([], defs)) == "" && Names([]) == [] && Blanks([]) == []
  {
  }

  lemma SplitAround(s: string, i: nat, mark: string)
    requires i + |mark| <= |s| && s[i..i + |mark|] == mark
    ensures s == s[..i] + (mark + s[i + |mark|..])
  {
  }

  /** The text before the first doubled character, and what follows the pair. */
  lemma CutAtPair(s: string, c: char) returns (before: string, after: string)
    requires Find(s, [c, c]).Some?
    ensures before == s[..Find(s, [c, c]).value] && after == s[Find(s, [c, c]).value + 2..]
    ensures Single(before, c) && s == before + ([c, c] + after)
  {
    hide Find, Single;
    var i := Find(s, [c, c]).value;
    before, after := s[..i], s[i + 2..];
    PairNotFound(s, c);
    SplitAround(s, i, [c, c]);
  }

  lemma ReadFirst(text: string) returns (t: Template, rest: string)
    requires Find(text, "{{").Some? && Find(text[Find(text, "{{").value + 2..], "}}").Some?
    ensures WellFormed(t) && text == Show(t) + rest && |rest| < |text|
  {
    hide Find, Single, Show;
    assert "{{" == ['{', '{'] && "}}" == ['}', '}'];
    var before, inner := CutAtPair(text, '{');
    var raw, after := CutAtPair(inner, '}');
    t, rest := [Lit(before), Var(raw)], after;
    ShowTwo(before, raw, rest);
  }

  lemma ShowTwo(text: string, raw: string, rest: string)
    ensures Show([Lit(text), Var(raw)]) + rest == text + ("{{" + (raw + ("}}" + rest)))
  {
    var t := [Lit(text), Var(raw)];
    assert t[1..] == [Var(raw)] && [Var(raw)][1..] == [];
    assert Show([Var(raw)]) == "{{" + raw + "}}" + "";
    assert Show(t) == text + ("{{" + raw + "}}");
  }

  lemma ReadEnd(text: string) returns (t: Template, end: string)
    requires Find(text, "{{").Some? ==> Find(text[Find(text, "{{").value + 2..], "}}").None?
    ensures WellFormed(t) && Closing(end) && text == Show(t) + end
  {
    hide Find, Single;
    PairNotFound(text, '{');
    assert "{{" == ['{', '{'] && "}}" == ['}', '}'];
    match Find(text, "{{")
    case None =>
      t, end := [], text;
    case Some(start) =>
      t, end := [Lit(text[..start])], text[start..];
      PairNotFound(end[2..], '}');
      assert end[2..] == text[start + 2..] && t[1..] == [];
  }

  /** Every text is the text of a template followed by an end. */
  lemma {:induction false} EveryTextIsWritten(text: string) returns (t: Template, end: string)
    ensures WellFormed(t) && Closing(end) && text == Show(t) + end
    decreases |text|
  {
    hide Find, Show, Closing, WellFormedPiece;
    if Find(text, "{{").Some? && Find(text[Find(text, "{{").value + 2..], "}}").Some? {
      var first, rest := ReadFirst(text);
      t, end := EveryTextIsWritten(rest);
      ShowConcat(first, t);
      Regroup(Show(first), Show(t), end);
      t := first + t;
    } else {
      t, end := ReadEnd(text);
    }
  }

  lemma ShownIsExpansion(raw: string, defs: Definitions, context: VariableContext)
    requires Inserts(Var(raw), defs) ==> Lookup(context, Trim(raw)) == Some(Show(defs[Trim(raw)]))
    requires !Inserts(Var(raw), defs) && !Blank(raw) ==> Lookup(context, Trim(raw)).None?
    ensures Shown(context, raw) == Show(ExpandPiece(Var(raw), defs))
  {
    assert [Var(raw)][1..] == [];
  }

  // ----- All rounds: the value -----

  function ExpandTimes(t: Template, defs: Definitions, n: nat): Template
    decreases n
  {
    if n == 0 then t else ExpandTimes(Expand(t, defs), defs, n - 1)
  }

  /** All rounds without the early exit. */
  function Iterate(input: string, context: VariableContext, n: nat): string
    decreases n
  {
    if n == 0 then input else Iterate(Substitute(input, context).value, context, n - 1)
  }

  lemma {:induction false} FixedPointStays(input: string, context: VariableContext, n: nat)
    requires Substitute(input, context).value == input
    ensures Iterate(input, context, n) == input
  {
    if n > 0 {
      FixedPointStays(input, context, n - 1);
    }
  }

  /** Stopping early never changes the value. */
  lemma {:induction false} ResolveIterates(
    context: VariableContext, current: string, rounds: nat, diagnostics: seq<Diagnostic>, seen: seq<string>)
    ensures Resolve(context, current, rounds, diagnostics, seen).value == Iterate(current, context, rounds)
    decreases rounds
  {
    hide Substitute, AddNames;
    if rounds > 0 {
      var pass := Substitute(current, context);
      if pass.value == current {
        FixedPointStays(current, context, rounds);
      } else {
        var found :=
          AddNames(context, pass.value, pass.names, diagnostics + MalformedDiagnostics(pass.malformed), seen);
        ResolveIterates(context, pass.value, rounds - 1, found, seen + pass.names);
      }
    }
  }

  lemma {:induction false} ExpandKeepsWellFormed(t: Template, defs: Definitions, context: VariableContext)
    requires WellFormed(t) && Describes(t, defs, context)
    ensures WellFormed(Expand(t, defs)) && Describes(Expand(t, defs), defs, context)
  {
    hide Trim, Lookup;
    if t != [] {
      CoversRest(t, defs, context);
      ExpandKeepsWellFormed(t[1..], defs, context);
      CoversOne(t[0], defs, context);
      CoversBoth(ExpandPiece(t[0], defs), Expand(t[1..], defs), defs, context);
    }
  }

  lemma {:induction false} IterateExpands(
    t: Template, end: string, defs: Definitions, context: VariableContext, n: nat)
    requires WellFormed(t) && Closing(end) && Describes(t, defs, context)
    ensures Iterate(Show(t) + end, context, n) == Show(ExpandTimes(t, defs, n)) + end
    decreases n
  {
    hide Substitute, Closing, Describes, WellFormed, Expand, Show;
    if n > 0 {
      SubstituteExpands(t, end, defs, context);
      ExpandKeepsWellFormed(t, defs, context);
      IterateExpands(Expand(t, defs), end, defs, context, n - 1);
    }
  }

  /** Main result, for every text and for cyclic definitions too: twelve expansions, then the end as it is written. */
  lemma ResolvingExpands(t: Template, end: string, defs: Definitions, context: VariableContext)
    requires WellFormed(t) && Closing(end) && Describes(t, defs, context)
    ensures Resolve(context, Show(t) + end, ROUNDS, [], []).value == Show(ExpandTimes(t, defs, 12)) + end
  {
    var rounds := ROUNDS;
    assert rounds == 12;
    hide *;
    ResolveIterates(context, Show(t) + end, rounds, [], []);
    IterateExpands(t, end, defs, context, rounds);
  }

  // ----- Acyclic definitions: the full expansion and the depth it needs -----

  /** A rank that falls from each defined name to the defined names in its template. */
  ghost predicate Ranked(defs: Definitions, rank: map<string, nat>) {
    forall name <- defs :: name in rank
      && forall used <- Names(defs[name]) :: used in defs ==> used in rank && rank[used] < rank[name]
  }

  ghost function Ceiling(t: Template, defs: Definitions, rank: map<string, nat>): (r: nat)
    requires Ranked(defs, rank)
  {
    if t == [] then 0
    else
      var rest := Ceiling(t[1..], defs, rank);
      if Inserts(t[0], defs) && rest < rank[Trim(t[0].raw)] + 1 then rank[Trim(t[0].raw)] + 1 else rest
  }

  lemma CeilingIsAbove(t: Template, defs: Definitions, rank: map<string, nat>, bound: nat)
    requires Ranked(defs, rank)
    requires forall used <- Names(t) :: used in defs ==> rank[used] < bound
    ensures Ceiling(t, defs, rank) <= bound
  {
    if t != [] {
      assert forall used <- Names(t[1..]) :: used in Names(t);
      if Named(t[0]) {
        assert Trim(t[0].raw) == Names(t)[0];
      }
      CeilingIsAbove(t[1..], defs, rank, bound);
    }
  }

  lemma DefinitionIsLower(name: string, defs: Definitions, rank: map<string, nat>)
    requires Ranked(defs, rank) && name in defs
    ensures Ceiling(defs[name], defs, rank) < rank[name] + 1
  {
    CeilingIsAbove(defs[name], defs, rank, rank[name]);
  }

  /** The recursive expansion: every defined name replaced, undefined ones kept as written. */
  ghost function Full(t: Template, defs: Definitions, rank: map<string, nat>): Template
    requires Ranked(defs, rank)
    decreases Ceiling(t, defs, rank), |t|
  {
    if t == [] then []
    else
      (if Inserts(t[0], defs)
       then DefinitionIsLower(Trim(t[0].raw), defs, rank); Full(defs[Trim(t[0].raw)], defs, rank)
       else [t[0]])
      + Full(t[1..], defs, rank)
  }

  /** The length of the longest chain of definitions below a template. */
  ghost function Depth(t: Template, defs: Definitions, rank: map<string, nat>): nat
    requires Ranked(defs, rank)
    decreases Ceiling(t, defs, rank), |t|
  {
    if t == [] then 0
    else
      var rest := Depth(t[1..], defs, rank);
      if Inserts(t[0], defs) then
        DefinitionIsLower(Trim(t[0].raw), defs, rank);
        var below := 1 + Depth(defs[Trim(t[0].raw)], defs, rank);
        if rest < below then below else rest
      else rest
  }

  lemma FullStep(piece: Piece, rest: Template, defs: Definitions, rank: map<string, nat>)
    requires Ranked(defs, rank)
    ensures Full([piece] + rest, defs, rank) == Full([piece], defs, rank) + Full(rest, defs, rank)
    ensures Depth([piece] + rest, defs, rank) == Larger(Depth([piece], defs, rank), Depth(rest, defs, rank))
  {
    hide Ranked, Trim, Ceiling;
    assert ([piece] + rest)[1..] == rest && [piece][1..] == [];
    assert Full([], defs, rank) == [] && Depth([], defs, rank) == 0;
  }

  lemma FullOfNothing(t: Template, defs: Definitions, rank: map<string, nat>)
    requires Ranked(defs, rank)
    ensures Full([], defs, rank) + Full(t, defs, rank) == Full(t, defs, rank)
    ensures Larger(Depth([], defs, rank), Depth(t, defs, rank)) == Depth(t, defs, rank)
  {
    hide Ranked, Trim, Ceiling;
  }

  function Larger(a: nat, b: nat): nat {
    if a < b then b else a
  }

  lemma {:induction false} FullConcat(s: Template, t: Template, defs: Definitions, rank: map<string, nat>)
    requires Ranked(defs, rank)
    ensures Full(s + t, defs, rank) == Full(s, defs, rank) + Full(t, defs, rank)
    ensures Depth(s + t, defs, rank) == Larger(Depth(s, defs, rank), Depth(t, defs, rank))
  {
    hide *;
    if s == [] {
      assert s + t == t;
      FullOfNothing(t, defs, rank);
    } else {
      var rest := s[1..];
      assert s == [s[0]] + rest && s + t == [s[0]] + (rest + t);
      FullConcat(rest, t, defs, rank);
      FullStep(s[0], rest, defs, rank);
      FullStep(s[0], rest + t, defs, rank);
      LargerTwice(Depth([s[0]], defs, rank), Depth(rest, defs, rank), Depth(t, defs, rank));
    }
  }

  lemma LargerTwice(a: nat, b: nat, c: nat)
    ensures Larger(a, Larger(b, c)) == Larger(Larger(a, b), c)
  {
  }

  /** One round does not change the full expansion and shortens the longest chain by one. */
  lemma {:induction false} ExpandApproaches(t: Template, defs: Definitions, rank: map<string, nat>)
    requires Ranked(defs, rank)
    ensures Full(Expand(t, defs), defs, rank) == Full(t, defs, rank)
    ensures Depth(Expand(t, defs), defs, rank) == if Depth(t, defs, rank) == 0 then 0 else Depth(t, defs, rank) - 1
  {
    if t != [] {
      ExpandApproaches(t[1..], defs, rank);
      FullConcat(ExpandPiece(t[0], defs), Expand(t[1..], defs), defs, rank);
      assert [t[0]][1..] == [];
      assert [t[0]] + Full([], defs, rank) == [t[0]];
    }
  }

  lemma {:induction false} ExpandTimesApproaches(t: Template, defs: Definitions, rank: map<string, nat>, n: nat)
    requires Ranked(defs, rank)
    ensures Full(ExpandTimes(t, defs, n), defs, rank) == Full(t, defs, rank)
    ensures Depth(ExpandTimes(t, defs, n), defs, rank)
         == if Depth(t, defs, rank) < n then 0 else Depth(t, defs, rank) - n
    decreases n
  {
    if n > 0 {
      ExpandApproaches(t, defs, rank);
      ExpandTimesApproaches(Expand(t, defs), defs, rank, n - 1);
    }
  }

  /** A template is expanded exactly when no chain is left, that is, when it names nothing defined. */
  lemma {:induction false} DoneAtDepthZero(t: Template, defs: Definitions, rank: map<string, nat>)
    requires Ranked(defs, rank)
    ensures Depth(t, defs, rank) == 0 ==> Full(t, defs, rank) == t
    ensures Depth(t, defs, rank) == 0 <==> forall name <- Names(t) :: name !in defs
  {
    hide Trim, Ceiling, Ranked, Names, Blank;
    if t == [] {
      NothingShown(defs);
    } else {
      DoneAtDepthZero(t[1..], defs, rank);
      ConcatOne(t);
      NamesOfOne(t[0]);
    }
  }

  lemma {:induction false} FullNamesNothingDefined(t: Template, defs: Definitions, rank: map<string, nat>)
    requires Ranked(defs, rank)
    ensures forall name <- Names(Full(t, defs, rank)) :: name !in defs
    decreases Ceiling(t, defs, rank), |t|
  {
    if t != [] {
      FullNamesNothingDefined(t[1..], defs, rank);
      if Inserts(t[0], defs) {
        DefinitionIsLower(Trim(t[0].raw), defs, rank);
        FullNamesNothingDefined(defs[Trim(t[0].raw)], defs, rank);
        NamesConcat(Full(defs[Trim(t[0].raw)], defs, rank), Full(t[1..], defs, rank));
      } else {
        assert [t[0]][1..] == [];
        NamesConcat([t[0]], Full(t[1..], defs, rank));
      }
    }
  }

  lemma {:induction false} FullKeepsWellFormed(
    t: Template, defs: Definitions, rank: map<string, nat>, context: VariableContext)
    requires Ranked(defs, rank) && WellFormed(t) && Describes(t, defs, context)
    ensures WellFormed(Full(t, defs, rank)) && Describes(Full(t, defs, rank), defs, context)
    decreases Ceiling(t, defs, rank), |t|
  {
    hide Trim, Lookup;
    if t != [] {
      CoversRest(t, defs, context);
      FullKeepsWellFormed(t[1..], defs, rank, context);
      if Inserts(t[0], defs) {
        DefinitionIsLower(Trim(t[0].raw), defs, rank);
        FullKeepsWellFormed(defs[Trim(t[0].raw)], defs, rank, context);
        CoversBoth(Full(defs[Trim(t[0].raw)], defs, rank), Full(t[1..], defs, rank), defs, context);
      } else {
        CoversOne(t[0], defs, context);
        CoversBoth([t[0]], Full(t[1..], defs, rank), defs, context);
      }
    }
  }

  lemma {:induction false} ExpandTimesKeepsWellFormed(
    t: Template, defs: Definitions, context: VariableContext, n: nat)
    requires WellFormed(t) && Describes(t, defs, context)
    ensures WellFormed(ExpandTimes(t, defs, n)) && Describes(ExpandTimes(t, defs, n), defs, context)
    decreases n
  {
    if n > 0 {
      ExpandKeepsWellFormed(t, defs, context);
      ExpandTimesKeepsWellFormed(Expand(t, defs), defs, context, n - 1);
    }
  }

  /**
   * Main result: for acyclic definitions the resolved text is the text of the full expansion exactly
   * when no chain of definitions is longer than twelve.
   */
  lemma ResolvedFullyExactlyUpToTwelve(
    t: Template, end: string, defs: Definitions, rank: map<string, nat>, context: VariableContext)
    requires WellFormed(t) && Closing(end) && Describes(t, defs, context) && Ranked(defs, rank)
    ensures Resolve(context, Show(t) + end, ROUNDS, [], []).value == Show(Full(t, defs, rank)) + end
       <==> Depth(t, defs, rank) <= 12
  {
    hide *;
    ResolvingExpands(t, end, defs, context);
    var last, full := ExpandTimes(t, defs, 12), Full(t, defs, rank);
    ExpandTimesApproaches(t, defs, rank, 12);
    DoneAtDepthZero(last, defs, rank);
    SameEnd(Show(last), Show(full), end);
    if Show(last) == Show(full) {
      ExpandTimesKeepsWellFormed(t, defs, context, 12);
      FullKeepsWellFormed(t, defs, rank, context);
      SameTextExpandsAlike(last, full, defs, context);
      FullNamesNothingDefined(t, defs, rank);
    }
  }

  lemma SameEnd(a: string, b: string, end: string)
    ensures a + end == b + end <==> a == b
  {
    if a + end == b + end {
      assert a == (a + end)[..|a|] && b == (b + end)[..|a|];
    }
  }

  /** Templates with the same text mention the same names, have the same blanks and expand to the same text. */
  lemma SameTextExpandsAlike(s: Template, t: Template, defs: Definitions, context: VariableContext)
    requires WellFormed(s) && WellFormed(t) && Describes(s, defs, context) && Describes(t, defs, context)
    requires Show(s) == Show(t)
    ensures Names(s) == Names(t) && Blanks(s) == Blanks(t) && Show(Expand(s, defs)) == Show(Expand(t, defs))
  {
    hide *;
    assert Closing("") && LeftOpen("") == [] by { EmptyEnd(); }
    SubstituteExpands(s, "", defs, context);
    SubstituteExpands(t, "", defs, context);
    SameEnd(Show(Expand(s, defs)), Show(Expand(t, defs)), "");
    assert Blanks(s) + [] == Blanks(s) && Blanks(t) + [] == Blanks(t);
  }

  lemma EmptyEnd()
    ensures Closing("") && LeftOpen("") == []
  {
  }

  // ----- Diagnostics -----

  predicate UndefinedOnce(diagnostics: seq<Diagnostic>) {
    forall i, j | 0 <= i < j < |diagnostics| ::
      !(diagnostics[i] == diagnostics[j] && diagnostics[i].kind == Undefined)
  }

  lemma {:induction false} AddNamesUndefined(
    context: VariableContext, next: string, names: seq<string>, diagnostics: seq<Diagnostic>, seen: seq<string>,
    name: string)
    requires UndefinedOnce(diagnostics)
    ensures var r := AddNames(context, next, names, diagnostics, seen);
      && UndefinedOnce(r)
      && (Diagnostic(name, Undefined) in r
          <==> Diagnostic(name, Undefined) in diagnostics || (name in names && Lookup(context, name).None?))
    decreases |names|
  {
    hide Contains, Lookup;
    if names != [] {
      var added := AddName(context, next, names[0], diagnostics, seen);
      assert names == [names[0]] + names[1..];
      AddNamesUndefined(context, next, names[1..], added, seen + [names[0]], name);
    }
  }

  /** For every text and context: no name is reported undefined twice, and only undefined names are. */
  lemma {:induction false} UndefinedReportedOnce(
    context: VariableContext, current: string, rounds: nat, diagnostics: seq<Diagnostic>, seen: seq<string>)
    requires UndefinedOnce(diagnostics)
    requires forall name | Diagnostic(name, Undefined) in diagnostics :: Lookup(context, name).None?
    ensures var r := Resolve(context, current, rounds, diagnostics, seen).diagnostics;
      UndefinedOnce(r) && forall name | Diagnostic(name, Undefined) in r :: Lookup(context, name).None?
    decreases rounds
  {
    hide Substitute, AddNames, Lookup;
    if rounds > 0 {
      var pass := Substitute(current, context);
      var start := diagnostics + MalformedDiagnostics(pass.malformed);
      var found := AddNames(context, pass.value, pass.names, start, seen);
      forall name
        ensures UndefinedOnce(found)
        ensures Diagnostic(name, Undefined) in found ==> Lookup(context, name).None?
      {
        AddNamesUndefined(context, pass.value, pass.names, start, seen, name);
      }
      if pass.value != current {
        UndefinedReportedOnce(context, pass.value, rounds - 1, found, seen + pass.names);
      }
    }
  }

  /** `name` occurs in `t` after at most `steps` replacements of defined names by their templates. */
  ghost predicate Reaches(t: Template, defs: Definitions, name: string, steps: nat)
    decreases steps
  {
    name in Names(t)
    || (steps > 0 && exists used <- Names(t) :: used in defs && Reaches(defs[used], defs, name, steps - 1))
  }

  lemma {:induction false} NamesAfterExpand(t: Template, defs: Definitions, name: string)
    ensures name in Names(Expand(t, defs))
       <==> (name in Names(t) && name !in defs)
            || exists used <- Names(t) :: used in defs && name in Names(defs[used])
  {
    if t != [] {
      NamesAfterExpand(t[1..], defs, name);
      NamesConcat(ExpandPiece(t[0], defs), Expand(t[1..], defs));
      assert [t[0]][1..] == [];
      if Named(t[0]) {
        assert Names(t) == [Trim(t[0].raw)] + Names(t[1..]);
      } else {
        assert Names(t) == Names(t[1..]);
      }
    }
  }

  lemma {:induction false} ReachesAfterExpand(t: Template, defs: Definitions, name: string, steps: nat)
    requires name !in defs
    ensures Reaches(Expand(t, defs), defs, name, steps) <==> Reaches(t, defs, name, steps + 1)
  {
    NamesAfterExpand(t, defs, name);
    if Reaches(Expand(t, defs), defs, name, steps) && name !in Names(Expand(t, defs)) {
      var used :| used in Names(Expand(t, defs)) && used in defs && Reaches(defs[used], defs, name, steps - 1);
      NamesAfterExpand(t, defs, used);
      var via :| via in Names(t) && via in defs && used in Names(defs[via]);
      assert Reaches(defs[via], defs, name, steps);
    }
    if Reaches(t, defs, name, steps + 1) && name !in Names(t) {
      var via :| via in Names(t) && via in defs && Reaches(defs[via], defs, name, steps);
      if name !in Names(defs[via]) {
        var used :| used in Names(defs[via]) && used in defs && Reaches(defs[used], defs, name, steps - 1);
        InDefinition(t, defs, via, used);
      }
    }
  }

  lemma {:induction false} InDefinition(t: Template, defs: Definitions, via: string, used: string)
    requires via in Names(t) && via in defs && used in Names(defs[via])
    ensures used in Names(Expand(t, defs))
  {
    NamesAfterExpand(t, defs, used);
  }

  lemma {:induction false} FixedPointReaches(
    t: Template, defs: Definitions, context: VariableContext, name: string, steps: nat)
    requires WellFormed(t) && Describes(t, defs, context) && name !in defs
    requires Show(Expand(t, defs)) == Show(t)
    ensures Reaches(t, defs, name, steps) <==> name in Names(t)
    decreases steps
  {
    hide Expand, Show, Names, Describes, WellFormed;
    if steps > 0 {
      var next := Expand(t, defs);
      ExpandKeepsWellFormed(t, defs, context);
      SameTextExpandsAlike(next, t, defs, context);
      ReachesAfterExpand(t, defs, name, steps - 1);
      FixedPointReaches(next, defs, context, name, steps - 1);
    }
  }

  /** A name that occurs is reached at once, and without replacements no other one is. */
  lemma NamesAreReached(t: Template, defs: Definitions, name: string, steps: nat)
    ensures name in Names(t) ==> Reaches(t, defs, name, steps)
    ensures Reaches(t, defs, name, 0) <==> name in Names(t)
  {
  }

  lemma {:induction false} AddMalformed(diagnostics: seq<Diagnostic>, names: seq<string>, name: string)
    requires UndefinedOnce(diagnostics)
    ensures var r := diagnostics + MalformedDiagnostics(names);
      UndefinedOnce(r) && (Diagnostic(name, Undefined) in r <==> Diagnostic(name, Undefined) in diagnostics)
  {
  }

  lemma {:induction false} ResolveReports(
    t: Template, end: string, defs: Definitions, context: VariableContext, rounds: nat,
    diagnostics: seq<Diagnostic>, seen: seq<string>, name: string)
    requires WellFormed(t) && Closing(end) && Describes(t, defs, context) && name !in defs && rounds > 0
    requires UndefinedOnce(diagnostics)
    ensures var r := Resolve(context, Show(t) + end, rounds, diagnostics, seen).diagnostics;
      Diagnostic(name, Undefined) in r
      <==> Diagnostic(name, Undefined) in diagnostics || Reaches(t, defs, name, rounds - 1)
    decreases rounds
  {
    hide Substitute, AddNames, Lookup, Expand, Show, Names, Reaches, Closing, LeftOpen, Blanks;
    SubstituteExpands(t, end, defs, context);
    var next := Expand(t, defs);
    var start := diagnostics + MalformedDiagnostics(Blanks(t) + LeftOpen(end));
    AddMalformed(diagnostics, Blanks(t) + LeftOpen(end), name);
    NamesAreReached(t, defs, name, rounds - 1);
    AddNamesUndefined(context, Show(next) + end, Names(t), start, seen, name);
    var found := AddNames(context, Show(next) + end, Names(t), start, seen);
    SameEnd(Show(next), Show(t), end);
    if Show(next) == Show(t) {
      FixedPointReaches(t, defs, context, name, rounds - 1);
    } else if rounds > 1 {
      ExpandKeepsWellFormed(t, defs, context);
      ResolveReports(next, end, defs, context, rounds - 1, found, seen + Names(t), name);
      ReachesAfterExpand(t, defs, name, rounds - 2);
    }
  }

  /**
   * Main result: an undefined name is reported, and then exactly once, precisely when it occurs after
   * at most eleven replacements; the twelfth round's insertions are never inspected.
   */
  lemma UndefinedReportedExactlyUpToEleven(
    t: Template, end: string, defs: Definitions, context: VariableContext, name: string)
    requires WellFormed(t) && Closing(end) && Describes(t, defs, context) && name !in defs
    ensures var r := Resolve(context, Show(t) + end, ROUNDS, [], []).diagnostics;
      UndefinedOnce(r) && (Diagnostic(name, Undefined) in r <==> Reaches(t, defs, name, 11))
  {
    var rounds := ROUNDS;
    ResolveReports(t, end, defs, context, rounds, [], [], name);
    UndefinedReportedOnce(context, Show(t) + end, rounds, [], []);
  }

  lemma {:induction false} ReachesByExpansion(t: Template, defs: Definitions, name: string, steps: nat)
    requires name !in defs
    ensures Reaches(t, defs, name, steps) <==> name in Names(ExpandTimes(t, defs, steps))
    decreases steps
  {
    hide Expand, Names, Reaches;
    if steps == 0 {
      assert Reaches(t, defs, name, 0) <==> name in Names(t) by { NamesAreReached(t, defs, name, 0); }
    } else {
      ReachesAfterExpand(t, defs, name, steps - 1);
      ReachesByExpansion(Expand(t, defs), defs, name, steps - 1);
    }
  }

  /** Main result: up to depth eleven, the reported names are exactly those left in the full expansion. */
  lemma AllUndefinedReportedUpToEleven(
    t: Template, end: string, defs: Definitions, rank: map<string, nat>, context: VariableContext, name: string)
    requires WellFormed(t) && Closing(end) && Describes(t, defs, context) && Ranked(defs, rank) && name !in defs
    requires Depth(t, defs, rank) <= 11
    ensures Diagnostic(name, Undefined) in Resolve(context, Show(t) + end, ROUNDS, [], []).diagnostics
       <==> name in Names(Full(t, defs, rank))
  {
    var steps := 11;
    UndefinedReportedExactlyUpToEleven(t, end, defs, context, name);
    ReachesByExpansion(t, defs, name, steps);
    ExpandTimesApproaches(t, defs, rank, steps);
    DoneAtDepthZero(ExpandTimes(t, defs, steps), defs, rank);
  }

  // ----- Chains that are too long -----

  /** The `k`-th name of a chain. */
  function Name(k: nat): (name: string)
    ensures |name| == k + 1 && forall c <- name :: c == 'v'
  {
    seq(k + 1, (_: int) => 'v')
  }

  function Link(k: nat): Template {
    [Var(Name(k))]
  }

  /** `n` definitions, each of which inserts the name below it; the name at the end has none. */
  function Chain(n: nat): Definitions {
    if n == 0 then map[] else Chain(n - 1)[Name(n) := Link(n - 1)]
  }

  function Ranks(n: nat): map<string, nat> {
    if n == 0 then map[] else Ranks(n - 1)[Name(n) := n]
  }

  lemma SameName(j: nat, k: nat)
    ensures Name(j) == Name(k) <==> j == k
  {
    assert |Name(j)| == j + 1 && |Name(k)| == k + 1;
    if j == k {
      assert Name(j) == Name(k);
    }
  }

  lemma {:induction false} ChainIs(n: nat, name: string)
    ensures name in Chain(n) <==> 2 <= |name| <= n + 1 && name == Name(|name| - 1)
    ensures name in Chain(n) ==> Chain(n)[name] == Link(|name| - 2)
    ensures name in Ranks(n) <==> name in Chain(n)
    ensures name in Ranks(n) ==> Ranks(n)[name] == |name| - 1
  {
    hide Name, Link;
    if n > 0 {
      ChainIs(n - 1, name);
    }
  }

  lemma LinkIs(k: nat)
    ensures Names(Link(k)) == [Name(k)] && WellFormed(Link(k)) && Trim(Name(k)) == Name(k)
  {
    hide Trim;
    var name := Name(k);
    assert name[0] in name && name[|name| - 1] in name;
    TrimOfTrimmed(name);
    assert Link(k)[1..] == [];
    assert Single(name, '}');
  }

  lemma ChainIsRanked(n: nat)
    ensures Ranked(Chain(n), Ranks(n))
  {
    hide Link, Name, Names, Chain, Ranks;
    forall name | name in Chain(n)
      ensures name in Ranks(n)
      ensures forall used <- Names(Chain(n)[name]) ::
        used in Chain(n) ==> used in Ranks(n) && Ranks(n)[used] < Ranks(n)[name]
    {
      ChainIs(n, name);
      LinkIs(|name| - 2);
      ChainIs(n, Name(|name| - 2));
    }
  }

  lemma {:induction false} DepthOfLink(n: nat, k: nat)
    requires k <= n && Ranked(Chain(n), Ranks(n))
    ensures Depth(Link(k), Chain(n), Ranks(n)) == k
  {
    LinkIs(k);
    ChainIs(n, Name(k));
    DepthOfOne(Name(k), Chain(n), Ranks(n));
    if k > 0 {
      DepthOfLink(n, k - 1);
    }
  }

  lemma DepthOfOne(name: string, defs: Definitions, rank: map<string, nat>)
    requires Ranked(defs, rank) && Trim(name) == name && name != ""
    ensures Depth([Var(name)], defs, rank) == if name in defs then 1 + Depth(defs[name], defs, rank) else 0
  {
    hide Trim, Ceiling;
    assert [Var(name)][1..] == [];
    assert Depth([], defs, rank) == 0;
  }

  lemma {:induction false} EndIsReached(n: nat, k: nat, steps: nat)
    requires k <= n
    ensures Reaches(Link(k), Chain(n), Name(0), steps) <==> k <= steps
  {
    hide Link, Name, Chain, Names;
    LinkIs(k);
    ChainIs(n, Name(k));
    SameName(k, 0);
    if k > 0 && steps > 0 {
      EndIsReached(n, k - 1, steps - 1);
    }
  }

  /** The context that has these definitions and nothing else. */
  function ContextOf(defs: Definitions): VariableContext {
    VariableContext(map[], map[], map[], map[], map[], map[], map name | name in defs :: Show(defs[name]))
  }

  lemma ContextDescribes(t: Template, defs: Definitions)
    requires forall name <- defs :: WellFormed(defs[name])
    ensures Describes(t, defs, ContextOf(defs))
  {
  }

  lemma ChainIsDescribed(n: nat)
    ensures Describes(Link(n), Chain(n), ContextOf(Chain(n)))
  {
    hide Link, Chain, ContextOf;
    forall name | name in Chain(n) ensures WellFormed(Chain(n)[name]) {
      ChainIs(n, name);
      LinkIs(|name| - 2);
    }
    ContextDescribes(Link(n), Chain(n));
  }

  /** A chain of definitions is resolved fully if and only if it has at most twelve. */
  lemma LongChainsAreNotResolved(n: nat)
    ensures Ranked(Chain(n), Ranks(n))
    ensures Resolve(ContextOf(Chain(n)), Show(Link(n)), ROUNDS, [], []).value == Show(Full(Link(n), Chain(n), Ranks(n)))
       <==> n <= 12
  {
    hide *;
    ChainIsRanked(n);
    ChainIsDescribed(n);
    LinkIs(n);
    DepthOfLink(n, n);
    EmptyEnd();
    ResolvedFullyExactlyUpToTwelve(Link(n), "", Chain(n), Ranks(n), ContextOf(Chain(n)));
    assert Show(Link(n)) + "" == Show(Link(n));
  }

  /** The undefined name at its end is reported if and only if it has at most eleven; a chain of twelve hides it. */
  lemma EndOfLongChainIsNotReported(n: nat)
    ensures Diagnostic(Name(0), Undefined) in Resolve(ContextOf(Chain(n)), Show(Link(n)), ROUNDS, [], []).diagnostics
       <==> n <= 11
  {
    hide *;
    ChainIsDescribed(n);
    LinkIs(n);
    NotInChain(n);
    EndIsReached(n, n, 11);
    EmptyEnd();
    UndefinedReportedExactlyUpToEleven(Link(n), "", Chain(n), ContextOf(Chain(n)), Name(0));
    assert Show(Link(n)) + "" == Show(Link(n));
  }

  lemma NotInChain(n: nat)
    ensures Name(0) !in Chain(n)
  {
    ChainIs(n, Name(0));
  }
}
