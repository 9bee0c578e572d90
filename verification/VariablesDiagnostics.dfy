/** Which expressions are reported as malformed and which names as cyclic, for every text. */
module VariablesDiagnostics {
  import opened Wrappers
  import opened Text
  import opened Variables
  import opened VariablesTheorems

  /** The names that were given diagnostics of one kind, in order. */
  function Given(kind: Kind, diagnostics: seq<Diagnostic>): seq<string> {
    if diagnostics == [] then []
    else (if diagnostics[0].kind == kind then [diagnostics[0].name] else []) + Given(kind, diagnostics[1..])
  }

  lemma {:induction false} GivenConcat(kind: Kind, a: seq<Diagnostic>, b: seq<Diagnostic>)
    ensures Given(kind, a + b) == Given(kind, a) + Given(kind, b)
  {
    if a == [] {
      assert a + b == b;
    } else {
      assert (a + b)[1..] == a[1..] + b;
      GivenConcat(kind, a[1..], b);
    }
  }

  lemma {:induction false} GivenExactly(kind: Kind, diagnostics: seq<Diagnostic>, name: string)
    ensures name in Given(kind, diagnostics) <==> Diagnostic(name, kind) in diagnostics
  {
    if diagnostics != [] {
      GivenExactly(kind, diagnostics[1..], name);
      assert diagnostics == [diagnostics[0]] + diagnostics[1..];
    }
  }

  // ----- Malformed expressions -----

  /** What the rounds find: each looks at the text that the one before it made, and the last one changes nothing. */
  function MalformedOver(t: Template, end: string, defs: Definitions, rounds: nat): seq<string>
    decreases rounds
  {
    if rounds == 0 then []
    else
      Blanks(t) + LeftOpen(end)
      + (if Show(Expand(t, defs)) == Show(t) then [] else MalformedOver(Expand(t, defs), end, defs, rounds - 1))
  }

  lemma {:induction false} GivenMalformed(names: seq<string>)
    ensures Given(Malformed, MalformedDiagnostics(names)) == names
  {
    var all := MalformedDiagnostics(names);
    if names != [] {
      GivenMalformed(names[1..]);
      assert all[1..] == MalformedDiagnostics(names[1..]);
      assert names == [names[0]] + names[1..];
    }
  }

  lemma AddNameGives(
    context: VariableContext, next: string, name: string, diagnostics: seq<Diagnostic>, seen: seq<string>)
    ensures Given(Malformed, AddName(context, next, name, diagnostics, seen)) == Given(Malformed, diagnostics)
  {
    hide Contains, Lookup;
    var undefined := if Lookup(context, name).None? && Diagnostic(name, Undefined) !in diagnostics
                     then [Diagnostic(name, Undefined)] else [];
    var cyclic := if name in seen && Contains(next, "{{" + name + "}}") then [Diagnostic(name, Cyclic)] else [];
    GivenConcat(Malformed, diagnostics, undefined);
    GivenConcat(Malformed, diagnostics + undefined, cyclic);
    assert undefined != [] ==> undefined[1..] == [];
    assert cyclic != [] ==> cyclic[1..] == [];
  }

  lemma {:induction false} AddNamesGives(
    context: VariableContext, next: string, names: seq<string>, diagnostics: seq<Diagnostic>, seen: seq<string>)
    ensures Given(Malformed, AddNames(context, next, names, diagnostics, seen)) == Given(Malformed, diagnostics)
    decreases |names|
  {
    hide AddName, Given;
    if names != [] {
      AddNameGives(context, next, names[0], diagnostics, seen);
      AddNamesGives(context, next, names[1..], AddName(context, next, names[0], diagnostics, seen),
                    seen + [names[0]]);
    }
  }

  lemma {:induction false} RoundsGiveMalformed(
    t: Template, end: string, defs: Definitions, context: VariableContext, rounds: nat,
    diagnostics: seq<Diagnostic>, seen: seq<string>)
    requires WellFormed(t) && Closing(end) && Describes(t, defs, context)
    ensures Given(Malformed, Resolve(context, Show(t) + end, rounds, diagnostics, seen).diagnostics)
         == Given(Malformed, diagnostics) + MalformedOver(t, end, defs, rounds)
    decreases rounds
  {
    hide WellFormed, Closing, Describes, Show, Expand, Names, Blanks, LeftOpen, Given, Substitute, AddNames,
         MalformedDiagnostics;
    if rounds > 0 {
      var next, malformed := Expand(t, defs), Blanks(t) + LeftOpen(end);
      SubstituteExpands(t, end, defs, context);
      SameEnd(Show(next), Show(t), end);
      var start := diagnostics + MalformedDiagnostics(malformed);
      GivenConcat(Malformed, diagnostics, MalformedDiagnostics(malformed));
      GivenMalformed(malformed);
      AddNamesGives(context, Show(next) + end, Names(t), start, seen);
      if Show(next) != Show(t) {
        var found := AddNames(context, Show(next) + end, Names(t), start, seen);
        ExpandKeepsWellFormed(t, defs, context);
        RoundsGiveMalformed(next, end, defs, context, rounds - 1, found, seen + Names(t));
      }
    }
  }

  /**
   * Main result, for every text: each round reports the blanks between double braces in the text it looks at, in
   * order, and then what is not closed at the end, trimmed. Nothing else is malformed.
   */
  lemma MalformedExactly(t: Template, end: string, defs: Definitions, context: VariableContext)
    requires WellFormed(t) && Closing(end) && Describes(t, defs, context)
    ensures Given(Malformed, Resolve(context, Show(t) + end, ROUNDS, [], []).diagnostics)
         == MalformedOver(t, end, defs, 12)
  {
    var rounds := ROUNDS;
    assert rounds == 12;
    hide Resolve, MalformedOver;
    RoundsGiveMalformed(t, end, defs, context, rounds, [], []);
    assert [] + MalformedOver(t, end, defs, 12) == MalformedOver(t, end, defs, 12);
  }

  /** A blank occurs in `t` after at most `steps` replacements of defined names by their templates. */
  ghost predicate ReachesBlank(t: Template, defs: Definitions, steps: nat)
    decreases steps
  {
    Blanks(t) != []
    || (steps > 0 && exists used <- Names(t) :: used in defs && ReachesBlank(defs[used], defs, steps - 1))
  }

  lemma {:induction false} BlanksAreEmpty(t: Template)
    ensures forall name <- Blanks(t) :: name == ""
  {
    if t != [] {
      BlanksAreEmpty(t[1..]);
    }
  }

  lemma BlankOfPiece(p: Piece, defs: Definitions)
    ensures Blanks(ExpandPiece(p, defs)) != []
       <==> Blanks([p]) != [] || (Inserts(p, defs) && Blanks(defs[Trim(p.raw)]) != [])
    ensures Names([p]) == if Named(p) then [Trim(p.raw)] else []
  {
    assert [p][1..] == [];
  }

  lemma {:induction false} BlanksAfterExpand(t: Template, defs: Definitions)
    ensures Blanks(Expand(t, defs)) != []
       <==> Blanks(t) != [] || exists used <- Names(t) :: used in defs && Blanks(defs[used]) != []
  {
    hide Blanks, Names, Trim, Named, Inserts, ExpandPiece;
    if t == [] {
      NothingShown(defs);
      assert Expand(t, defs) == [];
    } else {
      BlanksAfterExpand(t[1..], defs);
      BlanksConcat(ExpandPiece(t[0], defs), Expand(t[1..], defs));
      BlankOfPiece(t[0], defs);
      InsertsExactly(t[0], defs);
      ConcatOne(t);
    }
  }

  lemma InsertsExactly(p: Piece, defs: Definitions)
    ensures Inserts(p, defs) <==> Named(p) && Trim(p.raw) in defs
  {
  }

  lemma {:induction false} BlankAfterExpand(t: Template, defs: Definitions, steps: nat)
    ensures ReachesBlank(Expand(t, defs), defs, steps) || Blanks(t) != [] <==> ReachesBlank(t, defs, steps + 1)
  {
    hide Expand, Names, Blanks;
    BlanksAfterExpand(t, defs);
    if ReachesBlank(Expand(t, defs), defs, steps) && Blanks(Expand(t, defs)) == [] {
      var used :| used in Names(Expand(t, defs)) && used in defs && ReachesBlank(defs[used], defs, steps - 1);
      NamesAfterExpand(t, defs, used);
      var via :| via in Names(t) && via in defs && used in Names(defs[via]);
      assert ReachesBlank(defs[via], defs, steps);
    }
    if ReachesBlank(t, defs, steps + 1) && Blanks(t) == [] {
      var via :| via in Names(t) && via in defs && ReachesBlank(defs[via], defs, steps);
      if Blanks(defs[via]) == [] {
        var used :| used in Names(defs[via]) && used in defs && ReachesBlank(defs[used], defs, steps - 1);
        InDefinition(t, defs, via, used);
      }
    }
  }

  lemma {:induction false} FixedPointBlanks(t: Template, defs: Definitions, context: VariableContext, steps: nat)
    requires WellFormed(t) && Describes(t, defs, context) && Show(Expand(t, defs)) == Show(t)
    ensures ReachesBlank(t, defs, steps) <==> Blanks(t) != []
    decreases steps
  {
    hide Expand, Show, Names, Blanks, Describes, WellFormed;
    if steps > 0 {
      var next := Expand(t, defs);
      ExpandKeepsWellFormed(t, defs, context);
      SameTextExpandsAlike(next, t, defs, context);
      BlankAfterExpand(t, defs, steps - 1);
      FixedPointBlanks(next, defs, context, steps - 1);
    }
  }

  lemma {:induction false} OverExactly(
    t: Template, end: string, defs: Definitions, context: VariableContext, rounds: nat, name: string)
    requires WellFormed(t) && Describes(t, defs, context) && rounds > 0
    ensures name in MalformedOver(t, end, defs, rounds)
       <==> name in LeftOpen(end) || (name == "" && ReachesBlank(t, defs, rounds - 1))
    decreases rounds
  {
    hide Expand, Show, Names, Blanks, Describes, WellFormed, LeftOpen, ReachesBlank;
    BlanksAreEmpty(t);
    assert name in Blanks(t) <==> name == "" && Blanks(t) != [] by {
      if Blanks(t) != [] {
        assert Blanks(t)[0] in Blanks(t);
      }
    }
    assert ReachesBlank(t, defs, 0) <==> Blanks(t) != [] by { BlanksAreReached(t, defs, 0); }
    BlanksAreReached(t, defs, rounds - 1);
    if Show(Expand(t, defs)) == Show(t) {
      FixedPointBlanks(t, defs, context, rounds - 1);
    } else if rounds > 1 {
      ExpandKeepsWellFormed(t, defs, context);
      OverExactly(Expand(t, defs), end, defs, context, rounds - 1, name);
      BlankAfterExpand(t, defs, rounds - 2);
    }
  }

  lemma BlanksAreReached(t: Template, defs: Definitions, steps: nat)
    ensures Blanks(t) != [] ==> ReachesBlank(t, defs, steps)
    ensures ReachesBlank(t, defs, 0) <==> Blanks(t) != []
  {
  }

  /**
   * Main result: something is reported as malformed exactly when the text does not close its last expression, or a
   * blank between double braces occurs after at most eleven replacements. The name that is reported is what follows the
   * open braces, trimmed, or empty.
   */
  lemma MalformedExactlyWhenUnclosedOrBlank(
    t: Template, end: string, defs: Definitions, context: VariableContext, name: string)
    requires WellFormed(t) && Closing(end) && Describes(t, defs, context)
    ensures Diagnostic(name, Malformed) in Resolve(context, Show(t) + end, ROUNDS, [], []).diagnostics
       <==> ("{{" <= end && name == Trim(end[2..])) || (name == "" && ReachesBlank(t, defs, 11))
  {
    hide Resolve, MalformedOver, Given;
    MalformedExactly(t, end, defs, context);
    OverExactly(t, end, defs, context, 12, name);
    GivenExactly(Malformed, Resolve(context, Show(t) + end, ROUNDS, [], []).diagnostics, name);
  }

  /** A text that a round does not change is the result, with what that round reports. */
  lemma UnchangedTextIsTheResult(text: string, context: VariableContext, names: seq<string>, malformed: seq<string>)
    requires Substitute(text, context) == Pass(text, names, malformed)
    ensures Resolve(context, text, ROUNDS, [], [])
         == ResolvedText(text, AddNames(context, text, names, MalformedDiagnostics(malformed), []))
  {
    hide Substitute, AddNames;
    assert [] + MalformedDiagnostics(malformed) == MalformedDiagnostics(malformed);
  }

  /** Text with an expression that is never closed stays as it is and is reported once. */
  lemma UnclosedTextStays(text: string, tail: string, context: VariableContext)
    requires Single(text, '{') && NoPair(tail, '}')
    ensures Resolve(context, text + "{{" + tail, ROUNDS, [], [])
         == ResolvedText(text + "{{" + tail, [Diagnostic(Trim(tail), Malformed)])
  {
    hide Find, Trim, Substitute;
    var end := "{{" + tail;
    assert end[2..] == tail;
    Regroup(text, "{{", tail);
    SkipLiteral(text, end, context);
    SubstituteClosing(end, context);
    UnchangedTextIsTheResult(text + "{{" + tail, context, [], [Trim(tail)]);
    assert MalformedDiagnostics([Trim(tail)]) == [Diagnostic(Trim(tail), Malformed)];
  }

  /** A blank between double braces stays as it is and is reported once, with an empty name. */
  lemma BlankStays(before: string, raw: string, after: string, context: VariableContext)
    requires Single(before, '{') && Single(raw, '}') && Blank(raw) && NoPair(after, '{')
    ensures Resolve(context, before + ("{{" + raw + "}}" + after), ROUNDS, [], [])
         == ResolvedText(before + ("{{" + raw + "}}" + after), [Diagnostic("", Malformed)])
  {
    hide Find, Trim, Substitute, Single, NoPair;
    SkipLiteral(before, "{{" + raw + "}}" + after, context);
    ReadVariable(raw, after, context);
    OpensWithPair(after);
    SubstituteClosing(after, context);
    assert [""] + [] == [""];
    UnchangedTextIsTheResult(before + ("{{" + raw + "}}" + after), context, [], [""]);
    assert MalformedDiagnostics([""]) == [Diagnostic("", Malformed)];
  }

  lemma OpensWithPair(s: string)
    ensures "{{" <= s ==> !NoPair(s, '{')
  {
    if "{{" <= s {
      assert s[0] == "{{"[0] && s[1] == "{{"[1];
    }
  }

  // ----- Names that are reported as cyclic -----

  predicate StartsAt(needle: string, s: string, i: nat) {
    i + |needle| <= |s| && s[i..i + |needle|] == needle
  }

  /** The text occurs somewhere. */
  ghost predicate Occurs(needle: string, s: string) {
    exists i :: StartsAt(needle, s, i)
  }

  lemma ContainsExactly(s: string, needle: string)
    ensures Contains(s, needle) <==> Occurs(needle, s)
  {
    hide Find;
    if Occurs(needle, s) {
      var i :| StartsAt(needle, s, i);
      FoundWhereItOccurs(s, needle, i);
    }
    if Contains(s, needle) {
      assert StartsAt(needle, s, Find(s, needle).value);
    }
  }

  lemma {:induction false} FoundWhereItOccurs(s: string, needle: string, i: nat)
    requires StartsAt(needle, s, i)
    ensures Find(s, needle).Some?
  {
    if i == 0 {
      assert needle <= s;
    } else {
      assert s[1..][i - 1..i - 1 + |needle|] == s[i..i + |needle|];
      FoundWhereItOccurs(s[1..], needle, i - 1);
    }
  }

  /** `k` rounds are followed by another one, since each of them changes the text. */
  predicate Goes(t: Template, defs: Definitions, k: nat)
    decreases k
  {
    k == 0 || (Show(Expand(t, defs)) != Show(t) && Goes(Expand(t, defs), defs, k - 1))
  }

  /** The names that `k` rounds look at, in order. */
  function NamesOver(t: Template, defs: Definitions, k: nat): seq<string>
    decreases k
  {
    if k == 0 then [] else Names(t) + NamesOver(Expand(t, defs), defs, k - 1)
  }

  /** One of the names is this one, and it came before. */
  ghost predicate Again(name: string, names: seq<string>, seen: seq<string>) {
    exists i | 0 <= i < |names| :: names[i] == name && name in seen + names[..i]
  }

  /** In round `k` the name comes again, and the text that this round makes has it between double braces. */
  ghost predicate CyclicIn(
    t: Template, end: string, defs: Definitions, seen: seq<string>, name: string, k: nat)
  {
    Goes(t, defs, k)
    && Again(name, Names(ExpandTimes(t, defs, k)), seen + NamesOver(t, defs, k))
    && Occurs("{{" + name + "}}", Show(ExpandTimes(t, defs, k + 1)) + end)
  }

  lemma AgainStep(name: string, names: seq<string>, seen: seq<string>)
    requires names != []
    ensures Again(name, names, seen)
       <==> (names[0] == name && name in seen) || Again(name, names[1..], seen + [names[0]])
  {
    var first, rest := names[0], names[1..];
    if Again(name, names, seen) {
      var i :| 0 <= i < |names| && names[i] == name && name in seen + names[..i];
      if i > 0 {
        assert seen + names[..i] == seen + [first] + rest[..i - 1] && rest[i - 1] == name;
      }
    }
    if Again(name, rest, seen + [first]) {
      var i :| 0 <= i < |rest| && rest[i] == name && name in seen + [first] + rest[..i];
      assert seen + [first] + rest[..i] == seen + names[..i + 1] && names[i + 1] == name;
    }
    if first == name && name in seen {
      assert seen + names[..0] == seen;
    }
  }

  lemma {:induction false} AddNamesCyclic(
    context: VariableContext, next: string, names: seq<string>, diagnostics: seq<Diagnostic>, seen: seq<string>,
    name: string)
    ensures Diagnostic(name, Cyclic) in AddNames(context, next, names, diagnostics, seen)
       <==> Diagnostic(name, Cyclic) in diagnostics
            || (Again(name, names, seen) && Occurs("{{" + name + "}}", next))
    decreases |names|
  {
    hide Contains, Lookup, Occurs, Again;
    if names == [] {
      assert !Again(name, names, seen) by { NothingAgain(name, seen); }
    } else {
      var added := AddName(context, next, names[0], diagnostics, seen);
      ContainsExactly(next, "{{" + names[0] + "}}");
      AgainStep(name, names, seen);
      AddNamesCyclic(context, next, names[1..], added, seen + [names[0]], name);
    }
  }

  lemma NothingAgain(name: string, seen: seq<string>)
    ensures !Again(name, [], seen)
  {
  }

  lemma CyclicLater(
    t: Template, end: string, defs: Definitions, seen: seq<string>, name: string, k: nat)
    requires Show(Expand(t, defs)) != Show(t)
    ensures CyclicIn(t, end, defs, seen, name, k + 1)
       <==> CyclicIn(Expand(t, defs), end, defs, seen + Names(t), name, k)
  {
    hide Expand, Show, Names, Again, Occurs;
    var next := Expand(t, defs);
    assert ExpandTimes(t, defs, k + 1) == ExpandTimes(next, defs, k);
    assert ExpandTimes(t, defs, k + 2) == ExpandTimes(next, defs, k + 1);
    assert seen + NamesOver(t, defs, k + 1) == seen + Names(t) + NamesOver(next, defs, k);
  }

  lemma CyclicAtOnce(
    t: Template, end: string, defs: Definitions, seen: seq<string>, name: string)
    ensures CyclicIn(t, end, defs, seen, name, 0)
       <==> Again(name, Names(t), seen) && Occurs("{{" + name + "}}", Show(Expand(t, defs)) + end)
  {
    hide Expand, Show, Names, Again, Occurs;
    assert seen + NamesOver(t, defs, 0) == seen;
    assert ExpandTimes(t, defs, 1) == ExpandTimes(Expand(t, defs), defs, 0);
  }

  lemma StillNothing(
    t: Template, end: string, defs: Definitions, seen: seq<string>, name: string, k: nat)
    requires Show(Expand(t, defs)) == Show(t) && k > 0
    ensures !CyclicIn(t, end, defs, seen, name, k)
  {
    hide Expand, Show, Names, Again, Occurs;
  }

  ghost predicate CyclicWithin(
    t: Template, end: string, defs: Definitions, seen: seq<string>, name: string, rounds: nat)
  {
    exists k | 0 <= k < rounds :: CyclicIn(t, end, defs, seen, name, k)
  }

  lemma WithinStep(
    t: Template, end: string, defs: Definitions, seen: seq<string>, name: string, rounds: nat)
    requires rounds > 0
    ensures CyclicWithin(t, end, defs, seen, name, rounds)
       <==> CyclicIn(t, end, defs, seen, name, 0)
            || (Show(Expand(t, defs)) != Show(t)
                && CyclicWithin(Expand(t, defs), end, defs, seen + Names(t), name, rounds - 1))
  {
    hide CyclicIn, Expand, Show, Names;
    if CyclicWithin(t, end, defs, seen, name, rounds) {
      var k :| 0 <= k < rounds && CyclicIn(t, end, defs, seen, name, k);
      if k > 0 {
        if Show(Expand(t, defs)) == Show(t) {
          StillNothing(t, end, defs, seen, name, k);
        } else {
          CyclicLater(t, end, defs, seen, name, k - 1);
        }
      }
    }
    if Show(Expand(t, defs)) != Show(t)
       && CyclicWithin(Expand(t, defs), end, defs, seen + Names(t), name, rounds - 1) {
      var k :| 0 <= k < rounds - 1 && CyclicIn(Expand(t, defs), end, defs, seen + Names(t), name, k);
      CyclicLater(t, end, defs, seen, name, k);
    }
  }

  lemma {:induction false} RoundsGiveCyclic(
    t: Template, end: string, defs: Definitions, context: VariableContext, rounds: nat,
    diagnostics: seq<Diagnostic>, seen: seq<string>, name: string)
    requires WellFormed(t) && Closing(end) && Describes(t, defs, context)
    ensures Diagnostic(name, Cyclic) in Resolve(context, Show(t) + end, rounds, diagnostics, seen).diagnostics
       <==> Diagnostic(name, Cyclic) in diagnostics || CyclicWithin(t, end, defs, seen, name, rounds)
    decreases rounds
  {
    hide WellFormed, Closing, Describes, Show, Expand, Names, Blanks, LeftOpen, Substitute, AddNames, CyclicIn,
         CyclicWithin, Again, Occurs;
    if rounds == 0 {
      assert !CyclicWithin(t, end, defs, seen, name, 0) by { NothingWithin(t, end, defs, seen, name); }
    } else {
      var next, malformed := Expand(t, defs), Blanks(t) + LeftOpen(end);
      SubstituteExpands(t, end, defs, context);
      SameEnd(Show(next), Show(t), end);
      var start := diagnostics + MalformedDiagnostics(malformed);
      AddNamesCyclic(context, Show(next) + end, Names(t), start, seen, name);
      CyclicAtOnce(t, end, defs, seen, name);
      WithinStep(t, end, defs, seen, name, rounds);
      if Show(next) != Show(t) {
        var found := AddNames(context, Show(next) + end, Names(t), start, seen);
        ExpandKeepsWellFormed(t, defs, context);
        RoundsGiveCyclic(next, end, defs, context, rounds - 1, found, seen + Names(t), name);
      }
    }
  }

  lemma NothingWithin(t: Template, end: string, defs: Definitions, seen: seq<string>, name: string)
    ensures !CyclicWithin(t, end, defs, seen, name, 0)
  {
  }

  /**
   * Main result: a name is reported as cyclic exactly when some round, after rounds that all changed the text, comes to
   * an occurrence of it that is not the first one, and makes a text that has it between double braces.
   */
  lemma CyclicExactly(t: Template, end: string, defs: Definitions, context: VariableContext, name: string)
    requires WellFormed(t) && Closing(end) && Describes(t, defs, context)
    ensures Diagnostic(name, Cyclic) in Resolve(context, Show(t) + end, ROUNDS, [], []).diagnostics
       <==> exists k | 0 <= k < 12 :: CyclicIn(t, end, defs, [], name, k)
  {
    var rounds := ROUNDS;
    assert rounds == 12;
    hide Resolve, CyclicIn;
    RoundsGiveCyclic(t, end, defs, context, rounds, [], [], name);
    assert CyclicWithin(t, end, defs, [], name, 12)
        <==> exists k | 0 <= k < 12 :: CyclicIn(t, end, defs, [], name, k);
  }

  /** A name without white space around it that can be written between double braces. */
  predicate Plain(name: string) {
    Single(name, '}') && Trim(name) == name && name != ""
  }

  lemma ReadOnly(name: string, context: VariableContext)
    requires Plain(name)
    ensures Substitute("{{" + name + "}}", context) == Pass(Shown(context, name), [name], [])
  {
    hide Find, Trim, Shown, Substitute, Single;
    var text := "{{" + name + "}}";
    ReadVariable(name, "", context);
    SubstituteClosing("", context);
    assert text + "" == text && Shown(context, name) + "" == Shown(context, name) && [name] + [] == [name];
  }

  /** A name that is defined as itself is not reported. */
  lemma SelfReferenceIsNotReported(name: string, context: VariableContext)
    requires Plain(name) && Lookup(context, name) == Some("{{" + name + "}}")
    ensures Resolve(context, "{{" + name + "}}", ROUNDS, [], []) == ResolvedText("{{" + name + "}}", [])
  {
    hide Find, Trim, Substitute, Single, Lookup;
    var text := "{{" + name + "}}";
    ReadOnly(name, context);
    ShownIs(name, text, context);
    UnchangedTextIsTheResult(text, context, [name], []);
    assert [name][1..] == [] && AddName(context, text, name, [], []) == [];
  }

  /** Two names that are defined as each other are not reported, whatever the number of rounds. */
  lemma {:induction false} MutualReferenceIsNotReported(
    a: string, b: string, context: VariableContext, rounds: nat, seen: seq<string>)
    requires Plain(a) && Plain(b)
    requires !Occurs("{{" + a + "}}", "{{" + b + "}}") && !Occurs("{{" + b + "}}", "{{" + a + "}}")
    requires Lookup(context, a) == Some("{{" + b + "}}") && Lookup(context, b) == Some("{{" + a + "}}")
    ensures Resolve(context, "{{" + a + "}}", rounds, [], seen).diagnostics == []
    decreases rounds
  {
    hide Trim, Substitute, Plain, Lookup, Occurs, Contains;
    if rounds > 0 {
      ReadOnly(a, context);
      ShownIs(a, "{{" + b + "}}", context);
      ContainsExactly("{{" + b + "}}", "{{" + a + "}}");
      assert [] + MalformedDiagnostics([]) == [];
      assert AddNames(context, "{{" + b + "}}", [a], [], seen) == [] by {
        assert AddName(context, "{{" + b + "}}", a, [], seen) == [];
        assert [a][1..] == [];
      }
      MutualReferenceIsNotReported(b, a, context, rounds - 1, seen + [a]);
    }
  }

  lemma ShownIs(name: string, value: string, context: VariableContext)
    requires Plain(name) && Lookup(context, name) == Some(value)
    ensures Shown(context, name) == value
  {
  }

  /** An undefined name that is written twice is reported as undefined, and as cyclic as well. */
  lemma RepeatedUndefinedIsReportedAsCyclic(name: string, context: VariableContext)
    requires Plain(name) && Lookup(context, name).None?
    ensures var text := "{{" + name + "}}" + ("{{" + name + "}}");
      Resolve(context, text, ROUNDS, [], [])
      == ResolvedText(text, [Diagnostic(name, Undefined), Diagnostic(name, Cyclic)])
  {
    hide Find, Trim, Substitute, Single, Lookup, Contains;
    var one := "{{" + name + "}}";
    var text := one + one;
    ReadOnly(name, context);
    ReadVariable(name, one, context);
    UndefinedShown(name, context);
    assert [name] + [name] == [name, name];
    UnchangedTextIsTheResult(text, context, [name, name], []);
    assert Contains(text, one) by {
      assert StartsAt(one, text, 0);
      ContainsExactly(text, one);
    }
    var first := Diagnostic(name, Undefined);
    assert AddName(context, text, name, [], []) == [first];
    assert AddName(context, text, name, [first], [name]) == [first, Diagnostic(name, Cyclic)];
    assert [name, name][1..] == [name] && [name][1..] == [];
    assert AddNames(context, text, [name], [first], [name]) == [first, Diagnostic(name, Cyclic)];
    assert [] + [name] == [name];
    assert AddNames(context, text, [name, name], [], []) == [first, Diagnostic(name, Cyclic)];
  }

  lemma UndefinedShown(name: string, context: VariableContext)
    requires Lookup(context, name).None? && Plain(name)
    ensures Shown(context, name) == "{{" + name + "}}"
  {
  }
}
