/** `{{name}}` templates: seven scopes, and at most twelve rounds of simultaneous substitution. */
module Variables {
  import opened Wrappers
  import opened Text

  const ROUNDS: nat := 12

  datatype VariableContext = VariableContext(
    iteration: map<string, string>,
    runtime: map<string, string>,
    request: map<string, string>,
    environment: map<string, string>,
    collection: map<string, string>,
    project: map<string, string>,
    globals: map<string, string>)
  {
    /** The scopes, weakest first. */
    function Source(i: nat): map<string, string>
      requires i < 7
    {
      match i
      case 0 => globals
      case 1 => project
      case 2 => collection
      case 3 => environment
      case 4 => request
      case 5 => runtime
      case 6 => iteration
    }

    /** All visible values: merged weakest scope first, so that stronger ones overwrite. */
    method VisibleValues() returns (merged: map<string, string>)
      ensures forall name :: Lookup(this, name) == if name in merged then Some(merged[name]) else None
      ensures merged == globals + project + collection + environment + request + runtime + iteration
    {
      hide Lookup, LastIn;
      merged := map[];
      for i := 0 to 7
        invariant merged == MergedUpTo(this, i)
      {
        merged := merged + Source(i);
      }
      AllAreMerged(this);
      forall name ensures Lookup(this, name) == if name in merged then Some(merged[name]) else None {
        MergedHasTheLast(this, 7, name);
        StrongestWins(this, name);
      }
    }
  }

  /** The value of a name in the last of the `n` weakest scopes that has it. */
  ghost function LastIn(context: VariableContext, n: nat, name: string): Option<string>
    requires n <= 7
  {
    if n == 0 then None
    else if name in context.Source(n - 1) then Some(context.Source(n - 1)[name])
    else LastIn(context, n - 1, name)
  }

  lemma StrongestWins(context: VariableContext, name: string)
    ensures LastIn(context, 7, name) == Lookup(context, name)
  {
    assert LastIn(context, 1, name) == if name in context.globals then Some(context.globals[name]) else None;
    assert LastIn(context, 2, name)
        == if name in context.project then Some(context.project[name]) else LastIn(context, 1, name);
    assert LastIn(context, 3, name)
        == if name in context.collection then Some(context.collection[name]) else LastIn(context, 2, name);
    assert LastIn(context, 4, name)
        == if name in context.environment then Some(context.environment[name]) else LastIn(context, 3, name);
    assert LastIn(context, 5, name)
        == if name in context.request then Some(context.request[name]) else LastIn(context, 4, name);
  }

  /** The `n` weakest scopes, merged in order. */
  ghost function MergedUpTo(context: VariableContext, n: nat): map<string, string>
    requires n <= 7
  {
    if n == 0 then map[] else MergedUpTo(context, n - 1) + context.Source(n - 1)
  }

  lemma {:induction false} MergedHasTheLast(context: VariableContext, n: nat, name: string)
    requires n <= 7
    ensures var merged := MergedUpTo(context, n);
      LastIn(context, n, name) == if name in merged then Some(merged[name]) else None
  {
    if n > 0 {
      MergedHasTheLast(context, n - 1, name);
    }
  }

  lemma AllAreMerged(context: VariableContext)
    ensures MergedUpTo(context, 7)
         == context.globals + context.project + context.collection + context.environment + context.request
            + context.runtime + context.iteration
  {
    assert MergedUpTo(context, 1) == context.globals;
    assert MergedUpTo(context, 2) == context.globals + context.project;
    assert MergedUpTo(context, 3) == MergedUpTo(context, 2) + context.collection;
    assert MergedUpTo(context, 4) == MergedUpTo(context, 3) + context.environment;
    assert MergedUpTo(context, 5) == MergedUpTo(context, 4) + context.request;
    assert MergedUpTo(context, 6) == MergedUpTo(context, 5) + context.runtime;
  }

  /** The value of a name in the strongest scope that has it. */
  function Lookup(context: VariableContext, name: string): Option<string> {
    if name in context.iteration then Some(context.iteration[name])
    else if name in context.runtime then Some(context.runtime[name])
    else if name in context.request then Some(context.request[name])
    else if name in context.environment then Some(context.environment[name])
    else if name in context.collection then Some(context.collection[name])
    else if name in context.project then Some(context.project[name])
    else if name in context.globals then Some(context.globals[name])
    else None
  }

  // ----- One round -----

  /** What the scanner finds first in a text. */
  datatype Scan =
    | Plain
    | Unclosed(inner: string)
    | Expression(before: string, raw: string, after: string)

  function NextExpression(input: string): (r: Scan)
    ensures r.Expression? ==> |r.after| < |input|
  {
    match Find(input, "{{")
    case None => Plain
    case Some(start) =>
      match Find(input[start + 2..], "}}")
      case None => Unclosed(input[start + 2..])
      case Some(length) =>
        Expression(input[..start], input[start + 2..start + 2 + length], input[start + 2 + length + 2..])
  }

  datatype Pass = Pass(value: string, names: seq<string>, malformed: seq<string>)

  function Shown(context: VariableContext, raw: string): string {
    if Trim(raw) != "" && Lookup(context, Trim(raw)).Some? then Lookup(context, Trim(raw)).value
    else "{{" + raw + "}}"
  }

  /** The result for a text, given what is found in it first and the result for what follows that. */
  function PassOf(context: VariableContext, input: string, scan: Scan, rest: Pass): Pass {
    match scan
    case Plain => Pass(input, [], [])
    case Unclosed(inner) => Pass(input, [], [Trim(inner)])
    case Expression(before, raw, _) =>
      Pass(before + Shown(context, raw) + rest.value,
           (if Trim(raw) == "" then [] else [Trim(raw)]) + rest.names,
           (if Trim(raw) == "" then [""] else []) + rest.malformed)
  }

  /** One simultaneous substitution: inserted values are not scanned again. */
  function Substitute(input: string, context: VariableContext): Pass
    decreases |input|
  {
    var scan := NextExpression(input);
    PassOf(context, input, scan,
           if scan.Expression? then Substitute(scan.after, context) else Pass("", [], []))
  }

  lemma SubstituteUnfolds(input: string, context: VariableContext)
    ensures var scan := NextExpression(input);
      Substitute(input, context)
      == PassOf(context, input, scan, if scan.Expression? then Substitute(scan.after, context) else Pass("", [], []))
  {
  }

  /** One turn of the scanner: what it appends, and what it leaves. */
  lemma ScannerTurn(context: VariableContext, input: string, output: string, names: seq<string>,
                    malformed: seq<string>)
    requires NextExpression(input).Expression?
    ensures var scan := NextExpression(input); var blank := Trim(scan.raw) == "";
      var all, rest := Substitute(input, context), Substitute(scan.after, context);
      && output + all.value == output + scan.before + Shown(context, scan.raw) + rest.value
      && names + all.names == (if blank then names else names + [Trim(scan.raw)]) + rest.names
      && malformed + all.malformed == (if blank then malformed + [""] else malformed) + rest.malformed
  {
    hide Find, Trim, Substitute, NextExpression, Shown;
    SubstituteUnfolds(input, context);
  }

  lemma ShownAs(context: VariableContext, raw: string)
    ensures Shown(context, raw) == if Trim(raw) != "" && Lookup(context, Trim(raw)).Some?
                                   then Lookup(context, Trim(raw)).value else "{{" + raw + "}}"
  {
    hide Lookup, Trim;
  }

  lemma ScannerEnds(context: VariableContext, input: string)
    requires !NextExpression(input).Expression?
    ensures Substitute(input, context)
         == Pass(input, [], if NextExpression(input).Plain? then [] else [Trim(NextExpression(input).inner)])
  {
    hide Find, Trim, NextExpression;
  }

  method SubstituteOnce(input: string, context: VariableContext)
    returns (output: string, names: seq<string>, malformed: seq<string>)
    ensures Pass(output, names, malformed) == Substitute(input, context)
  {
    hide Find, Trim, Substitute, NextExpression, Shown, Lookup;
    output, names, malformed := "", [], [];
    var remaining := input;
    while true
      invariant Substitute(input, context).value == output + Substitute(remaining, context).value
      invariant Substitute(input, context).names == names + Substitute(remaining, context).names
      invariant Substitute(input, context).malformed == malformed + Substitute(remaining, context).malformed
      decreases |remaining|
    {
      match NextExpression(remaining) {
        case Plain =>
          ScannerEnds(context, remaining);
          break;
        case Unclosed(inner) =>
          ScannerEnds(context, remaining);
          malformed := malformed + [Trim(inner)];
          break;
        case Expression(before, raw, after) =>
          ScannerTurn(context, remaining, output, names, malformed);
          ShownAs(context, raw);
          var name := Trim(raw);
          output := output + before;
          if name == "" {
            output := output + ("{{" + raw + "}}");
            malformed := malformed + [name];
          } else {
            var value := Lookup(context, name);
            output := output + (if value.Some? then value.value else "{{" + raw + "}}");
            names := names + [name];
          }
          remaining := after;
      }
    }
    output := output + remaining;
  }

  // ----- All rounds -----

  datatype Kind = Undefined | Cyclic | Malformed

  datatype Diagnostic = Diagnostic(name: string, kind: Kind)

  datatype ResolvedText = ResolvedText(value: string, diagnostics: seq<Diagnostic>)

  function MalformedDiagnostics(names: seq<string>): seq<Diagnostic> {
    seq(|names|, i requires 0 <= i < |names| => Diagnostic(names[i], Malformed))
  }

  function AddName(context: VariableContext, next: string, name: string,
                   diagnostics: seq<Diagnostic>, seen: seq<string>): seq<Diagnostic>
  {
    var undefined := Diagnostic(name, Undefined);
    diagnostics
    + (if Lookup(context, name).None? && undefined !in diagnostics then [undefined] else [])
    + (if name in seen && Contains(next, "{{" + name + "}}") then [Diagnostic(name, Cyclic)] else [])
  }

  function AddNames(context: VariableContext, next: string, names: seq<string>,
                    diagnostics: seq<Diagnostic>, seen: seq<string>): seq<Diagnostic>
    decreases |names|
  {
    if names == [] then diagnostics
    else
      AddNames(context, next, names[1..], AddName(context, next, names[0], diagnostics, seen), seen + [names[0]])
  }

  function Resolve(context: VariableContext, current: string, rounds: nat,
                   diagnostics: seq<Diagnostic>, seen: seq<string>): ResolvedText
    decreases rounds
  {
    if rounds == 0 then ResolvedText(current, diagnostics)
    else
      var pass := Substitute(current, context);
      var found := AddNames(context, pass.value, pass.names, diagnostics + MalformedDiagnostics(pass.malformed), seen);
      if pass.value == current then ResolvedText(current, found)
      else Resolve(context, pass.value, rounds - 1, found, seen + pass.names)
  }

  /** The bookkeeping of one round. */
  method Diagnose(context: VariableContext, next: string, names: seq<string>, malformed: seq<string>,
                  diagnostics0: seq<Diagnostic>, seen0: seq<string>)
    returns (diagnostics: seq<Diagnostic>, seen: seq<string>)
    ensures diagnostics == AddNames(context, next, names, diagnostics0 + MalformedDiagnostics(malformed), seen0)
    ensures seen == seen0 + names
  {
    diagnostics, seen := diagnostics0, seen0;
    for i := 0 to |malformed|
      invariant diagnostics == diagnostics0 + MalformedDiagnostics(malformed[..i])
    {
      diagnostics := diagnostics + [Diagnostic(malformed[i], Malformed)];
    }
    assert malformed[..|malformed|] == malformed;
    for i := 0 to |names|
      invariant seen == seen0 + names[..i]
      invariant AddNames(context, next, names[i..], diagnostics, seen)
             == AddNames(context, next, names, diagnostics0 + MalformedDiagnostics(malformed), seen0)
    {
      var name := names[i];
      assert names[i..][1..] == names[i + 1..];
      var undefined := Diagnostic(name, Undefined);
      ghost var before := diagnostics;
      if Lookup(context, name).None? && undefined !in diagnostics {
        diagnostics := diagnostics + [undefined];
      }
      if name in seen && Contains(next, "{{" + name + "}}") {
        diagnostics := diagnostics + [Diagnostic(name, Cyclic)];
      }
      assert diagnostics == AddName(context, next, name, before, seen);
      seen := seen + [name];
    }
    assert names[..|names|] == names;
  }

  method ResolveRounds(input: string, context: VariableContext, rounds: nat) returns (r: ResolvedText)
    ensures r == Resolve(context, input, rounds, [], [])
  {
    hide Substitute, AddNames;
    var current, diagnostics, seen := input, [], [];
    for round := 0 to rounds
      invariant Resolve(context, input, rounds, [], []) == Resolve(context, current, rounds - round, diagnostics, seen)
    {
      var next, names, malformed := SubstituteOnce(current, context);
      diagnostics, seen := Diagnose(context, next, names, malformed, diagnostics, seen);
      if next == current {
        break;
      }
      current := next;
    }
    return ResolvedText(current, diagnostics);
  }

  method ResolveText(input: string, context: VariableContext) returns (r: ResolvedText)
    ensures r == Resolve(context, input, ROUNDS, [], [])
  {
    r := ResolveRounds(input, context, ROUNDS);
  }
}
