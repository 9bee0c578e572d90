/** GraphQL documents and introspection answers, as far as the application looks into them. */
module Graphql {
  import opened Wrappers
  import opened Text
  import opened Json

  datatype GraphqlError =
    | EmptyQuery
    | UnbalancedBraces
    | InvalidVariables
    | VariablesMustBeObject
    | MissingKind
    | MissingOfType(kind: string)
    | MissingName(kind: string)
    | UnknownKind(kind: string)

  // ----- What a balanced query is -----

  /** Where a string literal ends, just after its closing quote; the opening quote has been read. */
  function StringEnd(s: string): (r: Option<nat>)
    ensures r.Some? ==> 0 < r.value <= |s|
  {
    if s == "" then None
    else if s[0] == '"' then Some(1)
    else
      var step := if s[0] == '\\' then 2 else 1;
      if |s| < step then None
      else
        match StringEnd(s[step..])
        case None => None
        case Some(n) => Some(step + n)
  }

  /** The text outside of string literals, when every literal is closed. */
  function Outside(s: string): Option<string>
    decreases |s|
  {
    if s == "" then Some("")
    else if s[0] == '"' then
      match StringEnd(s[1..])
      case None => None
      case Some(n) => Outside(s[1 + n..])
    else
      match Outside(s[1..])
      case None => None
      case Some(rest) => Some([s[0]] + rest)
  }

  predicate IsBrace(c: char) {
    c == '{' || c == '}'
  }

  function Braces(s: string): string {
    if s == "" then "" else if IsBrace(s[0]) then [s[0]] + Braces(s[1..]) else Braces(s[1..])
  }

  /** The grammar of balanced braces. */
  datatype Dyck = Empty | Nest(inner: Dyck, rest: Dyck)

  function Word(d: Dyck): string {
    match d
    case Empty => ""
    case Nest(inner, rest) => "{" + Word(inner) + "}" + Word(rest)
  }

  /** Every string is closed, and the braces outside of strings are a non-empty balanced word. */
  ghost predicate Balanced(query: string) {
    Outside(query).Some? && exists d: Dyck :: d != Empty && Word(d) == Braces(Outside(query).value)
  }

  // ----- The counter that the validator keeps -----

  predicate Counts(braces: string, depth: nat) {
    if braces == "" then depth == 0
    else if braces[0] == '{' then Counts(braces[1..], depth + 1)
    else depth > 0 && Counts(braces[1..], depth - 1)
  }

  /** What is left outside of strings, for a validator in the middle of the text. */
  function Left(s: string, inString: bool, escaped: bool): Option<string> {
    if !inString then Outside(s)
    else if escaped && s == "" then None
    else
      match StringEnd(if escaped then s[1..] else s)
      case None => None
      case Some(n) => Outside((if escaped then s[1..] else s)[n..])
  }

  predicate Accepts(left: Option<string>, depth: nat, hasSelection: bool) {
    left.Some? && Counts(Braces(left.value), depth) && (hasSelection || '{' in Braces(left.value))
  }

  lemma InsideStep(s: string, escaped: bool)
    requires s != ""
    ensures Left(s, true, escaped)
            == if escaped then Left(s[1..], true, false)
               else if s[0] == '\\' then Left(s[1..], true, true)
               else if s[0] == '"' then Left(s[1..], false, false)
               else Left(s[1..], true, false)
  {
    if !escaped && s[0] == '\\' && |s| >= 2 {
      assert s[1..][1..] == s[2..];
      var n := StringEnd(s[2..]);
      if n.Some? {
        assert s[2 + n.value..] == s[2..][n.value..];
      }
    } else if !escaped && s[0] != '"' {
      var n := StringEnd(s[1..]);
      if n.Some? {
        assert s[1 + n.value..] == s[1..][n.value..];
      }
    }
  }

  lemma OutsideStep(s: string, depth: nat, hasSelection: bool)
    requires s != ""
    ensures Accepts(Outside(s), depth, hasSelection)
            == if s[0] == '"' then Accepts(Left(s[1..], true, false), depth, hasSelection)
               else if s[0] == '{' then Accepts(Outside(s[1..]), depth + 1, true)
               else if s[0] == '}' then depth > 0 && Accepts(Outside(s[1..]), depth - 1, hasSelection)
               else Accepts(Outside(s[1..]), depth, hasSelection)
  {
    hide StringEnd;
    var after := Outside(s[1..]);
    if s[0] == '"' {
      var n := StringEnd(s[1..]);
      if n.Some? {
        assert s[1 + n.value..] == s[1..][n.value..];
      }
    } else if after.Some? {
      BracesStep(s[0], after.value);
    }
  }

  lemma BracesStep(c: char, s: string)
    ensures Braces([c] + s) == if IsBrace(c) then [c] + Braces(s) else Braces(s)
    ensures IsBrace(c) ==> ([c] + Braces(s))[0] == c && ([c] + Braces(s))[1..] == Braces(s)
  {
    assert ([c] + s)[1..] == s;
  }

  /** The counter accepts exactly the words of the grammar. */
  lemma {:induction false} WordsCount(d: Dyck, rest: string, depth: nat)
    ensures Counts(Word(d) + rest, depth) == Counts(rest, depth)
  {
    match d
    case Empty => assert "" + rest == rest;
    case Nest(inner, after) =>
      var s := Word(d) + rest;
      var tail := "}" + (Word(after) + rest);
      assert s[1..] == Word(inner) + tail;
      WordsCount(inner, tail, depth + 1);
      assert tail[1..] == Word(after) + rest;
      WordsCount(after, rest, depth);
  }

  lemma WordOfNest(inner: Dyck, rest: Dyck)
    ensures Word(Nest(inner, rest)) == "{" + Word(inner) + "}" + Word(rest)
  {
  }

  lemma OpeningCounts(braces: string, depth: nat)
    requires Counts(braces, depth) && (forall c <- braces :: IsBrace(c)) && braces != "" && braces[0] != '}'
    ensures braces == "{" + braces[1..] && Counts(braces[1..], depth + 1) && forall c <- braces[1..] :: IsBrace(c)
  {
    assert braces[0] in braces;
  }

  lemma ClosingCounts(tail: string, depth: nat)
    requires Counts(tail, depth + 1) && (tail == "" || tail[0] == '}')
    ensures tail != "" && tail == "}" + tail[1..] && Counts(tail[1..], depth)
  {
  }

  lemma {:induction false} CountedStartsWithWord(braces: string, depth: nat) returns (d: Dyck, rest: string)
    requires Counts(braces, depth) && forall c <- braces :: IsBrace(c)
    ensures braces == Word(d) + rest && Counts(rest, depth) && (rest == "" || rest[0] == '}')
    decreases |braces|
  {
    hide Counts, IsBrace;
    if braces == "" || braces[0] == '}' {
      d, rest := Empty, braces;
    } else {
      hide Word;
      OpeningCounts(braces, depth);
      var inner, tail := CountedStartsWithWord(braces[1..], depth + 1);
      ClosingCounts(tail, depth);
      assert forall c <- tail[1..] :: c in braces[1..];
      var after;
      after, rest := CountedStartsWithWord(tail[1..], depth);
      d := Nest(inner, after);
      WordOfNest(inner, after);
      assert braces == "{" + (Word(inner) + ("}" + (Word(after) + rest)));
    }
  }

  lemma {:induction false} BracesAreBraces(s: string)
    ensures forall c <- Braces(s) :: IsBrace(c)
  {
    if s != "" {
      BracesAreBraces(s[1..]);
    }
  }

  lemma CountingIsBalance(query: string)
    ensures Accepts(Outside(query), 0, false) <==> Balanced(query)
  {
    var outside := Outside(query);
    if outside.Some? {
      var braces := Braces(outside.value);
      BracesAreBraces(outside.value);
      if Accepts(outside, 0, false) {
        var d, rest := CountedStartsWithWord(braces, 0);
        assert Word(d) + "" == Word(d);
        assert Word(Empty) == "";
      }
      if Balanced(query) {
        var d: Dyck :| d != Empty && Word(d) == braces;
        WordsCount(d, "", 0);
        assert braces + "" == braces && braces[0] == '{';
      }
    }
  }

  /** Main result: `validate_query` accepts exactly the non-blank balanced queries. */
  method ValidateQuery(query: string) returns (r: Result<(), GraphqlError>)
    ensures Blank(query) ==> r == Err(EmptyQuery)
    ensures !Blank(query) ==> r == if Balanced(query) then Ok(()) else Err(UnbalancedBraces)
  {
    hide *;
    if Trim(query) == "" {
      BlankIsTrim(query);
      return Err(EmptyQuery);
    }
    BlankIsTrim(query);
    CountingIsBalance(query);
    var depth := 0;
    var inString, escaped, hasSelection := false, false, false;
    assert query[0..] == query;
    for i := 0 to |query|
      invariant depth >= 0 && (escaped ==> inString)
      invariant Balanced(query)
        == Accepts(if inString then Left(query[i..], true, escaped) else Outside(query[i..]), depth, hasSelection)
    {
      var s := query[i..];
      var character := query[i];
      assert s[1..] == query[i + 1..] && s[0] == character;
      if inString {
        InsideStep(s, escaped);
        NotInString(s[1..]);
        if escaped {
          escaped := false;
        } else if character == '\\' {
          escaped := true;
        } else if character == '"' {
          inString := false;
        }
      } else {
        OutsideStep(s, depth, hasSelection);
        if character == '"' {
          inString := true;
        } else if character == '{' {
          depth := depth + 1;
          hasSelection := true;
        } else if character == '}' {
          depth := depth - 1;
          if depth < 0 {
            return Err(UnbalancedBraces);
          }
        }
      }
    }
    assert query[|query|..] == "";
    AtTheEnd(escaped, depth, hasSelection);
    if depth != 0 || inString || !hasSelection {
      r := Err(UnbalancedBraces);
    } else {
      r := Ok(());
    }
  }

  lemma BlankIsTrim(s: string)
    ensures Blank(s) <==> Trim(s) == ""
  {
  }

  lemma NotInString(s: string)
    ensures Left(s, false, false) == Outside(s)
  {
  }

  lemma AtTheEnd(escaped: bool, depth: nat, hasSelection: bool)
    ensures Left("", true, escaped).None?
    ensures forall left: Option<string> :: left.None? ==> !Accepts(left, depth, hasSelection)
    ensures Accepts(Outside(""), depth, hasSelection) <==> depth == 0 && hasSelection
  {
  }

  // ----- Variables -----

  /** `parse_variables_json`. */
  function ParseVariables(codec: Codec, input: string): Result<Json, GraphqlError> {
    match codec.parse(input)
    case None => Err(InvalidVariables)
    case Some(value) =>
      if value.Null? then Ok(Obj(map[]))
      else if value.Obj? then Ok(value)
      else Err(VariablesMustBeObject)
  }

  // ----- Type references -----

  /** A type as the specification of GraphQL writes it, with non-null types allowed to nest. */
  datatype TypeRef = NonNull(of: TypeRef) | List(of: TypeRef) | Named(name: string)

  const NAMED_KINDS: seq<string> := ["SCALAR", "OBJECT", "INTERFACE", "UNION", "ENUM", "INPUT_OBJECT"]

  /** `value.get(key)`; only objects have members. */
  function Member(value: Json, key: string): Option<Json> {
    if value.Obj? then Get(value.members, key) else None
  }

  /** `value.get(key).and_then(Value::as_str)`. */
  function TextOf(value: Json, key: string): Option<string> {
    match Member(value, key)
    case Some(Str(s)) => Some(s)
    case _ => None
  }

  /** `type_ref_display`. */
  function Display(value: Json): Result<string, GraphqlError> {
    match TextOf(value, "kind")
    case None => Err(MissingKind)
    case Some(kind) =>
      if kind == "NON_NULL" || kind == "LIST" then
        if !(value.Obj? && "ofType" in value.members) then Err(MissingOfType(kind))
        else
          match Display(value.members["ofType"])
          case Err(e) => Err(e)
          case Ok(inner) => Ok(if kind == "LIST" then "[" + inner + "]" else inner + "!")
      else if kind in NAMED_KINDS then
        match TextOf(value, "name")
        case None => Err(MissingName(kind))
        case Some(name) => Ok(name)
      else Err(UnknownKind(kind))
  }

  /** The type that an introspection answer describes. */
  predicate Describes(value: Json, t: TypeRef)
    decreases t
  {
    match t
    case NonNull(of) =>
      TextOf(value, "kind") == Some("NON_NULL") && Member(value, "ofType").Some?
      && Describes(Member(value, "ofType").value, of)
    case List(of) =>
      TextOf(value, "kind") == Some("LIST") && Member(value, "ofType").Some?
      && Describes(Member(value, "ofType").value, of)
    case Named(name) =>
      TextOf(value, "kind").Some? && TextOf(value, "kind").value in NAMED_KINDS && TextOf(value, "name") == Some(name)
  }

  function Written(t: TypeRef): string {
    match t
    case NonNull(of) => Written(of) + "!"
    case List(of) => "[" + Written(of) + "]"
    case Named(name) => name
  }

  /** The independent reader of written types. */
  function Read(s: string): TypeRef {
    if s != "" && s[|s| - 1] == '!' then NonNull(Read(s[..|s| - 1]))
    else if |s| >= 2 && s[0] == '[' && s[|s| - 1] == ']' then List(Read(s[1..|s| - 1]))
    else Named(s)
  }

  function NameIn(t: TypeRef): string {
    if t.Named? then t.name else NameIn(t.of)
  }

  /** A name that reads as a wrapped type. */
  predicate LooksWrapped(name: string) {
    (name != "" && name[|name| - 1] == '!') || (|name| >= 2 && name[0] == '[' && name[|name| - 1] == ']')
  }

  /** Main result: an answer is displayed exactly when it describes a type, and then as that type is written. */
  lemma {:induction false} DisplayedExactlyWhenDescribed(value: Json)
    ensures Display(value).Ok? ==> exists t :: Describes(value, t)
    ensures (exists t :: Describes(value, t)) ==> Display(value).Ok?
    ensures forall t :: Describes(value, t) ==> Display(value) == Ok(Written(t))
  {
    hide Display, Describes;
    forall t | Describes(value, t) ensures Display(value) == Ok(Written(t)) {
      DescribedIsDisplayed(value, t);
    }
    if Display(value).Ok? {
      var t := DisplayedIsDescribed(value);
    }
  }

  lemma {:induction false} DescribedIsDisplayed(value: Json, t: TypeRef)
    requires Describes(value, t)
    ensures Display(value) == Ok(Written(t))
    decreases t
  {
    if !t.Named? {
      DescribedIsDisplayed(Member(value, "ofType").value, t.of);
    }
  }

  lemma {:induction false} DisplayedIsDescribed(value: Json) returns (t: TypeRef)
    requires Display(value).Ok?
    ensures Describes(value, t)
  {
    var kind := TextOf(value, "kind").value;
    if kind == "NON_NULL" || kind == "LIST" {
      var of := DisplayedIsDescribed(value.members["ofType"]);
      t := if kind == "LIST" then List(of) else NonNull(of);
    } else {
      t := Named(TextOf(value, "name").value);
    }
  }

  /** Main result: a written type reads back as itself exactly when its name does not look wrapped. */
  lemma {:induction false} ReadingInvertsWriting(t: TypeRef)
    ensures Read(Written(t)) == t <==> !LooksWrapped(NameIn(t))
  {
    var s := Written(t);
    match t
    case NonNull(of) =>
      assert s[..|s| - 1] == Written(of);
      ReadingInvertsWriting(of);
    case List(of) =>
      assert s[1..|s| - 1] == Written(of);
      ReadingInvertsWriting(of);
    case Named(name) =>
  }

  /** Names of GraphQL have no brackets and no exclamation marks; such types are written differently. */
  lemma WritingIsInjective(t: TypeRef, u: TypeRef)
    requires forall c <- NameIn(t) + NameIn(u) :: c !in "[]!"
    ensures Written(t) == Written(u) <==> t == u
  {
    PlainNames(NameIn(t), NameIn(u));
    ReadingInvertsWriting(t);
    ReadingInvertsWriting(u);
  }

  lemma PlainNames(a: string, b: string)
    requires forall c <- a + b :: c !in "[]!"
    ensures !LooksWrapped(a) && !LooksWrapped(b)
  {
    if a != "" {
      assert a[|a| - 1] in a + b;
    }
    if b != "" {
      assert b[|b| - 1] in a + b;
    }
  }

  /** Every text is the writing of the type that it reads as. */
  lemma {:induction false} WritingInvertsReading(s: string)
    ensures Written(Read(s)) == s && !LooksWrapped(NameIn(Read(s)))
  {
    if s != "" && s[|s| - 1] == '!' {
      WritingInvertsReading(s[..|s| - 1]);
    } else if |s| >= 2 && s[0] == '[' && s[|s| - 1] == ']' {
      WritingInvertsReading(s[1..|s| - 1]);
      assert s == "[" + s[1..|s| - 1] + "]";
    }
  }
}
