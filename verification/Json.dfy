/**
 * JSON values as `serde_json::Value` holds them: object members are kept in key order, and a finite float is
 * the number `mantissa * 2^exponent`, in lowest terms.
 */
module Json {
  import opened Wrappers

  datatype Json =
    | Null
    | Bool(b: bool)
    | Integer(n: int)
    | Float(mantissa: int, exponent: int)
    | Str(s: string)
    | Arr(items: seq<Json>)
    | Obj(members: map<string, Json>)

  function Get(members: map<string, Json>, key: string): Option<Json> {
    if key in members then Some(members[key]) else None
  }

  function At(items: seq<Json>, index: nat): Option<Json> {
    if index < |items| then Some(items[index]) else None
  }

  /** The number of levels of a document; a missing document has none. */
  ghost function Height(j: Json): (h: nat)
    ensures h > 0
    ensures j.Arr? ==> forall i | 0 <= i < |j.items| :: Height(j.items[i]) < h
    ensures j.Obj? ==> forall k <- j.members.Keys :: Height(j.members[k]) < h
  {
    match j
    case Arr(items) =>
      var heights := set i | 0 <= i < |items| :: Height(items[i]);
      assert forall i | 0 <= i < |items| :: Height(items[i]) in heights;
      1 + MaxOf(heights)
    case Obj(members) =>
      var heights := set k | k in members.Keys :: Height(members[k]);
      assert forall k <- members.Keys :: Height(members[k]) in heights;
      1 + MaxOf(heights)
    case _ => 1
  }

  ghost function MaxOf(s: set<nat>): (m: nat)
    ensures forall x <- s :: x <= m
  {
    if s == {} then 0
    else
      var x :| x in s;
      var r := MaxOf(s - {x});
      assert forall y <- s :: y == x || y in s - {x};
      if x < r then r else x
  }

  ghost function Size(before: Option<Json>, after: Option<Json>): nat {
    (if before.Some? then Height(before.value) else 0) + (if after.Some? then Height(after.value) else 0)
  }

  /**
   * The text form of JSON. Printing and parsing belong to another library, so they are parameters;
   * all that is used of them is that parsing inverts printing.
   */
  datatype Codec = Codec(show: Json -> string, parse: string -> Option<Json>) {
    ghost predicate Valid() {
      forall j: Json :: show(j) != "" && parse(show(j)) == Some(j)
    }
  }
}

/** That printing can be inverted is an assumption which some codec meets, so no result rests on nothing. */
module JsonCodecs {
  import opened Wrappers
  import opened Json
  import opened Ordering

  function Ones(n: nat): string {
    if n == 0 then "" else "1" + Ones(n - 1)
  }

  function Number(n: int): string {
    (if n < 0 then "-" + Ones(-n) else "+" + Ones(n)) + ";"
  }

  function Quoted(s: string): string {
    if s == "" then ";" else "," + [s[0]] + Quoted(s[1..])
  }

  function Tag(j: Json): char {
    match j
    case Null => 'n'
    case Bool(b) => if b then 't' else 'f'
    case Integer(_) => 'i'
    case Float(_, _) => 'd'
    case Str(_) => 's'
    case Arr(_) => '['
    case Obj(_) => '{'
  }

  /** A text form in which every value shows where it ends. */
  ghost function Encode(j: Json): string
    decreases Height(j), 2
  {
    [Tag(j)] + Content(j)
  }

  ghost function Content(j: Json): string
    decreases Height(j), 1
  {
    match j
    case Null => ""
    case Bool(_) => ""
    case Integer(n) => Number(n)
    case Float(mantissa, exponent) => Number(mantissa) + Number(exponent)
    case Str(s) => Quoted(s)
    case Arr(_) => Items(j, 0) + "]"
    case Obj(members) => Members(j, SortedKeys(members.Keys)) + "}"
  }

  ghost function Items(j: Json, i: nat): string
    requires j.Arr? && i <= |j.items|
    decreases Height(j), 0, |j.items| - i
  {
    if i == |j.items| then "" else Encode(j.items[i]) + Items(j, i + 1)
  }

  ghost function Members(j: Json, keys: seq<string>): string
    requires j.Obj? && forall k <- keys :: k in j.members
    decreases Height(j), 0, |keys|
  {
    if keys == [] then "" else Quoted(keys[0]) + Encode(j.members[keys[0]]) + Members(j, keys[1..])
  }

  lemma {:induction false} OnesEnd(a: nat, b: nat, s: string, t: string)
    requires Ones(a) + (";" + s) == Ones(b) + (";" + t)
    ensures a == b && s == t
  {
    var u, v := Ones(a) + (";" + s), Ones(b) + (";" + t);
    assert u[0] == if a > 0 then '1' else ';';
    assert v[0] == if b > 0 then '1' else ';';
    if a > 0 && b > 0 {
      assert u[1..] == Ones(a - 1) + (";" + s) && v[1..] == Ones(b - 1) + (";" + t);
      OnesEnd(a - 1, b - 1, s, t);
    } else if a == 0 && b == 0 {
      assert s == u[1..] && t == v[1..];
    }
  }

  lemma NumberEnds(a: int, b: int, s: string, t: string)
    requires Number(a) + s == Number(b) + t
    ensures a == b && s == t
  {
    var u, v := Number(a) + s, Number(b) + t;
    var m, n := if a < 0 then -a else a, if b < 0 then -b else b;
    assert u[1..] == Ones(m) + (";" + s) && v[1..] == Ones(n) + (";" + t);
    assert u[0] == if a < 0 then '-' else '+';
    assert v[0] == if b < 0 then '-' else '+';
    OnesEnd(m, n, s, t);
  }

  lemma {:induction false} QuotedEnds(a: string, b: string, s: string, t: string)
    requires Quoted(a) + s == Quoted(b) + t
    ensures a == b && s == t
  {
    var u, v := Quoted(a) + s, Quoted(b) + t;
    assert u[0] == if a == "" then ';' else ',';
    assert v[0] == if b == "" then ';' else ',';
    if a == "" {
      assert s == u[1..] && t == v[1..];
    } else {
      assert u[1] == a[0] && v[1] == b[0];
      assert u[2..] == Quoted(a[1..]) + s && v[2..] == Quoted(b[1..]) + t;
      QuotedEnds(a[1..], b[1..], s, t);
      assert a == [a[0]] + a[1..] && b == [b[0]] + b[1..];
    }
  }

  lemma StartsWithTag(j: Json, s: string)
    ensures Encode(j) != "" && (Encode(j) + s)[0] == Tag(j) && (Encode(j) + s)[1..] == Content(j) + s
  {
    hide Content;
  }

  /** Texts that start with an encoded value are equal only when the values and the rests are. */
  lemma {:induction false} EncodedEnds(a: Json, b: Json, s: string, t: string)
    requires Encode(a) + s == Encode(b) + t
    ensures a == b && s == t
    decreases Height(a), 1
  {
    hide Encode, Number, Quoted, Items, Members, SortedKeys, Height;
    StartsWithTag(a, s);
    StartsWithTag(b, t);
    assert Content(a) + s == Content(b) + t && Tag(a) == Tag(b);
    match a {
      case Null =>
      case Bool(_) =>
      case Integer(n) => NumberEnds(n, b.n, s, t);
      case Float(m, e) =>
        assert Content(a) + s == Number(m) + (Number(e) + s);
        assert Content(b) + t == Number(b.mantissa) + (Number(b.exponent) + t);
        NumberEnds(m, b.mantissa, Number(e) + s, Number(b.exponent) + t);
        NumberEnds(e, b.exponent, s, t);
      case Str(text) => QuotedEnds(text, b.s, s, t);
      case Arr(items) =>
        assert Content(a) + s == Items(a, 0) + ("]" + s) && Content(b) + t == Items(b, 0) + ("]" + t);
        ItemsEnd(a, b, 0, 0, s, t);
        assert items[0..] == items && b.items[0..] == b.items;
      case Obj(members) =>
        var keys, others := SortedKeys(members.Keys), SortedKeys(b.members.Keys);
        assert Content(a) + s == Members(a, keys) + ("}" + s) && Content(b) + t == Members(b, others) + ("}" + t);
        MembersEnd(a, b, keys, others, s, t);
        assert forall k :: k in members <==> k in keys;
        assert members == b.members;
    }
  }

  lemma {:induction false} ItemsEnd(a: Json, b: Json, i: nat, k: nat, s: string, t: string)
    requires a.Arr? && b.Arr? && i <= |a.items| && k <= |b.items|
    requires Items(a, i) + ("]" + s) == Items(b, k) + ("]" + t)
    ensures a.items[i..] == b.items[k..] && s == t
    decreases Height(a), 0, |a.items| - i
  {
    hide Encode;
    var u, v := Items(a, i) + ("]" + s), Items(b, k) + ("]" + t);
    if i < |a.items| {
      StartsWithTag(a.items[i], Items(a, i + 1) + ("]" + s));
      assert u == Encode(a.items[i]) + (Items(a, i + 1) + ("]" + s));
    }
    if k < |b.items| {
      StartsWithTag(b.items[k], Items(b, k + 1) + ("]" + t));
      assert v == Encode(b.items[k]) + (Items(b, k + 1) + ("]" + t));
    }
    if i < |a.items| && k < |b.items| {
      EncodedEnds(a.items[i], b.items[k], Items(a, i + 1) + ("]" + s), Items(b, k + 1) + ("]" + t));
      ItemsEnd(a, b, i + 1, k + 1, s, t);
      assert a.items[i..] == [a.items[i]] + a.items[i + 1..] && b.items[k..] == [b.items[k]] + b.items[k + 1..];
    } else if i == |a.items| && k == |b.items| {
      assert s == u[1..] && t == v[1..];
    }
  }

  lemma QuotedStarts(a: string, s: string)
    ensures Quoted(a) + s != "" && (Quoted(a) + s)[0] != '}'
  {
  }

  lemma {:induction false} MembersEnd(a: Json, b: Json, aKeys: seq<string>, bKeys: seq<string>, s: string, t: string)
    requires a.Obj? && b.Obj? && (forall k <- aKeys :: k in a.members) && (forall k <- bKeys :: k in b.members)
    requires Members(a, aKeys) + ("}" + s) == Members(b, bKeys) + ("}" + t)
    ensures aKeys == bKeys && s == t && forall k <- aKeys :: a.members[k] == b.members[k]
    decreases Height(a), 0, |aKeys|
  {
    hide Encode, Quoted;
    var u, v := Members(a, aKeys) + ("}" + s), Members(b, bKeys) + ("}" + t);
    if aKeys != [] {
      var more := Members(a, aKeys[1..]) + ("}" + s);
      assert u == Quoted(aKeys[0]) + (Encode(a.members[aKeys[0]]) + more);
      QuotedStarts(aKeys[0], Encode(a.members[aKeys[0]]) + more);
    }
    if bKeys != [] {
      var more := Members(b, bKeys[1..]) + ("}" + t);
      assert v == Quoted(bKeys[0]) + (Encode(b.members[bKeys[0]]) + more);
      QuotedStarts(bKeys[0], Encode(b.members[bKeys[0]]) + more);
    }
    if aKeys != [] && bKeys != [] {
      var more, rest := Members(a, aKeys[1..]) + ("}" + s), Members(b, bKeys[1..]) + ("}" + t);
      QuotedEnds(aKeys[0], bKeys[0], Encode(a.members[aKeys[0]]) + more, Encode(b.members[bKeys[0]]) + rest);
      EncodedEnds(a.members[aKeys[0]], b.members[bKeys[0]], more, rest);
      MembersEnd(a, b, aKeys[1..], bKeys[1..], s, t);
      assert aKeys == [aKeys[0]] + aKeys[1..] && bKeys == [bKeys[0]] + bKeys[1..];
    } else if aKeys == [] && bKeys == [] {
      assert s == u[1..] && t == v[1..];
    }
  }

  ghost function Decode(s: string): Option<Json> {
    if exists j :: Encode(j) == s then
      var j :| Encode(j) == s;
      Some(j)
    else None
  }

  /** The assumption about printing and parsing can be met. */
  lemma SomeCodecIsValid()
    ensures exists codec: Codec :: codec.Valid()
  {
    hide Encode;
    var codec := Codec(j => Encode(j), s => Decode(s));
    forall j: Json ensures codec.show(j) != "" && codec.parse(codec.show(j)) == Some(j) {
      StartsWithTag(j, "");
      assert codec.show(j) == Encode(j);
      var k := Decode(Encode(j)).value;
      assert Encode(k) + "" == Encode(j) + "";
      EncodedEnds(k, j, "", "");
    }
    assert codec.Valid();
  }
}
