/** JSON Pointers: how the comparison writes them, and how RFC 6901 reads them. */
module JsonPointer {
  import opened Wrappers
  import opened Text
  import opened Json

  /** `str::replace` of a two-character text by one character, left to right. */
  function ReplacePair(s: string, c: char, d: char, sub: char): string {
    if |s| >= 2 && s[0] == c && s[1] == d then [sub] + ReplacePair(s[2..], c, d, sub)
    else if s == "" then ""
    else [s[0]] + ReplacePair(s[1..], c, d, sub)
  }

  function Escape(key: string): string {
    Replace(Replace(key, '~', "~0"), '/', "~1")
  }

  /** RFC 6901 section 4: first `~1` becomes `/`, then `~0` becomes `~`. */
  function Unescape(token: string): string {
    ReplacePair(ReplacePair(token, '~', '1', '/'), '~', '0', '~')
  }

  function Escape1(c: char): string {
    if c == '~' then "~0" else if c == '/' then "~1" else [c]
  }

  lemma ReplaceConcat(s: string, t: string, c: char, sub: string)
    ensures Replace(s + t, c, sub) == Replace(s, c, sub) + Replace(t, c, sub)
  {
    if s == "" {
      assert s + t == t;
    } else {
      assert (s + t)[1..] == s[1..] + t;
      ReplaceConcat(s[1..], t, c, sub);
    }
  }

  lemma EscapeCons(c: char, key: string)
    ensures Escape([c] + key) == Escape1(c) + Escape(key)
  {
    var head := if c == '~' then "~0" else [c];
    assert Replace([c] + key, '~', "~0") == head + Replace(key, '~', "~0");
    ReplaceConcat(head, Replace(key, '~', "~0"), '/', "~1");
    assert Replace("~0", '/', "~1") == "~0" by {
      assert "~0"[1..] == "0";
    }
  }

  lemma {:induction false} EscapedHasNoSlash(key: string)
    ensures '/' !in Escape(key)
  {
    if key != "" {
      assert key == [key[0]] + key[1..];
      EscapeCons(key[0], key[1..]);
      EscapedHasNoSlash(key[1..]);
    }
  }

  /** The escaped form of a key is read back as that key. */
  lemma {:induction false} UnescapeInvertsEscape(key: string)
    ensures Unescape(Escape(key)) == key
  {
    MiddlePass(key);
    LastPass(key);
  }

  lemma {:induction false} MiddlePass(key: string)
    ensures ReplacePair(Escape(key), '~', '1', '/') == Replace(key, '~', "~0")
  {
    if key != "" {
      var c, rest := key[0], key[1..];
      assert key == [c] + rest;
      EscapeCons(c, rest);
      MiddlePass(rest);
      var tail := Escape(rest);
      if c == '~' {
        assert ("~0" + tail)[1..] == "0" + tail && ("0" + tail)[1..] == tail;
      } else if c == '/' {
        assert ("~1" + tail)[2..] == tail;
      } else {
        assert ([c] + tail)[1..] == tail;
      }
    }
  }

  lemma {:induction false} LastPass(key: string)
    ensures ReplacePair(Replace(key, '~', "~0"), '~', '0', '~') == key
  {
    if key != "" {
      var tail := Replace(key[1..], '~', "~0");
      LastPass(key[1..]);
      if key[0] == '~' {
        assert ("~0" + tail)[2..] == tail;
      } else {
        assert ([key[0]] + tail)[1..] == tail;
      }
      assert key == [key[0]] + key[1..];
    }
  }

  /** `format!("{index}")`. */
  function Decimal(n: nat): (r: string)
    ensures r != "" && '/' !in r
    ensures Digits(r)
    ensures r[0] == '0' ==> n == 0 && r == "0"
  {
    var digit := '0' + (n % 10) as char;
    if n < 10 then [digit] else Decimal(n / 10) + [digit]
  }

  predicate Digits(s: string) {
    forall i | 0 <= i < |s| :: '0' <= s[i] <= '9'
  }

  function DigitsValue(s: string): nat
    requires Digits(s)
  {
    if s == "" then 0 else 10 * DigitsValue(s[..|s| - 1]) + (s[|s| - 1] - '0') as nat
  }

  /** RFC 6901 section 4: an array index is `0` or a number without a leading zero. */
  function ArrayIndex(token: string): Option<nat> {
    if token != "" && (token == "0" || token[0] != '0') && Digits(token)
    then Some(DigitsValue(token)) else None
  }

  lemma {:induction false} DigitsValueOfDecimal(n: nat)
    ensures DigitsValue(Decimal(n)) == n
  {
    var s := Decimal(n);
    if n >= 10 {
      DigitsValueOfDecimal(n / 10);
      assert s[..|s| - 1] == Decimal(n / 10);
    } else {
      assert s[..|s| - 1] == "" && DigitsValue("") == 0;
    }
  }

  lemma {:induction false} ArrayIndexInvertsDecimal(n: nat)
    ensures ArrayIndex(Decimal(n)) == Some(n)
  {
    var s := Decimal(n);
    DigitsValueOfDecimal(n);
  }

  /** One reference token applied to a value, or to nothing. */
  function Select(doc: Option<Json>, token: string): Option<Json> {
    match doc
    case Some(Obj(members)) => Get(members, Unescape(token))
    case Some(Arr(items)) => (match ArrayIndex(token) case Some(i) => At(items, i) case None => None)
    case _ => None
  }

  /** The text before the first slash. */
  function FirstToken(s: string): (r: string)
    ensures r <= s && '/' !in r
    ensures |r| < |s| ==> s[|r|] == '/'
  {
    if s == "" || s[0] == '/' then "" else [s[0]] + FirstToken(s[1..])
  }

  /** RFC 6901 section 4: evaluate a pointer against a document; a missing value stays missing. */
  function Evaluate(doc: Option<Json>, pointer: string): Option<Json>
    decreases |pointer|
  {
    if pointer == "" then doc
    else if pointer[0] != '/' then None
    else
      var token := FirstToken(pointer[1..]);
      Evaluate(Select(doc, token), pointer[1 + |token|..])
  }

  /** Nothing, or a slash and more: what may follow a whole reference token. */
  predicate Continues(rest: string) {
    rest == "" || rest[0] == '/'
  }

  lemma {:induction false} FirstTokenOf(token: string, rest: string)
    requires '/' !in token && Continues(rest)
    ensures FirstToken(token + rest) == token
  {
    if token != "" {
      assert (token + rest)[1..] == token[1..] + rest;
      FirstTokenOf(token[1..], rest);
    } else {
      assert token + rest == rest;
    }
  }

  lemma EvaluateStep(doc: Option<Json>, token: string, rest: string)
    requires '/' !in token && Continues(rest)
    ensures Evaluate(doc, "/" + token + rest) == Evaluate(Select(doc, token), rest)
  {
    var pointer := "/" + token + rest;
    assert pointer[1..] == token + rest;
    FirstTokenOf(token, rest);
    assert pointer[1 + |token|..] == rest;
  }

  /** `longer` is `shorter` itself or points below it. */
  predicate Extends(shorter: string, longer: string) {
    shorter == longer || shorter + "/" <= longer
  }

  lemma ExtendsIsTransitive(a: string, b: string, c: string)
    requires Extends(a, b) && Extends(b, c)
    ensures Extends(a, c)
  {
  }

  /** A pointer at or below the child `token` of the node `pointer` names that child first. */
  lemma ChildOf(pointer: string, token: string, p: string)
    requires '/' !in token && Extends(pointer + "/" + token, p)
    ensures |pointer| < |p| && FirstToken(p[|pointer| + 1..]) == token
  {
    var child := pointer + "/" + token;
    var rest := p[|child|..];
    assert Continues(rest);
    assert p == child + rest;
    assert p[|pointer| + 1..] == token + rest;
    FirstTokenOf(token, rest);
  }

  /** Two pointers below different children of one node are unrelated. */
  lemma BranchesAreUnrelated(pointer: string, t1: string, t2: string, p1: string, p2: string)
    requires '/' !in t1 && '/' !in t2 && t1 != t2
    requires Extends(pointer + "/" + t1, p1) && Extends(pointer + "/" + t2, p2)
    ensures !Extends(p1, p2)
  {
    ChildOf(pointer, t2, p2);
    if Extends(p1, p2) {
      ExtendsIsTransitive(pointer + "/" + t1, p1, p2);
      ChildOf(pointer, t1, p2);
    }
  }

  // ----- Which texts are pointers -----

  /** Every `~` is followed by `0` or `1`. */
  predicate EscapesOk(s: string) {
    s == ""
    || (s[0] != '~' && EscapesOk(s[1..]))
    || (s[0] == '~' && |s| > 1 && (s[1] == '0' || s[1] == '1') && EscapesOk(s[2..]))
  }

  /** The texts `compare_json` lets through as exclusions. */
  predicate Accepted(pointer: string) {
    (pointer == "" || pointer[0] == '/') && EscapesOk(pointer)
  }

  /** RFC 6901 section 3: the pointer that names a path of member names. */
  function Render(path: seq<string>): string {
    if path == [] then "" else "/" + Escape(path[0]) + Render(path[1..])
  }

  lemma {:induction false} EscapesOkConcat(s: string, t: string)
    requires EscapesOk(s)
    ensures EscapesOk(s + t) <==> EscapesOk(t)
    decreases |s|
  {
    if s == "" {
      assert s + t == t;
    } else if s[0] != '~' {
      assert (s + t)[1..] == s[1..] + t;
      EscapesOkConcat(s[1..], t);
    } else {
      assert (s + t)[2..] == s[2..] + t;
      EscapesOkConcat(s[2..], t);
    }
  }

  lemma {:induction false} EscapedIsOk(key: string)
    ensures EscapesOk(Escape(key))
  {
    if key != "" {
      assert key == [key[0]] + key[1..];
      EscapeCons(key[0], key[1..]);
      EscapedIsOk(key[1..]);
      assert EscapesOk(Escape1(key[0])) by {
        assert "~0"[2..] == "" && "~1"[2..] == "";
      }
      EscapesOkConcat(Escape1(key[0]), Escape(key[1..]));
    }
  }

  lemma {:induction false} RenderedIsAccepted(path: seq<string>)
    ensures Accepted(Render(path))
  {
    if path != [] {
      var token, rest := Escape(path[0]), Render(path[1..]);
      EscapedIsOk(path[0]);
      RenderedIsAccepted(path[1..]);
      EscapesOkConcat(token, rest);
      assert ("/" + token + rest)[1..] == token + rest;
    }
  }

  /** A slash-free text with proper escapes is the escaped form of some name. */
  lemma {:induction false} TokenIsEscaped(token: string) returns (key: string)
    requires EscapesOk(token) && '/' !in token
    ensures Escape(key) == token
    decreases |token|
  {
    if token == "" {
      key := "";
    } else if token[0] != '~' {
      var rest := TokenIsEscaped(token[1..]);
      key := [token[0]] + rest;
      EscapeCons(token[0], rest);
      assert token == [token[0]] + token[1..];
    } else {
      var rest := TokenIsEscaped(token[2..]);
      var c := if token[1] == '0' then '~' else '/';
      key := [c] + rest;
      EscapeCons(c, rest);
      assert token == token[..2] + token[2..] && token[..2] == Escape1(c);
    }
  }

  lemma {:induction false} AcceptedIsRendered(pointer: string) returns (path: seq<string>)
    requires Accepted(pointer)
    ensures Render(path) == pointer
    decreases |pointer|
  {
    if pointer == "" {
      path := [];
    } else {
      var token := FirstToken(pointer[1..]);
      var rest := pointer[1 + |token|..];
      assert pointer[1..] == token + rest;
      TokenAndRest(token, rest);
      var key := TokenIsEscaped(token);
      var keys := AcceptedIsRendered(rest);
      path := [key] + keys;
      assert pointer == "/" + token + rest;
    }
  }

  lemma {:induction false} TokenAndRest(token: string, rest: string)
    requires EscapesOk(token + rest) && Continues(rest) && '/' !in token
    ensures EscapesOk(token) && EscapesOk(rest)
    decreases |token|
  {
    if token == "" {
      assert token + rest == rest;
    } else if token[0] != '~' {
      assert (token + rest)[1..] == token[1..] + rest;
      TokenAndRest(token[1..], rest);
    } else {
      assert |token| > 1 by {
        assert (token + rest)[1] != '/';
      }
      assert (token + rest)[2..] == token[2..] + rest;
      TokenAndRest(token[2..], rest);
    }
  }

  /** The accepted exclusions are exactly the pointers that RFC 6901 gives to paths of names. */
  lemma AcceptedExactlyThePointers(pointer: string)
    ensures Accepted(pointer) <==> exists path :: Render(path) == pointer
  {
    if Accepted(pointer) {
      var path := AcceptedIsRendered(pointer);
    }
    if path: seq<string> :| Render(path) == pointer {
      RenderedIsAccepted(path);
    }
  }
}
