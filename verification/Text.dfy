/** The option type and the few string operations the other modules share. */
module Wrappers {
  datatype Option<+T> = None | Some(value: T)

  datatype Result<+T, +E> = Ok(value: T) | Err(error: E)
}

/** Text as Rust's `str` sees it: a sequence of Unicode scalar values. */
module Text {
  import opened Wrappers

  /** The Unicode White_Space property, which `char::is_whitespace` and `str::trim` use. */
  predicate IsSpace(c: char) {
    '\U{9}' <= c <= '\U{D}' || c == ' ' || c == '\U{85}' || c == '\U{A0}' || c == '\U{1680}'
    || '\U{2000}' <= c <= '\U{200A}' || c == '\U{2028}' || c == '\U{2029}' || c == '\U{202F}'
    || c == '\U{205F}' || c == '\U{3000}'
  }

  /** The 25 code points of that property. */
  const WHITE_SPACE: seq<int> :=
    [0x9, 0xA, 0xB, 0xC, 0xD, 0x20, 0x85, 0xA0, 0x1680, 0x2000, 0x2001, 0x2002, 0x2003, 0x2004, 0x2005, 0x2006,
     0x2007, 0x2008, 0x2009, 0x200A, 0x2028, 0x2029, 0x202F, 0x205F, 0x3000]

  lemma SpacesAreListed(c: char)
    ensures IsSpace(c) <==> c as int in WHITE_SPACE
  {
  }

  function TrimStart(s: string): string {
    if s != "" && IsSpace(s[0]) then TrimStart(s[1..]) else s
  }

  function TrimEnd(s: string): string {
    if s != "" && IsSpace(s[|s| - 1]) then TrimEnd(s[..|s| - 1]) else s
  }

  function Trim(s: string): string {
    TrimEnd(TrimStart(s))
  }

  /** Text that starts and ends with something other than white space. */
  predicate Trimmed(s: string) {
    s == "" || (!IsSpace(s[0]) && !IsSpace(s[|s| - 1]))
  }

  lemma TrimIsPart(s: string)
    ensures Trimmed(Trim(s)) && forall c <- Trim(s) :: c in s
  {
    TrimStartIsPart(s);
    TrimEndIsPart(TrimStart(s));
  }

  lemma {:induction false} TrimStartIsPart(s: string)
    ensures TrimStart(s) == "" || !IsSpace(TrimStart(s)[0])
    ensures forall c <- TrimStart(s) :: c in s
  {
    if s != "" && IsSpace(s[0]) {
      TrimStartIsPart(s[1..]);
    }
  }

  lemma {:induction false} TrimEndIsPart(s: string)
    ensures TrimEnd(s) == "" || !IsSpace(TrimEnd(s)[|TrimEnd(s)| - 1])
    ensures TrimEnd(s) <= s
  {
    if s != "" && IsSpace(s[|s| - 1]) {
      TrimEndIsPart(s[..|s| - 1]);
    }
  }

  lemma TrimOfTrimmed(s: string)
    requires Trimmed(s)
    ensures Trim(s) == s
  {
  }

  predicate Blank(s: string) {
    Trim(s) == ""
  }

  /** The first place where `needle` occurs, as `str::find` reports it. */
  function Find(s: string, needle: string): (r: Option<nat>)
    ensures r.Some? ==> r.value + |needle| <= |s| && s[r.value..r.value + |needle|] == needle
  {
    if needle <= s then Some(0)
    else if s == "" then None
    else
      match Find(s[1..], needle)
      case None => None
      case Some(i) =>
        assert s[1..][i..i + |needle|] == s[i + 1..i + 1 + |needle|];
        Some(i + 1)
  }

  predicate Contains(s: string, needle: string) {
    Find(s, needle).Some?
  }

  /** Text without the first character of `needle` is skipped by the search. */
  lemma {:induction false} FindSkips(skipped: string, s: string, needle: string)
    requires needle != "" && needle[0] !in skipped
    ensures Find(skipped + s, needle).Some? <==> Find(s, needle).Some?
    ensures Find(s, needle).Some? ==> Find(skipped + s, needle) == Some(|skipped| + Find(s, needle).value)
  {
    var text := skipped + s;
    if skipped == "" {
      assert text == s;
    } else {
      var rest := skipped[1..] + s;
      FindSkips(skipped[1..], s, needle);
      assert text[0] == skipped[0] && text[1..] == rest;
      FindStep(text, needle);
    }
  }

  lemma FindAtOnce(needle: string, rest: string)
    ensures Find(needle + rest, needle) == Some(0)
  {
    assert needle <= needle + rest;
  }

  lemma FindInNothing(needle: string)
    requires needle != ""
    ensures Find("", needle).None?
  {
  }

  lemma FindStep(s: string, needle: string)
    requires s != "" && needle != "" && needle[0] != s[0]
    ensures Find(s, needle).Some? <==> Find(s[1..], needle).Some?
    ensures Find(s, needle).Some? ==> Find(s, needle).value == Find(s[1..], needle).value + 1
  {
  }

  /** `str::split_once` on one character. */
  function SplitOnce(s: string, sep: char): (r: Option<(string, string)>)
    ensures r.Some? <==> sep in s
    ensures r.Some? ==> sep !in r.value.0 && s == r.value.0 + [sep] + r.value.1
  {
    if s == "" then None
    else if s[0] == sep then Some(("", s[1..]))
    else
      match SplitOnce(s[1..], sep)
      case None => None
      case Some((a, b)) => Some(([s[0]] + a, b))
  }

  lemma {:induction false} SplitOnceAt(a: string, sep: char, b: string)
    requires sep !in a
    ensures SplitOnce(a + [sep] + b, sep) == Some((a, b))
  {
    if a == "" {
      assert "" + [sep] + b == [sep] + b;
    } else {
      assert (a + [sep] + b)[1..] == a[1..] + [sep] + b;
      SplitOnceAt(a[1..], sep, b);
      assert [a[0]] + a[1..] == a;
    }
  }

  /** `str::replace` of one character by a text. */
  function Replace(s: string, c: char, sub: string): string {
    if s == "" then "" else (if s[0] == c then sub else [s[0]]) + Replace(s[1..], c, sub)
  }

  /** The pieces joined with `sep` between them. */
  function Join(parts: seq<string>, sep: string): string {
    if parts == [] then ""
    else if |parts| == 1 then parts[0]
    else parts[0] + sep + Join(parts[1..], sep)
  }

  /** The length of the part before the first separator. */
  function UpTo(s: string, separators: string): (n: nat)
    ensures n <= |s| && (n < |s| ==> s[n] in separators) && forall c <- s[..n] :: c !in separators
  {
    if s == "" || s[0] in separators then 0
    else
      var n := UpTo(s[1..], separators);
      assert s[..1 + n] == [s[0]] + s[1..][..n];
      1 + n
  }

  /**
   * The pieces between separators, trimmed, without the empty ones. With `"\n"` these are the lines that
   * `lines().map(trim).filter(nonempty)` keeps: trimming takes the carriage return that `lines` takes.
   */
  function CleanPieces(s: string, separators: string): (r: seq<string>)
    ensures forall piece <- r :: piece != ""
    decreases |s|
  {
    var n := UpTo(s, separators);
    var piece := Trim(s[..n]);
    (if piece == "" then [] else [piece]) + (if n == |s| then [] else CleanPieces(s[n + 1..], separators))
  }

  /** Non-empty, trimmed and without separators. */
  predicate Clean(piece: string, separators: string) {
    piece != "" && Trimmed(piece) && forall c <- piece :: c !in separators
  }

  lemma {:induction false} CleanPiecesAreClean(s: string, separators: string)
    ensures forall piece <- CleanPieces(s, separators) :: Clean(piece, separators)
    decreases |s|
  {
    var n := UpTo(s, separators);
    TrimIsPart(s[..n]);
    if n < |s| {
      CleanPiecesAreClean(s[n + 1..], separators);
    }
  }

  lemma {:induction false} UpToSeparator(piece: string, rest: string, separators: string)
    requires forall c <- piece :: c !in separators
    requires rest == "" || rest[0] in separators
    ensures UpTo(piece + rest, separators) == |piece|
  {
    if piece == "" {
      assert piece + rest == rest;
    } else {
      assert (piece + rest)[1..] == piece[1..] + rest;
      UpToSeparator(piece[1..], rest, separators);
    }
  }

  /** Clean pieces come back from the text that lists them. */
  lemma {:induction false} CleanPiecesOfJoin(parts: seq<string>, separator: char, separators: string)
    requires separator in separators && forall part <- parts :: Clean(part, separators)
    ensures CleanPieces(Join(parts, [separator]), separators) == parts
  {
    if parts == [] {
      return;
    }
    assert parts[0] in parts;
    assert Clean(parts[0], separators);
    if |parts| == 1 {
      UpToSeparator(parts[0], "", separators);
      assert parts[0] + "" == parts[0] && parts[0][..|parts[0]|] == parts[0];
      TrimOfTrimmed(parts[0]);
    } else {
      var s, rest := Join(parts, [separator]), [separator] + Join(parts[1..], [separator]);
      assert s == parts[0] + rest;
      UpToSeparator(parts[0], rest, separators);
      assert s[..|parts[0]|] == parts[0] && s[|parts[0]| + 1..] == Join(parts[1..], [separator]);
      TrimOfTrimmed(parts[0]);
      CleanPiecesOfJoin(parts[1..], separator, separators);
    }
  }

  function ToLowerAscii(s: string): (r: string)
    ensures |r| == |s|
  {
    if s == "" then ""
    else [if 'A' <= s[0] <= 'Z' then s[0] - 'A' + 'a' else s[0]] + ToLowerAscii(s[1..])
  }

  /** Capital letters of ASCII become small ones in place; all other characters stay. */
  lemma {:induction false} LowerEach(s: string)
    ensures forall i | 0 <= i < |s| ::
      ToLowerAscii(s)[i] == if 'A' <= s[i] <= 'Z' then ((s[i] as int) + 32) as char else s[i]
  {
    if s != "" {
      LowerEach(s[1..]);
      forall i | 0 <= i < |s|
        ensures ToLowerAscii(s)[i] == if 'A' <= s[i] <= 'Z' then ((s[i] as int) + 32) as char else s[i]
      {
        if i > 0 {
          assert s[1..][i - 1] == s[i] && ToLowerAscii(s)[i] == ToLowerAscii(s[1..])[i - 1];
        }
      }
    }
  }

  /** Trimming takes away all white space at both ends, and nothing else. */
  lemma TrimTakesSpace(before: string, middle: string, after: string)
    requires (forall c <- before :: IsSpace(c)) && (forall c <- after :: IsSpace(c)) && Trimmed(middle)
    ensures Trim(before + middle + after) == middle
  {
    hide IsSpace;
    TrimStartTakesSpace(before, middle + after);
    assert before + middle + after == before + (middle + after);
    if middle == "" {
      assert "" + after == after;
      TrimStartTakesSpace(after, "");
      assert after + "" == after;
    } else {
      assert (middle + after)[0] == middle[0];
      TrimEndTakesSpace(middle, after);
    }
  }

  lemma {:induction false} TrimStartTakesSpace(before: string, rest: string)
    requires forall c <- before :: IsSpace(c)
    ensures TrimStart(before + rest) == TrimStart(rest)
  {
    if before == "" {
      assert before + rest == rest;
    } else {
      assert (before + rest)[1..] == before[1..] + rest;
      TrimStartTakesSpace(before[1..], rest);
    }
  }

  lemma {:induction false} TrimEndTakesSpace(middle: string, after: string)
    requires (forall c <- after :: IsSpace(c)) && (middle == "" || !IsSpace(middle[|middle| - 1]))
    ensures TrimEnd(middle + after) == middle
  {
    var s := middle + after;
    if after == "" {
      assert s == middle;
    } else {
      var less := after[..|after| - 1];
      assert s[..|s| - 1] == middle + less && s[|s| - 1] == after[|after| - 1];
      TrimEndTakesSpace(middle, less);
    }
  }
}

/** The order in which a `BTreeMap<String, _>` lists its keys. */
module Ordering {
  /** Lexicographic order on scalar values, which is also the order on their UTF-8 bytes. */
  predicate Less(a: string, b: string) {
    b != [] && (a == [] || a[0] < b[0] || (a[0] == b[0] && Less(a[1..], b[1..])))
  }

  lemma {:induction false} Trichotomy(a: string, b: string)
    ensures a == b || Less(a, b) || Less(b, a)
  {
    if a != [] && b != [] && a[0] == b[0] {
      Trichotomy(a[1..], b[1..]);
      assert a == [a[0]] + a[1..] && b == [b[0]] + b[1..];
    }
  }

  lemma Transitive(a: string, b: string, c: string)
    requires Less(a, b) && Less(b, c)
    ensures Less(a, c)
  {
    if a != [] && a[0] == b[0] && b[0] == c[0] {
      Transitive(a[1..], b[1..], c[1..]);
    }
  }

  lemma Asymmetric()
    ensures forall a, b :: !(Less(a, b) && Less(b, a))
  {
    forall a, b ensures !(Less(a, b) && Less(b, a)) {
      NotBoth(a, b);
    }
  }

  lemma NotBoth(a: string, b: string)
    ensures !(Less(a, b) && Less(b, a))
  {
    if a != [] && b != [] {
      NotBoth(a[1..], b[1..]);
    }
  }

  /** The first difference decides, by the smaller character; a beginning comes before the whole. */
  lemma {:induction false} FirstDifferenceDecides(start: string, c: char, d: char, s: string, t: string)
    requires c < d
    ensures Less(start + ([c] + s), start + ([d] + t)) && Less(start, start + ([d] + t))
  {
    if start == "" {
      assert start + ([c] + s) == [c] + s && start + ([d] + t) == [d] + t;
    } else {
      assert (start + ([c] + s))[1..] == start[1..] + ([c] + s);
      assert (start + ([d] + t))[1..] == start[1..] + ([d] + t);
      FirstDifferenceDecides(start[1..], c, d, s, t);
    }
  }

  predicate Least(k: string, keys: set<string>) {
    k in keys && forall o <- keys :: o == k || Less(k, o)
  }

  lemma LeastExists(keys: set<string>) returns (k: string)
    requires keys != {}
    ensures Least(k, keys)
  {
    k :| k in keys;
    if keys != {k} {
      var m := LeastExists(keys - {k});
      Trichotomy(k, m);
      if Less(m, k) {
        k := m;
      } else {
        forall o <- keys ensures o == k || Less(k, o) {
          if o != k && o != m {
            Transitive(k, m, o);
          }
        }
      }
    }
  }

  predicate Sorted(keys: seq<string>) {
    forall i, j | 0 <= i < j < |keys| :: Less(keys[i], keys[j])
  }

  /** The keys of a set, each once, in strictly increasing order. */
  function SortedKeys(keys: set<string>): (r: seq<string>)
    ensures Sorted(r)
    ensures forall k :: k in r <==> k in keys
    decreases |keys|
  {
    if keys == {} then []
    else
      Asymmetric();
      assert exists k :: Least(k, keys) by { var k := LeastExists(keys); }
      var k :| Least(k, keys);
      var rest := SortedKeys(keys - {k});
      assert forall o <- rest :: Less(k, o) by {
        assert forall o <- rest :: o in keys - {k};
      }
      [k] + rest
  }
}
