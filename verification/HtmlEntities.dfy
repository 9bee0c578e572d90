/** The entities that the preview decodes in shown text. */
module HtmlEntities {
  import opened Wrappers
  import opened Text

  // ----- One entity -----

  function DigitOf(c: char): Option<nat> {
    if '0' <= c <= '9' then Some((c - '0') as nat)
    else if 'a' <= c <= 'f' then Some((c - 'a') as nat + 10)
    else if 'A' <= c <= 'F' then Some((c - 'A') as nat + 10)
    else None
  }

  /** Digits read as a number. */
  function NumberOf(s: string, base: nat): Option<nat> {
    if s == "" then Some(0)
    else
      match (NumberOf(s[..|s| - 1], base), DigitOf(s[|s| - 1]))
      case (Some(high), Some(digit)) => if digit < base then Some(base * high + digit) else None
      case _ => None
  }

  /** `u32::from_str_radix`: an optional plus sign, at least one digit, and no overflow. */
  function ParseU32(s: string, base: nat): Option<nat> {
    var digits := if "+" <= s then s[1..] else s;
    if digits == "" then None
    else
      match NumberOf(digits, base)
      case Some(n) => if n < 0x1_0000_0000 then Some(n) else None
      case None => None
  }

  /** `char::from_u32`. */
  function ScalarOf(n: nat): Option<char> {
    if n < 0xD800 || 0xE000 <= n < 0x11_0000 then Some(n as char) else None
  }

  function CodeOf(entity: string): Option<nat> {
    var hex := if "#x" <= entity || "#X" <= entity then ParseU32(entity[2..], 16) else None;
    if hex.Some? then hex else if "#" <= entity then ParseU32(entity[1..], 10) else None
  }

  /** The character that stands for an entity, written between `&` and `;`. */
  function CharacterOf(entity: string): Option<char> {
    match entity
    case "amp" => Some('&')
    case "lt" => Some('<')
    case "gt" => Some('>')
    case "quot" => Some('"')
    case "apos" => Some('\'')
    case "#39" => Some('\'')
    case "nbsp" => Some(' ')
    case _ => match CodeOf(entity) case Some(n) => ScalarOf(n) case None => None
  }

  // ----- All of a text -----

  function Decoded(entity: string): string {
    match CharacterOf(entity) case Some(c) => [c] case None => "&" + entity + ";"
  }

  function Decode(text: string): string
    decreases |text|
  {
    match SplitOnce(text, '&')
    case None => text
    case Some((before, after)) =>
      match SplitOnce(after, ';')
      case None => before + "&" + Decode(after)
      case Some((entity, rest)) => before + Decoded(entity) + Decode(rest)
  }

  lemma DecodeStep(text: string)
    ensures Decode(text)
         == match SplitOnce(text, '&')
            case None => text
            case Some((before, after)) =>
              match SplitOnce(after, ';')
              case None => before + "&" + Decode(after)
              case Some((entity, rest)) => before + Decoded(entity) + Decode(rest)
  {
    hide SplitOnce, Decoded;
  }

  /** One turn of the loop: what it appends, and what it leaves. */
  lemma DecodeTurn(text: string, decoded: string)
    requires '&' in text
    ensures var (before, after) := SplitOnce(text, '&').value;
      match SplitOnce(after, ';')
      case None => decoded + Decode(text) == decoded + before + "&" + Decode(after)
      case Some((entity, rest)) => decoded + Decode(text) == decoded + before + Decoded(entity) + Decode(rest)
  {
    hide SplitOnce, Decoded, Decode;
    DecodeStep(text);
    var (before, after) := SplitOnce(text, '&').value;
    match SplitOnce(after, ';')
    case None => Regroup(decoded, before, "&", Decode(after));
    case Some((entity, rest)) => Regroup(decoded, before, Decoded(entity), Decode(rest));
  }

  lemma Regroup(a: string, b: string, c: string, d: string)
    ensures a + b + c + d == a + (b + c + d)
  {
  }

  lemma DecodedIs(entity: string)
    ensures Decoded(entity)
         == if CharacterOf(entity).Some? then [CharacterOf(entity).value] else "&" + entity + ";"
  {
    hide CharacterOf;
  }

  /** `decode_html_preview_entities`. */
  method DecodeEntities(text: string) returns (decoded: string)
    ensures decoded == Decode(text)
  {
    hide CharacterOf, SplitOnce, Decode, Decoded;
    decoded := "";
    var remaining := text;
    while '&' in remaining
      invariant Decode(text) == decoded + Decode(remaining)
      decreases |remaining|
    {
      DecodeTurn(remaining, decoded);
      var (before, after) := SplitOnce(remaining, '&').value;
      decoded := decoded + before;
      match SplitOnce(after, ';') {
        case None =>
          decoded := decoded + "&";
          remaining := after;
        case Some((entity, rest)) =>
          DecodedIs(entity);
          var replacement := CharacterOf(entity);
          decoded := decoded + (if replacement.Some? then [replacement.value] else "&" + entity + ";");
          remaining := rest;
      }
    }
    DecodeStep(remaining);
    decoded := decoded + remaining;
  }

  // ----- What is decoded -----

  lemma PlainTextStays(plain: string, rest: string)
    requires '&' !in plain
    ensures Decode(plain + rest) == plain + Decode(rest)
  {
    hide Decoded, SplitOnce, Decode;
    DecodeStep(plain + rest);
    DecodeStep(rest);
    match SplitOnce(rest, '&')
    case None =>
    case Some((before, after)) =>
      assert plain + rest == plain + before + ['&'] + after;
      SplitOnceAt(plain + before, '&', after);
      Regroup(plain, before, "&", Decode(after));
      var rest := SplitOnce(after, ';');
      if rest.Some? {
        Regroup(plain, before, Decoded(rest.value.0), Decode(rest.value.1));
      }
  }

  lemma EntityIsDecoded(entity: string, rest: string)
    requires ';' !in entity
    ensures Decode("&" + (entity + (";" + rest))) == Decoded(entity) + Decode(rest)
  {
    hide Decoded, Decode, SplitOnce;
    var after := entity + (";" + rest);
    SplitOnceAt("", '&', after);
    assert "" + ['&'] + after == "&" + after;
    SplitOnceAt(entity, ';', rest);
    assert entity + [';'] + rest == after;
    DecodeStep("&" + after);
    assert "" + Decoded(entity) == Decoded(entity);
  }

  /** Without a semicolon nothing is decoded. */
  lemma {:induction false} NothingWithoutSemicolon(text: string)
    requires ';' !in text
    ensures Decode(text) == text
    decreases |text|
  {
    match SplitOnce(text, '&')
    case None =>
    case Some((before, after)) =>
      assert forall c <- after :: c in text;
      NothingWithoutSemicolon(after);
      assert before + "&" + after == text;
  }

  // ----- What is written with entities comes back -----

  function EscapeOne(c: char): string {
    match c
    case '&' => "&amp;"
    case '<' => "&lt;"
    case '>' => "&gt;"
    case '"' => "&quot;"
    case '\'' => "&#39;"
    case _ => [c]
  }

  function Escape(text: string): string {
    if text == "" then "" else EscapeOne(text[0]) + Escape(text[1..])
  }

  /** The name of a character that is written as an entity. */
  function NameOf(c: char): string {
    match c case '&' => "amp" case '<' => "lt" case '>' => "gt" case '"' => "quot" case _ => "#39"
  }

  lemma NamesAreRead(c: char)
    requires c in "&<>\"'"
    ensures ';' !in NameOf(c) && Decoded(NameOf(c)) == [c]
  {
  }

  lemma EscapeIs(c: char)
    ensures EscapeOne(c) == if c in "&<>\"'" then "&" + NameOf(c) + ";" else [c]
  {
  }

  lemma OneComesBack(c: char, rest: string)
    ensures Decode(EscapeOne(c) + rest) == [c] + Decode(rest)
  {
    hide Decode, EscapeOne, NameOf, Decoded;
    EscapeIs(c);
    if c in "&<>\"'" {
      NamesAreRead(c);
      EntityIsDecoded(NameOf(c), rest);
      assert "&" + NameOf(c) + ";" + rest == "&" + (NameOf(c) + (";" + rest));
    } else {
      assert c != '&';
      PlainTextStays([c], rest);
    }
  }

  /** Main result: text that is written with entities is shown as it was. */
  lemma {:induction false} EscapedTextComesBack(text: string)
    ensures Decode(Escape(text)) == text
  {
    hide Decode, EscapeOne;
    if text == "" {
      NothingWithoutSemicolon("");
    } else {
      OneComesBack(text[0], Escape(text[1..]));
      EscapedTextComesBack(text[1..]);
    }
  }

  // ----- Numbers -----

  function DigitChar(d: nat): (c: char)
    requires d < 16
    ensures DigitOf(c) == Some(d)
  {
    if d < 10 then '0' + d as char else 'a' + (d - 10) as char
  }

  /** A number in the digits of a base. */
  function Numeral(n: nat, base: nat): (s: string)
    requires 2 <= base <= 16
    ensures s != ""
    decreases n
  {
    if n < base then [DigitChar(n)] else Numeral(n / base, base) + [DigitChar(n % base)]
  }

  lemma {:induction false} NumeralIsRead(n: nat, base: nat)
    requires base == 10 || base == 16
    ensures NumberOf(Numeral(n, base), base) == Some(n)
    decreases n
  {
    hide DigitOf, DigitChar, NumberOf;
    var s := Numeral(n, base);
    if n >= base {
      NumeralIsRead(n / base, base);
      OneDigitMore(Numeral(n / base, base), n % base, n / base, base);
    } else {
      OneDigitMore("", n, 0, base);
      assert "" + s == s;
    }
  }

  lemma OneDigitMore(s: string, digit: nat, n: nat, base: nat)
    requires digit < base && (base == 10 || base == 16)
    requires s == "" ==> n == 0
    requires s != "" ==> NumberOf(s, base) == Some(n)
    ensures NumberOf(s + [DigitChar(digit)], base) == Some(base * n + digit)
  {
    hide DigitOf, DigitChar;
    var all := s + [DigitChar(digit)];
    assert all[..|all| - 1] == s && all[|all| - 1] == DigitChar(digit);
  }

  lemma {:induction false} DigitsOnly(n: nat, base: nat)
    requires base == 10 || base == 16
    ensures forall c <- Numeral(n, base) :: DigitOf(c).Some?
    decreases n
  {
    hide DigitOf;
    if n >= base {
      DigitsOnly(n / base, base);
    }
  }

  /** A character's number stands for it, in decimal and in hexadecimal digits; other numbers stand for nothing. */
  lemma NumbersAreDecoded(n: nat)
    requires n < 0x1_0000_0000 && n != 39
    ensures CharacterOf("#" + Numeral(n, 10)) == ScalarOf(n)
    ensures CharacterOf("#x" + Numeral(n, 16)) == CharacterOf("#X" + Numeral(n, 16)) == ScalarOf(n)
  {
    hide NumberOf, Numeral, ScalarOf;
    NumeralIsRead(n, 10);
    NumeralIsRead(n, 16);
    DigitsOnly(n, 10);
    DigitsOnly(n, 16);
    var decimal, hex := Numeral(n, 10), Numeral(n, 16);
    NoSign(decimal);
    NoSign(hex);
    assert ("#" + decimal)[1..] == decimal && ("#x" + hex)[2..] == hex && ("#X" + hex)[2..] == hex;
    assert ("#" + decimal)[1] == decimal[0] && decimal[0] in decimal;
    assert "#x" <= "#x" + hex && "#X" <= "#X" + hex;
    NotNamed("#" + decimal);
    NotNamed("#x" + hex);
    NotNamed("#X" + hex);
    assert "#" + decimal != "#39" by {
      if "#" + decimal == "#39" {
        ThirtyNine(decimal);
      }
    }
    assert ("#x" + hex)[1] == 'x' && ("#X" + hex)[1] == 'X';
  }

  lemma ThirtyNine(decimal: string)
    requires "#" + decimal == "#39"
    ensures NumberOf(decimal, 10) == Some(39)
  {
    assert decimal == ("#" + decimal)[1..] == "39";
    assert "39"[..1] == "3" && "3"[..0] == "";
    assert NumberOf("", 10) == Some(0) && NumberOf("3", 10) == Some(3);
  }

  lemma NoSign(s: string)
    requires s != "" && forall c <- s :: DigitOf(c).Some?
    ensures !("+" <= s) && DigitOf(s[0]).Some?
  {
    assert s[0] in s;
  }

  lemma NotNamed(entity: string)
    requires "#" <= entity
    ensures entity != "amp" && entity != "lt" && entity != "gt" && entity != "quot" && entity != "apos"
            && entity != "nbsp"
  {
    assert entity[0] == '#';
  }

  /** A lone `&` takes the next entity along: nothing up to the next semicolon is decoded. */
  lemma AmpersandHidesTheNextEntity(between: string, rest: string)
    requires ';' !in between && between != "" && IsSpace(between[0])
    ensures Decode("&" + (between + "&lt" + (";" + rest))) == "&" + between + "&lt;" + Decode(rest)
  {
    hide IsSpace, Decode, CharacterOf;
    var entity := between + "&lt";
    EntityIsDecoded(entity, rest);
    assert entity[0] == between[0];
    SpacesAreNoEntity(entity);
    assert "&" + entity + ";" == "&" + between + "&lt;";
  }

  lemma SpacesAreNoEntity(entity: string)
    requires entity != "" && IsSpace(entity[0])
    ensures CharacterOf(entity).None?
  {
    assert entity[0] != '#' && entity[0] != 'a' && entity[0] != 'l' && entity[0] != 'g' && entity[0] != 'q'
           && entity[0] != 'n';
    assert !("#" <= entity) && !("#x" <= entity) && !("#X" <= entity);
  }
}
