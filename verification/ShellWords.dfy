/** Shell words: how the exporter quotes them and how the importer takes them apart. */
module ShellWords {
  import opened Wrappers
  import opened Text

  /** `shell_quote`. */
  function ShellQuote(value: string): string {
    "'" + Replace(value, '\'', "'\\''") + "'"
  }

  // ----- The word splitter -----

  datatype Splitter = Splitter(words: seq<string>, current: string, quote: Option<char>, escaped: bool)

  function Push(st: Splitter): seq<string> {
    if st.current == "" then st.words else st.words + [st.current]
  }

  function Feed(st: Splitter, c: char): Splitter {
    if st.escaped then st.(current := st.current + [c], escaped := false)
    else if c == '\\' && st.quote != Some('\'') then st.(escaped := true)
    else if st.quote.Some? then
      if c == st.quote.value then st.(quote := None) else st.(current := st.current + [c])
    else if c == '\'' || c == '"' then st.(quote := Some(c))
    else if IsSpace(c) then st.(words := Push(st), current := "")
    else st.(current := st.current + [c])
  }

  function FeedAll(st: Splitter, command: string): Splitter
    decreases |command|
  {
    if command == "" then st else FeedAll(Feed(st, command[0]), command[1..])
  }

  /** The words of a command, or the quote that was never closed. */
  function Finish(st: Splitter): Result<seq<string>, char> {
    var last := if st.escaped then st.(current := st.current + "\\") else st;
    if last.quote.Some? then Err(last.quote.value) else Ok(Push(last))
  }

  function WordsOf(command: string): Result<seq<string>, char> {
    Finish(FeedAll(Splitter([], "", None, false), command))
  }

  method SplitWords(command: string) returns (r: Result<seq<string>, char>)
    ensures r == WordsOf(command)
  {
    var words, current, quote: Option<char>, escaped := [], "", None, false;
    for i := 0 to |command|
      invariant WordsOf(command) == Finish(FeedAll(Splitter(words, current, quote, escaped), command[i..]))
    {
      var character := command[i];
      assert command[i..][1..] == command[i + 1..];
      if escaped {
        current := current + [character];
        escaped := false;
      } else if character == '\\' && quote != Some('\'') {
        escaped := true;
      } else if quote.Some? {
        if character == quote.value {
          quote := None;
        } else {
          current := current + [character];
        }
      } else if character == '\'' || character == '"' {
        quote := Some(character);
      } else if IsSpace(character) {
        if current != "" {
          words := words + [current];
          current := "";
        }
      } else {
        current := current + [character];
      }
    }
    if escaped {
      current := current + "\\";
    }
    if quote.Some? {
      return Err(quote.value);
    }
    if current != "" {
      words := words + [current];
    }
    return Ok(words);
  }

  // ----- Splitting undoes quoting -----

  /** A word as it is, or quoted. */
  datatype Argument = Bare(word: string) | Quoted(word: string)

  function ArgumentText(a: Argument): string {
    if a.Bare? then a.word else ShellQuote(a.word)
  }

  function Texts(args: seq<Argument>): seq<string> {
    if args == [] then [] else [ArgumentText(args[0])] + Texts(args[1..])
  }

  /** Characters that stand for themselves outside quotes. */
  predicate Safe(word: string) {
    forall i | 0 <= i < |word| :: word[i] != '\'' && word[i] != '"' && word[i] != '\\' && !IsSpace(word[i])
  }

  predicate BareAreSafe(args: seq<Argument>) {
    forall i | 0 <= i < |args| :: args[i].Bare? ==> Safe(args[i].word)
  }

  function NonEmptyWords(args: seq<Argument>): seq<string> {
    if args == [] then [] else (if args[0].word == "" then [] else [args[0].word]) + NonEmptyWords(args[1..])
  }

  lemma {:induction false} FeedConcat(st: Splitter, s: string, t: string)
    ensures FeedAll(st, s + t) == FeedAll(FeedAll(st, s), t)
    decreases |s|
  {
    if s == "" {
      assert s + t == t;
    } else {
      assert (s + t)[1..] == s[1..] + t;
      FeedConcat(Feed(st, s[0]), s[1..], t);
    }
  }

  lemma {:induction false} FeedSafe(st: Splitter, word: string)
    requires Safe(word) && st.quote == None && !st.escaped
    ensures FeedAll(st, word) == st.(current := st.current + word)
    decreases |word|
  {
    if word == "" {
      assert st.current + word == st.current;
    } else {
      FeedSafe(Feed(st, word[0]), word[1..]);
      assert st.current + [word[0]] + word[1..] == st.current + word;
    }
  }

  lemma {:induction false} FeedInsideQuotes(st: Splitter, value: string)
    requires st.quote == Some('\'') && !st.escaped
    ensures FeedAll(st, Replace(value, '\'', "'\\''")) == st.(current := st.current + value)
    decreases |value|
  {
    if value == "" {
      assert st.current + value == st.current;
    } else {
      var head := if value[0] == '\'' then "'\\''" else [value[0]];
      var tail := Replace(value[1..], '\'', "'\\''");
      var next := st.(current := st.current + [value[0]]);
      FeedConcat(st, head, tail);
      assert FeedAll(st, head) == next by {
        if value[0] == '\'' {
          assert head[1..] == "\\''" && head[1..][1..] == "''" && head[1..][1..][1..] == "'";
          assert head[1..][1..][1..][1..] == "";
          assert FeedAll(st, head) == FeedAll(Feed(st, '\''), head[1..]);
          assert FeedAll(Feed(st, '\''), head[1..]) == FeedAll(st.(quote := None, escaped := true), "''");
        }
      }
      FeedInsideQuotes(next, value[1..]);
      assert st.current + [value[0]] + value[1..] == st.current + value;
    }
  }

  lemma FeedQuoted(st: Splitter, value: string)
    requires st.quote == None && !st.escaped
    ensures FeedAll(st, ShellQuote(value)) == st.(current := st.current + value)
  {
    var inner := Replace(value, '\'', "'\\''");
    FeedConcat(st, "'" + inner, "'");
    FeedConcat(st, "'", inner);
    assert "'"[1..] == "";
    FeedInsideQuotes(st.(quote := Some('\'')), value);
  }

  lemma FeedArgument(words: seq<string>, a: Argument)
    requires a.Bare? ==> Safe(a.word)
    ensures FeedAll(Splitter(words, "", None, false), ArgumentText(a)) == Splitter(words, a.word, None, false)
  {
    var st := Splitter(words, "", None, false);
    assert "" + a.word == a.word;
    if a.Bare? {
      FeedSafe(st, a.word);
    } else {
      FeedQuoted(st, a.word);
    }
  }

  lemma {:induction false} FeedArguments(words: seq<string>, args: seq<Argument>)
    requires BareAreSafe(args)
    ensures Finish(FeedAll(Splitter(words, "", None, false), Join(Texts(args), " "))) == Ok(words + NonEmptyWords(args))
    decreases |args|
  {
    hide ArgumentText, Safe;
    if args == [] {
      assert words + [] == words;
    } else {
      var st := Splitter(words, "", None, false);
      var first := ArgumentText(args[0]);
      FeedArgument(words, args[0]);
      var after := Push(Splitter(words, args[0].word, None, false));
      assert after + NonEmptyWords(args[1..]) == words + NonEmptyWords(args);
      if |args| == 1 {
        assert Join(Texts(args), " ") == first by { assert |Texts(args)| == 1 && Texts(args[1..]) == []; }
        assert NonEmptyWords(args[1..]) == [] && after + [] == after;
      } else {
        var rest := Join(Texts(args[1..]), " ");
        assert Texts(args) == [first] + Texts(args[1..]) && Texts(args[1..]) != [];
        assert Texts(args)[1..] == Texts(args[1..]);
        assert Join(Texts(args), " ") == first + " " + rest;
        FeedConcat(st, first + " ", rest);
        FeedConcat(st, first, " ");
        assert FeedAll(Splitter(words, args[0].word, None, false), " ") == Splitter(after, "", None, false) by {
          assert " "[1..] == "";
        }
        FeedArguments(after, args[1..]);
      }
    }
  }

  /**
   * Main result: splitting a line of quoted and bare words gives back exactly the words that are not
   * empty; the shell's empty word `''` is lost.
   */
  lemma SplittingUndoesQuoting(args: seq<Argument>)
    requires BareAreSafe(args)
    ensures WordsOf(Join(Texts(args), " ")) == Ok(NonEmptyWords(args))
  {
    FeedArguments([], args);
    assert [] + NonEmptyWords(args) == NonEmptyWords(args);
  }
}
