/** What becomes of the events before a line that is not valid text. */
module SseUndecodable {
  import opened Wrappers
  import opened Text
  import opened Sse
  import opened SseTheorems
  import opened SseWorker
  import opened SseCancellation

  /** The events of the complete lines of a buffer before the first one that does not decode. */
  function Before(p: Parser, decode: Decoder): seq<SseEvent>
    decreases |p.buffer|
  {
    match NewlineAt(p.buffer)
    case None => []
    case Some(n) =>
      match decode(Chomp(p.buffer[..n]))
      case None => []
      case Some(text) =>
        ProcessLine(p.fields, text).1 + Before(Parser(p.buffer[n + 1..], ProcessLine(p.fields, text).0), decode)
  }

  function Longer(p: Parser, bytes: seq<Byte>): Parser {
    p.(buffer := p.buffer + bytes)
  }

  lemma BeforeStep(p: Parser, decode: Decoder)
    requires NEWLINE in p.buffer
    ensures var n := NewlineAt(p.buffer).value; var text := decode(Chomp(p.buffer[..n]));
      if text.None? then Before(p, decode) == []
      else
        Before(p, decode) == ProcessLine(p.fields, text.value).1
                             + Before(Parser(p.buffer[n + 1..], ProcessLine(p.fields, text.value).0), decode)
  {
    hide ProcessLine, Chomp;
  }

  lemma DrainStep(p: Parser, decode: Decoder, events: seq<SseEvent>)
    requires NEWLINE in p.buffer
    ensures var n := NewlineAt(p.buffer).value; var text := decode(Chomp(p.buffer[..n]));
      if text.None? then Drain(p, decode, events).1.Err?
      else
        Drain(p, decode, events) == Drain(Parser(p.buffer[n + 1..], ProcessLine(p.fields, text.value).0), decode,
                                          events + ProcessLine(p.fields, text.value).1)
  {
    hide ProcessLine, Chomp;
  }

  lemma LongerStep(p: Parser, extra: seq<Byte>)
    requires NEWLINE in p.buffer
    ensures var n, whole := NewlineAt(p.buffer).value, p.buffer + extra;
      NewlineAt(whole) == Some(n) && whole[..n] == p.buffer[..n] && whole[n + 1..] == p.buffer[n + 1..] + extra
  {
    NewlineInPrefix(p.buffer, extra);
  }

  lemma NothingDrained(p: Parser, decode: Decoder, events: seq<SseEvent>)
    requires NEWLINE !in p.buffer
    ensures Drain(p, decode, events) == (p, Ok(events))
  {
  }

  /** A buffer that is drained without error has only such events; after an error the rest does not matter. */
  lemma {:induction false} BeforeMore(p: Parser, decode: Decoder, extra: seq<Byte>, events: seq<SseEvent>)
    ensures var (q, drained) := Drain(p, decode, events);
      events + Before(Longer(p, extra), decode)
      == if drained.Ok? then drained.value + Before(Longer(q, extra), decode) else events + Before(p, decode)
    decreases |p.buffer|
  {
    hide ProcessLine, Chomp, Before, Drain;
    if NEWLINE in p.buffer {
      LongerStep(p, extra);
      var n := NewlineAt(p.buffer).value;
      hide NewlineAt;
      BeforeStep(p, decode);
      BeforeStep(Longer(p, extra), decode);
      DrainStep(p, decode, events);
      var text := decode(Chomp(p.buffer[..n]));
      if text.Some? {
        var (fields, more) := ProcessLine(p.fields, text.value);
        var next := Parser(p.buffer[n + 1..], fields);
        BeforeMore(next, decode, extra, events + more);
        Associates(events, more, Before(Longer(next, extra), decode));
        Associates(events, more, Before(next, decode));
      }
    } else {
      NothingDrained(p, decode, events);
    }
  }

  lemma Associates(a: seq<SseEvent>, b: seq<SseEvent>, c: seq<SseEvent>)
    ensures a + (b + c) == a + b + c
  {
  }

  lemma NothingComplete(p: Parser, decode: Decoder)
    requires NEWLINE !in p.buffer
    ensures Before(p, decode) == []
  {
  }

  /** The events that are lost: those of the chunk with the line that does not decode. */
  function Lost(p: Parser, decode: Decoder, chunks: seq<seq<Byte>>): seq<SseEvent> {
    var good := Good(p, decode, chunks);
    if good == |chunks| then [] else Before(Longer(Streamed(p, decode, chunks[..good]).0, chunks[good]), decode)
  }

  lemma LostLater(p: Parser, decode: Decoder, chunks: seq<seq<Byte>>)
    requires chunks != [] && Feed(p, decode, chunks[0]).1.Ok?
    ensures Lost(p, decode, chunks) == Lost(Feed(p, decode, chunks[0]).0, decode, chunks[1..])
  {
    hide Feed, Before;
    var q := Feed(p, decode, chunks[0]).0;
    var good := Good(q, decode, chunks[1..]);
    assert chunks[..good + 1][0] == chunks[0] && chunks[..good + 1][1..] == chunks[1..][..good];
  }

  lemma LostNow(p: Parser, decode: Decoder, chunks: seq<seq<Byte>>)
    requires chunks != [] && Feed(p, decode, chunks[0]).1.Err?
    ensures Lost(p, decode, chunks) == Before(Longer(p, chunks[0]), decode)
  {
    hide Feed, Before;
    assert chunks[..0] == [];
  }

  /**
   * Main result: of the events before the first line that does not decode, exactly those of the same chunk are
   * lost; the others are forwarded, in order.
   */
  lemma {:induction false} ForwardedAndLost(p: Parser, decode: Decoder, chunks: seq<seq<Byte>>)
    requires NEWLINE !in p.buffer
    ensures Before(Longer(p, Concat(chunks)), decode) == Streamed(p, decode, chunks).1 + Lost(p, decode, chunks)
    ensures Streamed(p, decode, chunks).2 ==> Lost(p, decode, chunks) == []
    decreases |chunks|
  {
    hide Before, Drain, Lost;
    if chunks == [] {
      assert p.buffer + [] == p.buffer;
      NothingComplete(p, decode);
      NothingLost(p, decode);
    } else {
      var first, rest := chunks[0], Concat(chunks[1..]);
      assert p.buffer + (first + rest) == p.buffer + first + rest;
      BeforeMore(Longer(p, first), decode, rest, []);
      DrainLeavesTail(Longer(p, first), decode, []);
      var (q, fed) := Feed(p, decode, first);
      var all := Before(Longer(p, Concat(chunks)), decode);
      assert [] + all == all;
      if fed.Ok? {
        ForwardedAndLost(q, decode, chunks[1..]);
        LostLater(p, decode, chunks);
        assert fed.value + (Streamed(q, decode, chunks[1..]).1 + Lost(q, decode, chunks[1..]))
            == fed.value + Streamed(q, decode, chunks[1..]).1 + Lost(q, decode, chunks[1..]);
      } else {
        LostNow(p, decode, chunks);
        assert [] + Before(Longer(p, first), decode) == Before(Longer(p, first), decode);
      }
    }
  }

  lemma NothingLost(p: Parser, decode: Decoder)
    ensures Lost(p, decode, []) == [] && Streamed(p, decode, []).1 == []
  {
  }

  /** Two ways to cut a stream forward the same events if and only if they lose equally many. */
  lemma CuttingMattersExactly(p: Parser, decode: Decoder, chunks: seq<seq<Byte>>, others: seq<seq<Byte>>)
    requires NEWLINE !in p.buffer && Concat(chunks) == Concat(others)
    ensures Streamed(p, decode, chunks).1 == Streamed(p, decode, others).1
       <==> |Lost(p, decode, chunks)| == |Lost(p, decode, others)|
  {
    hide Streamed, Lost, Before;
    ForwardedAndLost(p, decode, chunks);
    ForwardedAndLost(p, decode, others);
    SameFront(Streamed(p, decode, chunks).1, Lost(p, decode, chunks),
              Streamed(p, decode, others).1, Lost(p, decode, others));
  }

  lemma SameFront(a: seq<SseEvent>, b: seq<SseEvent>, c: seq<SseEvent>, d: seq<SseEvent>)
    requires a + b == c + d
    ensures a == c <==> |b| == |d|
  {
    assert |a| + |b| == |c| + |d|;
    assert (a + b)[..|a|] == a && (c + d)[..|c|] == c;
  }

  /** Joining the chunk that does not decode to the one before it loses the events of that one, too. */
  lemma JoiningLosesMore(p: Parser, decode: Decoder, first: seq<Byte>, second: seq<Byte>)
    requires var (q, fed) := Feed(p, decode, first); fed.Ok? && fed.value != [] && Feed(q, decode, second).1.Err?
    ensures Streamed(p, decode, [first, second]).1 == Feed(p, decode, first).1.value != []
    ensures Streamed(p, decode, [first + second]).1 == []
    ensures Concat([first, second]) == Concat([first + second])
  {
    hide Feed;
    FeedTwice(p, decode, first, second);
    assert [first, second][1..] == [second] && [second][1..] == [] && [first + second][1..] == [];
    assert Feed(p, decode, first).1.value + [] == Feed(p, decode, first).1.value;
    assert first + (second + []) == first + second + [];
  }

  /** Such a stream: one event, and then a line that is not text. */
  lemma AnEventIsLost(decode: Decoder)
    requires decode([]) == Some("") && decode([1]) == Some("data:" + "a") && decode([2]).None?
    ensures var start := Parser([], NO_FIELDS);
      |Streamed(start, decode, [[1, NEWLINE, NEWLINE], [2, NEWLINE]]).1| == 1
      && Streamed(start, decode, [[1, NEWLINE, NEWLINE] + [2, NEWLINE]]).1 == []
  {
    hide Feed, Streamed;
    var start := Parser([], NO_FIELDS);
    OneEventIsFed(decode);
    GarbageIsRefused(Feed(start, decode, [1, NEWLINE, NEWLINE]).0, decode);
    JoiningLosesMore(start, decode, [1, NEWLINE, NEWLINE], [2, NEWLINE]);
  }

  lemma OneEventIsFed(decode: Decoder)
    requires decode([]) == Some("") && decode([1]) == Some("data:" + "a")
    ensures var (q, fed) := Feed(Parser([], NO_FIELDS), decode, [1, NEWLINE, NEWLINE]);
      fed.Ok? && |fed.value| == 1 && q.buffer == []
  {
    var (fields, none) := ProcessLine(NO_FIELDS, "data:" + "a");
    var (last, events) := ProcessLine(fields, "");
    DataIsOneEvent();
    hide ProcessLine, Drain, NewlineAt, Chomp;
    var a, b := [1, NEWLINE, NEWLINE], [NEWLINE];
    assert [] + a == a && a[..1] == [1] && a[2..] == b && b[..0] == [] && b[1..] == [];
    LineEnds(a, 1);
    LineEnds(b, 0);
    DrainStep(Parser(a, NO_FIELDS), decode, []);
    DrainStep(Parser(b, fields), decode, [] + none);
    NothingDrained(Parser([], last), decode, [] + none + events);
  }

  lemma LineEnds(bytes: seq<Byte>, n: nat)
    requires n < |bytes| && bytes[n] == NEWLINE && NEWLINE !in bytes[..n] && RETURN !in bytes[..n]
    ensures NewlineAt(bytes) == Some(n) && Chomp(bytes[..n]) == bytes[..n] && NEWLINE in bytes
  {
    assert bytes == bytes[..n] + bytes[n..];
    assert bytes[n] in bytes;
    FirstNewline(bytes, n);
    assert n > 0 ==> bytes[..n][n - 1] in bytes[..n];
  }

  lemma {:induction false} FirstNewline(bytes: seq<Byte>, n: nat)
    requires n < |bytes| && bytes[n] == NEWLINE && NEWLINE !in bytes[..n]
    ensures NewlineAt(bytes) == Some(n)
  {
    if n > 0 {
      assert bytes[0] == bytes[..n][0] && bytes[..n][1..] == bytes[1..][..n - 1];
      FirstNewline(bytes[1..], n - 1);
    }
  }

  lemma GarbageIsRefused(q: Parser, decode: Decoder)
    requires q.buffer == [] && decode([2]).None?
    ensures Feed(q, decode, [2, NEWLINE]).1.Err?
  {
    var bytes: seq<Byte> := [2, NEWLINE];
    assert [] + bytes == bytes && bytes[..1] == [2];
    LineEnds(bytes, 1);
    hide Drain;
    DrainStep(Parser(bytes, q.fields), decode, []);
  }

  lemma DataIsOneEvent()
    ensures var (fields, none) := ProcessLine(NO_FIELDS, "data:" + "a");
      none == [] && |ProcessLine(fields, "").1| == 1
  {
    hide SplitOnce;
    SplitOnceAt("data", ':', "a");
    assert "data" + ":" + "a" == "data:" + "a";
  }

  /** For the worker: an undecodable connection has forwarded, after the greeting, all events but the lost ones. */
  lemma WorkerForwardsAllButLost(status: nat, chunks: seq<seq<Byte>>, end: StreamEnd, waiting: bool, decode: Decoder)
    requires !Streamed(Parser([], NO_FIELDS), decode, chunks).2
    ensures var visit := VisitOf(Streaming(status, chunks, end, waiting), decode);
      visit.messages + Events(Lost(Parser([], NO_FIELDS), decode, chunks))
      == [Connected(status)] + Events(Before(Parser(Concat(chunks), NO_FIELDS), decode))
  {
    hide VisitOf, Streamed, Lost, Before, Finish;
    var start := Parser([], NO_FIELDS);
    assert [] + Concat(chunks) == Concat(chunks);
    ForwardedAndLost(start, decode, chunks);
    VisitShape(status, chunks, end, waiting, decode);
    var forwarded, lost := Streamed(start, decode, chunks).1, Lost(start, decode, chunks);
    assert Events(forwarded + lost) == Events(forwarded) + Events(lost) && Events([]) == [];
  }
}
