/** How the bytes of an event stream are read: lines, fields, numbers, and when an event is complete. */
module SseReading {
  import opened Wrappers
  import opened Text
  import opened Sse
  import opened SseTheorems
  import opened SseStandard
  import opened SseStandardReconnect
  import opened SseUndecodable
  import JsonPointer

  // ----- Fields and numbers -----

  /** What follows the first colon is the value, without one space at its start; without a colon it is empty. */
  lemma FieldsAreRead(name: string, value: string)
    requires ':' !in name
    ensures FieldOf(name) == (name, "")
    ensures FieldOf(name + ":" + value) == (name, if value != "" && value[0] == ' ' then value[1..] else value)
    ensures FieldOf(name + ": " + value) == (name, value)
  {
    SplitOnceAt(name, ':', value);
    SplitOnceAt(name, ':', " " + value);
    assert name + ":" + (" " + value) == name + ": " + value && name + [':'] + value == name + ":" + value;
    assert (" " + value)[1..] == value;
  }

  lemma {:induction false} SameDigits(s: string)
    ensures DigitsValue(s) == if JsonPointer.Digits(s) then Some(JsonPointer.DigitsValue(s)) else None
  {
    if s != "" {
      var high, last := s[..|s| - 1], s[|s| - 1];
      SameDigits(high);
      if JsonPointer.Digits(high) && '0' <= last <= '9' {
        forall i | 0 <= i < |s| ensures '0' <= s[i] <= '9' {
          assert i < |high| ==> high[i] == s[i];
        }
      }
      if JsonPointer.Digits(s) {
        forall i | 0 <= i < |high| ensures '0' <= high[i] <= '9' {
          assert high[i] == s[i];
        }
      }
    }
  }

  function Zeros(n: nat): (r: string)
    ensures |r| == n && forall c <- r :: c == '0'
  {
    seq(n, (_: int) => '0')
  }

  lemma {:induction false} LeadingZeros(n: nat, s: string)
    ensures DigitsValue(Zeros(n) + s) == DigitsValue(s)
    decreases |s|, n
  {
    var all := Zeros(n) + s;
    if s != "" {
      assert all[..|all| - 1] == Zeros(n) + s[..|s| - 1];
      LeadingZeros(n, s[..|s| - 1]);
    } else if n > 0 {
      assert all[..|all| - 1] == Zeros(n - 1) + "";
      LeadingZeros(n - 1, "");
    }
  }

  /** The decimal form of a number, after any zeros and one plus sign or none, is read as that number below 2^64. */
  lemma NumbersAreRead(n: nat, zeros: nat, plus: bool)
    ensures ParseU64((if plus then "+" else "") + (Zeros(zeros) + JsonPointer.Decimal(n)))
         == if n < 18_446_744_073_709_551_616 then Some(n) else None
  {
    hide DigitsValue;
    var digits := Zeros(zeros) + JsonPointer.Decimal(n);
    JsonPointer.DigitsValueOfDecimal(n);
    SameDigits(JsonPointer.Decimal(n));
    LeadingZeros(zeros, JsonPointer.Decimal(n));
    assert ("+" + digits)[1..] == digits && "" + digits == digits;
    assert digits[0] != '+' by {
      if zeros > 0 {
        assert digits[0] == Zeros(zeros)[0] && Zeros(zeros)[0] in Zeros(zeros);
      } else {
        assert digits == JsonPointer.Decimal(n);
      }
    }
  }

  /** Nothing else is a number. */
  lemma OnlyNumbersAreRead(s: string)
    ensures ParseU64(s).Some? ==>
      var digits := if s != "" && s[0] == '+' then s[1..] else s;
      digits != "" && JsonPointer.Digits(digits)
  {
    hide DigitsValue;
    SameDigits(if s != "" && s[0] == '+' then s[1..] else s);
  }

  // ----- Lines -----

  /** A line with its end: a line feed, which a carriage return may precede. */
  datatype Line = Line(bytes: seq<Byte>, returned: bool)

  /** A line ends at the first line feed; a carriage return before that belongs to the end. */
  predicate IsLine(line: Line) {
    10 !in line.bytes && (!line.returned ==> line.bytes == [] || line.bytes[|line.bytes| - 1] != 13)
  }

  function Written(lines: seq<Line>): seq<Byte> {
    if lines == [] then []
    else lines[0].bytes + (if lines[0].returned then [13, 10] else [10]) + Written(lines[1..])
  }

  function Bare(lines: seq<Line>): (r: seq<seq<Byte>>)
    ensures |r| == |lines| && forall i | 0 <= i < |r| :: r[i] == lines[i].bytes
  {
    seq(|lines|, i requires 0 <= i < |lines| => lines[i].bytes)
  }

  lemma FirstLineIsRead(line: Line, rest: seq<Byte>)
    requires IsLine(line)
    ensures var bytes := line.bytes + (if line.returned then [13, 10] else [10]) + rest;
      NEWLINE in bytes && Chomp(bytes[..NewlineAt(bytes).value]) == line.bytes
      && bytes[NewlineAt(bytes).value + 1..] == rest
  {
    hide NewlineAt;
    var before := line.bytes + if line.returned then [13] else [];
    var bytes := line.bytes + (if line.returned then [13, 10] else [10]) + rest;
    assert bytes == before + [10] + rest;
    assert bytes[|before|] == 10 && bytes[..|before|] == before;
    FirstNewline(bytes, |before|);
    assert bytes[|before|] in bytes;
    assert line.returned ==> before[..|before| - 1] == line.bytes;
    assert !line.returned ==> before == line.bytes;
  }

  /** The lines are read as they are written; what follows the last line feed is a line if it is not empty. */
  lemma {:induction false} LinesAreRead(lines: seq<Line>, tail: seq<Byte>)
    requires (forall line <- lines :: IsLine(line)) && 10 !in tail
    ensures CompleteLines(Written(lines) + tail) == Bare(lines)
    ensures AllLines(Written(lines) + tail) == Bare(lines) + if tail == [] then [] else [tail]
    decreases |lines|
  {
    hide NewlineAt, Chomp, AfterLastNewline, CompleteLines;
    var bytes := Written(lines) + tail;
    if lines == [] {
      assert bytes == tail;
      NothingComplete(tail);
      assert Bare(lines) == [];
    } else {
      var rest := Written(lines[1..]) + tail;
      assert bytes == lines[0].bytes + (if lines[0].returned then [13, 10] else [10]) + rest;
      FirstLineIsRead(lines[0], rest);
      TailOfTail(bytes);
      LinesAreRead(lines[1..], tail);
      assert Bare(lines) == [lines[0].bytes] + Bare(lines[1..]);
      var last := if tail == [] then [] else [tail];
      assert [lines[0].bytes] + (Bare(lines[1..]) + last) == Bare(lines) + last;
      AllLinesStep(bytes);
    }
  }

  lemma NothingComplete(tail: seq<Byte>)
    requires 10 !in tail
    ensures CompleteLines(tail) == [] && AfterLastNewline(tail) == tail
  {
  }

  /** All byte order marks go from the start of the first line, and from no other place. */
  lemma {:induction false} MarksAreRemoved(n: nat, line: string, rest: seq<string>)
    requires line == "" || line[0] != '\U{FEFF}'
    ensures WithoutBom([seq(n, (_: int) => '\U{FEFF}') + line] + rest) == [line] + rest
  {
    var marks := seq(n, (_: int) => '\U{FEFF}');
    if n == 0 {
      assert marks + line == line;
    } else {
      var fewer := seq(n - 1, (_: int) => '\U{FEFF}');
      MarksAreRemoved(n - 1, line, rest);
      assert (marks + line)[1..] == fewer + line;
      assert TrimBoms(fewer + line) == line by {
        assert WithoutBom([fewer + line] + rest)[0] == line;
      }
    }
    assert ([marks + line] + rest)[1..] == rest;
  }

  // ----- An event is complete with the blank line after it -----

  /** The texts of the lines before the first one that cannot be decoded. */
  function Readable(lines: seq<seq<Byte>>, decode: Decoder): seq<string> {
    if lines == [] || decode(lines[0]).None? then [] else [decode(lines[0]).value] + Readable(lines[1..], decode)
  }

  /** The events of the blocks that a blank line ends. */
  function EndedBlocks(lines: seq<string>, id: Option<string>): seq<SseEvent>
    decreases |lines|
  {
    if "" !in lines then []
    else BlockEvent(First(lines), id) + EndedBlocks(Rest(lines), IdAfter(First(lines), id))
  }

  /** What all blocks give: the events of the ended ones, and then at most one, if the others have data. */
  lemma {:induction false} BlocksAreEndedAndOne(lines: seq<string>, id: Option<string>)
    ensures EndedBlocks(lines, id) <= Blocks(lines, id)
    ensures |Blocks(lines, id)|
         == |EndedBlocks(lines, id)| + if Values(LastBlock(lines), "data") == [] then 0 else 1
    decreases |lines|
  {
    hide Values, BlockEvent, IdAfter, LastBlock;
    if "" in lines {
      BlocksAreEndedAndOne(Rest(lines), IdAfter(First(lines), id));
      LastBlockOfRest(lines);
    } else {
      OneEventWithData(lines, id);
    }
  }

  lemma OneEventWithData(lines: seq<string>, id: Option<string>)
    requires "" !in lines
    ensures |BlockEvent(lines, id)| == (if Values(lines, "data") == [] then 0 else 1) && LastBlock(lines) == lines
  {
    hide Values;
  }

  /** The parser gives an event when the blank line after it has come, not later. */
  lemma FoldIsEndedBlocks(st: Fields, lines: seq<string>)
    requires st.sawBom && st.data == [] && st.event == None && st.retryMs == None
    ensures FoldOnly(st, lines).1 == EndedBlocks(lines, st.id)
  {
    hide ProcessLine, FoldLines, FoldOnly, Blocks, EndedBlocks, Values, LastBlock;
    FoldIsBlocks(st, lines);
    FoldThenDispatch(st, lines);
    PendingData(st, lines);
    BlocksAreEndedAndOne(lines, st.id);
    var (last, events) := FoldOnly(st, lines);
    var all, ended := Blocks(lines, st.id), EndedBlocks(lines, st.id);
    assert [] + Values(LastBlock(lines), "data") == Values(LastBlock(lines), "data");
    assert all == events + Dispatch(last).1;
    assert |events| == |ended|;
    assert events == all[..|events|] && ended == all[..|ended|];
  }

  lemma {:induction false} BeforeIsFolded(p: Parser, decode: Decoder)
    ensures Before(p, decode) == FoldOnly(p.fields, Readable(CompleteLines(p.buffer), decode)).1
    decreases |p.buffer|
  {
    hide ProcessLine, Chomp, NewlineAt;
    if NEWLINE in p.buffer {
      var n := NewlineAt(p.buffer).value;
      var line, rest := Chomp(p.buffer[..n]), p.buffer[n + 1..];
      BeforeStep(p, decode);
      var lines := CompleteLines(rest);
      assert CompleteLines(p.buffer) == [line] + lines && ([line] + lines)[1..] == lines;
      if decode(line).Some? {
        var text := decode(line).value;
        var fields := ProcessLine(p.fields, text).0;
        BeforeIsFolded(Parser(rest, fields), decode);
        assert ([text] + Readable(lines, decode))[1..] == Readable(lines, decode);
      }
    }
  }

  lemma FoldWithoutBom(lines: seq<string>)
    ensures FoldOnly(NO_FIELDS, lines).1 == FoldOnly(NO_FIELDS.(sawBom := true), WithoutBom(lines)).1
  {
    if lines != [] {
      assert WithoutBom(lines)[1..] == lines[1..];
    }
  }

  /** Before a line that cannot be decoded, or the end of what has come, the events are those of the ended blocks. */
  lemma BeforeIsEndedBlocks(bytes: seq<Byte>, decode: Decoder)
    ensures Before(Parser(bytes, NO_FIELDS), decode)
         == EndedBlocks(WithoutBom(Readable(CompleteLines(bytes), decode)), None)
  {
    hide Before, FoldOnly, CompleteLines, Readable, EndedBlocks, WithoutBom;
    BeforeIsFolded(Parser(bytes, NO_FIELDS), decode);
    var lines := Readable(CompleteLines(bytes), decode);
    FoldWithoutBom(lines);
    FoldIsEndedBlocks(NO_FIELDS.(sawBom := true), WithoutBom(lines));
  }

  lemma {:induction false} DrainGivesBefore(p: Parser, decode: Decoder, events: seq<SseEvent>)
    ensures Drain(p, decode, events).1.Ok? <==> Decoded(CompleteLines(p.buffer), decode).Some?
    ensures Drain(p, decode, events).1.Ok? ==> Drain(p, decode, events).1 == Ok(events + Before(p, decode))
    decreases |p.buffer|
  {
    hide ProcessLine, Chomp, NewlineAt;
    if NEWLINE in p.buffer {
      var n := NewlineAt(p.buffer).value;
      var line, rest := Chomp(p.buffer[..n]), p.buffer[n + 1..];
      BeforeStep(p, decode);
      DrainStep(p, decode, events);
      DecodedCons(line, CompleteLines(rest), decode);
      if decode(line).Some? {
        var (fields, more) := ProcessLine(p.fields, decode(line).value);
        DrainGivesBefore(Parser(rest, fields), decode, events + more);
        assert events + more + Before(Parser(rest, fields), decode)
            == events + (more + Before(Parser(rest, fields), decode));
      }
    } else {
      NothingDrained(p, decode, events);
      assert events + [] == events;
    }
  }

  /**
   * Main result: feeding a stream fails exactly when one of its complete lines cannot be decoded; else it gives at once
   * the events of all blocks that a blank line has ended.
   */
  lemma FeedingGivesEndedBlocks(decode: Decoder, bytes: seq<Byte>)
    ensures var lines := Decoded(CompleteLines(bytes), decode);
      var fed := Feed(Parser([], NO_FIELDS), decode, bytes).1;
      if lines.None? then fed.Err? else fed == Ok(EndedBlocks(WithoutBom(lines.value), None))
  {
    hide Drain, Before, CompleteLines, Readable, EndedBlocks, WithoutBom, Decoded;
    assert [] + bytes == bytes;
    var p := Parser(bytes, NO_FIELDS);
    DrainGivesBefore(p, decode, []);
    BeforeIsEndedBlocks(bytes, decode);
    AllReadable(CompleteLines(bytes), decode);
    assert [] + Before(p, decode) == Before(p, decode);
  }

  lemma {:induction false} AllReadable(lines: seq<seq<Byte>>, decode: Decoder)
    ensures Decoded(lines, decode).Some? ==> Decoded(lines, decode).value == Readable(lines, decode)
  {
    if lines != [] {
      AllReadable(lines[1..], decode);
    }
  }
}

/** What each attempt of the event stream worker reports, how it ends, and what its request carries. */
module SseReports {
  import opened Wrappers
  import opened Text
  import opened RequestModel
  import opened Sse
  import opened SseTheorems
  import opened SseReading
  import opened Reconnect
  import opened SseWorker
  import SseUndecodable

  /** The delay asked for last, or the usual 250 milliseconds. */
  lemma {:induction false} DelayIsTheLast(events: seq<SseEvent>, i: nat)
    ensures (forall e <- events :: e.retryMs.None?) ==> DelayFrom(events, 250) == 250
    ensures i < |events| && events[i].retryMs.Some? && (forall j | i < j < |events| :: events[j].retryMs.None?) ==>
      DelayFrom(events, 250) == events[i].retryMs.value
  {
    if events != [] && events[|events| - 1].retryMs.None? {
      var front := events[..|events| - 1];
      DelayIsTheLast(front, i);
      assert events[|events| - 1] in events;
    }
  }

  /** The id received last, or the one that was known. */
  lemma {:induction false} IdIsTheLast(messages: seq<Message>, known: Option<string>, i: nat)
    ensures (forall m <- messages :: m.Event? ==> m.event.id.None?) ==> LastId(messages, IdOf, known) == known
    ensures i < |messages| && messages[i].Event? && messages[i].event.id.Some?
            && (forall j | i < j < |messages| :: messages[j].Event? ==> messages[j].event.id.None?) ==>
      LastId(messages, IdOf, known) == messages[i].event.id
  {
    if messages != [] && IdOf(messages[|messages| - 1]).None? {
      var front := messages[..|messages| - 1];
      IdIsTheLast(front, known, i);
      assert messages[|messages| - 1] in messages;
    }
  }

  /** An attempt that does not connect reports nothing. */
  lemma FailedAttemptsReportNothing(decode: Decoder)
    ensures VisitOf(CancelledConnecting, decode) == Visit([], End(Some("SSE stream cancelled")))
    ensures
      (forall error ::
         VisitOf(Refused(error), decode) == Visit([], End(Some(error))))
    ensures
      (forall error, cancelled ::
         VisitOf(ConnectFailed(error, cancelled), decode)
         == Visit([], Retry(250, Some(error), if cancelled then Some("SSE stream cancelled") else None)))
  {
  }

  /**
   * Main result: a connection reports that it is open and then its events: while it is read, those of the ended blocks;
   * at its end those of all blocks. It may be followed by another one only when it was read to its end.
   */
  lemma ConnectionReports(status: nat, chunks: seq<seq<Byte>>, end: StreamEnd, cancelled: bool, decode: Decoder)
    requires Decoded(CompleteLines(Concat(chunks)), decode).Some?
    ensures var visit := VisitOf(Streaming(status, chunks, end, cancelled), decode);
      var ended := EndedBlocks(WithoutBom(Decoded(CompleteLines(Concat(chunks)), decode).value), None);
      var lines := Decoded(AllLines(Concat(chunks)), decode);
      match end
      case ReadFailed(error) => visit == Visit([Connected(status)] + Events(ended), End(Some(error)))
      case CancelledReading =>
        visit == Visit([Connected(status)] + Events(ended), End(Some("SSE stream cancelled")))
      case Eof =>
        if lines.None? then
          visit == Visit([Connected(status)] + Events(ended), End(Some("invalid UTF-8 in SSE stream")))
        else
          var all := Blocks(WithoutBom(lines.value), None);
          visit == Visit([Connected(status)] + Events(all),
                         Retry(DelayFrom(all, 250), None, if cancelled then Some("SSE stream cancelled") else None))
  {
    hide Feed, Finish, Streamed, EndedBlocks, WithoutBom, Decoded, CompleteLines, AllLines, Blocks, DelayFrom;
    var start, bytes := Parser([], NO_FIELDS), Concat(chunks);
    FeedingGivesEndedBlocks(decode, bytes);
    ChunksDoNotMatter(start, decode, chunks);
    StreamedIsFeedAll(start, decode, chunks);
    VisitShape(status, chunks, end, cancelled, decode);
    ParsingReadsBlocks(decode, bytes);
    ForwardsTheWholeStream(status, chunks, cancelled, decode);
    assert Events([]) == [];
    var ended := EndedBlocks(WithoutBom(Decoded(CompleteLines(bytes), decode).value), None);
    assert [Connected(status)] + Events(ended) + [] == [Connected(status)] + Events(ended);
  }

  /** With a line that cannot be decoded the events before it are reported, but for the lost ones, and the run ends. */
  lemma UndecodableConnectionReports(
    status: nat, chunks: seq<seq<Byte>>, end: StreamEnd, cancelled: bool, decode: Decoder)
    requires Decoded(CompleteLines(Concat(chunks)), decode).None?
    ensures var visit := VisitOf(Streaming(status, chunks, end, cancelled), decode);
      visit.verdict == End(Some("invalid UTF-8 in SSE stream"))
      && visit.messages + Events(SseUndecodable.Lost(Parser([], NO_FIELDS), decode, chunks))
         == [Connected(status)] + Events(EndedBlocks(WithoutBom(Readable(CompleteLines(Concat(chunks)), decode)), None))
  {
    hide Feed, Finish, Streamed, EndedBlocks, WithoutBom, Decoded, CompleteLines, Readable, VisitOf;
    var start, bytes := Parser([], NO_FIELDS), Concat(chunks);
    FeedingGivesEndedBlocks(decode, bytes);
    ChunksDoNotMatter(start, decode, chunks);
    StreamedIsFeedAll(start, decode, chunks);
    VisitShape(status, chunks, end, cancelled, decode);
    SseUndecodable.WorkerForwardsAllButLost(status, chunks, end, cancelled, decode);
    BeforeIsEndedBlocks(bytes, decode);
  }

  // ----- The request of an attempt -----

  /** An enabled header of that name, in capital or small letters. */
  predicate Says(h: HeaderEntry, name: string) {
    h.enabled && ToLowerAscii(h.key) == name
  }

  predicate AnySays(headers: seq<HeaderEntry>, name: string) {
    exists i | 0 <= i < |headers| :: Says(headers[i], name)
  }

  lemma IdHeadersAreFound(h: HeaderEntry)
    ensures IsLastEventId(h) <==> Says(h, "last-event-id")
  {
  }

  lemma AnyBefore(headers: seq<HeaderEntry>, i: nat, name: string)
    requires 0 < i < |headers|
    ensures AnySays(headers[..i], name) <==> Says(headers[0], name) || AnySays(headers[1..][..i - 1], name)
  {
    hide Says, AnySays;
    assert headers[..i] == [headers[0]] + headers[1..][..i - 1];
    AnyOfMore(headers[0], headers[1..][..i - 1], name);
  }

  lemma NoneOfNothing(name: string)
    ensures !AnySays([], name)
  {
  }

  lemma {:induction false} WithIdIs(headers: seq<HeaderEntry>, id: string)
    ensures var sent := WithLastEventId(headers, Some(id));
      && |sent| == |headers| + (if AnySays(headers, "last-event-id") then 0 else 1)
      && (!AnySays(headers, "last-event-id") ==> sent == headers + [HeaderEntry("last-event-id", id, true)])
      && forall i | 0 <= i < |headers| ::
           sent[i] == (if Says(headers[i], "last-event-id") && !AnySays(headers[..i], "last-event-id")
                       then headers[i].(value := id) else headers[i])
  {
    hide IsLastEventId, Says, AnySays;
    var name, sent := "last-event-id", WithLastEventId(headers, Some(id));
    NoneOfNothing(name);
    if headers != [] {
      var first, rest := headers[0], headers[1..];
      assert headers == [first] + rest && headers[..0] == [];
      WithIdIs(rest, id);
      IdHeadersAreFound(first);
      AnyOfMore(first, rest, name);
      forall i | 0 <= i < |headers|
        ensures sent[i] == (if Says(headers[i], name) && !AnySays(headers[..i], name)
                            then headers[i].(value := id) else headers[i])
      {
        if i > 0 {
          AnyBefore(headers, i, name);
          assert headers[i] == rest[i - 1];
        }
      }
    }
  }

  lemma AnyOfMore(first: HeaderEntry, rest: seq<HeaderEntry>, name: string)
    ensures AnySays([first] + rest, name) <==> Says(first, name) || AnySays(rest, name)
  {
    hide Says;
    var all := [first] + rest;
    if AnySays(rest, name) {
      var i :| 0 <= i < |rest| && Says(rest[i], name);
      assert all[i + 1] == rest[i];
    }
    if Says(first, name) {
      assert all[0] == first;
    }
  }

  lemma AnyOfOneMore(headers: seq<HeaderEntry>, last: HeaderEntry, name: string)
    ensures AnySays(headers + [last], name) <==> AnySays(headers, name) || Says(last, name)
  {
    hide Says;
    var all := headers + [last];
    if AnySays(headers, name) {
      var i :| 0 <= i < |headers| && Says(headers[i], name);
      assert all[i] == headers[i];
    }
    if Says(last, name) {
      assert all[|headers|] == last;
    }
  }

  lemma AcceptIsNoId()
    ensures !Says(HeaderEntry("accept", "text/event-stream", true), "last-event-id")
  {
    LowercaseStays("accept");
    hide ToLowerAscii;
    assert |"accept"| != |"last-event-id"|;
  }

  /**
   * Main result: the request of an attempt carries all headers of the user, in order and as they are, but that the
   * first enabled `last-event-id` gets the id of the last event; `accept: text/event-stream` follows exactly when no
   * header asks for a type, and an id of its own exactly when there is one and no header for it.
   */
  lemma RequestCarries(headers: seq<HeaderEntry>, id: Option<string>)
    ensures var sent := WithLastEventId(WithAccept(headers), id);
      && |headers| <= |sent|
      && sent[|headers|..]
         == (if AnySays(headers, "accept") then [] else [HeaderEntry("accept", "text/event-stream", true)])
            + (if id.None? || AnySays(headers, "last-event-id") then []
               else [HeaderEntry("last-event-id", id.value, true)])
      && forall i | 0 <= i < |headers| ::
           sent[i] == (if id.Some? && Says(headers[i], "last-event-id") && !AnySays(headers[..i], "last-event-id")
                       then headers[i].(value := id.value) else headers[i])
  {
    hide ToLowerAscii;
    AcceptIs(headers);
    var base := WithAccept(headers);
    var accept := HeaderEntry("accept", "text/event-stream", true);
    AcceptIsNoId();
    AnyOfOneMore(headers, accept, "last-event-id");
    hide WithAccept, AnySays, Says;
    if id.Some? {
      WithIdIs(base, id.value);
      var sent := WithLastEventId(base, id);
      forall i | 0 <= i < |headers| ensures base[..i] == headers[..i] && base[i] == headers[i] {
      }
      var added := if AnySays(headers, "accept") then [] else [accept];
      assert headers + [] == headers && base == headers + added;
      assert AnySays(base, "last-event-id") <==> AnySays(headers, "last-event-id");
      var last := HeaderEntry("last-event-id", id.value, true);
      assert added == [accept] ==> base[|headers|] == accept;
      assert base[|headers|..] == added;
      if AnySays(headers, "last-event-id") {
        assert added == [accept] ==> sent[|headers|] == accept;
        assert sent[|headers|..] == added + [];
      } else {
        assert sent == base + [last];
        assert sent[|headers|..] == base[|headers|..] + [last];
      }
    } else {
      assert WithLastEventId(base, id) == base;
    }
  }

  lemma AcceptIs(headers: seq<HeaderEntry>)
    ensures WithAccept(headers)
         == headers + if AnySays(headers, "accept") then [] else [HeaderEntry("accept", "text/event-stream", true)]
  {
    hide ToLowerAscii;
    if AnySays(headers, "accept") {
      var i :| 0 <= i < |headers| && Says(headers[i], "accept");
      assert headers[i].enabled && ToLowerAscii(headers[i].key) == "accept";
    } else {
      forall i | 0 <= i < |headers| ensures !(headers[i].enabled && ToLowerAscii(headers[i].key) == "accept") {
        assert !Says(headers[i], "accept");
      }
    }
    assert headers + [] == headers;
  }
}
