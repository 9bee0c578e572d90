/** Event streams as sections 9.2.5 and 9.2.6 of the WHATWG HTML Living Standard read them, beside the parser. */
module SseStandard {
  import opened Wrappers
  import opened Text
  import opened Sse
  import opened SseTheorems

  /** The buffers of section 9.2.6, the last event id string and the reconnection time of the event source. */
  datatype Source = Source(data: string, kind: string, idBuffer: string, lastId: string, delay: nat)

  /** An event as a listener sees it. */
  datatype Heard = Heard(kind: string, data: string, lastEventId: string)

  predicate IsNumber(value: string) {
    value != "" && forall c <- value :: '0' <= c <= '9'
  }

  function StandardField(s: Source, name: string, value: string): Source {
    if name == "event" then s.(kind := value)
    else if name == "data" then s.(data := s.data + value + "\n")
    else if name == "id" && '\0' !in value then s.(idBuffer := value)
    else if name == "retry" && IsNumber(value) && DigitsValue(value).Some? then s.(delay := DigitsValue(value).value)
    else s
  }

  function StandardDispatch(s: Source): (Source, seq<Heard>) {
    var next := s.(lastId := s.idBuffer, data := "", kind := "");
    if s.data == "" then (next, [])
    else (next, [Heard(if s.kind == "" then "message" else s.kind, s.data[..|s.data| - 1], s.idBuffer)])
  }

  function StandardLine(s: Source, line: string): (Source, seq<Heard>) {
    if line == "" then StandardDispatch(s)
    else if line[0] == ':' then (s, [])
    else (StandardField(s, FieldOf(line).0, FieldOf(line).1), [])
  }

  /** All lines in turn; what is pending at the end is discarded. */
  function Listen(s: Source, lines: seq<string>): (Source, seq<Heard>)
    decreases |lines|
  {
    if lines == [] then (s, [])
    else
      var (next, heard) := StandardLine(s, lines[0]);
      var (last, more) := Listen(next, lines[1..]);
      (last, heard + more)
  }

  /** A carriage return ends a line as well. */
  function CutAtReturns(line: string): seq<string>
    decreases |line|
  {
    match SplitOnce(line, '\r')
    case None => [line]
    case Some((first, rest)) => [first] + CutAtReturns(rest)
  }

  function CutAll(lines: seq<string>): seq<string> {
    if lines == [] then [] else CutAtReturns(lines[0]) + CutAll(lines[1..])
  }

  /** One byte order mark is removed from the start of the stream. */
  function WithoutOneBom(lines: seq<string>): seq<string> {
    if lines != [] && lines[0] != "" && lines[0][0] == BOM then [lines[0][1..]] + lines[1..] else lines
  }

  /**
   * What the standard makes of a stream whose lines, ended by line feeds, are these. The event source remembers its
   * last event id and its reconnection time from one connection to the next; the buffers start empty.
   */
  function Hear(lines: seq<string>, lastId: string, delay: nat): (Source, seq<Heard>) {
    Listen(Source("", "", "", lastId, delay), CutAll(WithoutOneBom(lines)))
  }

  function OrEmpty(o: Option<string>): string {
    if o.Some? then o.value else ""
  }

  function AsHeard(e: SseEvent): Heard {
    Heard(if OrEmpty(e.event) == "" then "message" else e.event.value, e.data, OrEmpty(e.id))
  }

  function AllAsHeard(events: seq<SseEvent>): (r: seq<Heard>)
    ensures |r| == |events| && forall i | 0 <= i < |r| :: r[i] == AsHeard(events[i])
  {
    seq(|events|, i requires 0 <= i < |events| => AsHeard(events[i]))
  }

  // ----- Streams without the two things that are read as other lines -----

  /** No carriage return but before a line feed, and no second byte order mark. */
  predicate Ordinary(lines: seq<string>) {
    && (forall line <- lines :: '\r' !in line)
    && !(lines != [] && |lines[0]| >= 2 && lines[0][0] == BOM && lines[0][1] == BOM)
  }

  lemma {:induction false} NothingIsCut(lines: seq<string>)
    requires forall line <- lines :: '\r' !in line
    ensures CutAll(lines) == lines
  {
    if lines != [] {
      assert lines[0] in lines;
      NothingIsCut(lines[1..]);
      assert [lines[0]] + lines[1..] == lines;
    }
  }

  lemma OrdinaryLines(lines: seq<string>)
    requires Ordinary(lines)
    ensures CutAll(WithoutOneBom(lines)) == WithoutBom(lines)
  {
    var one := WithoutOneBom(lines);
    forall line <- one ensures '\r' !in line {
      if lines != [] {
        assert lines[0] in lines;
        assert line == one[0] || line in lines[1..];
      }
    }
    NothingIsCut(one);
    if lines != [] {
      assert [lines[0]] + lines[1..] == lines;
      assert lines[0] != "" && lines[0][0] == BOM ==> TrimBoms(lines[0]) == lines[0][1..];
    }
  }

  // ----- The parser's fields beside the buffers of the standard -----

  function Buffered(data: seq<string>): string {
    if data == [] then "" else data[0] + "\n" + Buffered(data[1..])
  }

  lemma {:induction false} BufferedMore(data: seq<string>, value: string)
    ensures Buffered(data + [value]) == Buffered(data) + value + "\n"
  {
    if data == [] {
      assert [] + [value] == [value] && [value][1..] == [];
      assert value + "\n" + "" == "" + value + "\n";
    } else {
      assert (data + [value])[1..] == data[1..] + [value];
      BufferedMore(data[1..], value);
      assert data[0] + "\n" + (Buffered(data[1..]) + value + "\n")
          == data[0] + "\n" + Buffered(data[1..]) + value + "\n";
    }
  }

  lemma {:induction false} BufferedIsJoined(data: seq<string>)
    requires data != []
    ensures Buffered(data) == Join(data, "\n") + "\n"
  {
    if |data| == 1 {
      assert Buffered(data[1..]) == "";
      assert data[0] + "\n" + "" == data[0] + "\n";
    } else {
      BufferedIsJoined(data[1..]);
      assert data[0] + "\n" + (Join(data[1..], "\n") + "\n") == data[0] + "\n" + Join(data[1..], "\n") + "\n";
    }
  }

  predicate Alike(st: Fields, s: Source) {
    st.sawBom && s.data == Buffered(st.data) && s.kind == OrEmpty(st.event) && s.idBuffer == OrEmpty(st.id)
  }

  lemma LinesAlike(st: Fields, s: Source, line: string)
    requires Alike(st, s)
    ensures Alike(ProcessLine(st, line).0, StandardLine(s, line).0)
    ensures AllAsHeard(ProcessLine(st, line).1) == StandardLine(s, line).1
  {
    hide FieldOf, ParseU64, DigitsValue, Join;
    if line == "" {
      if st.data != [] {
        BufferedIsJoined(st.data);
        assert Buffered(st.data)[..|Buffered(st.data)| - 1] == Join(st.data, "\n");
      }
    } else if line[0] != ':' {
      BufferedMore(st.data, FieldOf(line).1);
      FieldsAlike(st, s, FieldOf(line).0, FieldOf(line).1);
    }
  }

  lemma FieldsAlike(st: Fields, s: Source, name: string, value: string)
    requires Alike(st, s)
    ensures Alike(SetField(st, name, value), StandardField(s, name, value))
  {
    hide ParseU64, DigitsValue, IsNumber, Buffered;
    BufferedMore(st.data, value);
  }

  /** The parser's fold without the dispatch at the end. */
  function FoldOnly(st: Fields, lines: seq<string>): (Fields, seq<SseEvent>)
    decreases |lines|
  {
    if lines == [] then (st, [])
    else
      var (next, events) := ProcessLine(st, lines[0]);
      var (last, more) := FoldOnly(next, lines[1..]);
      (last, events + more)
  }

  lemma {:induction false} FoldThenDispatch(st: Fields, lines: seq<string>)
    ensures FoldLines(st, lines) == FoldOnly(st, lines).1 + Dispatch(FoldOnly(st, lines).0).1
    decreases |lines|
  {
    hide ProcessLine, Dispatch;
    if lines != [] {
      FoldThenDispatch(ProcessLine(st, lines[0]).0, lines[1..]);
    }
  }

  lemma {:induction false} ListenAlike(st: Fields, s: Source, lines: seq<string>)
    requires Alike(st, s)
    ensures Alike(FoldOnly(st, lines).0, Listen(s, lines).0)
    ensures AllAsHeard(FoldOnly(st, lines).1) == Listen(s, lines).1
    decreases |lines|
  {
    hide ProcessLine, StandardLine, Alike;
    if lines != [] {
      LinesAlike(st, s, lines[0]);
      ListenAlike(ProcessLine(st, lines[0]).0, StandardLine(s, lines[0]).0, lines[1..]);
    }
  }

  /** The lines after the last blank one. */
  function LastBlock(lines: seq<string>): seq<string> {
    if "" !in lines then lines else LastBlock(lines[1..])
  }

  lemma {:induction false} PendingData(st: Fields, lines: seq<string>)
    requires st.sawBom
    ensures FoldOnly(st, lines).0.data == (if "" in lines then [] else st.data) + Values(LastBlock(lines), "data")
    decreases |lines|
  {
    hide FieldOf, ParseU64;
    if lines == [] {
      assert st.data + [] == st.data;
    } else {
      var next := ProcessLine(st, lines[0]).0;
      PendingData(next, lines[1..]);
      if lines[0] == "" {
        if "" !in lines[1..] {
          assert [] + Values(lines[1..], "data") == Values(LastBlock(lines), "data");
        }
      } else {
        assert "" in lines <==> "" in lines[1..];
        if "" !in lines {
          assert lines == [lines[0]] + lines[1..];
          if lines[0][0] == ':' {
            SameValues(lines[0], lines[1..]);
          } else {
            ValuesOf(lines[0], lines[1..], "data");
            assert st.data + [FieldOf(lines[0]).1] + Values(lines[1..], "data")
                == st.data + ([FieldOf(lines[0]).1] + Values(lines[1..], "data"));
          }
        }
      }
    }
  }

  /**
   * Main result: of an ordinary stream the parser gives the events that the standard hears, and after them the
   * one that the standard discards because no blank line follows it. So both hear the same if and only if the
   * lines after the last blank one have no data.
   */
  lemma EventsAsTheStandardHears(lines: seq<string>, lastId: string, delay: nat)
    requires Ordinary(lines)
    ensures var events, heard := AllAsHeard(Blocks(WithoutBom(lines), None)), Hear(lines, lastId, delay).1;
      && heard <= events && |events| <= |heard| + 1
      && (events == heard <==> Values(LastBlock(WithoutBom(lines)), "data") == [])
  {
    hide Blocks, ProcessLine, FoldLines;
    var texts, st := WithoutBom(lines), NO_FIELDS.(sawBom := true);
    OrdinaryLines(lines);
    FoldIsBlocks(st, texts);
    FoldThenDispatch(st, texts);
    ListenAlike(st, Source("", "", "", lastId, delay), texts);
    PendingData(st, texts);
    var (last, events) := FoldOnly(st, texts);
    assert AllAsHeard(events + Dispatch(last).1) == AllAsHeard(events) + AllAsHeard(Dispatch(last).1);
  }
}

/** What the worker keeps of a connection for the next one, beside what the standard keeps. */
module SseStandardReconnect {
  import opened Wrappers
  import opened Text
  import opened Sse
  import opened SseTheorems
  import opened SseStandard
  import SseWorker
  import Reconnect

  function Rest(lines: seq<string>): seq<string>
    requires "" in lines
  {
    lines[BlankAt(lines).value + 1..]
  }

  function First(lines: seq<string>): seq<string>
    requires "" in lines
  {
    lines[..BlankAt(lines).value]
  }

  predicate HasData(block: seq<string>) {
    Values(block, "data") != []
  }

  lemma {:induction false} ValuesConcat(a: seq<string>, b: seq<string>, name: string)
    ensures Values(a + b, name) == Values(a, name) + Values(b, name)
  {
    hide FieldOf;
    if a == [] {
      assert a + b == b;
    } else {
      assert (a + b)[1..] == a[1..] + b;
      ValuesConcat(a[1..], b, name);
    }
  }

  lemma BlockAndRest(lines: seq<string>, name: string)
    requires "" in lines
    ensures lines == First(lines) + [""] + Rest(lines)
    ensures Values(lines, name) == Values(First(lines), name) + Values(Rest(lines), name)
  {
    hide Values, BlankAt;
    ValuesConcat(First(lines) + [""], Rest(lines), name);
    ValuesConcat(First(lines), [""], name);
    BlankHasNoValue(name);
  }

  lemma BlankHasNoValue(name: string)
    ensures Values([""], name) == []
  {
    assert [""][1..] == [];
  }

  // ----- The last event id -----

  /** The id after the last complete block. */
  function IdAtBlank(lines: seq<string>, id: Option<string>): Option<string>
    decreases |lines|
  {
    if "" !in lines then id else IdAtBlank(Rest(lines), IdAfter(First(lines), id))
  }

  /** The id of the last complete block that has data. */
  function IdAtEvent(lines: seq<string>, id: Option<string>, known: Option<string>): Option<string>
    decreases |lines|
  {
    if "" !in lines then known
    else
      var next := IdAfter(First(lines), id);
      IdAtEvent(Rest(lines), next, if HasData(First(lines)) then next else known)
  }

  /** The lines of all complete blocks. */
  function Complete(lines: seq<string>): seq<string>
    decreases |lines|
  {
    if "" !in lines then [] else First(lines) + Complete(Rest(lines))
  }

  predicate SomeEvent(lines: seq<string>)
    decreases |lines|
  {
    "" in lines && (HasData(First(lines)) || SomeEvent(Rest(lines)))
  }

  /** The lines of the complete blocks after the last one that has data. */
  function Since(lines: seq<string>): seq<string>
    decreases |lines|
  {
    if "" !in lines then []
    else if SomeEvent(Rest(lines)) then Since(Rest(lines))
    else if HasData(First(lines)) then Complete(Rest(lines))
    else Complete(lines)
  }

  lemma IdsConcat(a: seq<string>, b: seq<string>)
    ensures Ids(a + b) == Ids(a) + Ids(b)
  {
    if a == [] {
      assert a + b == b;
    } else {
      assert (a + b)[1..] == a[1..] + b;
      IdsConcat(a[1..], b);
    }
  }

  lemma IdAfterBoth(a: seq<string>, b: seq<string>, id: Option<string>)
    ensures IdAfter(a + b, id) == IdAfter(b, IdAfter(a, id))
  {
    hide Values, Ids;
    ValuesConcat(a, b, "id");
    IdsConcat(Values(a, "id"), Values(b, "id"));
  }

  lemma {:induction false} WithoutEvents(lines: seq<string>, id: Option<string>, known: Option<string>)
    requires !SomeEvent(lines)
    ensures IdAtEvent(lines, id, known) == known && IdAtBlank(lines, id) == IdAfter(Complete(lines), id)
    decreases |lines|
  {
    hide IdAfter, First, HasData;
    if "" in lines {
      WithoutEvents(Rest(lines), IdAfter(First(lines), id), known);
      IdAfterBoth(First(lines), Complete(Rest(lines)), id);
    } else {
      NoLines(id);
    }
  }

  lemma NoLines(id: Option<string>)
    ensures IdAfter([], id) == id
  {
  }

  lemma {:induction false} KnownDoesNotMatter(
      lines: seq<string>, id: Option<string>, a: Option<string>, b: Option<string>)
    requires SomeEvent(lines)
    ensures IdAtEvent(lines, id, a) == IdAtEvent(lines, id, b)
    decreases |lines|
  {
    hide IdAfter, First, HasData;
    if !HasData(First(lines)) {
      KnownDoesNotMatter(Rest(lines), IdAfter(First(lines), id), a, b);
    }
  }

  /** The standard's id is that of the last event, changed by the blocks without data that follow it. */
  lemma {:induction false} IdSinceLastEvent(lines: seq<string>, id: Option<string>)
    ensures IdAtBlank(lines, id) == IdAfter(Since(lines), IdAtEvent(lines, id, id))
    decreases |lines|
  {
    hide IdAfter, First, HasData;
    if "" in lines {
      var next := IdAfter(First(lines), id);
      if SomeEvent(Rest(lines)) {
        IdSinceLastEvent(Rest(lines), next);
        KnownDoesNotMatter(Rest(lines), next, if HasData(First(lines)) then next else id, next);
      } else {
        WithoutEvents(Rest(lines), next, if HasData(First(lines)) then next else id);
        if !HasData(First(lines)) {
          WithoutEvents(lines, id, id);
        }
      }
    } else {
      NoLines(id);
    }
  }

  lemma SentStep(lines: seq<string>, id: Option<string>, known: Option<string>)
    requires "" in lines && (id.None? ==> known.None?)
    ensures var next := IdAfter(First(lines), id);
      Reconnect.LastId(SseWorker.Events(Blocks(lines, id)), SseWorker.IdOf, known)
      == Reconnect.LastId(SseWorker.Events(Blocks(Rest(lines), next)), SseWorker.IdOf,
                          if HasData(First(lines)) then next else known)
  {
    var event, more := BlockEvent(First(lines), id), Blocks(Rest(lines), IdAfter(First(lines), id));
    assert Blocks(lines, id) == event + more by { FirstBlock(lines, id); }
    hide *;
    IdIsKept(First(lines), id);
    EventOfBlock(First(lines), id);
    EventsTogether(event, more);
    SseWorker.LastIdConcat(SseWorker.Events(event), SseWorker.Events(more), known);
    OneEvent(event, known);
  }

  lemma FirstBlock(lines: seq<string>, id: Option<string>)
    requires "" in lines
    ensures Blocks(lines, id) == BlockEvent(First(lines), id) + Blocks(Rest(lines), IdAfter(First(lines), id))
  {
    hide IdAfter, BlockEvent;
  }

  lemma EventOfBlock(block: seq<string>, id: Option<string>)
    ensures var event := BlockEvent(block, id);
      |event| <= 1 && (event != [] <==> HasData(block)) && (event != [] ==> event[0].id == IdAfter(block, id))
  {
    hide IdAfter, Values;
  }

  lemma EventsTogether(first: seq<SseEvent>, more: seq<SseEvent>)
    ensures SseWorker.Events(first + more) == SseWorker.Events(first) + SseWorker.Events(more)
  {
  }

  lemma {:induction false} SentIsIdAtEvent(lines: seq<string>, id: Option<string>, known: Option<string>)
    requires (id.None? ==> known.None?) && !HasData(LastBlock(lines))
    ensures Reconnect.LastId(SseWorker.Events(Blocks(lines, id)), SseWorker.IdOf, known) == IdAtEvent(lines, id, known)
    decreases |lines|
  {
    hide IdAfter, Values;
    if "" in lines {
      var next := IdAfter(First(lines), id);
      LastBlockOfRest(lines);
      IdIsKept(First(lines), id);
      SentStep(lines, id, known);
      SentIsIdAtEvent(Rest(lines), next, if HasData(First(lines)) then next else known);
    } else {
      assert Blocks(lines, id) == [];
    }
  }

  lemma OneEvent(event: seq<SseEvent>, known: Option<string>)
    requires |event| <= 1
    ensures Reconnect.LastId(SseWorker.Events(event), SseWorker.IdOf, known)
         == if event != [] && event[0].id.Some? then event[0].id else known
  {
    if event != [] {
      var messages := SseWorker.Events(event);
      assert messages[..0] == [];
    }
  }

  lemma IdIsKept(block: seq<string>, id: Option<string>)
    ensures IdAfter(block, id).None? ==> id.None?
  {
  }

  lemma {:induction false} LastBlockOfRest(lines: seq<string>)
    requires "" in lines
    ensures LastBlock(Rest(lines)) == LastBlock(lines)
    decreases |lines|
  {
    if lines[0] == "" {
      assert Rest(lines) == lines[1..];
    } else {
      assert "" in lines[1..];
      assert Rest(lines) == Rest(lines[1..]);
      LastBlockOfRest(lines[1..]);
    }
  }

  lemma {:induction false} ListenToBlock(s: Source, block: seq<string>, rest: seq<string>) returns (last: Source)
    requires "" !in block
    ensures Listen(s, block + rest) == Listen(last, rest) && last.lastId == s.lastId
    ensures last.idBuffer == OrEmpty(IdAfter(block, Some(s.idBuffer)))
    decreases |block|
  {
    hide IdAfter, StandardLine;
    if block == [] {
      assert block + rest == rest;
      NoLines(Some(s.idBuffer));
      last := s;
    } else {
      assert (block + rest)[1..] == block[1..] + rest;
      assert block[0] != "" by { assert block[0] in block; }
      var next := StandardLine(s, block[0]).0;
      IdOfLine(s, block[0], block[1..]);
      var heard := Listen(next, block[1..] + rest).1;
      assert [] + heard == heard;
      last := ListenToBlock(next, block[1..], rest);
      assert [block[0]] + block[1..] == block;
    }
  }

  lemma IdOfLine(s: Source, line: string, rest: seq<string>)
    requires line != ""
    ensures IdAfter([line] + rest, Some(s.idBuffer)) == IdAfter(rest, Some(StandardLine(s, line).0.idBuffer))
    ensures StandardLine(s, line).0.lastId == s.lastId && StandardLine(s, line).1 == []
  {
    hide FieldOf, DigitsValue, IsNumber, Values, Ids;
    if line[0] == ':' {
      SameValues(line, rest);
    } else {
      ValuesOf(line, rest, "id");
      IdsOf(FieldOf(line).1, Values(rest, "id"));
    }
  }

  /** An id that was never set and an empty one are the same to the standard. */
  lemma EmptyIsNone(block: seq<string>, id: Option<string>)
    ensures OrEmpty(IdAfter(block, Some(OrEmpty(id)))) == OrEmpty(IdAfter(block, id))
  {
    hide Values;
  }

  lemma {:induction false} StandardIdAtBlank(s: Source, lines: seq<string>, id: Option<string>)
    requires s.idBuffer == OrEmpty(id)
    ensures Listen(s, lines).0.lastId == if "" in lines then OrEmpty(IdAtBlank(lines, id)) else s.lastId
    decreases |lines|
  {
    hide IdAfter, StandardLine, Values;
    if "" in lines {
      var block, rest := First(lines), Rest(lines);
      BlockAndRest(lines, "id");
      assert lines == block + ([""] + rest) && ([""] + rest)[1..] == rest;
      var next := ListenToBlock(s, block, [""] + rest);
      EmptyIsNone(block, id);
      Dispatched(next, rest);
      StandardIdAtBlank(StandardDispatch(next).0, rest, IdAfter(block, id));
    } else {
      var next := ListenToBlock(s, lines, []);
      assert lines + [] == lines;
    }
  }

  lemma Dispatched(s: Source, rest: seq<string>)
    ensures Listen(s, [""] + rest).0 == Listen(StandardDispatch(s).0, rest).0
    ensures StandardDispatch(s).0.lastId == s.idBuffer == StandardDispatch(s).0.idBuffer
  {
    assert ([""] + rest)[1..] == rest;
  }

  lemma {:induction false} SentOfHalfReceived(lines: seq<string>, id: Option<string>, known: Option<string>)
    requires (id.None? ==> known.None?) && HasData(LastBlock(lines))
    ensures Reconnect.LastId(SseWorker.Events(Blocks(lines, id)), SseWorker.IdOf, known)
         == Or(IdAfter(LastBlock(lines), IdAtBlank(lines, id)), known)
    decreases |lines|
  {
    hide IdAfter, Values, HasData, LastBlock, Blocks, Reconnect.LastId, First;
    if "" in lines {
      var next := IdAfter(First(lines), id);
      SentStep(lines, id, known);
      LastBlockOfRest(lines);
      IdIsKept(First(lines), id);
      SentOfHalfReceived(Rest(lines), next, if HasData(First(lines)) then next else known);
      IdAtBlankIsKept(Rest(lines), next);
      IdIsKept(LastBlock(lines), IdAtBlank(lines, id));
    } else {
      SentOfLast(lines, id, known);
    }
  }

  lemma SentOfLast(lines: seq<string>, id: Option<string>, known: Option<string>)
    requires "" !in lines && HasData(LastBlock(lines))
    ensures Reconnect.LastId(SseWorker.Events(Blocks(lines, id)), SseWorker.IdOf, known)
         == Or(IdAfter(LastBlock(lines), id), known)
  {
    hide IdAfter, Values, Reconnect.LastId;
    OneEvent(Blocks(lines, id), known);
  }

  function Or(a: Option<string>, b: Option<string>): Option<string> {
    if a.Some? then a else b
  }

  lemma {:induction false} IdAtBlankIsKept(lines: seq<string>, id: Option<string>)
    ensures IdAtBlank(lines, id).None? ==> id.None?
    decreases |lines|
  {
    hide IdAfter;
    if "" in lines {
      IdIsKept(First(lines), id);
      IdAtBlankIsKept(Rest(lines), IdAfter(First(lines), id));
    }
  }

  /** The id that the worker sends with its next request, when it knew an id before this connection. */
  function SentId(texts: seq<string>, known: Option<string>): Option<string> {
    Reconnect.LastId(SseWorker.Events(Blocks(texts, None)), SseWorker.IdOf, known)
  }

  lemma {:induction false} KnownIsForNone(messages: seq<SseWorker.Message>, known: Option<string>)
    ensures Reconnect.LastId(messages, SseWorker.IdOf, known)
         == Or(Reconnect.LastId(messages, SseWorker.IdOf, None), known)
  {
    if messages != [] {
      KnownIsForNone(messages[..|messages| - 1], known);
    }
  }

  /** The ids that one of the two applies and the other does not: of the half-received event, or since the last one. */
  function LateIds(texts: seq<string>): seq<string> {
    Ids(Values(if HasData(LastBlock(texts)) then LastBlock(texts) else Since(texts), "id"))
  }

  /** The id before those. */
  function EarlyId(texts: seq<string>, known: Option<string>): Option<string> {
    if !HasData(LastBlock(texts)) then Or(IdAtEvent(texts, None, None), known)
    else if "" in texts then IdAtBlank(texts, None)
    else known
  }

  lemma SentIs(texts: seq<string>, known: Option<string>)
    ensures SentId(texts, known)
         == Or(if HasData(LastBlock(texts)) then IdAfter(LastBlock(texts), IdAtBlank(texts, None))
               else IdAtEvent(texts, None, None), known)
  {
    hide Blocks, IdAfter, LastBlock, IdAtEvent, IdAtBlank, HasData;
    KnownIsForNone(SseWorker.Events(Blocks(texts, None)), known);
    if HasData(LastBlock(texts)) {
      SentOfHalfReceived(texts, None, None);
    } else {
      SentIsIdAtEvent(texts, None, None);
    }
  }

  lemma KeptIs(lines: seq<string>, known: Option<string>, delay: nat)
    requires Ordinary(lines)
    ensures var texts := WithoutBom(lines);
      Hear(lines, OrEmpty(known), delay).0.lastId == OrEmpty(if "" in texts then IdAtBlank(texts, None) else known)
  {
    hide Ordinary, WithoutBom, Listen, IdAtBlank;
    OrdinaryLines(lines);
    StandardIdAtBlank(Source("", "", "", OrEmpty(known), delay), WithoutBom(lines), None);
  }

  lemma AfterIds(block: seq<string>, id: Option<string>)
    ensures var ids := Ids(Values(block, "id")); IdAfter(block, id) == if ids == [] then id else Some(ids[|ids| - 1])
  {
  }

  lemma WithoutBlank(texts: seq<string>)
    requires "" !in texts
    ensures IdAtBlank(texts, None) == None && IdAtEvent(texts, None, None) == None && Since(texts) == []
    ensures Ids(Values([], "id")) == []
  {
  }

  /**
   * Main result, for every connection, wherever it breaks, and every id known before it: the worker sends the id of
   * the last event that it dispatches, the half-received one too, and else the id it knew; the standard keeps the id
   * at the last blank line. They are the same if and only if the last id of the half-received event, or in blocks
   * without data since the last event, is the one before it; when there is none, unless a blank line made the
   * standard forget an id that the worker still knows.
   */
  lemma IdAsTheStandardKeeps(lines: seq<string>, known: Option<string>, delay: nat)
    requires Ordinary(lines)
    ensures var texts := WithoutBom(lines); var atBlank := IdAtBlank(texts, None);
      && SentId(texts, known) == Or(if HasData(LastBlock(texts)) then IdAfter(LastBlock(texts), atBlank)
                                    else IdAtEvent(texts, None, None), known)
      && Hear(lines, OrEmpty(known), delay).0.lastId == OrEmpty(if "" in texts then atBlank else known)
      && atBlank == IdAfter(Since(texts), IdAtEvent(texts, None, None))
    ensures var texts := WithoutBom(lines); var ids := LateIds(texts);
      OrEmpty(SentId(texts, known)) == Hear(lines, OrEmpty(known), delay).0.lastId
      <==> if ids != [] then ids[|ids| - 1] == OrEmpty(EarlyId(texts, known))
           else !("" in texts && IdAtBlank(texts, None).None? && OrEmpty(known) != "")
  {
    hide Ordinary, WithoutBom, Hear, SentId, IdAtBlank, IdAtEvent, IdAfter, LastBlock, HasData, Since, Ids, Values;
    var texts := WithoutBom(lines);
    SentIs(texts, known);
    KeptIs(lines, known, delay);
    IdSinceLastEvent(texts, None);
    AfterIds(LastBlock(texts), IdAtBlank(texts, None));
    AfterIds(Since(texts), IdAtEvent(texts, None, None));
    if "" !in texts {
      WithoutBlank(texts);
    }
  }

  lemma LineIs(line: string, name: string, value: string)
    requires line == name + ":" + value && name != "" && ':' !in name && !(" " <= value)
    ensures FieldOf(line) == (name, value) && line != "" && line[0] != ':'
  {
    SplitOnceAt(name, ':', value);
  }

  lemma ValuesOfLine(line: string, rest: seq<string>, name: string, value: string, asked: string)
    requires line == name + ":" + value && name != "" && ':' !in name && !(" " <= value)
    ensures Values([line] + rest, asked) == (if asked == name then [value] else []) + Values(rest, asked)
  {
    hide FieldOf;
    LineIs(line, name, value);
    assert ([line] + rest)[1..] == rest;
  }

  lemma ValuesOfOne(line: string, name: string, value: string, asked: string)
    requires line == name + ":" + value && name != "" && ':' !in name && !(" " <= value)
    ensures Values([line], asked) == if asked == name then [value] else []
  {
    ValuesOfLine(line, [], name, value, asked);
    assert [line] + [] == [line];
  }

  lemma BlankIsAt(lines: seq<string>, n: nat)
    requires n < |lines| && lines[n] == "" && "" !in lines[..n]
    ensures "" in lines && First(lines) == lines[..n] && Rest(lines) == lines[n + 1..]
    ensures LastBlock(lines) == LastBlock(lines[n + 1..])
  {
    assert lines[n] in lines;
    BlankAtIs(lines, n);
    hide LastBlock, BlankAt;
    LastBlockOfRest(lines);
  }

  lemma {:induction false} BlankAtIs(lines: seq<string>, n: nat)
    requires n < |lines| && lines[n] == "" && "" !in lines[..n]
    ensures BlankAt(lines) == Some(n)
  {
    if n > 0 {
      assert lines[0] == lines[..n][0] && lines[..n][1..] == lines[1..][..n - 1];
      BlankAtIs(lines[1..], n - 1);
    }
  }

  lemma IdOf(value: string)
    requires '\0' !in value
    ensures Ids([value]) == [value]
  {
    assert [value][1..] == [];
  }

  /** A block of an id and data. */
  lemma IdAndData(id: string, data: string)
    requires '\0' !in id && !(" " <= id) && !(" " <= data)
    ensures HasData(Block(id, data))
    ensures forall before :: IdAfter(Block(id, data), before) == Some(id)
  {
    hide Values, Ids;
    var idLine, dataLine := "id:" + id, "data:" + data;
    assert idLine == "id" + ":" + id && dataLine == "data" + ":" + data;
    assert [idLine] + [dataLine] == [idLine, dataLine];
    ValuesOfLine(idLine, [dataLine], "id", id, "data");
    ValuesOfLine(idLine, [dataLine], "id", id, "id");
    ValuesOfOne(dataLine, "data", data, "data");
    ValuesOfOne(dataLine, "data", data, "id");
    assert [id] + [] == [id] && [] + [data] == [data];
    IdOf(id);
  }

  predicate Plain(value: string) {
    '\0' !in value && '\r' !in value && !(" " <= value)
  }

  function Block(id: string, data: string): seq<string> {
    ["id:" + id, "data:" + data]
  }

  lemma DataOf(first: seq<string>, last: seq<string>)
    requires Values(first, "data") == [] && Values(last, "data") != []
    ensures !HasData(first) && HasData(last)
  {
    hide Values;
  }

  /** Every connection that ends inside its second event: the next request skips that event. */
  lemma HalfReceivedIdIsSent(id: string, data: string, nextId: string, nextData: string, delay: nat)
    requires Plain(id) && Plain(data) && Plain(nextId) && Plain(nextData)
    ensures var lines := Block(id, data) + [""] + Block(nextId, nextData);
      SentId(WithoutBom(lines), None) == Some(nextId) && Hear(lines, "", delay).0.lastId == id
  {
    hide *;
    var block, last := Block(id, data), Block(nextId, nextData);
    var lines := block + [""] + last;
    BlockIsOrdinary(id, data);
    BlockIsOrdinary(nextId, nextData);
    OrdinaryTogether(block, last);
    IdAsTheStandardKeeps(lines, None, delay);
    BlankIsAt(lines, 2);
    assert lines[..2] == block && lines[3..] == last && lines[2] == "";
    IdAndData(id, data);
    IdAndData(nextId, nextData);
    NoBlankLeft(last, Some(id));
    OneBlank(lines, None);
    OfSome(id, nextId);
  }

  lemma OfSome(id: string, nextId: string)
    ensures OrEmpty(None) == "" && OrEmpty(Some(id)) == id && Or(Some(nextId), None) == Some(nextId)
  {
  }

  lemma BlockIsOrdinary(id: string, data: string)
    requires Plain(id) && Plain(data)
    ensures |Block(id, data)| == 2 && "" !in Block(id, data) && (forall line <- Block(id, data) :: '\r' !in line)
    ensures Block(id, data)[0] != "" && Block(id, data)[0][0] != BOM
    ensures '\0' !in id && !(" " <= id) && !(" " <= data)
  {
  }

  lemma OrdinaryTogether(block: seq<string>, last: seq<string>)
    requires (forall line <- block + last :: '\r' !in line) && block != [] && block[0] != "" && block[0][0] != BOM
    ensures Ordinary(block + [""] + last) && WithoutBom(block + [""] + last) == block + [""] + last
  {
    var lines := block + [""] + last;
    assert forall line <- lines :: line == "" || line in block + last;
    assert TrimBoms(lines[0]) == lines[0] && [lines[0]] + lines[1..] == lines;
  }

  lemma NoBlankLeft(lines: seq<string>, id: Option<string>)
    requires "" !in lines
    ensures LastBlock(lines) == lines && IdAtBlank(lines, id) == id
  {
  }

  lemma OneBlank(lines: seq<string>, id: Option<string>)
    requires "" in lines
    ensures IdAtBlank(lines, id) == IdAtBlank(Rest(lines), IdAfter(First(lines), id))
  {
    hide IdAfter, First, Rest;
  }

  /** A connection with an event but no id: the worker sends the id of an earlier one again, the standard none. */
  lemma EarlierIdIsSentAgain(id: string, data: string, delay: nat)
    requires Plain(data)
    ensures var lines := ["data:" + data] + [""] + [];
      SentId(WithoutBom(lines), Some(id)) == Some(id) && Hear(lines, id, delay).0.lastId == ""
  {
    hide *;
    var line := "data" + ":" + data;
    assert "data:" + data == line;
    var lines := [line] + [""] + [];
    DataIsOrdinary(data);
    OrdinaryTogether([line], []);
    IdAsTheStandardKeeps(lines, Some(id), delay);
    BlankIsAt(lines, 1);
    assert lines[..1] == [line] && lines[2..] == [];
    ValuesOfOne(line, "data", data, "data");
    ValuesOfOne(line, "data", data, "id");
    DataOf([], [line]);
    NothingKnown(lines);
    NoBlankLeft([], None);
    OfSome(id, id);
    assert Or(None, Some(id)) == Some(id) by { OrNone(id); }
  }

  lemma OrNone(id: string)
    ensures Or(None, Some(id)) == Some(id)
  {
  }

  lemma DataIsOrdinary(data: string)
    requires Plain(data)
    ensures ("data:" + data)[0] != BOM && !(" " <= data) && '\r' !in "data:" + data && "data:" + data != ""
    ensures Values([], "data") == []
  {
  }

  lemma NothingKnown(lines: seq<string>)
    requires "" in lines && Rest(lines) == [] && Values(First(lines), "id") == []
    ensures IdAtBlank(lines, None) == None && IdAtEvent(lines, None, None) == None
  {
    hide Values, First, HasData;
    assert IdAfter(First(lines), None) == None;
  }

  // ----- The reconnection time -----

  function LastDelay(delays: seq<nat>, before: nat): nat {
    if delays == [] then before else delays[|delays| - 1]
  }

  /** The lines of the blocks that have data. */
  function DataLines(lines: seq<string>): seq<string>
    decreases |lines|
  {
    if "" !in lines then (if HasData(lines) then lines else [])
    else (if HasData(First(lines)) then First(lines) else []) + DataLines(Rest(lines))
  }

  /** The delays that the standard reads. */
  function StandardDelays(values: seq<string>): seq<nat> {
    if values == [] then []
    else
      (if IsNumber(values[0]) && DigitsValue(values[0]).Some? then [DigitsValue(values[0]).value] else [])
      + StandardDelays(values[1..])
  }

  lemma {:induction false} DelaysConcat(a: seq<string>, b: seq<string>)
    ensures Delays(a + b) == Delays(a) + Delays(b)
  {
    hide ParseU64;
    if a == [] {
      assert a + b == b;
    } else {
      assert (a + b)[1..] == a[1..] + b;
      DelaysConcat(a[1..], b);
    }
  }

  lemma LastDelayOfBoth(a: seq<nat>, b: seq<nat>, before: nat)
    ensures LastDelay(a + b, before) == LastDelay(b, LastDelay(a, before))
  {
  }

  lemma BlockDelay(block: seq<string>, id: Option<string>, before: nat)
    ensures SseWorker.DelayFrom(BlockEvent(block, id), before)
         == if HasData(block) then LastDelay(Delays(Values(block, "retry")), before) else before
  {
    hide Values, Delays, Join, IdAfter;
    var event := BlockEvent(block, id);
    if HasData(block) {
      assert event[..0] == [];
    }
  }

  lemma {:induction false} DelayOfDataBlocks(lines: seq<string>, id: Option<string>, before: nat)
    ensures SseWorker.DelayFrom(Blocks(lines, id), before)
         == LastDelay(Delays(Values(DataLines(lines), "retry")), before)
    decreases |lines|
  {
    hide Values, Delays, BlockEvent, IdAfter, SseWorker.DelayFrom, LastDelay;
    NoDelay(before);
    if "" in lines {
      var block, rest, next := First(lines), Rest(lines), IdAfter(First(lines), id);
      BlockDelay(block, id, before);
      SseWorker.DelayConcat(BlockEvent(block, id), Blocks(rest, next), before);
      var part := if HasData(block) then block else [];
      DelayOfDataBlocks(rest, next, SseWorker.DelayFrom(BlockEvent(block, id), before));
      ValuesConcat(part, DataLines(rest), "retry");
      DelaysConcat(Values(part, "retry"), Values(DataLines(rest), "retry"));
      LastDelayOfBoth(Delays(Values(part, "retry")), Delays(Values(DataLines(rest), "retry")), before);
    } else {
      BlockDelay(lines, id, before);
    }
  }

  lemma NoDelay(before: nat)
    ensures LastDelay(Delays(Values([], "retry")), before) == before
  {
  }

  lemma {:induction false} StandardDelayIsLast(s: Source, lines: seq<string>)
    ensures Listen(s, lines).0.delay == LastDelay(StandardDelays(Values(lines, "retry")), s.delay)
    decreases |lines|
  {
    hide DigitsValue, IsNumber, FieldOf;
    if lines != [] {
      var next := StandardLine(s, lines[0]).0;
      StandardDelayIsLast(next, lines[1..]);
      var values := Values(lines[1..], "retry");
      if lines[0] != "" && lines[0][0] != ':' && FieldOf(lines[0]).0 == "retry" {
        var value := FieldOf(lines[0]).1;
        assert ([value] + values)[1..] == values;
        LastDelayOfBoth(StandardDelays([value]), StandardDelays(values), s.delay);
        assert [value][1..] == [];
      } else {
        assert [] + values == values;
      }
    }
  }

  lemma {:induction false} SameDelays(values: seq<string>)
    requires forall value <- values :: IsNumber(value) <==> ParseU64(value).Some?
    ensures StandardDelays(values) == Delays(values)
  {
    if values != [] {
      assert values[0] in values;
      SameDelays(values[1..]);
      OneDelay(values[0]);
    }
  }

  lemma OneDelay(value: string)
    requires IsNumber(value) <==> ParseU64(value).Some?
    ensures IsNumber(value) ==> DigitsValue(value).Some? && ParseU64(value) == DigitsValue(value)
  {
    if IsNumber(value) {
      assert value[0] in value;
    }
  }

  /** The delay that the worker keeps of a connection; it starts each one anew. */
  function KeptDelay(texts: seq<string>): nat {
    SseWorker.DelayFrom(Blocks(texts, None), SseWorker.DEFAULT_DELAY)
  }

  /**
   * Main result: the delay that the worker keeps is the last one in a block with data of this connection, the
   * standard's the last one at all; they are the same if and only if these two are, the worker starting with its own
   * delay and the standard with the one it had.
   */
  lemma DelayAsTheStandardKeeps(lines: seq<string>, lastId: string, delay: nat)
    requires Ordinary(lines)
    ensures var texts := WithoutBom(lines);
      && KeptDelay(texts) == LastDelay(Delays(Values(DataLines(texts), "retry")), SseWorker.DEFAULT_DELAY)
      && Hear(lines, lastId, delay).0.delay == LastDelay(StandardDelays(Values(texts, "retry")), delay)
    ensures var texts := WithoutBom(lines);
      KeptDelay(texts) == Hear(lines, lastId, delay).0.delay
      <==> LastDelay(Delays(Values(DataLines(texts), "retry")), SseWorker.DEFAULT_DELAY)
           == LastDelay(StandardDelays(Values(texts, "retry")), delay)
  {
    hide Ordinary, WithoutBom, Listen, Values, StandardDelays, Delays, DataLines, Blocks, SseWorker.DelayFrom;
    var texts := WithoutBom(lines);
    OrdinaryLines(lines);
    StandardDelayIsLast(Source("", "", "", lastId, delay), texts);
    DelayOfDataBlocks(texts, None, SseWorker.DEFAULT_DELAY);
  }

  /**
   * When all delays stand in blocks with data and are plain numbers that fit, both are the same if and only if there
   * is one, or the standard had the worker's delay already.
   */
  lemma PlainDelaysAreKept(lines: seq<string>, lastId: string, delay: nat)
    requires Ordinary(lines) && Values(DataLines(WithoutBom(lines)), "retry") == Values(WithoutBom(lines), "retry")
    requires forall value <- Values(WithoutBom(lines), "retry") :: IsNumber(value) <==> ParseU64(value).Some?
    ensures KeptDelay(WithoutBom(lines)) == Hear(lines, lastId, delay).0.delay
       <==> Delays(Values(WithoutBom(lines), "retry")) != [] || delay == SseWorker.DEFAULT_DELAY
  {
    hide Ordinary, WithoutBom, Hear, Values, StandardDelays, Delays, DataLines, ParseU64, IsNumber, KeptDelay;
    DelayAsTheStandardKeeps(lines, lastId, delay);
    SameDelays(Values(WithoutBom(lines), "retry"));
  }

  lemma {:induction false} NumbersHaveValues(value: string)
    requires forall c <- value :: '0' <= c <= '9'
    ensures DigitsValue(value).Some?
  {
    if value != "" {
      var high := value[..|value| - 1];
      forall c | c in high ensures '0' <= c <= '9' {
        assert c in value;
      }
      assert value[|value| - 1] in value;
      NumbersHaveValues(value[..|value| - 1]);
    }
  }

  lemma RetryIsOrdinary(value: string, data: string)
    requires IsNumber(value) && Plain(data)
    ensures ("retry:" + value)[0] != BOM && !(" " <= value) && !(" " <= data) && DigitsValue(value).Some?
    ensures forall line <- ["retry:" + value] + ["data:" + data] :: '\r' !in line && line != ""
  {
    NumbersHaveValues(value);
    assert value[0] in value;
  }

  lemma DataLinesOfTwo(lines: seq<string>)
    requires "" in lines && !HasData(First(lines)) && "" !in Rest(lines) && HasData(Rest(lines))
    ensures DataLines(lines) == Rest(lines)
  {
    hide HasData, First, Rest;
    assert [] + Rest(lines) == Rest(lines);
  }

  lemma OneStandardDelay(value: string, delay: nat)
    requires IsNumber(value) && DigitsValue(value).Some?
    ensures LastDelay(StandardDelays([value] + []), delay) == DigitsValue(value).value
    ensures LastDelay(Delays([]), delay) == delay
  {
    hide IsNumber, DigitsValue;
    assert [value] + [] == [value] && [value][1..] == [];
  }

  /** Every delay in a block without data is lost. */
  lemma RetryWithoutDataIsLost(value: string, data: string, lastId: string, delay: nat)
    requires IsNumber(value) && Plain(data)
    ensures var lines := ["retry:" + value] + [""] + ["data:" + data];
      KeptDelay(WithoutBom(lines)) == SseWorker.DEFAULT_DELAY
      && DigitsValue(value).Some? && Hear(lines, lastId, delay).0.delay == DigitsValue(value).value
  {
    hide *;
    var first, last := "retry" + ":" + value, "data" + ":" + data;
    assert "retry:" + value == first && "data:" + data == last;
    var lines := [first] + [""] + [last];
    RetryIsOrdinary(value, data);
    OrdinaryTogether([first], [last]);
    DelayAsTheStandardKeeps(lines, lastId, delay);
    BlankIsAt(lines, 1);
    assert lines[..1] == [first] && lines[2..] == [last];
    ValuesOfOne(first, "retry", value, "data");
    ValuesOfOne(first, "retry", value, "retry");
    ValuesOfOne(last, "data", data, "data");
    ValuesOfOne(last, "data", data, "retry");
    assert !HasData([first]) && HasData([last]) by { DataOf([first], [last]); }
    DataLinesOfTwo(lines);
    BlockAndRest(lines, "retry");
    OneStandardDelay(value, delay);
    OneStandardDelay(value, SseWorker.DEFAULT_DELAY);
  }

  // ----- The worker -----

  /** These are the id and the delay that the worker goes on with after a connection that it read to its end. */
  lemma WorkerGoesOnWith(status: nat, chunks: seq<seq<Byte>>, waiting: bool, decode: Decoder, known: Option<string>)
    requires Decoded(AllLines(Concat(chunks)), decode).Some?
    ensures var texts := WithoutBom(Decoded(AllLines(Concat(chunks)), decode).value);
      var visit := SseWorker.VisitOf(SseWorker.Streaming(status, chunks, SseWorker.Eof, waiting), decode);
      Reconnect.LastId(visit.messages, SseWorker.IdOf, known) == SentId(texts, known)
      && visit.verdict.Retry? && visit.verdict.delayMs == KeptDelay(texts)
  {
    hide SseWorker.VisitOf, ParseSse, AllLines, Decoded, WithoutBom, Blocks, SseWorker.DelayFrom;
    ParsingReadsBlocks(decode, Concat(chunks));
    SseWorker.ForwardsTheWholeStream(status, chunks, waiting, decode);
    var greeting, events := [SseWorker.Connected(status)], ParseSse(decode, Concat(chunks)).value;
    SseWorker.LastIdConcat(greeting, SseWorker.Events(events), known);
    assert greeting[..0] == [];
  }
}
