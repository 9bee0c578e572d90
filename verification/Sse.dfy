/** The incremental Server-Sent Events parser. */
module Sse {
  import opened Wrappers
  import opened Text

  newtype Byte = b: int | 0 <= b < 256

  const NEWLINE: Byte := 10
  const RETURN: Byte := 13
  const BOM := '\U{FEFF}'

  /** How a line of bytes becomes text; nothing when it is not valid UTF-8. */
  type Decoder = seq<Byte> -> Option<string>

  datatype SseError = InvalidUtf8(line: seq<Byte>)

  datatype SseEvent = SseEvent(id: Option<string>, event: Option<string>, data: string, retryMs: Option<nat>)

  // ----- One line -----

  /** What the lines read so far have set. */
  datatype Fields = Fields(id: Option<string>, event: Option<string>, data: seq<string>, retryMs: Option<nat>,
      sawBom: bool)

  const NO_FIELDS := Fields(None, None, [], None, false)

  function TrimBoms(line: string): string {
    if line != "" && line[0] == BOM then TrimBoms(line[1..]) else line
  }

  /** Decimal digits read as a number. */
  function DigitsValue(s: string): Option<nat> {
    if s == "" then Some(0)
    else
      match DigitsValue(s[..|s| - 1])
      case None => None
      case Some(high) =>
        if '0' <= s[|s| - 1] <= '9' then Some(10 * high + (s[|s| - 1] as int - '0' as int)) else None
  }

  /** `str::parse::<u64>`: an optional plus sign, at least one digit, and no overflow. */
  function ParseU64(s: string): Option<nat> {
    var digits := if s != "" && s[0] == '+' then s[1..] else s;
    if digits == "" then None
    else
      match DigitsValue(digits)
      case Some(n) => if n < 0x1_0000_0000_0000_0000 then Some(n) else None
      case None => None
  }

  /** The field name and value of a line. */
  function FieldOf(line: string): (string, string) {
    match SplitOnce(line, ':')
    case None => (line, "")
    case Some((name, value)) => (name, if value != "" && value[0] == ' ' then value[1..] else value)
  }

  function SetField(st: Fields, name: string, value: string): Fields {
    if name == "data" then st.(data := st.data + [value])
    else if name == "event" then st.(event := Some(value))
    else if name == "id" && '\0' !in value then st.(id := Some(value))
    else if name == "retry" && ParseU64(value).Some? then st.(retryMs := ParseU64(value))
    else st
  }

  function Dispatch(st: Fields): (Fields, seq<SseEvent>) {
    (st.(event := None, data := [], retryMs := None),
     if st.data == [] then [] else [SseEvent(st.id, st.event, Join(st.data, "\n"), st.retryMs)])
  }

  function ProcessLine(st: Fields, line0: string): (Fields, seq<SseEvent>) {
    var line := if st.sawBom then line0 else TrimBoms(line0);
    var next := st.(sawBom := true);
    if line == "" then Dispatch(next)
    else if line[0] == ':' then (next, [])
    else var (name, value) := FieldOf(line); (SetField(next, name, value), [])
  }

  // ----- Bytes -----

  function NewlineAt(bytes: seq<Byte>): (r: Option<nat>)
    ensures r.None? <==> NEWLINE !in bytes
    ensures r.Some? ==> r.value < |bytes| && bytes[r.value] == NEWLINE && NEWLINE !in bytes[..r.value]
  {
    if bytes == [] then None
    else if bytes[0] == NEWLINE then Some(0)
    else
      match NewlineAt(bytes[1..])
      case None => None
      case Some(i) =>
        assert bytes[..i + 1] == [bytes[0]] + bytes[1..][..i];
        Some(i + 1)
  }

  /** A line without its carriage return. */
  function Chomp(line: seq<Byte>): seq<Byte> {
    if line != [] && line[|line| - 1] == RETURN then line[..|line| - 1] else line
  }

  datatype Parser = Parser(buffer: seq<Byte>, fields: Fields)

  /** Process the complete lines of the buffer; a line that cannot be decoded is dropped and stops the work. */
  function Drain(p: Parser, decode: Decoder, events: seq<SseEvent>): (Parser, Result<seq<SseEvent>, SseError>)
    decreases |p.buffer|
  {
    match NewlineAt(p.buffer)
    case None => (p, Ok(events))
    case Some(n) =>
      var line, rest := Chomp(p.buffer[..n]), p.buffer[n + 1..];
      match decode(line)
      case None => (Parser(rest, p.fields), Err(InvalidUtf8(line)))
      case Some(text) =>
        var (fields, more) := ProcessLine(p.fields, text);
        Drain(Parser(rest, fields), decode, events + more)
  }

  function Feed(p: Parser, decode: Decoder, bytes: seq<Byte>): (Parser, Result<seq<SseEvent>, SseError>) {
    Drain(p.(buffer := p.buffer + bytes), decode, [])
  }

  function Finish(p: Parser, decode: Decoder): (Parser, Result<seq<SseEvent>, SseError>) {
    if p.buffer == [] then
      var (fields, events) := Dispatch(p.fields);
      (Parser([], fields), Ok(events))
    else
      match decode(p.buffer)
      case None => (Parser([], p.fields), Err(InvalidUtf8(p.buffer)))
      case Some(text) =>
        var (fields, events) := ProcessLine(p.fields, text);
        var (last, more) := Dispatch(fields);
        (Parser([], last), Ok(events + more))
  }

  function ParseSse(decode: Decoder, input: seq<Byte>): Result<seq<SseEvent>, SseError> {
    match Feed(Parser([], NO_FIELDS), decode, input)
    case (_, Err(e)) => Err(e)
    case (p, Ok(events)) =>
      match Finish(p, decode)
      case (_, Err(e)) => Err(e)
      case (_, Ok(more)) => Ok(events + more)
  }

  class SseParser {
    const decode: Decoder
    var buffer: seq<Byte>
    var currentId: Option<string>
    var currentEvent: Option<string>
    var currentData: seq<string>
    var currentRetryMs: Option<nat>
    var sawBom: bool

    constructor (decode: Decoder)
      ensures View() == Parser([], NO_FIELDS) && this.decode == decode
    {
      this.decode := decode;
      buffer, currentId, currentEvent, currentData, currentRetryMs, sawBom := [], None, None, [], None, false;
    }

    function FieldsView(): Fields
      reads this
    {
      Fields(currentId, currentEvent, currentData, currentRetryMs, sawBom)
    }

    function View(): Parser
      reads this
    {
      Parser(buffer, FieldsView())
    }

    method FeedBytes(bytes: seq<Byte>) returns (r: Result<seq<SseEvent>, SseError>)
      modifies this
      ensures (View(), r) == Feed(old(View()), decode, bytes)
    {
      buffer := buffer + bytes;
      var events: seq<SseEvent> := [];
      ghost var start := View();
      while NewlineAt(buffer).Some?
        invariant Drain(View(), decode, events) == Drain(start, decode, [])
        decreases |buffer|
      {
        var newline := NewlineAt(buffer).value;
        var line := buffer[..newline];
        buffer := buffer[newline + 1..];
        if line != [] && line[|line| - 1] == RETURN {
          line := line[..|line| - 1];
        }
        var text := decode(line);
        if text.None? {
          return Err(InvalidUtf8(line));
        }
        var more := Process(text.value);
        events := events + more;
      }
      return Ok(events);
    }

    method FinishStream() returns (r: Result<seq<SseEvent>, SseError>)
      modifies this
      ensures (View(), r) == Finish(old(View()), decode)
    {
      var events: seq<SseEvent> := [];
      if buffer != [] {
        var line := buffer;
        buffer := [];
        var text := decode(line);
        if text.None? {
          return Err(InvalidUtf8(line));
        }
        events := Process(text.value);
      }
      var more := DispatchEvent();
      assert [] + more == more;
      return Ok(events + more);
    }

    method Process(line0: string) returns (events: seq<SseEvent>)
      modifies this`currentId, this`currentEvent, this`currentData, this`currentRetryMs, this`sawBom
      ensures (FieldsView(), events) == ProcessLine(old(FieldsView()), line0)
    {
      var line := line0;
      if !sawBom {
        sawBom := true;
        line := TrimBoms(line);
      }
      if line == "" {
        events := DispatchEvent();
        return;
      }
      events := [];
      if line[0] == ':' {
        return;
      }
      var (field, value) := FieldOf(line);
      if field == "data" {
        currentData := currentData + [value];
      } else if field == "event" {
        currentEvent := Some(value);
      } else if field == "id" && '\0' !in value {
        currentId := Some(value);
      } else if field == "retry" && ParseU64(value).Some? {
        currentRetryMs := ParseU64(value);
      }
    }

    method DispatchEvent() returns (events: seq<SseEvent>)
      modifies this`currentEvent, this`currentData, this`currentRetryMs
      ensures (FieldsView(), events) == Dispatch(old(FieldsView()))
    {
      if currentData == [] {
        currentEvent, currentRetryMs := None, None;
        return [];
      }
      events := [SseEvent(currentId, currentEvent, Join(currentData, "\n"), currentRetryMs)];
      currentEvent, currentData, currentRetryMs := None, [], None;
    }
  }
}

module SseTheorems {
  import opened Wrappers
  import opened Text
  import opened Sse

  // ----- Chunk boundaries do not matter -----

  lemma NewlineInPrefix(bytes: seq<Byte>, extra: seq<Byte>)
    requires NEWLINE in bytes
    ensures NewlineAt(bytes + extra) == NewlineAt(bytes)
  {
    if bytes[0] != NEWLINE {
      assert (bytes + extra)[1..] == bytes[1..] + extra;
      NewlineInPrefix(bytes[1..], extra);
    }
  }

  /** Draining a longer buffer first does all that draining the shorter one does, errors included. */
  lemma {:induction false} DrainAppend(p: Parser, decode: Decoder, extra: seq<Byte>, events: seq<SseEvent>)
    ensures Drain(p.(buffer := p.buffer + extra), decode, events)
         == match Drain(p, decode, events)
            case (q, Ok(done)) => Drain(q.(buffer := q.buffer + extra), decode, done)
            case (q, Err(e)) => (q.(buffer := q.buffer + extra), Err(e))
    decreases |p.buffer|
  {
    if NEWLINE in p.buffer {
      NewlineInPrefix(p.buffer, extra);
      var n := NewlineAt(p.buffer).value;
      var whole := p.buffer + extra;
      assert whole[..n] == p.buffer[..n] && whole[n + 1..] == p.buffer[n + 1..] + extra;
      var text := decode(Chomp(p.buffer[..n]));
      if text.Some? {
        var (fields, more) := ProcessLine(p.fields, text.value);
        DrainAppend(Parser(p.buffer[n + 1..], fields), decode, extra, events + more);
      }
    }
  }

  lemma {:induction false} DrainPrepends(p: Parser, decode: Decoder, before: seq<SseEvent>, events: seq<SseEvent>)
    ensures Drain(p, decode, before + events)
         == match Drain(p, decode, events)
            case (q, Ok(done)) => (q, Ok(before + done))
            case (q, Err(e)) => (q, Err(e))
    decreases |p.buffer|
  {
    if NEWLINE in p.buffer {
      var n := NewlineAt(p.buffer).value;
      var text := decode(Chomp(p.buffer[..n]));
      if text.Some? {
        var (fields, more) := ProcessLine(p.fields, text.value);
        assert before + events + more == before + (events + more);
        DrainPrepends(Parser(p.buffer[n + 1..], fields), decode, before, events + more);
      }
    }
  }

  /** Feeding the pieces in turn, up to the first error. */
  function FeedAll(p: Parser, decode: Decoder, chunks: seq<seq<Byte>>): (Parser, Result<seq<SseEvent>, SseError>)
    decreases |chunks|
  {
    if chunks == [] then (p, Ok([]))
    else
      match Feed(p, decode, chunks[0])
      case (q, Err(e)) => (q, Err(e))
      case (q, Ok(events)) =>
        match FeedAll(q, decode, chunks[1..])
        case (last, Err(e)) => (last, Err(e))
        case (last, Ok(more)) => (last, Ok(events + more))
  }

  function Concat(chunks: seq<seq<Byte>>): seq<Byte> {
    if chunks == [] then [] else chunks[0] + Concat(chunks[1..])
  }

  function AfterLastNewline(bytes: seq<Byte>): seq<Byte>
    decreases |bytes|
  {
    match NewlineAt(bytes) case None => bytes case Some(n) => AfterLastNewline(bytes[n + 1..])
  }

  lemma {:induction false} DrainLeavesTail(p: Parser, decode: Decoder, events: seq<SseEvent>)
    ensures Drain(p, decode, events).1.Ok? ==>
      NEWLINE !in Drain(p, decode, events).0.buffer && Drain(p, decode, events).0.buffer == AfterLastNewline(p.buffer)
    decreases |p.buffer|
  {
    if NEWLINE in p.buffer {
      var n := NewlineAt(p.buffer).value;
      var text := decode(Chomp(p.buffer[..n]));
      if text.Some? {
        var (fields, more) := ProcessLine(p.fields, text.value);
        DrainLeavesTail(Parser(p.buffer[n + 1..], fields), decode, events + more);
      }
    }
  }

  lemma FeedTwice(p: Parser, decode: Decoder, first: seq<Byte>, second: seq<Byte>)
    ensures Feed(p, decode, first + second)
         == match Feed(p, decode, first)
            case (q, Err(e)) => (q.(buffer := q.buffer + second), Err(e))
            case (q, Ok(events)) =>
              match Feed(q, decode, second)
              case (last, Err(e)) => (last, Err(e))
              case (last, Ok(more)) => (last, Ok(events + more))
  {
    hide Drain;
    assert p.buffer + (first + second) == p.buffer + first + second;
    DrainAppend(p.(buffer := p.buffer + first), decode, second, []);
    match Feed(p, decode, first) {
      case (q, Ok(events)) =>
        assert events + [] == events;
        DrainPrepends(q.(buffer := q.buffer + second), decode, events, []);
      case (q, Err(e)) =>
    }
  }

  /**
   * Main result: however a stream is cut, feeding the pieces succeeds exactly when feeding the whole
   * does; then the events and the parser are the same and the buffer holds what follows the last
   * newline, and otherwise the error and the fields are the same.
   */
  lemma {:induction false} ChunksDoNotMatter(p: Parser, decode: Decoder, chunks: seq<seq<Byte>>)
    requires NEWLINE !in p.buffer
    ensures var whole, pieces := Feed(p, decode, Concat(chunks)), FeedAll(p, decode, chunks);
      && whole.1 == pieces.1 && whole.0.fields == pieces.0.fields
      && (whole.1.Ok? ==> whole.0 == pieces.0 && NEWLINE !in whole.0.buffer
                          && whole.0.buffer == AfterLastNewline(p.buffer + Concat(chunks)))
    decreases |chunks|
  {
    DrainLeavesTail(p.(buffer := p.buffer + Concat(chunks)), decode, []);
    if chunks == [] {
      assert p.buffer + [] == p.buffer;
    } else {
      FeedTwice(p, decode, chunks[0], Concat(chunks[1..]));
      DrainLeavesTail(p.(buffer := p.buffer + chunks[0]), decode, []);
      if Feed(p, decode, chunks[0]).1.Ok? {
        ChunksDoNotMatter(Feed(p, decode, chunks[0]).0, decode, chunks[1..]);
      }
    }
  }

  // ----- The whole stream, described block by block -----

  /** The complete lines of a text, without their terminators. */
  function CompleteLines(bytes: seq<Byte>): seq<seq<Byte>>
    decreases |bytes|
  {
    match NewlineAt(bytes)
    case None => []
    case Some(n) => [Chomp(bytes[..n])] + CompleteLines(bytes[n + 1..])
  }

  /** All lines: an unterminated last line counts when it is not empty, and keeps a carriage return. */
  function AllLines(bytes: seq<Byte>): seq<seq<Byte>> {
    CompleteLines(bytes) + (if AfterLastNewline(bytes) == [] then [] else [AfterLastNewline(bytes)])
  }

  function Decoded(lines: seq<seq<Byte>>, decode: Decoder): Option<seq<string>> {
    if lines == [] then Some([])
    else
      match decode(lines[0])
      case None => None
      case Some(first) =>
        match Decoded(lines[1..], decode) case None => None case Some(rest) => Some([first] + rest)
  }

  /** Byte order marks are removed from the start of the first line only. */
  function WithoutBom(lines: seq<string>): seq<string> {
    if lines == [] then [] else [TrimBoms(lines[0])] + lines[1..]
  }

  /** The values of a field in a block of lines, in order; lines that start with a colon are comments. */
  function Values(block: seq<string>, name: string): seq<string> {
    if block == [] then []
    else
      (if block[0] != "" && block[0][0] != ':' && FieldOf(block[0]).0 == name then [FieldOf(block[0]).1] else [])
      + Values(block[1..], name)
  }

  function LastOf(values: seq<string>): Option<string> {
    if values == [] then None else Some(values[|values| - 1])
  }

  /** The values that may become an event id. */
  function Ids(values: seq<string>): seq<string> {
    if values == [] then [] else (if '\0' in values[0] then [] else [values[0]]) + Ids(values[1..])
  }

  /** The numbers that may become a retry delay. */
  function Delays(values: seq<string>): seq<nat> {
    if values == [] then []
    else (match ParseU64(values[0]) case Some(n) => [n] case None => []) + Delays(values[1..])
  }

  /** The last event id after a block: the last valid one in it, or the one before it. */
  function IdAfter(block: seq<string>, id: Option<string>): Option<string> {
    var ids := Ids(Values(block, "id"));
    if ids == [] then id else LastOf(ids)
  }

  /** The event of a block between blank lines: none without data, whatever else the block sets. */
  function BlockEvent(block: seq<string>, id: Option<string>): seq<SseEvent> {
    var data, delays := Values(block, "data"), Delays(Values(block, "retry"));
    if data == [] then []
    else
      [SseEvent(IdAfter(block, id), LastOf(Values(block, "event")), Join(data, "\n"),
                if delays == [] then None else Some(delays[|delays| - 1]))]
  }

  function BlankAt(lines: seq<string>): (r: Option<nat>)
    ensures r.None? <==> "" !in lines
    ensures r.Some? ==> r.value < |lines| && lines[r.value] == "" && "" !in lines[..r.value]
  {
    if lines == [] then None
    else if lines[0] == "" then Some(0)
    else
      match BlankAt(lines[1..])
      case None => None
      case Some(i) =>
        assert lines[..i + 1] == [lines[0]] + lines[1..][..i];
        Some(i + 1)
  }

  /** The events of a stream: those of its blocks, the id being carried from block to block. */
  function Blocks(lines: seq<string>, id: Option<string>): seq<SseEvent>
    decreases |lines|
  {
    match BlankAt(lines)
    case None => BlockEvent(lines, id)
    case Some(n) => BlockEvent(lines[..n], id) + Blocks(lines[n + 1..], IdAfter(lines[..n], id))
  }

  // ----- The parser computes exactly that -----

  /** The parser's fold over decoded lines, ended by `finish`. */
  function FoldLines(st: Fields, lines: seq<string>): seq<SseEvent>
    decreases |lines|
  {
    if lines == [] then Dispatch(st).1
    else var (next, events) := ProcessLine(st, lines[0]); events + FoldLines(next, lines[1..])
  }

  /** What a block without blank lines adds to the fields. */
  function AfterBlock(st: Fields, block: seq<string>): Fields {
    var events, delays := Values(block, "event"), Delays(Values(block, "retry"));
    Fields(IdAfter(block, st.id), if events == [] then st.event else LastOf(events), st.data + Values(block, "data"),
           if delays == [] then st.retryMs else Some(delays[|delays| - 1]), st.sawBom)
  }

  lemma {:induction false} FoldBlock(st: Fields, block: seq<string>, rest: seq<string>)
    requires st.sawBom && "" !in block
    ensures FoldLines(st, block + rest) == FoldLines(AfterBlock(st, block), rest)
    decreases |block|
  {
    hide AfterBlock, ProcessLine;
    if block == [] {
      assert block + rest == rest;
      EmptyBlock(st);
    } else {
      assert (block + rest)[1..] == block[1..] + rest;
      assert block[0] != "" by { assert block[0] in block; }
      var next := ProcessLine(st, block[0]).0;
      NoEventYet(st, block[0]);
      assert [] + FoldLines(next, block[1..] + rest) == FoldLines(next, block[1..] + rest);
      FoldBlock(next, block[1..], rest);
      OneLine(st, block[0], block[1..]);
      assert block == [block[0]] + block[1..];
    }
  }

  lemma EmptyBlock(st: Fields)
    ensures AfterBlock(st, []) == st
  {
    assert st.data + [] == st.data;
  }

  lemma NoEventYet(st: Fields, line: string)
    requires st.sawBom && line != ""
    ensures ProcessLine(st, line).1 == [] && ProcessLine(st, line).0.sawBom
  {
    hide ParseU64, FieldOf;
  }

  lemma OneLine(st: Fields, line: string, rest: seq<string>)
    requires st.sawBom && line != ""
    ensures AfterBlock(ProcessLine(st, line).0, rest) == AfterBlock(st, [line] + rest)
  {
    hide ParseU64, FieldOf, Values, Ids, Delays;
    var block, next := [line] + rest, ProcessLine(st, line).0;
    if line[0] == ':' {
      SameValues(line, rest);
    } else {
      var (name, value) := FieldOf(line);
      assert next == SetField(st, name, value);
      ValuesOf(line, rest, "id");
      ValuesOf(line, rest, "event");
      ValuesOf(line, rest, "data");
      ValuesOf(line, rest, "retry");
      assert st.data + [value] + Values(rest, "data") == st.data + ([value] + Values(rest, "data"));
      IdsOf(value, Values(rest, "id"));
      DelaysOf(value, Values(rest, "retry"));
    }
  }

  lemma SameValues(line: string, rest: seq<string>)
    requires line != "" && line[0] == ':'
    ensures forall name :: Values([line] + rest, name) == Values(rest, name)
  {
    assert ([line] + rest)[1..] == rest;
    assert forall name :: [] + Values(rest, name) == Values(rest, name);
  }

  lemma ValuesOf(line: string, rest: seq<string>, name: string)
    requires line != "" && line[0] != ':'
    ensures Values([line] + rest, name)
         == if FieldOf(line).0 == name then [FieldOf(line).1] + Values(rest, name) else Values(rest, name)
  {
    hide FieldOf;
    assert ([line] + rest)[1..] == rest;
    assert [] + Values(rest, name) == Values(rest, name);
  }

  lemma IdsOf(value: string, rest: seq<string>)
    ensures Ids([value] + rest) == if '\0' in value then Ids(rest) else [value] + Ids(rest)
  {
    assert ([value] + rest)[1..] == rest;
  }

  lemma DelaysOf(value: string, rest: seq<string>)
    ensures Delays([value] + rest)
         == match ParseU64(value) case Some(n) => [n] + Delays(rest) case None => Delays(rest)
  {
    hide ParseU64;
    assert ([value] + rest)[1..] == rest;
  }

  lemma {:induction false} FoldIsBlocks(st: Fields, lines: seq<string>)
    requires st.sawBom && st.data == [] && st.event == None && st.retryMs == None
    ensures FoldLines(st, lines) == Blocks(lines, st.id)
    decreases |lines|
  {
    hide ParseU64, FieldOf, Join;
    var at := BlankAt(lines);
    var block := if at.Some? then lines[..at.value] else lines;
    assert st.data + Values(block, "data") == Values(block, "data");
    if at.None? {
      FoldBlock(st, lines, []);
      assert lines + [] == lines;
    } else {
      var rest := lines[at.value + 1..];
      assert lines == block + ([""] + rest) && ([""] + rest)[1..] == rest;
      FoldBlock(st, block, [""] + rest);
      var ended := Dispatch(AfterBlock(st, block)).0;
      FoldIsBlocks(ended, rest);
    }
  }

  lemma {:induction false} DrainFolds(p: Parser, decode: Decoder, events: seq<SseEvent>)
    ensures var lines := Decoded(AllLines(p.buffer), decode); var drained := Drain(p, decode, events);
      match lines
      case None => drained.1.Err? || Finish(drained.0, decode).1.Err?
      case Some(texts) =>
        drained.1.Ok? && Finish(drained.0, decode).1.Ok?
        && drained.1.value + Finish(drained.0, decode).1.value == events + FoldLines(p.fields, texts)
    decreases |p.buffer|
  {
    hide ProcessLine, Finish, Chomp, FoldLines, AllLines, Decoded;
    if NEWLINE in p.buffer {
      var n := NewlineAt(p.buffer).value;
      var line, rest := Chomp(p.buffer[..n]), p.buffer[n + 1..];
      FirstLine(p.buffer, decode);
      var text := decode(line);
      if text.Some? {
        var (fields, more) := ProcessLine(p.fields, text.value);
        DrainFolds(Parser(rest, fields), decode, events + more);
        var others := Decoded(AllLines(rest), decode);
        if others.Some? {
          FoldCons(p.fields, text.value, others.value);
          assert events + more + FoldLines(fields, others.value) == events + (more + FoldLines(fields, others.value));
        }
      }
    } else {
      LastLine(p, decode);
    }
  }

  lemma FirstLine(bytes: seq<Byte>, decode: Decoder)
    requires NEWLINE in bytes
    ensures var n := NewlineAt(bytes).value;
      var line, rest := Chomp(bytes[..n]), Decoded(AllLines(bytes[n + 1..]), decode);
      Decoded(AllLines(bytes), decode)
      == if decode(line).None? || rest.None? then None else Some([decode(line).value] + rest.value)
  {
    hide *;
    var n := NewlineAt(bytes).value;
    AllLinesStep(bytes);
    DecodedCons(Chomp(bytes[..n]), AllLines(bytes[n + 1..]), decode);
  }

  lemma AllLinesStep(bytes: seq<Byte>)
    requires NEWLINE in bytes
    ensures AllLines(bytes) == [Chomp(bytes[..NewlineAt(bytes).value])] + AllLines(bytes[NewlineAt(bytes).value + 1..])
  {
    hide Chomp, NewlineAt, CompleteLines, AfterLastNewline;
    TailOfTail(bytes);
  }

  lemma TailOfTail(bytes: seq<Byte>)
    requires NEWLINE in bytes
    ensures var rest := bytes[NewlineAt(bytes).value + 1..];
      AfterLastNewline(bytes) == AfterLastNewline(rest)
      && CompleteLines(bytes) == [Chomp(bytes[..NewlineAt(bytes).value])] + CompleteLines(rest)
  {
    hide Chomp, NewlineAt;
  }

  lemma DecodedCons(line: seq<Byte>, lines: seq<seq<Byte>>, decode: Decoder)
    ensures var rest := Decoded(lines, decode);
      Decoded([line] + lines, decode)
      == if decode(line).None? || rest.None? then None else Some([decode(line).value] + rest.value)
  {
    assert ([line] + lines)[1..] == lines;
  }

  lemma FoldCons(st: Fields, line: string, lines: seq<string>)
    ensures FoldLines(st, [line] + lines) == ProcessLine(st, line).1 + FoldLines(ProcessLine(st, line).0, lines)
  {
    hide ProcessLine;
    assert ([line] + lines)[1..] == lines;
  }

  /** `finish` treats a pending buffer as one more line. */
  lemma LastLine(p: Parser, decode: Decoder)
    requires NEWLINE !in p.buffer
    ensures var lines := Decoded(AllLines(p.buffer), decode); var finished := Finish(p, decode).1;
      match lines case None => finished.Err? case Some(texts) => finished == Ok(FoldLines(p.fields, texts))
  {
    hide ProcessLine;
    if p.buffer == [] {
      assert AllLines(p.buffer) == [];
    } else {
      assert AllLines(p.buffer) == [p.buffer] && [p.buffer][1..] == [];
      if decode(p.buffer).Some? {
        var text := decode(p.buffer).value;
        assert Decoded([p.buffer], decode) == Some([text]) by {
          assert Decoded([], decode) == Some([]) && [text] + [] == [text];
        }
        assert [text][1..] == [];
      }
    }
  }

  lemma BomOnlyOnFirstLine(lines: seq<string>)
    ensures FoldLines(NO_FIELDS, lines) == FoldLines(NO_FIELDS.(sawBom := true), WithoutBom(lines))
  {
    if lines != [] {
      assert WithoutBom(lines)[1..] == lines[1..];
    }
  }

  /**
   * Main result: parsing a stream fails exactly when some line is not valid text; otherwise its events
   * are those of its blocks, the first line being freed of byte order marks.
   */
  lemma ParsingReadsBlocks(decode: Decoder, input: seq<Byte>)
    ensures ParseSse(decode, input).Ok? <==> Decoded(AllLines(input), decode).Some?
    ensures ParseSse(decode, input).Ok? ==>
      ParseSse(decode, input).value == Blocks(WithoutBom(Decoded(AllLines(input), decode).value), None)
  {
    hide Drain, Finish, ProcessLine;
    assert [] + input == input;
    DrainFolds(Parser(input, NO_FIELDS), decode, []);
    var lines := Decoded(AllLines(input), decode);
    if lines.Some? {
      BomOnlyOnFirstLine(lines.value);
      FoldIsBlocks(NO_FIELDS.(sawBom := true), WithoutBom(lines.value));
    }
  }
}
