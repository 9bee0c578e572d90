/** The worker that keeps an event stream open and reports to the console. */
module SseWorker {
  import opened Wrappers
  import opened Text
  import opened RequestModel
  import opened Sse
  import opened Reconnect
  import SseTheorems

  const CANCELLED := "SSE stream cancelled"
  const INVALID_TEXT := "invalid UTF-8 in SSE stream"
  const DEFAULT_DELAY: nat := 250

  datatype Message = Connected(status: nat) | Event(event: SseEvent)

  datatype StreamEnd = Eof | ReadFailed(error: string) | CancelledReading

  /** What the network and the user do during one attempt. */
  datatype Attempt =
    | CancelledConnecting
    | ConnectFailed(error: string, cancelledWaiting: bool)
    | Refused(error: string)
    | Streaming(status: nat, chunks: seq<seq<Byte>>, end: StreamEnd, cancelledWaiting: bool)

  function IdOf(m: Message): Option<string> {
    if m.Event? then m.event.id else None
  }

  function Events(events: seq<SseEvent>): (r: seq<Message>)
    ensures |r| == |events|
    ensures forall i | 0 <= i < |r| :: r[i] == Event(events[i])
  {
    seq(|events|, i requires 0 <= i < |events| => Event(events[i]))
  }

  /** The delay asked for last, or the one before. */
  function DelayFrom(events: seq<SseEvent>, before: nat): nat {
    if events == [] then before
    else
      var last := events[|events| - 1];
      if last.retryMs.Some? then last.retryMs.value else DelayFrom(events[..|events| - 1], before)
  }

  /** The events parsed chunk by chunk; nothing of a chunk with an undecodable line is forwarded. */
  function Streamed(p: Parser, decode: Decoder, chunks: seq<seq<Byte>>): (Parser, seq<SseEvent>, bool)
    decreases |chunks|
  {
    if chunks == [] then (p, [], true)
    else
      match Feed(p, decode, chunks[0])
      case (q, Err(_)) => (q, [], false)
      case (q, Ok(events)) => var (last, more, ok) := Streamed(q, decode, chunks[1..]); (last, events + more, ok)
  }

  function Cancelled(waiting: bool): Option<string> {
    if waiting then Some(CANCELLED) else None
  }

  function VisitOf(a: Attempt, decode: Decoder): Visit<Message> {
    match a
    case CancelledConnecting => Visit([], End(Some(CANCELLED)))
    case ConnectFailed(error, waiting) => Visit([], Retry(DEFAULT_DELAY, Some(error), Cancelled(waiting)))
    case Refused(error) => Visit([], End(Some(error)))
    case Streaming(status, chunks, end, waiting) =>
      var (p, events, ok) := Streamed(Parser([], NO_FIELDS), decode, chunks);
      var sent := [Connected(status)] + Events(events);
      if !ok then Visit(sent, End(Some(INVALID_TEXT)))
      else
        match end
        case ReadFailed(error) => Visit(sent, End(Some(error)))
        case CancelledReading => Visit(sent, End(Some(CANCELLED)))
        case Eof =>
          match Finish(p, decode)
          case (_, Err(_)) => Visit(sent, End(Some(INVALID_TEXT)))
          case (_, Ok(more)) =>
            Visit(sent + Events(more), Retry(DelayFrom(events + more, DEFAULT_DELAY), None, Cancelled(waiting)))
  }

  predicate IsLastEventId(h: HeaderEntry) {
    h.enabled && ToLowerAscii(h.key) == "last-event-id"
  }

  /** The first enabled header of that name is overwritten, or one is appended. */
  function WithLastEventId(headers: seq<HeaderEntry>, id: Option<string>): seq<HeaderEntry> {
    if id.None? then headers
    else if headers == [] then [HeaderEntry("last-event-id", id.value, true)]
    else if IsLastEventId(headers[0]) then [headers[0].(value := id.value)] + headers[1..]
    else [headers[0]] + WithLastEventId(headers[1..], id)
  }

  function WithAccept(headers: seq<HeaderEntry>): seq<HeaderEntry> {
    if exists i | 0 <= i < |headers| :: headers[i].enabled && ToLowerAscii(headers[i].key) == "accept" then headers
    else headers + [HeaderEntry("accept", "text/event-stream", true)]
  }

  function Visits(attempts: nat -> Attempt, decode: Decoder): nat -> Visit<Message> {
    (n: nat) => VisitOf(attempts(n), decode)
  }

  method Forward(events: seq<SseEvent>, log0: seq<Update<Message>>, id0: Option<string>, delay0: nat,
      dropAfter: Option<nat>)
    returns (log: seq<Update<Message>>, id: Option<string>, delay: nat, open: bool)
    requires dropAfter.None? || |log0| <= dropAfter.value
    ensures dropAfter.None? || |log| <= dropAfter.value
    ensures !open ==> CutOff(log, log0 + Emits(Events(events)), dropAfter)
    ensures open ==> log == log0 + Emits(Events(events)) && id == LastId(Events(events), IdOf, id0)
    ensures open ==> delay == DelayFrom(events, delay0)
  {
    log, id, delay := log0, id0, delay0;
    for i := 0 to |events|
      invariant log == log0 + Emits(Events(events[..i]))
      invariant dropAfter.None? || |log| <= dropAfter.value
      invariant id == LastId(Events(events[..i]), IdOf, id0)
      invariant delay == DelayFrom(events[..i], delay0)
    {
      var event := events[i];
      assert events[..i + 1][..i] == events[..i];
      assert Events(events[..i + 1])[..i] == Events(events[..i]);
      if event.id.Some? {
        id := event.id;
      }
      if event.retryMs.Some? {
        delay := event.retryMs.value;
      }
      if dropAfter == Some(|log|) {
        open := false;
        return;
      }
      log := log + [Emit(Event(event))];
      assert Emits(Events(events[..i + 1])) == Emits(Events(events[..i])) + [Emit(Event(event))];
    }
    assert events[..|events|] == events;
    open := true;
  }

  lemma {:induction false} DelayConcat(s: seq<SseEvent>, t: seq<SseEvent>, before: nat)
    ensures DelayFrom(s + t, before) == DelayFrom(t, DelayFrom(s, before))
  {
    if t == [] {
      assert s + t == s;
    } else {
      assert (s + t)[..|s + t| - 1] == s + t[..|t| - 1];
      DelayConcat(s, t[..|t| - 1], before);
    }
  }

  lemma {:induction false} LastIdConcat(s: seq<Message>, t: seq<Message>, before: Option<string>)
    ensures LastId(s + t, IdOf, before) == LastId(t, IdOf, LastId(s, IdOf, before))
  {
    if t == [] {
      assert s + t == s;
    } else {
      assert (s + t)[..|s + t| - 1] == s + t[..|t| - 1];
      LastIdConcat(s, t[..|t| - 1], before);
    }
  }

  /** How reading one connection ended. */
  datatype Outcome = ConsoleGone | Broken(error: string) | Ended(delay: nat)

  predicate Matches(outcome: Outcome, verdict: Verdict, waiting: bool) {
    match outcome
    case ConsoleGone => false
    case Broken(error) => verdict == End(Some(error))
    case Ended(delay) => verdict == Retry(delay, None, Cancelled(waiting))
  }

  lemma ForwardedMore(log0: seq<Update<Message>>, sent: seq<Message>, more: seq<Message>)
    ensures log0 + Emits(sent) + Emits(more) == log0 + Emits(sent + more)
  {
  }

  /** Feed all chunks, forwarding the events of each. */
  method ForwardChunks(decode: Decoder, chunks: seq<seq<Byte>>, log0: seq<Update<Message>>, id0: Option<string>,
                       dropAfter: Option<nat>)
    returns (log: seq<Update<Message>>, id: Option<string>, delay: nat, parser: SseParser, outcome: Outcome)
    requires dropAfter.None? || |log0| <= dropAfter.value
    ensures dropAfter.None? || |log| <= dropAfter.value
    ensures fresh(parser) && parser.decode == decode
    ensures var (p, events, ok) := Streamed(Parser([], NO_FIELDS), decode, chunks);
      if outcome.ConsoleGone? then CutOff(log, log0 + Emits(Events(events)), dropAfter)
      else
        && log == log0 + Emits(Events(events)) && id == LastId(Events(events), IdOf, id0)
        && delay == DelayFrom(events, DEFAULT_DELAY)
        && (if ok then outcome == Ended(delay) && parser.View() == p else outcome == Broken(INVALID_TEXT))
  {
    hide Feed, DelayFrom, LastId, Streamed, Emits, Events;
    NothingYet(log0, id0);
    log, id, delay := log0, id0, DEFAULT_DELAY;
    parser := new SseParser(decode);
    ghost var (last, all, allOk) := Streamed(Parser([], NO_FIELDS), decode, chunks);
    ghost var done: seq<SseEvent> := [];
    assert chunks[0..] == chunks;
    for i := 0 to |chunks|
      invariant fresh(parser) && parser.decode == decode
      invariant dropAfter.None? || |log| <= dropAfter.value
      invariant var (q, rest, ok) := Streamed(parser.View(), decode, chunks[i..]);
        last == q && all == done + rest && allOk == ok
      invariant log == log0 + Emits(Events(done)) && id == LastId(Events(done), IdOf, id0)
      invariant delay == DelayFrom(done, DEFAULT_DELAY)
    {
      StreamedStep(parser.View(), decode, chunks, i);
      var fed := parser.FeedBytes(chunks[i]);
      if fed.Err? {
        assert all == done;
        outcome := Broken(INVALID_TEXT);
        return;
      }
      var events := fed.value;
      ghost var rest := Streamed(parser.View(), decode, chunks[i + 1..]).1;
      assert all == done + events + rest;
      JoinForwarded(log0, done, events, rest, id0);
      var open;
      log, id, delay, open := Forward(events, log, id, delay, dropAfter);
      if !open {
        CutOffEarlier(log, log0 + Emits(Events(done)) + Emits(Events(events)), Emits(Events(rest)), dropAfter);
        outcome := ConsoleGone;
        return;
      }
      DelayConcat(done, events, DEFAULT_DELAY);
      done := done + events;
    }
    StreamedEnd(parser.View(), decode, chunks);
    assert all == done;
    outcome := Ended(delay);
  }

  lemma NothingYet(log0: seq<Update<Message>>, id0: Option<string>)
    ensures log0 + Emits(Events([])) == log0 && LastId(Events([]), IdOf, id0) == id0
    ensures DelayFrom([], DEFAULT_DELAY) == DEFAULT_DELAY
  {
  }

  lemma StreamedStep(p: Parser, decode: Decoder, chunks: seq<seq<Byte>>, i: nat)
    requires i < |chunks|
    ensures Streamed(p, decode, chunks[i..])
         == match Feed(p, decode, chunks[i])
            case (q, Err(_)) => (q, [], false)
            case (q, Ok(events)) =>
              var (last, more, ok) := Streamed(q, decode, chunks[i + 1..]); (last, events + more, ok)
  {
    hide Feed;
    assert chunks[i..][1..] == chunks[i + 1..];
  }

  lemma StreamedEnd(p: Parser, decode: Decoder, chunks: seq<seq<Byte>>)
    ensures Streamed(p, decode, chunks[|chunks|..]) == (p, [], true)
  {
  }

  lemma JoinForwarded(log0: seq<Update<Message>>, done: seq<SseEvent>, events: seq<SseEvent>, rest: seq<SseEvent>,
                      id0: Option<string>)
    ensures log0 + Emits(Events(done)) + Emits(Events(events)) == log0 + Emits(Events(done + events))
    ensures log0 + Emits(Events(done)) + Emits(Events(events)) + Emits(Events(rest))
         == log0 + Emits(Events(done + events + rest))
    ensures LastId(Events(done + events), IdOf, id0) == LastId(Events(events), IdOf, LastId(Events(done), IdOf, id0))
  {
    hide LastId, Emits;
    assert Events(done + events) == Events(done) + Events(events);
    assert Events(done + events + rest) == Events(done + events) + Events(rest);
    hide Events;
    LastIdConcat(Events(done), Events(events), id0);
    ForwardedMore(log0, Events(done), Events(events));
    ForwardedMore(log0, Events(done + events), Events(rest));
  }

  /** The events that `finish` gives when the stream is read to its end. */
  function Rest(p: Parser, decode: Decoder, ok: bool, end: StreamEnd): Option<seq<SseEvent>> {
    if !ok || !end.Eof? then None
    else
      match Finish(p, decode).1
      case Err(_) => None
      case Ok(more) => Some(more)
  }

  /** A connection, part by part: the greeting, the chunks and the rest. */
  lemma VisitShape(status: nat, chunks: seq<seq<Byte>>, end: StreamEnd, waiting: bool, decode: Decoder)
    ensures var visit := VisitOf(Streaming(status, chunks, end, waiting), decode);
      var streamed := Streamed(Parser([], NO_FIELDS), decode, chunks);
      var rest := Rest(streamed.0, decode, streamed.2, end);
      visit.messages == [Connected(status)] + Events(streamed.1) + Events(if rest.Some? then rest.value else [])
      && visit.verdict == if !streamed.2 then End(Some(INVALID_TEXT))
                          else if end.ReadFailed? then End(Some(end.error))
                          else if end.CancelledReading? then End(Some(CANCELLED))
                          else if rest.None? then End(Some(INVALID_TEXT))
                          else Retry(DelayFrom(streamed.1 + rest.value, DEFAULT_DELAY), None, Cancelled(waiting))
  {
    hide Streamed, Finish, DelayFrom;
    var events := Streamed(Parser([], NO_FIELDS), decode, chunks).1;
    assert [Connected(status)] + Events(events) + Events([]) == [Connected(status)] + Events(events);
  }

  lemma Greeted(log0: seq<Update<Message>>, status: nat, events: seq<SseEvent>, more: seq<SseEvent>,
      id0: Option<string>)
    ensures var part := [Connected(status)] + Events(events);
      var whole := part + Events(more);
      log0 + [Emit(Connected(status))] + Emits(Events(events)) == log0 + Emits(part)
      && log0 + Emits(part) + Emits(Events(more)) == log0 + Emits(whole)
      && log0 < log0 + Emits(whole) && Emits(whole) == Emits(part) + Emits(Events(more))
      && LastId(part, IdOf, id0) == LastId(Events(events), IdOf, id0)
      && LastId(whole, IdOf, id0) == LastId(Events(more), IdOf, LastId(Events(events), IdOf, id0))
      && (more == [] ==> whole == part)
  {
    var greeting := [Connected(status)];
    assert log0 + Emits(greeting) == log0 + [Emit(Connected(status))];
    ForwardedMore(log0, greeting, Events(events));
    ForwardedMore(log0, greeting + Events(events), Events(more));
    assert greeting[..0] == [];
    assert LastId(greeting, IdOf, id0) == id0;
    hide LastId;
    LastIdConcat(greeting, Events(events), id0);
    LastIdConcat(greeting + Events(events), Events(more), id0);
  }

  /** One open connection, to its end. */
  method ReadStream(status: nat, chunks: seq<seq<Byte>>, end: StreamEnd, ghost waiting: bool, decode: Decoder,
                    log0: seq<Update<Message>>, id0: Option<string>, dropAfter: Option<nat>)
    returns (log: seq<Update<Message>>, id: Option<string>, outcome: Outcome)
    requires dropAfter.None? || |log0| <= dropAfter.value
    ensures dropAfter.None? || |log| <= dropAfter.value
    ensures var visit := VisitOf(Streaming(status, chunks, end, waiting), decode);
      if outcome.ConsoleGone? then CutOff(log, log0 + Emits(visit.messages), dropAfter)
      else
        log == log0 + Emits(visit.messages) && id == LastId(visit.messages, IdOf, id0)
        && Matches(outcome, visit.verdict, waiting)
  {
    hide VisitOf, Streamed, Emits, Events, LastId, DelayFrom, Finish, Cancelled;
    ghost var streamed := Streamed(Parser([], NO_FIELDS), decode, chunks);
    ghost var last := Rest(streamed.0, decode, streamed.2, end);
    ghost var more := if last.Some? then last.value else [];
    VisitShape(status, chunks, end, waiting, decode);
    Greeted(log0, status, streamed.1, more, id0);
    id, log := id0, log0;
    if dropAfter == Some(|log|) {
      outcome := ConsoleGone;
      return;
    }
    log := log + [Emit(Connected(status))];
    var delay, parser;
    log, id, delay, parser, outcome := ForwardChunks(decode, chunks, log, id, dropAfter);
    if outcome.ConsoleGone? {
      ghost var part := [Connected(status)] + Events(streamed.1);
      CutOffEarlier(log, log0 + Emits(part), Emits(Events(more)), dropAfter);
      return;
    }
    if outcome.Broken? {
      return;
    }
    if end.ReadFailed? {
      outcome := Broken(end.error);
      return;
    }
    if end.CancelledReading? {
      outcome := Broken(CANCELLED);
      return;
    }
    var finished := parser.FinishStream();
    if finished.Err? {
      outcome := Broken(INVALID_TEXT);
      return;
    }
    DelayConcat(streamed.1, more, DEFAULT_DELAY);
    var open;
    log, id, delay, open := Forward(finished.value, log, id, delay, dropAfter);
    outcome := if open then Ended(delay) else ConsoleGone;
  }

  // ----- The whole worker -----

  function Headers(base: seq<HeaderEntry>, ids: seq<Option<string>>): seq<seq<HeaderEntry>> {
    seq(|ids|, i requires 0 <= i < |ids| => WithLastEventId(base, ids[i]))
  }

  lemma HeadersOfMore(base: seq<HeaderEntry>, ids: seq<Option<string>>, id: Option<string>, rest: seq<Option<string>>)
    ensures Headers(base, ids + [id]) == Headers(base, ids) + [WithLastEventId(base, id)]
    ensures ids + [id] <= rest ==> Headers(base, ids + [id]) <= Headers(base, rest)
  {
  }

  /** One attempt: what it forwards and how it ends, unless the console is closed meanwhile. */
  method TryOnce(a: Attempt, decode: Decoder, log0: seq<Update<Message>>, id0: Option<string>, dropAfter: Option<nat>)
    returns (log: seq<Update<Message>>, id: Option<string>, gone: bool, ending: Verdict)
    requires dropAfter.None? || |log0| <= dropAfter.value
    ensures dropAfter.None? || |log| <= dropAfter.value
    ensures var visit := VisitOf(a, decode);
      if gone then CutOff(log, log0 + Emits(visit.messages), dropAfter)
      else log == log0 + Emits(visit.messages) && id == LastId(visit.messages, IdOf, id0) && ending == visit.verdict
  {
    hide Emits, LastId, Streamed;
    NoMessages(id0);
    log, id, gone, ending := log0, id0, false, End(None);
    match a {
      case CancelledConnecting => ending := End(Some(CANCELLED));
      case ConnectFailed(error, waiting) => ending := Retry(DEFAULT_DELAY, Some(error), Cancelled(waiting));
      case Refused(error) => ending := End(Some(error));
      case Streaming(status, chunks, end, waiting) =>
        var outcome;
        log, id, outcome := ReadStream(status, chunks, end, waiting, decode, log, id, dropAfter);
        match outcome {
          case ConsoleGone => gone := true;
          case Broken(error) => ending := End(Some(error));
          case Ended(asked) => ending := Retry(asked, None, Cancelled(waiting));
        }
    }
  }

  /**
   * The worker: the console sees the run of the reconnect loop up to the moment it is closed, and each
   * request carries the id the loop says.
   */
  method RunSse(limit: nat, headers: seq<HeaderEntry>, attempts: nat -> Attempt, decode: Decoder,
      dropAfter: Option<nat>)
    returns (log: seq<Update<Message>>, requests: seq<seq<HeaderEntry>>)
    ensures var run := Loop(limit, Visits(attempts, decode), IdOf, 0, None);
      var sent := Headers(WithAccept(headers), run.ids);
      && log == Seen(run.log, dropAfter)
      && requests <= sent && (log == run.log ==> requests == sent)
  {
    hide Emits, LastId, WithLastEventId, WithAccept, Loop, VisitOf, Headers, Seen;
    var base := WithAccept(headers);
    ghost var visits := Visits(attempts, decode);
    ghost var whole := Loop(limit, visits, IdOf, 0, None);
    ghost var ids: seq<Option<string>> := [];
    var used, lastId := 0, None;
    log, requests := [], [];
    NoHeaders(base, whole);
    while true
      invariant used <= limit
      invariant whole.log == log + Loop(limit, visits, IdOf, used, lastId).log
      invariant whole.ids == ids + Loop(limit, visits, IdOf, used, lastId).ids
      invariant requests == Headers(base, ids)
      invariant dropAfter.None? || |log| <= dropAfter.value
      decreases limit - used
    {
      ghost var log0, ids0, id0 := log, ids, lastId;
      StartsWithVisit(limit, visits, IdOf, used, lastId, log);
      HeadersOfMore(base, ids, lastId, whole.ids);
      requests := requests + [WithLastEventId(base, lastId)];
      ids := ids + [lastId];
      var gone, ending;
      log, lastId, gone, ending := TryOnce(attempts(used), decode, log, lastId, dropAfter);
      if gone {
        IsCutOff(log, log0 + Emits(visits(used).messages), whole.log, dropAfter);
        return;
      }
      if ending.End? || used >= limit {
        EndsHere(limit, visits, IdOf, used, id0, log0, ids0);
        var error := match ending case End(error) => error case Retry(_, exhausted, _) => exhausted;
        log := Close(log, Final(error), dropAfter);
        return;
      }
      var again: Update<Message> := Reconnecting(used + 1, limit, ending.delayMs, lastId);
      if ending.waitCancelled.Some? {
        WaitIsCancelled(limit, visits, IdOf, used, id0, log0, ids0);
      } else {
        GoesOn(limit, visits, IdOf, used, id0, log0, ids0);
      }
      if dropAfter == Some(|log|) {
        IsCutOff(log, log + [again], whole.log, dropAfter);
        return;
      }
      log := log + [again];
      if ending.waitCancelled.Some? {
        log := Close(log, Failed(ending.waitCancelled.value), dropAfter);
        return;
      }
      used := used + 1;
    }
  }

  lemma NoHeaders(base: seq<HeaderEntry>, run: Run<Message>)
    ensures Headers(base, []) == [] && run.log == [] + run.log && run.ids == [] + run.ids
  {
  }

  lemma NoMessages(id: Option<string>)
    ensures Emits<Message>([]) == [] && LastId([], IdOf, id) == id
  {
  }

  // ----- What the worker promises -----

  /** Main result: every run of the worker is disciplined, whatever the network and the user do. */
  lemma SseRunsAreDisciplined(limit: nat, attempts: nat -> Attempt, decode: Decoder)
    ensures var visits := Visits(attempts, decode);
      Disciplined(Loop(limit, visits, IdOf, 0, None), limit, visits, IdOf, 0, None)
  {
    EveryRunIsDisciplined(limit, Visits(attempts, decode), IdOf, 0, None);
  }

  lemma {:induction false} StreamedIsFeedAll(p: Parser, decode: Decoder, chunks: seq<seq<Byte>>)
    ensures var (q, events, ok) := Streamed(p, decode, chunks); var fed := SseTheorems.FeedAll(p, decode, chunks);
      q == fed.0 && (ok <==> fed.1.Ok?) && (ok ==> fed.1 == Ok(events))
    decreases |chunks|
  {
    hide Feed;
    if chunks != [] && Feed(p, decode, chunks[0]).1.Ok? {
      StreamedIsFeedAll(Feed(p, decode, chunks[0]).0, decode, chunks[1..]);
    }
  }

  /** A connection read to its end forwards exactly the events of its whole text, however it arrived. */
  lemma ForwardsTheWholeStream(status: nat, chunks: seq<seq<Byte>>, waiting: bool, decode: Decoder)
    ensures var visit := VisitOf(Streaming(status, chunks, Eof, waiting), decode);
      var parsed := ParseSse(decode, SseTheorems.Concat(chunks));
      if parsed.Ok? then
        visit.messages == [Connected(status)] + Events(parsed.value)
        && visit.verdict == Retry(DelayFrom(parsed.value, DEFAULT_DELAY), None, Cancelled(waiting))
      else visit.verdict == End(Some(INVALID_TEXT))
  {
    hide Feed, Finish, Streamed;
    var start := Parser([], NO_FIELDS);
    StreamedIsFeedAll(start, decode, chunks);
    SseTheorems.ChunksDoNotMatter(start, decode, chunks);
    var (p, events, ok) := Streamed(start, decode, chunks);
    if ok && Finish(p, decode).1.Ok? {
      var more := Finish(p, decode).1.value;
      assert Events(events + more) == Events(events) + Events(more);
    }
  }

  /** The value of the first enabled header of that name. */
  function SentId(headers: seq<HeaderEntry>): Option<string> {
    if headers == [] then None
    else if IsLastEventId(headers[0]) then Some(headers[0].value)
    else SentId(headers[1..])
  }

  /** A request made with an id sends that id, and all its other headers as they were. */
  lemma {:induction false} IdIsSent(headers: seq<HeaderEntry>, id: string)
    ensures var sent := WithLastEventId(headers, Some(id));
      && SentId(sent) == Some(id) && |headers| <= |sent| <= |headers| + 1
      && (|sent| == |headers| <==> SentId(headers).Some?)
      && forall i | 0 <= i < |headers| ::
           sent[i] == headers[i] || (IsLastEventId(headers[i]) && sent[i] == headers[i].(value := id))
  {
    hide IsLastEventId;
    if headers == [] {
      NewHeaderIsRead(id);
    } else if !IsLastEventId(headers[0]) {
      IdIsSent(headers[1..], id);
      var rest := WithLastEventId(headers[1..], Some(id));
      assert ([headers[0]] + rest)[1..] == rest;
    } else {
      ChangedIsRead(headers[0], id);
    }
  }

  lemma ChangedIsRead(h: HeaderEntry, id: string)
    requires IsLastEventId(h)
    ensures IsLastEventId(h.(value := id))
  {
  }

  lemma NewHeaderIsRead(id: string)
    ensures SentId([HeaderEntry("last-event-id", id, true)]) == Some(id)
  {
    hide ToLowerAscii;
    NameIsLowerCase();
  }

  lemma NameIsLowerCase()
    ensures ToLowerAscii("last-event-id") == "last-event-id"
  {
    hide ToLowerAscii;
    LowercaseStays("last-event-id");
  }

  lemma {:induction false} LowercaseStays(s: string)
    requires forall i | 0 <= i < |s| :: !('A' <= s[i] <= 'Z')
    ensures ToLowerAscii(s) == s
  {
    if s != "" {
      LowercaseStays(s[1..]);
    }
  }
}
