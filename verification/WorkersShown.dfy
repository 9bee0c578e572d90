/** What a poll takes from a worker's channel, update by update. */
module PollsShown {
  import opened Wrappers
  import opened Reconnect
  import opened StreamConsole
  import opened StreamConsoleTheorems

  /** The updates before the first terminal one. */
  ghost predicate IsFront<M>(queue: seq<Update<M>>, k: nat) {
    k <= |queue| && (forall i | 0 <= i < k :: !Terminal(queue[i])) && (k < |queue| ==> Terminal(queue[k]))
  }

  /** The last greeting or announcement of a reconnect says whether a connection is open. */
  ghost predicate OpenAfter<M>(updates: seq<Update<M>>, greets: M -> bool, before: bool, open: bool) {
    if forall u <- updates :: !IsNews(u, greets) then open == before
    else exists i | 0 <= i < |updates| :: IsLastNews(updates, i, greets) && open == updates[i].Emit?
  }

  predicate IsNews<M>(u: Update<M>, greets: M -> bool) {
    u.Reconnecting? || (u.Emit? && greets(u.message))
  }

  ghost predicate IsLastNews<M>(updates: seq<Update<M>>, i: nat, greets: M -> bool) {
    i < |updates| && IsNews(updates[i], greets) && forall j | i < j < |updates| :: !IsNews(updates[j], greets)
  }

  lemma OneMoreUpdate<M>(
    first: Update<M>, rest: seq<Update<M>>, greets: M -> bool, before: bool, middle: bool, open: bool)
    requires !Terminal(first) && OpenAfter(rest, greets, middle, open)
    requires middle == if IsNews(first, greets) then first.Emit? else before
    ensures OpenAfter([first] + rest, greets, before, open)
  {
    hide IsNews;
    var all := [first] + rest;
    if forall u <- rest :: !IsNews(u, greets) {
      if IsNews(first, greets) {
        assert all[0] in all;
        forall j | 0 < j < |all| ensures !IsNews(all[j], greets) {
          assert all[j] == rest[j - 1];
        }
        assert IsLastNews(all, 0, greets) && open == all[0].Emit?;
      } else {
        forall u <- all ensures !IsNews(u, greets) {
        }
      }
    } else {
      var i :| 0 <= i < |rest| && IsLastNews(rest, i, greets) && open == rest[i].Emit?;
      assert all[i + 1] == rest[i] && all[i + 1] in all;
      forall j | i + 1 < j < |all| ensures !IsNews(all[j], greets) {
        assert all[j] == rest[j - 1];
      }
      assert IsLastNews(all, i + 1, greets);
    }
  }

  lemma TakeIs<M>(c: Console<M>, update: Update<M>, greets: M -> bool)
    requires !Terminal(update)
    ensures Take(c, update, greets).connected == if IsNews(update, greets) then update.Emit? else c.connected
    ensures Take(c, update, greets).started && EndingOf(update) == Unfinished
  {
  }

  lemma FrontOfRest<M>(queue: seq<Update<M>>, k: nat)
    requires k > 0 && IsFront(queue, k)
    ensures 0 < k <= |queue| && IsFront(queue[1..], k - 1) && !Terminal(queue[0])
    ensures queue[..k] == [queue[0]] + queue[1..][..k - 1]
  {
  }

  /** What a poll leaves on the console, and how it ends, when it takes `k` updates that are not terminal. */
  ghost predicate Shows<M>(
    polled: Polled<M>, c: Console<M>, queue: seq<Update<M>>, gone: bool, greets: M -> bool, k: nat)
    requires k <= |queue|
  {
    && ShowsKept(polled.console.kept, c.kept + Retained(queue[..k], greets))
    && (k > 0 ==> polled.console.started)
    && polled.ending == EndAt(queue, gone, k)
    && polled.taken == (if k < |queue| then k + 1 else k)
    && (polled.ending != Unfinished ==> !polled.console.connected)
    && (polled.ending == Unfinished ==> OpenAfter(queue[..k], greets, c.connected, polled.console.connected))
  }

  predicate ShowsKept<M(==)>(kept: seq<M>, all: seq<M>) {
    kept == if |all| > 500 then all[|all| - 500..] else all
  }

  function EndAt<M>(queue: seq<Update<M>>, gone: bool, k: nat): Ending
    requires k <= |queue|
  {
    if k < |queue| then (if queue[k].Failed? then ByFailure(queue[k].error) else ByClose)
    else if gone then ByStop else Unfinished
  }

  lemma KeptOf<M>(first: Update<M>, rest: seq<Update<M>>, c: Console<M>, greets: M -> bool, kept: seq<M>)
    requires !Terminal(first) && |c.kept| <= 500
    requires ShowsKept(kept, Take(c, first, greets).kept + Retained(rest, greets))
    ensures ShowsKept(kept, c.kept + Retained([first] + rest, greets))
  {
    hide Take, Retained, ShowsKept, Newest;
    RetainedFirst(first, rest, greets);
    TakeKeeps(c, first, greets);
    var m, more := Retained([first], greets), Retained(rest, greets);
    assert c.kept + m + more == c.kept + (m + more) && c.kept + [] == c.kept && [] + more == more;
    NewestThenMore(c.kept + m, more, kept);
  }

  lemma NewestThenMore<M>(items: seq<M>, more: seq<M>, kept: seq<M>)
    requires ShowsKept(kept, Newest(items) + more)
    ensures ShowsKept(kept, items + more)
  {
    NewestTwice(items, more);
  }

  lemma FewStay<M>(first: Update<M>, c: Console<M>, greets: M -> bool)
    requires !Terminal(first) && |c.kept| <= 500
    ensures |Take(c, first, greets).kept| <= 500
  {
  }

  lemma ShowsMore<M>(
    polled: Polled<M>, c: Console<M>, queue: seq<Update<M>>, gone: bool, greets: M -> bool, k: nat)
    requires k > 0 && IsFront(queue, k) && |c.kept| <= 500
    requires Shows(polled, Take(c, queue[0], greets), queue[1..], gone, greets, k - 1)
    requires polled.console.started
    ensures Shows(polled.(taken := polled.taken + 1), c, queue, gone, greets, k)
  {
    hide Take, Retained, IsNews, OpenAfter, ShowsKept;
    FrontOfRest(queue, k);
    var first, rest := queue[0], queue[1..][..k - 1];
    KeptOf(first, rest, c, greets, polled.console.kept);
    TakeIs(c, first, greets);
    if polled.ending == Unfinished {
      OneMoreUpdate(first, rest, greets, c.connected, Take(c, first, greets).connected, polled.console.connected);
    }
  }

  lemma StaysStarted<M>(c: Console<M>, queue: seq<Update<M>>, gone: bool, greets: M -> bool)
    requires c.started
    ensures Poll(c, queue, gone, greets).console.started
    decreases |queue|
  {
    if queue != [] && EndingOf(queue[0]) == Unfinished {
      StaysStarted(Take(c, queue[0], greets), queue[1..], gone, greets);
    }
  }

  /**
   * Main result: a poll takes the updates up to the first terminal one, or all. It keeps the newest 500 messages that
   * are no greeting, in order; a connection is open as the last greeting or reconnect says, and none when it has ended.
   */
  lemma {:induction false} PollShows<M>(c: Console<M>, queue: seq<Update<M>>, gone: bool, greets: M -> bool, k: nat)
    requires IsFront(queue, k) && |c.kept| <= 500
    ensures Shows(Poll(c, queue, gone, greets), c, queue, gone, greets, k)
    decreases |queue|
  {
    hide *;
    if k == 0 {
      NothingTaken(c, queue, gone, greets);
    } else {
      FrontOfRest(queue, k);
      var next := Take(c, queue[0], greets);
      TakeIs(c, queue[0], greets);
      FewStay(queue[0], c, greets);
      PollStep(c, queue, gone, greets);
      PollShows(next, queue[1..], gone, greets, k - 1);
      StaysStarted(next, queue[1..], gone, greets);
      ShowsMore(Poll(next, queue[1..], gone, greets), c, queue, gone, greets, k);
    }
  }

  lemma RetainedFirst<M>(first: Update<M>, rest: seq<Update<M>>, greets: M -> bool)
    ensures Retained([first] + rest, greets) == Retained([first], greets) + Retained(rest, greets)
    ensures Retained([first], greets) == if first.Emit? && !greets(first.message) then [first.message] else []
  {
    assert ([first] + rest)[1..] == rest && [first][1..] == [];
    assert Retained([], greets) == [];
  }

  lemma NothingTaken<M>(c: Console<M>, queue: seq<Update<M>>, gone: bool, greets: M -> bool)
    requires IsFront(queue, 0) && |c.kept| <= 500
    ensures Shows(Poll(c, queue, gone, greets), c, queue, gone, greets, 0)
  {
    assert queue[..0] == [] && c.kept + [] == c.kept;
    if queue != [] {
      assert Terminal(queue[0]);
    }
  }
}

/** What becomes of the answers, failures and reports of the workers: for every reachable state. */
module WorkersShown {
  import opened Wrappers
  import opened RequestModel
  import opened StreamConsole
  import opened StreamConsoleTheorems
  import opened PollsShown
  import Reconnect
  import SseWorker
  import WebSocketWorker
  import opened WorkerSlots
  import opened WorkerSlotsTheorems

  /** A worker that was asked to stop. */
  predicate Cancelled(s: Slots, worker: Worker) {
    worker in s.log.cancelled
  }

  /** What a request worker's failure is called. */
  function FailureOf(answer: Answer): string
    requires answer.Error? || answer.Gone?
  {
    if answer.Error? then answer.error else "request worker stopped unexpectedly"
  }

  /**
   * Main result: the answer to a request frees its slot, and is recorded with that request: a response always, a
   * failure unless it was cancelled, and neither for an introspection. A failure is shown unless it was cancelled or
   * belongs to an introspection; a response takes an error away and brings the report of its last script.
   */
  lemma AnswerIsRecordedAndShown(s: Slots, answer: Answer)
    requires Inv(s) && s.http.slot.worker.Some? && answer != NotYet
    ensures var t, worker := PollHttp(s, answer), s.http.slot.worker.value;
      var schema, failed, cancelled := s.log.kinds[worker] == Schema, !answer.Response?, Cancelled(s, worker);
      && t.http == HttpSlot(Slot(None, None), None, false, false, None)
      && t.log.history
         == s.log.history + (if schema || (failed && cancelled) then []
                             else [Entry(worker, s.log.started[worker], failed)])
      && t.display.responseError == (if failed && !schema && !cancelled then Some(FailureOf(answer)) else None)
      && t.display.scriptReport == (if answer.Response? && answer.scripts != []
                                    then Some(answer.scripts[|answer.scripts| - 1]) else s.display.scriptReport)
      && t.display.scriptError == (if answer.Response? && answer.scripts != [] then answer.scriptError
                                   else s.display.scriptError)
      && t.display.sse == s.display.sse && t.display.webSocket == s.display.webSocket
      && t.sse == s.sse && t.webSocket == s.webSocket && t.commands == s.commands && t.script == s.script
      && t.log == s.log.(history := t.log.history)
  {
    assert s.log.history + [] == s.log.history;
  }

  /** While there is no answer nothing changes, and neither does it when nothing is awaited. */
  lemma NothingToPoll(s: Slots, answer: Answer, scriptAnswer: ScriptAnswer)
    ensures answer == NotYet || s.http.slot.worker.None? ==> PollHttp(s, answer) == s
    ensures scriptAnswer == NoReport || s.script.worker.None? ==> PollScript(s, scriptAnswer) == s
  {
  }

  /** What a stream's last update, or the end of its worker, puts on display as an error. */
  function ErrorShown<M>(
    before: Option<string>, queue: seq<Reconnect.Update<M>>, k: nat, gone: bool, cancelled: bool, stopped: string)
    : Option<string>
    requires k <= |queue|
  {
    if k < |queue| && queue[k].Failed? then if cancelled then None else Some(queue[k].error)
    else if k == |queue| && gone then if cancelled then None else Some(stopped)
    else before
  }

  lemma ErrorIsShown<M>(
    before: Option<string>, queue: seq<Reconnect.Update<M>>, k: nat, gone: bool, cancelled: bool, stopped: string,
    polled: Polled<M>)
    requires IsFront(queue, k)
    requires polled.ending == EndAt(queue, gone, k)
    ensures ErrorAfter(before, polled.ending, cancelled, stopped)
         == ErrorShown(before, queue, k, gone, cancelled, stopped)
    ensures polled.ending == Unfinished <==> k == |queue| && !gone
  {
    assert k < |queue| ==> Reconnect.Terminal(queue[k]);
  }

  /**
   * Main result: a poll of an event stream shows what `PollShows` says; the slot is freed exactly when the worker's
   * last update was taken or the worker is gone, and the failure is shown exactly when it was not cancelled.
   */
  lemma SsePollShows(s: Slots, queue: seq<Reconnect.Update<SseWorker.Message>>, gone: bool, k: nat)
    requires Inv(s) && s.sse.worker.Some? && IsFront(queue, k) && |s.display.sse.kept| <= 500
    ensures var t, done := PollSse(s, queue, gone), k < |queue| || gone;
      var cancelled := Cancelled(s, s.sse.worker.value);
      && t.sse == (if done then Slot(None, None) else s.sse)
      && t.display.responseError
         == ErrorShown(s.display.responseError, queue, k, gone, cancelled, "SSE stream worker stopped unexpectedly")
      && t.display.sse == Poll(s.display.sse, queue, gone, (m: SseWorker.Message) => m.Connected?).console
      && (done ==> !t.display.sse.connected)
      && t.http == s.http && t.webSocket == s.webSocket && t.commands == s.commands && t.script == s.script
      && t.log == s.log && t.display.webSocket == s.display.webSocket
      && t.display.scriptReport == s.display.scriptReport && t.display.scriptError == s.display.scriptError
  {
    hide Poll, ErrorAfter, ErrorShown, Retained, OpenAfter, ShowsKept;
    var polled := Poll(s.display.sse, queue, gone, GreetsSse());
    PollShows(s.display.sse, queue, gone, GreetsSse(), k);
    ErrorIsShown(s.display.responseError, queue, k, gone, WasCancelled(s.sse, s.log), SSE_STOPPED, polled);
  }

  lemma WebSocketPollShows(s: Slots, queue: seq<Reconnect.Update<WebSocketWorker.Message>>, gone: bool, k: nat)
    requires Inv(s) && s.webSocket.worker.Some? && IsFront(queue, k) && |s.display.webSocket.kept| <= 500
    ensures var t, done := PollWebSocket(s, queue, gone), k < |queue| || gone;
      var cancelled := Cancelled(s, s.webSocket.worker.value);
      && t.webSocket == (if done then Slot(None, None) else s.webSocket)
      && t.commands == (if done then None else s.commands)
      && t.display.responseError
         == ErrorShown(s.display.responseError, queue, k, gone, cancelled, "WebSocket worker stopped unexpectedly")
      && t.display.webSocket
         == Poll(s.display.webSocket, queue, gone, (m: WebSocketWorker.Message) => m.Connected?).console
      && (done ==> !t.display.webSocket.connected)
      && t.http == s.http && t.sse == s.sse && t.script == s.script && t.log == s.log
      && t.display.sse == s.display.sse
      && t.display.scriptReport == s.display.scriptReport && t.display.scriptError == s.display.scriptError
  {
    hide Poll, ErrorAfter, ErrorShown, Retained, OpenAfter, ShowsKept;
    var polled := Poll(s.display.webSocket, queue, gone, GreetsWebSocket());
    PollShows(s.display.webSocket, queue, gone, GreetsWebSocket(), k);
    ErrorIsShown(s.display.responseError, queue, k, gone, WasCancelled(s.webSocket, s.log), WEB_SOCKET_STOPPED, polled);
  }

  /** A script's report or error is shown and replaces the other; a script that was cancelled leaves neither. */
  lemma ScriptAnswerIsShown(s: Slots, answer: ScriptAnswer)
    requires s.script.worker.Some? && answer != NoReport
    ensures var t := PollScript(s, answer);
      && t == s.(script := Slot(None, None), display := t.display)
      && t.display == s.display.(scriptReport := t.display.scriptReport, scriptError := t.display.scriptError)
      && t.display.scriptReport == (if answer.Finished? then Some(answer.report) else None)
      && t.display.scriptError == (if answer.Stopped? then Some("script worker stopped unexpectedly")
                                   else if answer.Broken? && answer.error != "script execution cancelled"
                                   then Some(answer.error) else None)
  {
  }

  /** Nothing of what was shown before is left. */
  predicate Empty(d: Display) {
    && d.responseError.None? && d.scriptReport.None? && d.scriptError.None?
    && d.sse.greeting.None? && d.sse.kept == [] && !d.sse.connected
    && d.webSocket.greeting.None? && d.webSocket.kept == [] && !d.webSocket.connected
  }

  /** The new worker holds its slot with its own token, and what it was given is remembered. */
  lemma StartedWorkerHoldsItsSlot(s: Slots, op: Op)
    requires Inv(s) && !Busy(s) && Starts(op)
    ensures var t, worker := Apply(s, op), s.log.made; var held := Slot(Some(worker), Some(worker));
      && (op.SendOp? ==>
            t.http == HttpSlot(held, Some(op.request), false, op.request.grpc.Some?,
                               if op.request.grpc.Some? then None else Some(worker))
            && t.log.kinds == s.log.kinds[worker := if op.request.grpc.Some? then Grpc else Http]
            && t.log.started == s.log.started[worker := op.request])
      && (op.SchemaOp? ==>
            t.http.slot == held && t.http.schema && !t.http.grpc && t.http.deviceCode.None?
            && t.log.kinds == s.log.kinds[worker := Schema]
            && t.http.request == Some(t.log.started[worker]) && t.log.started[worker].method_ == "POST"
            && t.log.started[worker].body.Graphql? && t.log.started[worker].body.query == op.query
            && t.log.started[worker].url == op.request.url && t.log.started[worker].headers == op.request.headers)
      && (op.SseOp? ==> t.sse == held && t.display.sse.started && !t.display.webSocket.started)
      && (op.WebSocketOp? ==>
            t.webSocket == held && t.commands == Some(worker) && t.display.webSocket.started && !t.display.sse.started)
      && (op.ScriptOp? ==>
            t.script == held && t.display == s.display.(scriptReport := None, scriptError := None))
      && (!op.ScriptOp? ==> Empty(t.display))
  {
  }

  /** Clearing leaves nothing on display, and no slot taken. */
  lemma ClearingForgetsAll(s: Slots)
    ensures var t := Clear(s);
      && Empty(t.display) && !t.display.sse.started && !t.display.webSocket.started
      && t.http == HttpSlot(Slot(None, None), None, false, false, None) && t.commands.None?
      && t.sse == Slot(None, None) && t.webSocket == Slot(None, None) && t.script == Slot(None, None)
      && t.log.abandoned == s.log.abandoned + Just(s.http.slot.worker)
  {
  }
}
