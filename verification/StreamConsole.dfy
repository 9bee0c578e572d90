/** What the application keeps of a streaming worker's updates, poll by poll. */
module StreamConsole {
  import opened Wrappers
  import opened Reconnect

  const MAX_ITEMS: nat := 500

  /** The fields that the polls of one kind of worker set; the greeting is kept apart from the other messages. */
  datatype Console<M> = Console(started: bool, connected: bool, greeting: Option<M>, kept: seq<M>)

  datatype Ending = Unfinished | ByClose | ByFailure(error: string) | ByStop

  /** A poll: what it leaves on the console, whether the worker is done, and how many updates it took. */
  datatype Polled<M> = Polled(console: Console<M>, ending: Ending, taken: nat)

  function Newest<M>(items: seq<M>): (r: seq<M>)
    ensures |r| <= MAX_ITEMS && (|items| <= MAX_ITEMS ==> r == items)
    ensures |items| > MAX_ITEMS ==> |r| == MAX_ITEMS
  {
    if |items| > MAX_ITEMS then items[|items| - MAX_ITEMS..] else items
  }

  function Take<M>(c: Console<M>, update: Update<M>, greets: M -> bool): Console<M> {
    match update
    case Emit(m) =>
      if greets(m) then c.(started := true, connected := true, greeting := Some(m))
      else c.(started := true, kept := Newest(c.kept + [m]))
    case Reconnecting(_, _, _, _) => c.(started := true, connected := false)
    case Closed => c.(connected := false)
    case Failed(_) => c.(started := true, connected := false)
  }

  function EndingOf<M>(update: Update<M>): Ending {
    match update
    case Closed => ByClose
    case Failed(error) => ByFailure(error)
    case _ => Unfinished
  }

  /** A poll takes what is in the channel, up to the worker's last update; `gone` says that nothing else can come. */
  function Poll<M>(c: Console<M>, queue: seq<Update<M>>, gone: bool, greets: M -> bool): (r: Polled<M>)
    ensures r.taken <= |queue|
    decreases |queue|
  {
    if queue == [] then (if gone then Polled(c.(connected := false), ByStop, 0) else Polled(c, Unfinished, 0))
    else
      var next := Take(c, queue[0], greets);
      if EndingOf(queue[0]) != Unfinished then Polled(next, EndingOf(queue[0]), 1)
      else
        var rest := Poll(next, queue[1..], gone, greets);
        rest.(taken := rest.taken + 1)
  }

  /** `push_back`, and `pop_front` while there are too many. */
  method Push<M>(items: seq<M>, item: M) returns (r: seq<M>)
    ensures r == Newest(items + [item])
  {
    r := items + [item];
    ghost var all := r;
    while |r| > MAX_ITEMS
      invariant |r| <= |all| && r == all[|all| - |r|..]
      invariant |all| <= MAX_ITEMS ==> r == all
      invariant |all| > MAX_ITEMS ==> |r| >= MAX_ITEMS
    {
      r := r[1..];
    }
  }

  /** What one turn of a poll does. */
  lemma PollNext<M>(c: Console<M>, queue: seq<Update<M>>, i: nat, gone: bool, greets: M -> bool)
    requires i < |queue|
    ensures var next, ending := Take(c, queue[i], greets), EndingOf(queue[i]);
      var rest := Poll(next, queue[i + 1..], gone, greets);
      Poll(c, queue[i..], gone, greets)
      == if ending != Unfinished then Polled(next, ending, 1) else rest.(taken := rest.taken + 1)
  {
    hide Take;
    assert queue[i..][0] == queue[i] && queue[i..][1..] == queue[i + 1..];
  }

  /** The loop that the two polls share, over what is in the channel. */
  method TakeUpdates<M>(c: Console<M>, queue: seq<Update<M>>, gone: bool, greets: M -> bool)
    returns (console: Console<M>, ending: Ending, taken: nat)
    ensures Polled(console, ending, taken) == Poll(c, queue, gone, greets)
  {
    console, ending, taken := c, Unfinished, 0;
    ghost var all := Poll(c, queue, gone, greets);
    assert queue[0..] == queue;
    while taken < |queue|
      invariant taken <= |queue| && ending == Unfinished
      invariant var rest := Poll(console, queue[taken..], gone, greets); all == rest.(taken := taken + rest.taken)
    {
      PollNext(console, queue, taken, gone, greets);
      var update := queue[taken];
      taken := taken + 1;
      match update {
        case Emit(m) =>
          if greets(m) {
            console := console.(started := true, connected := true, greeting := Some(m));
          } else {
            var kept := Push(console.kept, m);
            console := console.(started := true, kept := kept);
          }
        case Reconnecting(_, _, _, _) =>
          console := console.(started := true, connected := false);
        case Closed =>
          console, ending := console.(connected := false), ByClose;
          return;
        case Failed(error) =>
          console, ending := console.(connected := false, started := true), ByFailure(error);
          return;
      }
    }
    if gone {
      console, ending := console.(connected := false), ByStop;
    }
  }
}

module StreamConsoleTheorems {
  import opened Wrappers
  import opened Reconnect
  import opened StreamConsole
  import Sse
  import SseWorker
  import WebSocketWorker

  /** The messages of some updates that are no greeting. */
  function Retained<M>(log: seq<Update<M>>, greets: M -> bool): seq<M> {
    if log == [] then []
    else (if log[0].Emit? && !greets(log[0].message) then [log[0].message] else []) + Retained(log[1..], greets)
  }

  lemma NewestTwice<M>(items: seq<M>, more: seq<M>)
    ensures Newest(Newest(items) + more) == Newest(items + more)
  {
  }

  lemma PollStep<M>(c: Console<M>, queue: seq<Update<M>>, gone: bool, greets: M -> bool)
    requires queue != [] && EndingOf(queue[0]) == Unfinished
    ensures var rest := Poll(Take(c, queue[0], greets), queue[1..], gone, greets);
      Poll(c, queue, gone, greets) == rest.(taken := rest.taken + 1)
  {
    hide Take;
  }

  /** Polling twice is polling once for both; nothing is taken behind the worker's last update. */
  lemma {:induction false} PollTwice<M>(
      c: Console<M>, first: seq<Update<M>>, second: seq<Update<M>>, gone: bool, greets: M -> bool)
    ensures var once := Poll(c, first, false, greets);
      Poll(c, first + second, gone, greets)
      == if once.ending != Unfinished then once
         else
           var twice := Poll(once.console, second, gone, greets);
           twice.(taken := once.taken + twice.taken)
    ensures Poll(c, first, false, greets).ending == Unfinished ==> Poll(c, first, false, greets).taken == |first|
    decreases |first|
  {
    hide Take;
    if first == [] {
      assert first + second == second;
    } else {
      assert (first + second)[0] == first[0] && (first + second)[1..] == first[1..] + second;
      PollTwice(Take(c, first[0], greets), first[1..], second, gone, greets);
    }
  }

  /** Some polls after another, up to the one that ends. */
  function PollEach<M>(c: Console<M>, queues: seq<seq<Update<M>>>, greets: M -> bool): Polled<M>
    decreases |queues|
  {
    if queues == [] then Polled(c, Unfinished, 0)
    else
      var once := Poll(c, queues[0], false, greets);
      if once.ending != Unfinished then once
      else
        var rest := PollEach(once.console, queues[1..], greets);
        rest.(taken := once.taken + rest.taken)
  }

  function Together<T>(parts: seq<seq<T>>): seq<T> {
    if parts == [] then [] else parts[0] + Together(parts[1..])
  }

  lemma {:induction false} PollsDoNotMatter<M>(c: Console<M>, queues: seq<seq<Update<M>>>, greets: M -> bool)
    ensures PollEach(c, queues, greets) == Poll(c, Together(queues), false, greets)
    decreases |queues|
  {
    hide Poll;
    if queues == [] {
      NothingPolled(c, greets);
    } else {
      PollTwice(c, queues[0], Together(queues[1..]), false, greets);
      PollsDoNotMatter(Poll(c, queues[0], false, greets).console, queues[1..], greets);
    }
  }

  lemma NothingPolled<M>(c: Console<M>, greets: M -> bool)
    ensures Poll(c, [], false, greets) == Polled(c, Unfinished, 0)
  {
  }

  /** While the worker runs, the newest of all its messages are kept. */
  lemma {:induction false} KeepsTheNewest<M>(c: Console<M>, log: seq<Update<M>>, greets: M -> bool)
    requires |c.kept| <= MAX_ITEMS && forall i | 0 <= i < |log| :: !Terminal(log[i])
    ensures var polled := Poll(c, log, false, greets);
      polled.ending == Unfinished && polled.taken == |log|
      && polled.console.kept == Newest(c.kept + Retained(log, greets))
    decreases |log|
  {
    hide *;
    FewAreKept(c.kept);
    if log == [] {
      assert c.kept + [] == c.kept;
      NothingPolled(c, greets);
      NothingRetained(greets);
    } else {
      var next := Take(c, log[0], greets);
      TakeKeeps(c, log[0], greets);
      PollStep(c, log, false, greets);
      RetainedStep(log, greets);
      FewAreKept(next.kept);
      KeepsTheNewest(next, log[1..], greets);
      if log[0].Emit? && !greets(log[0].message) {
        var m, more := [log[0].message], Retained(log[1..], greets);
        NewestTwice(c.kept + m, more);
        FewAreKept(c.kept + m);
        assert c.kept + m + more == c.kept + (m + more);
      }
    }
  }

  lemma NothingRetained<M>(greets: M -> bool)
    ensures Retained([], greets) == []
  {
  }

  lemma RetainedStep<M>(log: seq<Update<M>>, greets: M -> bool)
    requires log != []
    ensures Retained(log, greets)
         == if log[0].Emit? && !greets(log[0].message) then [log[0].message] + Retained(log[1..], greets)
            else Retained(log[1..], greets)
  {
    assert [] + Retained(log[1..], greets) == Retained(log[1..], greets);
  }

  lemma TakeKeeps<M>(c: Console<M>, update: Update<M>, greets: M -> bool)
    requires !Terminal(update)
    ensures Take(c, update, greets).kept
         == if update.Emit? && !greets(update.message) then Newest(c.kept + [update.message]) else c.kept
    ensures EndingOf(update) == Unfinished
  {
  }

  lemma FewAreKept<M>(items: seq<M>)
    ensures |items| <= MAX_ITEMS ==> Newest(items) == items
    ensures |Newest(items)| <= MAX_ITEMS
  {
  }

  /** What is on the console in the end: what the worker reported, the newest messages, and no connection. */
  ghost predicate ShowsAll<M>(polled: Polled<M>, c: Console<M>, log: seq<Update<M>>, greets: M -> bool) {
    log != [] && polled.ending == EndingOf(log[|log| - 1]) != Unfinished && polled.taken == |log|
    && !polled.console.connected && polled.console.kept == Newest(c.kept + Retained(log, greets))
  }

  /** A log whose last update is the only terminal one is taken to its end, however often the application polls. */
  lemma WholeLogIsShown<M>(c: Console<M>, queues: seq<seq<Update<M>>>, greets: M -> bool)
    requires |c.kept| <= MAX_ITEMS
    requires var log := Together(queues);
      log != [] && Terminal(log[|log| - 1]) && forall i | 0 <= i < |log| - 1 :: !Terminal(log[i])
    ensures ShowsAll(PollEach(c, queues, greets), c, Together(queues), greets)
  {
    var log := Together(queues);
    var most, last := log[..|log| - 1], log[|log| - 1];
    PollsDoNotMatter(c, queues, greets);
    hide Together, PollEach, Newest;
    KeepsTheNewest(c, most, greets);
    PollTwice(c, most, [last], false, greets);
    assert log == most + [last];
    RetainedConcat(most, last, greets);
  }

  lemma {:induction false} RetainedConcat<M>(log: seq<Update<M>>, last: Update<M>, greets: M -> bool)
    requires Terminal(last)
    ensures Retained(log + [last], greets) == Retained(log, greets)
  {
    if log == [] {
      assert [last][1..] == [];
    } else {
      assert (log + [last])[1..] == log[1..] + [last];
      RetainedConcat(log[1..], last, greets);
    }
  }

  /**
   * Main result: whenever the application polls, it takes a whole run of a worker to its terminal update and not
   * further, and ends up with the newest 500 of all messages of all connections, in order.
   */
  lemma EveryRunIsShown<M>(
      limit: nat, visits: nat -> Visit<M>, idOf: M -> Option<string>, c: Console<M>, queues: seq<seq<Update<M>>>,
      greets: M -> bool)
    requires |c.kept| <= MAX_ITEMS && Together(queues) == Loop(limit, visits, idOf, 0, None).log
    ensures ShowsAll(PollEach(c, queues, greets), c, Loop(limit, visits, idOf, 0, None).log, greets)
  {
    hide Loop, PollEach, Together, ShowsAll, Terminal;
    EveryRunIsDisciplined(limit, visits, idOf, 0, None);
    WholeLogIsShown(c, queues, greets);
  }
}
