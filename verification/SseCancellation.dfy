/** Cancelling an event stream: one token, set at some moment, over all the select points of a run. */
module SseCancellation {
  import opened Wrappers
  import opened Sse
  import opened Reconnect
  import opened SseWorker

  datatype Connect = Fails(error: string) | Refuses(error: string) | Opens(status: nat)

  /** What the network does in one attempt; without a failure the stream ends after its chunks. */
  datatype Plan = Plan(connect: Connect, chunks: seq<seq<Byte>>, failure: Option<string>)

  /** How many chunks are fed before one that does not decode. */
  function Good(p: Parser, decode: Decoder, chunks: seq<seq<Byte>>): (n: nat)
    ensures n <= |chunks|
    decreases |chunks|
  {
    if chunks == [] || Feed(p, decode, chunks[0]).1.Err? then 0
    else 1 + Good(Feed(p, decode, chunks[0]).0, decode, chunks[1..])
  }

  /** How often the stream is read: once for each chunk fed, and once more. */
  function Reads(plan: Plan, decode: Decoder): nat {
    Good(Parser([], NO_FIELDS), decode, plan.chunks) + 1
  }

  function EndOf(plan: Plan): StreamEnd {
    if plan.failure.Some? then ReadFailed(plan.failure.value) else Eof
  }

  /**
   * The attempt whose first select is `k`: the select of the connection, those of the reads, and that of the
   * wait, each won by the token when it stops there.
   */
  function AttemptOf(plan: Plan, decode: Decoder, token: Token, k: nat, mayWait: bool): Attempt {
    if Stops(token, k) then CancelledConnecting
    else
      match plan.connect
      case Fails(error) => ConnectFailed(error, mayWait && Stops(token, k + 1))
      case Refuses(error) => Refused(error)
      case Opens(status) =>
        match FirstStop(token, k + 1, Reads(plan, decode))
        case Some(s) => Streaming(status, plan.chunks[..s - k - 1], CancelledReading, false)
        case None =>
          var whole := Streaming(status, plan.chunks, EndOf(plan), false);
          whole.(cancelledWaiting := mayWait && VisitOf(whole, decode).verdict.Retry?
                                     && Stops(token, k + 1 + Reads(plan, decode)))
  }

  /** How many selects an attempt has that is followed by another one. */
  function Selects(plan: Plan, decode: Decoder): nat {
    match plan.connect
    case Fails(_) => 2
    case Refuses(_) => 1
    case Opens(_) => Reads(plan, decode) + 2
  }

  /** The first select of an attempt. */
  function Start(plans: nat -> Plan, decode: Decoder, n: nat): nat {
    if n == 0 then 0 else Start(plans, decode, n - 1) + Selects(plans(n - 1), decode)
  }

  function Attempts(plans: nat -> Plan, decode: Decoder, token: Token, limit: nat): nat -> Attempt {
    (n: nat) => AttemptOf(plans(n), decode, token, Start(plans, decode, n), n < limit)
  }

  /** The run of the worker in an environment with a token. */
  function RunWith(plans: nat -> Plan, decode: Decoder, token: Token, limit: nat): Run<Message> {
    Loop(limit, Visits(Attempts(plans, decode, token, limit), decode), IdOf, 0, None)
  }

  predicate IsCancelled(a: Attempt) {
    match a
    case CancelledConnecting => true
    case ConnectFailed(_, waiting) => waiting
    case Refused(_) => false
    case Streaming(_, _, end, waiting) => end == CancelledReading || waiting
  }

  // ----- One attempt -----

  lemma {:induction false} StreamedBefore(p: Parser, decode: Decoder, chunks: seq<seq<Byte>>, n: nat)
    requires n <= Good(p, decode, chunks)
    ensures Streamed(p, decode, chunks[..n]).1 <= Streamed(p, decode, chunks).1 && Streamed(p, decode, chunks[..n]).2
    decreases |chunks|
  {
    hide Feed;
    if n > 0 {
      var q := Feed(p, decode, chunks[0]).0;
      assert chunks[..n][1..] == chunks[1..][..n - 1];
      StreamedBefore(q, decode, chunks[1..], n - 1);
    }
  }

  lemma CutWhileReading(plan: Plan, decode: Decoder, status: nat, n: nat)
    requires n < Reads(plan, decode)
    ensures var cut := VisitOf(Streaming(status, plan.chunks[..n], CancelledReading, false), decode);
      cut.verdict == End(Some(CANCELLED))
      && cut.messages <= VisitOf(Streaming(status, plan.chunks, EndOf(plan), false), decode).messages
  {
    hide Streamed, Finish;
    StreamedBefore(Parser([], NO_FIELDS), decode, plan.chunks, n);
  }

  /** Waiting is the last thing an attempt does, so its other parts do not depend on how the wait ends. */
  lemma CutWhileWaiting(status: nat, chunks: seq<seq<Byte>>, end: StreamEnd, decode: Decoder)
    ensures var free := VisitOf(Streaming(status, chunks, end, false), decode);
      var cut := VisitOf(Streaming(status, chunks, end, true), decode);
      cut.messages == free.messages
      && if free.verdict.Retry?
         then free.verdict.waitCancelled.None? && cut.verdict == free.verdict.(waitCancelled := Some(CANCELLED))
         else cut.verdict == free.verdict
  {
    hide Streamed, Finish, DelayFrom;
  }

  /** An attempt is as it would be without the token, or cut short with the error of the cancellation. */
  lemma AttemptIsCutOrSame(plan: Plan, decode: Decoder, token: Token, k: nat, mayWait: bool)
    ensures var a, b := AttemptOf(plan, decode, token, k, mayWait), AttemptOf(plan, decode, NEVER, k, mayWait);
      if IsCancelled(a) then CutShort(VisitOf(a, decode), VisitOf(b, decode), Failed(CANCELLED), mayWait) else a == b
  {
    hide Streamed, Finish, DelayFrom, Reads;
    var a := AttemptOf(plan, decode, token, k, mayWait);
    if plan.connect.Opens? {
      var status := plan.connect.status;
      var stop := FirstStop(token, k + 1, Reads(plan, decode));
      assert FirstStop(NEVER, k + 1, Reads(plan, decode)).None?;
      if stop.Some? {
        CutWhileReading(plan, decode, status, stop.value - k - 1);
      }
      CutWhileWaiting(status, plan.chunks, EndOf(plan), decode);
    }
  }

  // ----- The whole run -----

  /** Some select of an attempt that is reached when nobody cancels. */
  predicate Reached(plans: nat -> Plan, decode: Decoder, limit: nat, n: nat, k: nat) {
    var start := Start(plans, decode, n);
    var free := AttemptOf(plans(n), decode, NEVER, start, true);
    n < |RunWith(plans, decode, NEVER, limit).ids|
    && start <= k < start + match plans(n).connect
                            case Fails(_) => if n < limit then 2 else 1
                            case Refuses(_) => 1
                            case Opens(_) =>
                              Reads(plans(n), decode) + 1
                              + if n < limit && VisitOf(free, decode).verdict.Retry? then 1 else 0
  }

  /**
   * Main result: a run with a token is the run without one, or leaves off with the error of the cancellation in
   * an attempt in which a select was won by the token; no select of an earlier attempt was.
   */
  lemma CancelCutsTheRun(plans: nat -> Plan, decode: Decoder, token: Token, limit: nat)
    ensures var run, free := RunWith(plans, decode, token, limit), RunWith(plans, decode, NEVER, limit);
      var n := |run.ids| - 1;
      run.ids != [] && n <= limit
      && if IsCancelled(Attempts(plans, decode, token, limit)(n)) then LeavesOff(run, free, Failed(CANCELLED))
         else run == free
    ensures var run := RunWith(plans, decode, token, limit); var n := |run.ids| - 1;
      (exists k :: Stops(token, k) && Reached(plans, decode, limit, n, k))
      <==> IsCancelled(Attempts(plans, decode, token, limit)(n))
    ensures var run := RunWith(plans, decode, token, limit);
      forall k | 0 <= k < Start(plans, decode, |run.ids| - 1) :: !Stops(token, k)
  {
    hide Loop, VisitOf, AttemptOf, CutShort, IsCancelled, LeavesOff, Start, Reached;
    var attempts, free := Attempts(plans, decode, token, limit), Attempts(plans, decode, NEVER, limit);
    var ended := (n: nat) => IsCancelled(attempts(n));
    var visits := Visits(attempts, decode);
    forall n | 0 <= n < |RunWith(plans, decode, token, limit).ids|
      ensures if ended(n) then CutShort(visits(n), Visits(free, decode)(n), Failed(CANCELLED), n < limit)
              else visits(n) == Visits(free, decode)(n)
    {
      AttemptIsCutOrSame(plans(n), decode, token, Start(plans, decode, n), n < limit);
    }
    CutOrSame(limit, visits, Visits(free, decode), IdOf, ended, (n: nat) => Failed(CANCELLED));
    StopsAtLast(limit, visits, IdOf, 0, None);
    var last := |RunWith(plans, decode, token, limit).ids| - 1;
    if ended(last) {
      MadeByBoth(RunWith(plans, decode, token, limit), RunWith(plans, decode, NEVER, limit), Failed(CANCELLED));
    }
    ReachedAttempt(plans, decode, token, limit, last);
    NotStoppedBefore(plans, decode, token, limit, last);
  }

  lemma MadeByBoth(run: Run<Message>, whole: Run<Message>, last: Update<Message>)
    requires LeavesOff(run, whole, last)
    ensures 0 < |run.ids| <= |whole.ids|
  {
  }

  /** An attempt that both runs make is cancelled exactly when one of its selects is. */
  lemma ReachedAttempt(plans: nat -> Plan, decode: Decoder, token: Token, limit: nat, n: nat)
    requires n < |RunWith(plans, decode, NEVER, limit).ids|
    ensures (exists k :: Stops(token, k) && Reached(plans, decode, limit, n, k))
       <==> IsCancelled(Attempts(plans, decode, token, limit)(n))
  {
    hide Start, Reads, VisitOf, Loop;
    var start, plan := Start(plans, decode, n), plans(n);
    var a := AttemptOf(plan, decode, token, start, n < limit);
    match plan.connect
    case Fails(_) =>
      assert Stops(token, start) ==> Reached(plans, decode, limit, n, start);
      assert n < limit ==> Reached(plans, decode, limit, n, start + 1);
    case Refuses(_) => assert Reached(plans, decode, limit, n, start);
    case Opens(status) =>
      assert Reached(plans, decode, limit, n, start);
      var count := Reads(plan, decode);
      var stop := FirstStop(token, start + 1, count);
      if stop.Some? {
        assert Reached(plans, decode, limit, n, stop.value);
      }
      assert FirstStop(NEVER, start + 1, count).None?;
      CutWhileWaiting(status, plan.chunks, EndOf(plan), decode);
      if n < limit && VisitOf(AttemptOf(plan, decode, NEVER, start, true), decode).verdict.Retry? {
        assert Reached(plans, decode, limit, n, start + 1 + count);
      }
  }

  lemma StartStep(plans: nat -> Plan, decode: Decoder, n: nat)
    ensures if n == 0 then Start(plans, decode, n) == 0
            else Start(plans, decode, n) == Start(plans, decode, n - 1) + Selects(plans(n - 1), decode)
  {
    hide Selects;
  }

  /** The selects of attempts that were followed by another one were not won by the token. */
  lemma {:induction false} NotStoppedBefore(plans: nat -> Plan, decode: Decoder, token: Token, limit: nat, n: nat)
    requires n < |RunWith(plans, decode, token, limit).ids|
    ensures forall k | 0 <= k < Start(plans, decode, n) :: !Stops(token, k)
    decreases n
  {
    StartStep(plans, decode, n);
    hide *;
    if n > 0 {
      NotStoppedBefore(plans, decode, token, limit, n - 1);
      FollowedByAnother(plans, decode, token, limit, n - 1);
      NotStoppedWithin(plans(n - 1), decode, token, Start(plans, decode, n - 1));
    }
  }

  lemma FollowedByAnother(plans: nat -> Plan, decode: Decoder, token: Token, limit: nat, n: nat)
    requires n + 1 < |RunWith(plans, decode, token, limit).ids|
    ensures n < limit
    ensures var v := VisitOf(AttemptOf(plans(n), decode, token, Start(plans, decode, n), true), decode).verdict;
      v.Retry? && v.waitCancelled.None?
  {
    hide Loop, VisitOf, AttemptOf, Start;
    GoesOnUntilLast(limit, Visits(Attempts(plans, decode, token, limit), decode), IdOf, 0, None, n);
  }

  lemma NotStoppedWithin(plan: Plan, decode: Decoder, token: Token, k: nat)
    requires var v := VisitOf(AttemptOf(plan, decode, token, k, true), decode).verdict;
      v.Retry? && v.waitCancelled.None?
    ensures forall j | k <= j < k + Selects(plan, decode) :: !Stops(token, j)
  {
    hide Streamed, Finish, DelayFrom, Reads;
    if plan.connect.Opens? {
      var count := Reads(plan, decode);
      if FirstStop(token, k + 1, count).None? {
        CutWhileWaiting(plan.connect.status, plan.chunks, EndOf(plan), decode);
      }
    }
  }

  // ----- What the user sees -----

  lemma {:induction false} StartsInOrder(plans: nat -> Plan, decode: Decoder, i: nat, n: nat)
    requires i <= n
    ensures Start(plans, decode, i) <= Start(plans, decode, n)
    ensures i < n ==> Start(plans, decode, i) + Selects(plans(i), decode) <= Start(plans, decode, n)
    decreases n
  {
    hide *;
    if i < n {
      StartStep(plans, decode, n);
      StartsInOrder(plans, decode, i, n - 1);
    }
  }

  lemma ReachedWithin(plans: nat -> Plan, decode: Decoder, limit: nat, n: nat, k: nat)
    requires Reached(plans, decode, limit, n, k)
    ensures n < |RunWith(plans, decode, NEVER, limit).ids|
    ensures Start(plans, decode, n) <= k < Start(plans, decode, n) + Selects(plans(n), decode)
  {
    hide RunWith, Start, VisitOf, AttemptOf, Reads;
  }

  /**
   * Main result: a token that is set during a select which the run would reach, and wins it, ends the run with
   * the error of the cancellation; no attempt starts after that select.
   */
  lemma CancelEndsTheRun(plans: nat -> Plan, decode: Decoder, token: Token, limit: nat, n: nat, m: nat)
    requires token.at == Some(m) && !token.late(m) && Reached(plans, decode, limit, n, m)
    ensures var run := RunWith(plans, decode, token, limit);
      run.log != [] && run.log[|run.log| - 1] == Failed(CANCELLED)
      && forall i | 0 <= i < |run.ids| :: Start(plans, decode, i) <= m
  {
    hide Loop, VisitOf, AttemptOf, Reads, Start, Selects, RunWith, Reached, IsCancelled;
    CancelCutsTheRun(plans, decode, token, limit);
    var run, free := RunWith(plans, decode, token, limit), RunWith(plans, decode, NEVER, limit);
    var last := |run.ids| - 1;
    assert Stops(token, m);
    ReachedWithin(plans, decode, limit, n, m);
    if n < last {
      StartsInOrder(plans, decode, n, last);
    }
    assert last <= n;
    forall i | 0 <= i < |run.ids| ensures Start(plans, decode, i) <= m {
      StartsInOrder(plans, decode, i, n);
    }
  }

  /** After the token was set an attempt starts only if every select since was won by another branch. */
  lemma LaterAttemptsNeedLuck(plans: nat -> Plan, decode: Decoder, token: Token, limit: nat, n: nat, m: nat)
    requires token.at == Some(m) && n < |RunWith(plans, decode, token, limit).ids|
    ensures forall k | m <= k < Start(plans, decode, n) :: token.late(k)
  {
    hide RunWith, Start;
    NotStoppedBefore(plans, decode, token, limit, n);
    forall k | m <= k < Start(plans, decode, n) ensures token.late(k) {
      assert !Stops(token, k);
    }
  }

  /** The wait that an attempt asks for; it does not depend on the token. */
  function DelayAfter(plan: Plan, decode: Decoder): nat {
    var verdict := VisitOf(AttemptOf(plan, decode, NEVER, 0, false), decode).verdict;
    if verdict.Retry? then verdict.delayMs else 0
  }

  /** A timer that is started when the token is set already is not ready at once, unless it is for no time. */
  ghost predicate TimersTakeTime(plans: nat -> Plan, decode: Decoder, token: Token) {
    forall n: nat ::
      (token.at.Some? && token.at.value < Start(plans, decode, n + 1) - 1 && DelayAfter(plans(n), decode) > 0
       ==> !token.late(Start(plans, decode, n + 1) - 1))
  }

  /**
   * Main result: when servers ask for some delay, an attempt starts after the token was set only right after the
   * select in which that happened, which then was a wait whose timer won.
   */
  lemma AtMostOneMoreAttempt(plans: nat -> Plan, decode: Decoder, token: Token, limit: nat, n: nat, m: nat)
    requires token.at == Some(m) && TimersTakeTime(plans, decode, token)
    requires n + 1 < |RunWith(plans, decode, token, limit).ids| && DelayAfter(plans(n), decode) > 0
    ensures Start(plans, decode, n + 1) <= m + 1
    ensures Start(plans, decode, n + 1) == m + 1 ==> token.late(m)
  {
    hide Loop, VisitOf, AttemptOf, Reads, Start, Selects, RunWith, DelayAfter;
    LaterAttemptsNeedLuck(plans, decode, token, limit, n + 1, m);
    var wait := Start(plans, decode, n + 1) - 1;
    assert wait <= m;
  }
}
