/** The loop that the streaming workers share: connect, forward, and try again a bounded number of times. */
module Reconnect {
  import opened Wrappers

  /** What a worker sends to the console; the last three kinds are about the connection itself. */
  datatype Update<M> =
    | Emit(message: M)
    | Reconnecting(attempt: nat, maxAttempts: nat, delayMs: nat, lastEventId: Option<string>)
    | Closed
    | Failed(error: string)

  /** How a connection attempt ends: for good, or so that another one may follow. */
  datatype Verdict =
    | End(error: Option<string>)
    | Retry(delayMs: nat, exhausted: Option<string>, waitCancelled: Option<string>)

  /** One connection attempt: the messages it forwards, and how it ends. */
  datatype Visit<M> = Visit(messages: seq<M>, verdict: Verdict)

  /** A whole run: the updates, and for each attempt the last event id it was made with. */
  datatype Run<M> = Run(log: seq<Update<M>>, ids: seq<Option<string>>)

  function Final<M>(error: Option<string>): Update<M> {
    match error case None => Closed case Some(e) => Failed(e)
  }

  function Emits<M>(messages: seq<M>): (r: seq<Update<M>>)
    ensures |r| == |messages|
    ensures forall i | 0 <= i < |r| :: r[i] == Emit(messages[i])
  {
    seq(|messages|, i requires 0 <= i < |messages| => Emit(messages[i]))
  }

  function LastId<M>(messages: seq<M>, idOf: M -> Option<string>, before: Option<string>): Option<string> {
    if messages == [] then before
    else
      var last := idOf(messages[|messages| - 1]);
      if last.Some? then last else LastId(messages[..|messages| - 1], idOf, before)
  }

  /** The run from the attempt after `used` reconnects on, when nobody closes the console. */
  function Loop<M>(limit: nat, visits: nat -> Visit<M>, idOf: M -> Option<string>, used: nat,
      id: Option<string>): Run<M>
    requires used <= limit
    decreases limit - used
  {
    var visit := visits(used);
    var sent := Emits(visit.messages);
    var newId := LastId(visit.messages, idOf, id);
    match visit.verdict
    case End(error) => Run(sent + [Final(error)], [id])
    case Retry(delay, exhausted, cancelled) =>
      if used == limit then Run(sent + [Final(exhausted)], [id])
      else
        var again := Reconnecting(used + 1, limit, delay, newId);
        if cancelled.Some? then Run(sent + [again, Failed(cancelled.value)], [id])
        else
          var rest := Loop(limit, visits, idOf, used + 1, newId);
          Run(sent + [again] + rest.log, [id] + rest.ids)
  }

  /** A console that is closed after some updates has seen just those. */
  function Seen<M>(log: seq<Update<M>>, dropAfter: Option<nat>): seq<Update<M>> {
    if dropAfter.Some? && dropAfter.value < |log| then log[..dropAfter.value] else log
  }

  // ----- The loop, one attempt unrolled, after the updates `log` and the attempts `ids` -----

  /** `log` is all the console got: it was closed before the next update of `whole`. */
  ghost predicate CutOff<M>(log: seq<Update<M>>, whole: seq<Update<M>>, dropAfter: Option<nat>) {
    log < whole && dropAfter == Some(|log|)
  }

  lemma IsCutOff<M>(log: seq<Update<M>>, part: seq<Update<M>>, whole: seq<Update<M>>, dropAfter: Option<nat>)
    requires CutOff(log, part, dropAfter) && part <= whole
    ensures log == Seen(whole, dropAfter) && log != whole
  {
  }

  lemma CutOffEarlier<M>(log: seq<Update<M>>, part: seq<Update<M>>, rest: seq<Update<M>>, dropAfter: Option<nat>)
    requires CutOff(log, part, dropAfter)
    ensures CutOff(log, part + rest, dropAfter)
  {
  }

  /** Sends the last update, if the console is still there. */
  method Close<M>(log0: seq<Update<M>>, last: Update<M>, dropAfter: Option<nat>) returns (log: seq<Update<M>>)
    requires dropAfter.None? || |log0| <= dropAfter.value
    ensures log == Seen(log0 + [last], dropAfter)
  {
    log := if dropAfter == Some(|log0|) then log0 else log0 + [last];
  }

  lemma StartsWithVisit<M>(limit: nat, visits: nat -> Visit<M>, idOf: M -> Option<string>, used: nat,
      id: Option<string>, log: seq<Update<M>>)
    requires used <= limit
    ensures log + Emits(visits(used).messages) <= log + Loop(limit, visits, idOf, used, id).log
    ensures Loop(limit, visits, idOf, used, id).ids != []
    ensures Loop(limit, visits, idOf, used, id).ids[0] == id
  {
    hide Emits, LastId;
  }

  lemma EndsHere<M>(limit: nat, visits: nat -> Visit<M>, idOf: M -> Option<string>, used: nat, id: Option<string>,
                    log: seq<Update<M>>, ids: seq<Option<string>>)
    requires used <= limit && (visits(used).verdict.End? || used == limit)
    ensures var visit, run := visits(used), Loop(limit, visits, idOf, used, id);
      log + run.log
      == log + Emits(visit.messages)
         + [Final(match visit.verdict case End(error) => error case Retry(_, exhausted, _) => exhausted)]
      && ids + run.ids == ids + [id]
  {
    hide Emits, LastId;
  }

  lemma WaitIsCancelled<M>(limit: nat, visits: nat -> Visit<M>, idOf: M -> Option<string>, used: nat,
      id: Option<string>, log: seq<Update<M>>, ids: seq<Option<string>>)
    requires used < limit
    requires visits(used).verdict.Retry? && visits(used).verdict.waitCancelled.Some?
    ensures var visit, run := visits(used), Loop(limit, visits, idOf, used, id);
      var again := Reconnecting(used + 1, limit, visit.verdict.delayMs, LastId(visit.messages, idOf, id));
      log + run.log == log + Emits(visit.messages) + [again] + [Failed(visit.verdict.waitCancelled.value)]
      && log + Emits(visit.messages) + [again] <= log + run.log
      && ids + run.ids == ids + [id]
  {
    hide Emits, LastId;
  }

  lemma GoesOn<M>(limit: nat, visits: nat -> Visit<M>, idOf: M -> Option<string>, used: nat, id: Option<string>,
                  log: seq<Update<M>>, ids: seq<Option<string>>)
    requires used < limit
    requires visits(used).verdict.Retry? && visits(used).verdict.waitCancelled.None?
    ensures var visit, run := visits(used), Loop(limit, visits, idOf, used, id);
      var newId := LastId(visit.messages, idOf, id);
      var again := Reconnecting(used + 1, limit, visit.verdict.delayMs, newId);
      var rest := Loop(limit, visits, idOf, used + 1, newId);
      log + run.log == log + Emits(visit.messages) + [again] + rest.log
      && log + Emits(visit.messages) + [again] <= log + run.log
      && ids + run.ids == ids + [id] + rest.ids
  {
    hide Emits, LastId;
    var rest := Loop(limit, visits, idOf, used + 1, LastId(visits(used).messages, idOf, id));
    assert Loop(limit, visits, idOf, used, id).ids == [id] + rest.ids;
  }

  // ----- What holds of every run -----

  predicate Terminal<M>(u: Update<M>) {
    u.Closed? || u.Failed?
  }

  function Reconnects<M>(log: seq<Update<M>>): nat {
    if log == [] then 0 else (if log[0].Reconnecting? then 1 else 0) + Reconnects(log[1..])
  }

  /** The id of the last forwarded message that had one. */
  function LastIdIn<M>(log: seq<Update<M>>, idOf: M -> Option<string>, before: Option<string>): Option<string> {
    if log == [] then before
    else
      LastIdIn(log[1..], idOf, if log[0].Emit? && idOf(log[0].message).Some? then idOf(log[0].message) else before)
  }

  /** The updates up to and including the `n`-th reconnect. */
  function UpTo<M>(log: seq<Update<M>>, n: nat): seq<Update<M>> {
    if n == 0 || log == [] then [] else [log[0]] + UpTo(log[1..], if log[0].Reconnecting? then n - 1 else n)
  }

  lemma {:induction false} ReconnectsConcat<M>(s: seq<Update<M>>, t: seq<Update<M>>)
    ensures Reconnects(s + t) == Reconnects(s) + Reconnects(t)
  {
    if s == [] {
      assert s + t == t;
    } else {
      assert (s + t)[1..] == s[1..] + t;
      ReconnectsConcat(s[1..], t);
    }
  }

  lemma {:induction false} LastIdConcat<M>(s: seq<Update<M>>, t: seq<Update<M>>, idOf: M -> Option<string>,
      id: Option<string>)
    ensures LastIdIn(s + t, idOf, id) == LastIdIn(t, idOf, LastIdIn(s, idOf, id))
  {
    if s == [] {
      assert s + t == t;
    } else {
      assert (s + t)[1..] == s[1..] + t;
      LastIdConcat(s[1..], t, idOf, if s[0].Emit? && idOf(s[0].message).Some? then idOf(s[0].message) else id);
    }
  }

  lemma {:induction false} EmitsOnly<M>(messages: seq<M>, idOf: M -> Option<string>, id: Option<string>)
    ensures Reconnects(Emits(messages)) == 0
    ensures LastIdIn(Emits(messages), idOf, id) == LastId(messages, idOf, id)
  {
    if messages != [] {
      var front, last := messages[..|messages| - 1], messages[|messages| - 1];
      EmitsOnly(front, idOf, id);
      assert Emits(messages) == Emits(front) + [Emit(last)];
      ReconnectsConcat(Emits(front), [Emit(last)]);
      LastIdConcat(Emits(front), [Emit(last)], idOf, id);
      assert [Emit(last)][1..] == [];
    }
  }

  /** Reconnects are numbered in order and carry the id of the last message that had one. */
  ghost predicate Numbered<M>(
      log: seq<Update<M>>, limit: nat, idOf: M -> Option<string>, used: nat, id: Option<string>)
  {
    forall i | 0 <= i < |log| && log[i].Reconnecting? ::
      && log[i].attempt == used + Reconnects(log[..i]) + 1 <= limit && log[i].maxAttempts == limit
      && log[i].lastEventId == LastIdIn(log[..i], idOf, id)
  }

  /** What the next lemma says of a run: all that the console and the server can observe. */
  ghost predicate Disciplined<M>(r: Run<M>, limit: nat, visits: nat -> Visit<M>, idOf: M -> Option<string>, used: nat,
                                 id: Option<string>)
  {
    // at most one attempt more than there may be reconnects, and one reconnect between two attempts
    && 1 <= |r.ids| <= limit - used + 1
    && |r.ids| - 1 <= Reconnects(r.log) <= |r.ids| && Reconnects(r.log) <= limit - used
    // exactly one terminal update, the last one
    && r.log != [] && Terminal(r.log[|r.log| - 1])
    && (forall i | 0 <= i < |r.log| - 1 :: !Terminal(r.log[i]))
    && Numbered(r.log, limit, idOf, used, id)
    // each attempt is made with that id, across connections
    && (forall j | 0 <= j < |r.ids| :: r.ids[j] == LastIdIn(UpTo(r.log, j), idOf, id))
    // an attempt is followed by another one only when it ended that way and the wait was not cancelled
    && (forall n | used <= n < used + |r.ids| - 1 ::
          visits(n).verdict.Retry? && visits(n).verdict.waitCancelled.None?)
  }

  lemma ShortRunIsDisciplined<M>(limit: nat, visits: nat -> Visit<M>, idOf: M -> Option<string>, used: nat,
      id: Option<string>)
    requires used <= limit
    requires var v := visits(used).verdict; v.End? || used == limit
    ensures Disciplined(Loop(limit, visits, idOf, used, id), limit, visits, idOf, used, id)
  {
    hide Disciplined, LastId, LastIdIn;
    var v := visits(used).verdict;
    var last: Update<M> := Final(if v.End? then v.error else v.exhausted);
    EmitsOnly(visits(used).messages, idOf, id);
    LastIsTerminal(Emits(visits(used).messages), last, limit, visits, idOf, used, id);
  }

  lemma LastIsTerminal<M>(
      sent: seq<Update<M>>, last: Update<M>, limit: nat, visits: nat -> Visit<M>, idOf: M -> Option<string>, used: nat,
      id: Option<string>)
    requires used <= limit && Terminal(last) && forall i | 0 <= i < |sent| :: sent[i].Emit?
    requires Reconnects(sent) == 0
    ensures Disciplined(Run(sent + [last], [id]), limit, visits, idOf, used, id)
  {
    hide *;
    var r := Run(sent + [last], [id]);
    assert Reconnects(r.log) == 0 by {
      CountOne(last);
      ReconnectsConcat(sent, [last]);
      TerminalIsLast(last);
    }
    StartsHere(r.log, idOf, id);
    NoReconnects(sent, last, limit, idOf, used, id);
    OneAttempt(r, limit, visits, idOf, used, id);
  }

  lemma TerminalIsLast<M>(last: Update<M>)
    requires Terminal(last)
    ensures !last.Reconnecting? && !last.Emit?
  {
  }

  lemma NoReconnects<M>(
      sent: seq<Update<M>>, last: Update<M>, limit: nat, idOf: M -> Option<string>, used: nat, id: Option<string>)
    requires Terminal(last) && forall i | 0 <= i < |sent| :: sent[i].Emit?
    ensures var log := sent + [last];
      Numbered(log, limit, idOf, used, id) && log[|sent|] == last
      && forall i | 0 <= i < |sent| :: !Terminal(log[i])
  {
    hide Reconnects, LastIdIn;
    var log := sent + [last];
    assert forall i | 0 <= i < |sent| :: log[i] == sent[i];
  }

  lemma OneAttempt<M>(
      r: Run<M>, limit: nat, visits: nat -> Visit<M>, idOf: M -> Option<string>, used: nat, id: Option<string>)
    requires used <= limit && r.ids == [id] && Reconnects(r.log) == 0 && Numbered(r.log, limit, idOf, used, id)
    requires r.log != [] && Terminal(r.log[|r.log| - 1]) && forall i | 0 <= i < |r.log| - 1 :: !Terminal(r.log[i])
    requires LastIdIn(UpTo(r.log, 0), idOf, id) == id
    ensures Disciplined(r, limit, visits, idOf, used, id)
  {
    hide Reconnects, LastIdIn, UpTo, Numbered, Terminal;
  }

  /** After `sent` and a reconnect, the rest of a disciplined run is again disciplined. */
  lemma ReconnectKeepsDiscipline<M>(
    limit: nat, visits: nat -> Visit<M>, idOf: M -> Option<string>, used: nat, id: Option<string>,
    tail: Run<M>, again: Update<M>)
    requires used < limit && visits(used).verdict.Retry? && visits(used).verdict.waitCancelled.None?
    requires var newId := LastId(visits(used).messages, idOf, id);
      again == Reconnecting(used + 1, limit, visits(used).verdict.delayMs, newId)
      && Disciplined(tail, limit, visits, idOf, used + 1, newId)
    ensures Disciplined(Run(Emits(visits(used).messages) + [again] + tail.log, [id] + tail.ids),
                        limit, visits, idOf, used, id)
  {
    var sent := Emits(visits(used).messages);
    var head, n := sent + [again], |sent| + 1;
    var r := Run(head + tail.log, [id] + tail.ids);
    HeadFacts(visits(used).messages, again, idOf, id);
    EmitsOnly(visits(used).messages, idOf, id);
    assert forall i | 0 <= i < |sent| :: sent[i].Emit?;
    StartsHere(r.log, idOf, id);
    hide Emits, Reconnects, LastIdIn, LastId, UpTo;
    ReconnectsConcat(head, tail.log);
    forall i | 0 <= i < |r.log| - 1 ensures !Terminal(r.log[i]) {
    }
    NumberedAfter(sent, again, tail.log, limit, idOf, used, id);
    forall j | 0 <= j < |r.ids| ensures r.ids[j] == LastIdIn(UpTo(r.log, j), idOf, id) {
      if j > 0 {
        UpToReconnect(sent, again, tail.log, j);
        LastIdConcat(head, UpTo(tail.log, j - 1), idOf, id);
      }
    }
  }

  lemma NumberedAfter<M>(
      sent: seq<Update<M>>, again: Update<M>, rest: seq<Update<M>>, limit: nat, idOf: M -> Option<string>, used: nat,
      id: Option<string>)
    requires forall i | 0 <= i < |sent| :: sent[i].Emit?
    requires var newId := LastIdIn(sent + [again], idOf, id);
      again.Reconnecting? && again.attempt == used + 1 <= limit && again.maxAttempts == limit
      && Reconnects(sent) == 0 && Reconnects(sent + [again]) == 1 && again.lastEventId == LastIdIn(sent, idOf, id)
      && Numbered(rest, limit, idOf, used + 1, newId)
    ensures Numbered(sent + [again] + rest, limit, idOf, used, id)
  {
    hide Reconnects, LastIdIn;
    var head, n, log := sent + [again], |sent| + 1, sent + [again] + rest;
    forall i | 0 <= i < |log| && log[i].Reconnecting?
      ensures log[i].attempt == used + Reconnects(log[..i]) + 1 <= limit && log[i].maxAttempts == limit
      ensures log[i].lastEventId == LastIdIn(log[..i], idOf, id)
    {
      if i < n {
        assert log[i] == head[i];
        assert i == |sent| && log[..i] == sent;
      } else {
        assert log[..i] == head + rest[..i - n];
        ReconnectsConcat(head, rest[..i - n]);
        LastIdConcat(head, rest[..i - n], idOf, id);
      }
    }
  }

  lemma StartsHere<M>(log: seq<Update<M>>, idOf: M -> Option<string>, id: Option<string>)
    ensures UpTo(log, 0) == [] && LastIdIn<M>([], idOf, id) == id
  {
  }

  lemma HeadFacts<M>(messages: seq<M>, again: Update<M>, idOf: M -> Option<string>, id: Option<string>)
    requires again.Reconnecting?
    ensures Reconnects(Emits(messages) + [again]) == 1
    ensures LastIdIn(Emits(messages) + [again], idOf, id) == LastId(messages, idOf, id)
  {
    EmitsOnly(messages, idOf, id);
    ReconnectsConcat(Emits(messages), [again]);
    LastIdConcat(Emits(messages), [again], idOf, id);
    assert [again][1..] == [];
  }

  lemma {:induction false} UpToReconnect<M>(sent: seq<Update<M>>, again: Update<M>, rest: seq<Update<M>>, n: nat)
    requires n > 0 && again.Reconnecting? && forall i | 0 <= i < |sent| :: sent[i].Emit?
    ensures UpTo(sent + [again] + rest, n) == sent + [again] + UpTo(rest, n - 1)
  {
    var log := sent + [again] + rest;
    if sent == [] {
      assert log[1..] == rest;
    } else {
      assert log[1..] == sent[1..] + [again] + rest;
      UpToReconnect(sent[1..], again, rest, n);
    }
  }

  /** Main result: every run of the loop, in every environment, is disciplined. */
  lemma {:induction false} EveryRunIsDisciplined<M>(
    limit: nat, visits: nat -> Visit<M>, idOf: M -> Option<string>, used: nat, id: Option<string>)
    requires used <= limit
    ensures Disciplined(Loop(limit, visits, idOf, used, id), limit, visits, idOf, used, id)
    decreases limit - used
  {
    hide Disciplined, Emits, LastId;
    var v := visits(used).verdict;
    if v.End? || used == limit {
      ShortRunIsDisciplined(limit, visits, idOf, used, id);
    } else {
      var newId := LastId(visits(used).messages, idOf, id);
      if v.waitCancelled.Some? {
        CancelledWaitIsDisciplined(limit, visits, idOf, used, id);
      } else {
        EveryRunIsDisciplined(limit, visits, idOf, used + 1, newId);
        ReconnectKeepsDiscipline(limit, visits, idOf, used, id, Loop(limit, visits, idOf, used + 1, newId),
                                 Reconnecting(used + 1, limit, v.delayMs, newId));
      }
    }
  }

  lemma CancelledWaitIsDisciplined<M>(
    limit: nat, visits: nat -> Visit<M>, idOf: M -> Option<string>, used: nat, id: Option<string>)
    requires used < limit && visits(used).verdict.Retry? && visits(used).verdict.waitCancelled.Some?
    ensures Disciplined(Loop(limit, visits, idOf, used, id), limit, visits, idOf, used, id)
  {
    var r, messages := Loop(limit, visits, idOf, used, id), visits(used).messages;
    var again, last := r.log[|messages|], r.log[|messages| + 1];
    assert r.log == Emits(messages) + [again] + [last];
    HeadFacts(messages, again, idOf, id);
    EmitsOnly(messages, idOf, id);
    ReconnectsConcat(Emits(messages) + [again], [last]);
    assert [last][1..] == [];
    assert r.log[..|messages|] == Emits(messages);
    assert forall i | 0 <= i < |messages| :: r.log[i] == Emits(messages)[i] && r.log[i].Emit?;
  }

  // ----- Runs that the user cuts short -----

  /**
   * The cancellation token, over the select points of a run in the order in which they are reached: it is set
   * while the select `at` is pending or before, and stays set. `late` says of which selects another branch
   * was ready too and won all the same; `select!` polls its branches in random order.
   */
  datatype Token = Token(at: Option<nat>, late: nat -> bool)

  const NEVER := Token(None, (k: nat) => false)

  /** The token was set when this select was decided. */
  predicate IsSet(token: Token, k: nat) {
    token.at.Some? && token.at.value <= k
  }

  /** The cancellation wins this select. */
  predicate Stops(token: Token, k: nat) {
    IsSet(token, k) && !token.late(k)
  }

  /** The first of some selects in a row that the cancellation wins. */
  function FirstStop(token: Token, from: nat, count: nat): (r: Option<nat>)
    ensures r.Some? ==> from <= r.value < from + count && Stops(token, r.value)
    ensures forall k | from <= k < (if r.Some? then r.value else from + count) :: !Stops(token, k)
    decreases count
  {
    if count == 0 then None
    else if Stops(token, from) then Some(from)
    else FirstStop(token, from + 1, count - 1)
  }

  /** A visit that leaves off where the other one goes on, its last update being `last`. */
  ghost predicate CutShort<M>(visit: Visit<M>, free: Visit<M>, last: Update<M>, mayWait: bool) {
    (visit.messages <= free.messages && visit.verdict.End? && last == Final(visit.verdict.error))
    || (mayWait && visit.messages == free.messages && free.verdict.Retry? && free.verdict.waitCancelled.None?
        && visit.verdict.Retry? && visit.verdict.waitCancelled.Some?
        && visit.verdict == free.verdict.(waitCancelled := visit.verdict.waitCancelled)
        && last == Failed(visit.verdict.waitCancelled.value))
  }

  /** A run is followed by another attempt after every one but its last. */
  lemma GoesOnUntilLast<M>(
    limit: nat, visits: nat -> Visit<M>, idOf: M -> Option<string>, used: nat, id: Option<string>, n: nat)
    requires used <= limit && used <= n < used + |Loop(limit, visits, idOf, used, id).ids| - 1
    ensures n < limit && visits(n).verdict.Retry? && visits(n).verdict.waitCancelled.None?
  {
    hide Loop;
    EveryRunIsDisciplined(limit, visits, idOf, used, id);
  }

  /** It stops after its last one. */
  lemma {:induction false} StopsAtLast<M>(
    limit: nat, visits: nat -> Visit<M>, idOf: M -> Option<string>, used: nat, id: Option<string>)
    requires used <= limit
    ensures var ids := Loop(limit, visits, idOf, used, id).ids; var n := used + |ids| - 1;
      ids != [] && n <= limit
      && (n == limit || visits(n).verdict.End? || visits(n).verdict.waitCancelled.Some?)
    decreases limit - used
  {
    hide Emits, LastId;
    var v := visits(used).verdict;
    if used < limit && v.Retry? && v.waitCancelled.None? {
      StopsAtLast(limit, visits, idOf, used + 1, LastId(visits(used).messages, idOf, id));
    }
  }

  lemma {:induction false} SameRun<M>(
    limit: nat, visits: nat -> Visit<M>, free: nat -> Visit<M>, idOf: M -> Option<string>, used: nat,
    id: Option<string>)
    requires used <= limit
    requires forall n | used <= n < used + |Loop(limit, visits, idOf, used, id).ids| :: visits(n) == free(n)
    ensures Loop(limit, visits, idOf, used, id) == Loop(limit, free, idOf, used, id)
    decreases limit - used
  {
    hide Emits, LastId;
    StopsAtLast(limit, visits, idOf, used, id);
    assert visits(used) == free(used);
    var v := visits(used).verdict;
    if used < limit && v.Retry? && v.waitCancelled.None? {
      var newId := LastId(visits(used).messages, idOf, id);
      var rest := Loop(limit, visits, idOf, used + 1, newId);
      assert Loop(limit, visits, idOf, used, id).ids == [id] + rest.ids;
      SameRun(limit, visits, free, idOf, used + 1, newId);
    }
  }

  /** `run` makes the attempts of `whole` up to its own last one, and ends with `last` instead of going on. */
  ghost predicate LeavesOff<M>(run: Run<M>, whole: Run<M>, last: Update<M>) {
    run.ids != [] && run.ids <= whole.ids
    && 0 < |run.log| <= |whole.log| + 1 && run.log == whole.log[..|run.log| - 1] + [last]
  }

  lemma CutHere<M>(
    limit: nat, visits: nat -> Visit<M>, free: nat -> Visit<M>, idOf: M -> Option<string>, used: nat,
    id: Option<string>,
    last: Update<M>)
    requires used <= limit && CutShort(visits(used), free(used), last, used < limit)
    ensures |Loop(limit, visits, idOf, used, id).ids| == 1
    ensures LeavesOff(Loop(limit, visits, idOf, used, id), Loop(limit, free, idOf, used, id), last)
  {
    hide LastId;
    var r, f := Loop(limit, visits, idOf, used, id), Loop(limit, free, idOf, used, id);
    var part, sent := Emits(visits(used).messages), Emits(free(used).messages);
    assert part <= sent && sent <= f.log;
    if visits(used).verdict.End? {
      assert r.log == part + [last];
    } else {
      var again := r.log[|part|];
      assert r.log == part + [again] + [last];
      assert part + [again] <= f.log;
    }
  }

  lemma {:induction false} CutRun<M>(
    limit: nat, visits: nat -> Visit<M>, free: nat -> Visit<M>, idOf: M -> Option<string>, used: nat,
    id: Option<string>,
    n: nat, last: Update<M>)
    requires used <= n <= limit && CutShort(visits(n), free(n), last, n < limit)
    requires forall i | used <= i < n ::
      visits(i) == free(i) && free(i).verdict.Retry? && free(i).verdict.waitCancelled.None?
    ensures |Loop(limit, visits, idOf, used, id).ids| == n - used + 1
    ensures LeavesOff(Loop(limit, visits, idOf, used, id), Loop(limit, free, idOf, used, id), last)
    decreases limit - used
  {
    hide Emits, LastId, CutShort;
    if used == n {
      CutHere(limit, visits, free, idOf, used, id, last);
    } else {
      var visit := free(used);
      assert visits(used) == visit;
      var newId := LastId(visit.messages, idOf, id);
      CutRun(limit, visits, free, idOf, used + 1, newId, n, last);
      hide Loop;
      GoesOn(limit, visits, idOf, used, id, [], []);
      GoesOn(limit, free, idOf, used, id, [], []);
      var sent := Emits(visit.messages) + [Reconnecting(used + 1, limit, visit.verdict.delayMs, newId)];
      var r, f := Loop(limit, visits, idOf, used + 1, newId), Loop(limit, free, idOf, used + 1, newId);
      Prepend(sent, r, f, last, id);
      WithNothing(Loop(limit, visits, idOf, used, id), Loop(limit, free, idOf, used, id));
      SentFirst(visit.messages, Reconnecting(used + 1, limit, visit.verdict.delayMs, newId), r.log, f.log);
    }
  }

  lemma WithNothing<M>(r: Run<M>, f: Run<M>)
    ensures [] + r.log == r.log && [] + f.log == f.log && [] + r.ids == r.ids && [] + f.ids == f.ids
  {
  }

  lemma SentFirst<M>(messages: seq<M>, again: Update<M>, r: seq<Update<M>>, f: seq<Update<M>>)
    ensures [] + Emits(messages) + [again] + r == Emits(messages) + [again] + r
    ensures [] + Emits(messages) + [again] + f == Emits(messages) + [again] + f
  {
    hide Emits;
    assert [] + Emits(messages) == Emits(messages);
  }

  lemma Prepend<M>(sent: seq<Update<M>>, r: Run<M>, f: Run<M>, last: Update<M>, id: Option<string>)
    requires LeavesOff(r, f, last)
    ensures LeavesOff(Run(sent + r.log, [] + [id] + r.ids), Run(sent + f.log, [] + [id] + f.ids), last)
  {
    var n := |r.log| - 1;
    assert sent + r.log == (sent + f.log)[..|sent| + n] + [last];
  }

  /**
   * Main result: when each attempt either is as it would be without the user or is cut short by him, the whole
   * run is as it would be without the user, or leaves off in the attempt that is cut short.
   */
  lemma CutOrSame<M>(
    limit: nat, visits: nat -> Visit<M>, free: nat -> Visit<M>, idOf: M -> Option<string>, ended: nat -> bool,
    last: nat -> Update<M>)
    requires forall n | 0 <= n < |Loop(limit, visits, idOf, 0, None).ids| ::
      if ended(n) then CutShort(visits(n), free(n), last(n), n < limit) else visits(n) == free(n)
    ensures var run, whole := Loop(limit, visits, idOf, 0, None), Loop(limit, free, idOf, 0, None);
      var n := |run.ids| - 1;
      run.ids != [] && (forall i | 0 <= i < n :: !ended(i))
      && if ended(n) then LeavesOff(run, whole, last(n)) else run == whole
  {
    hide Loop, CutShort;
    StopsAtLast(limit, visits, idOf, 0, None);
    var n := |Loop(limit, visits, idOf, 0, None).ids| - 1;
    forall i | 0 <= i < n
      ensures visits(i) == free(i) && free(i).verdict.Retry? && free(i).verdict.waitCancelled.None? && !ended(i)
    {
      GoesOnUntilLast(limit, visits, idOf, 0, None, i);
      if ended(i) {
        CutDoesNotGoOn(visits(i), free(i), last(i), i < limit);
      }
    }
    if ended(n) {
      CutRun(limit, visits, free, idOf, 0, None, n, last(n));
    } else {
      SameRun(limit, visits, free, idOf, 0, None);
    }
  }

  lemma CutDoesNotGoOn<M>(visit: Visit<M>, free: Visit<M>, last: Update<M>, mayWait: bool)
    requires CutShort(visit, free, last, mayWait)
    ensures visit.verdict.End? || visit.verdict.waitCancelled.Some?
  {
  }

  /** When no wait is cancelled, every reconnect that is announced is made. */
  lemma {:induction false} AnnouncedIsMade<M>(
    limit: nat, visits: nat -> Visit<M>, idOf: M -> Option<string>, used: nat, id: Option<string>)
    requires used <= limit
    requires forall n: nat | used <= n < limit && visits(n).verdict.Retry? :: visits(n).verdict.waitCancelled.None?
    ensures var run := Loop(limit, visits, idOf, used, id); Reconnects(run.log) == |run.ids| - 1
    decreases limit - used
  {
    hide Emits, LastId, Reconnects;
    var visit := visits(used);
    EmitsOnly(visit.messages, idOf, id);
    if visit.verdict.End? || used == limit {
      var last := Loop(limit, visits, idOf, used, id).log[|visit.messages|];
      ReconnectsConcat(Emits(visit.messages), [last]);
      CountOne(last);
    } else {
      var newId := LastId(visit.messages, idOf, id);
      var again := Reconnecting(used + 1, limit, visit.verdict.delayMs, newId);
      var rest := Loop(limit, visits, idOf, used + 1, newId);
      AnnouncedIsMade(limit, visits, idOf, used + 1, newId);
      ReconnectsConcat(Emits(visit.messages) + [again], rest.log);
      ReconnectsConcat(Emits(visit.messages), [again]);
      CountOne(again);
    }
  }

  lemma CountOne<M>(u: Update<M>)
    ensures Reconnects([u]) == if u.Reconnecting? then 1 else 0
  {
    assert [u][1..] == [];
  }
}

/** The log of a run, attempt by attempt. */
module ReconnectLog {
  import opened Wrappers
  import opened Reconnect

  /** What the first `n` attempts from `used` on leave in the log, each followed by another one. */
  function Attempts<M>(limit: nat, visits: nat -> Visit<M>, ids: seq<Option<string>>, used: nat, n: nat): seq<Update<M>>
    requires n < |ids| && forall i | used <= i < used + n :: visits(i).verdict.Retry?
    decreases n
  {
    if n == 0 then []
    else
      Emits(visits(used).messages) + [Reconnecting(used + 1, limit, visits(used).verdict.delayMs, ids[1])]
      + Attempts(limit, visits, ids[1..], used + 1, n - 1)
  }

  /** How the log ends after the messages of the last attempt. */
  function Ending<M>(limit: nat, visit: Visit<M>, idOf: M -> Option<string>, id: Option<string>, n: nat): seq<Update<M>>
    requires visit.verdict.Retry? && n < limit ==> visit.verdict.waitCancelled.Some?
  {
    match visit.verdict
    case End(None) => [Closed]
    case End(Some(error)) => [Failed(error)]
    case Retry(delay, exhausted, waitCancelled) =>
      if n < limit then
        [Reconnecting(n + 1, limit, delay, LastId(visit.messages, idOf, id)), Failed(waitCancelled.value)]
      else if exhausted.None? then [Closed]
      else [Failed(exhausted.value)]
  }

  ghost predicate IsLog<M>(
      run: Run<M>, limit: nat, visits: nat -> Visit<M>, idOf: M -> Option<string>, used: nat)
  {
    && run.ids != [] && used + |run.ids| - 1 <= limit
    && (forall i | used <= i < used + |run.ids| - 1 ::
          visits(i).verdict.Retry? && visits(i).verdict.waitCancelled.None?)
    && var n := used + |run.ids| - 1;
      && (visits(n).verdict.Retry? && n < limit ==> visits(n).verdict.waitCancelled.Some?)
      && run.log == Attempts(limit, visits, run.ids, used, |run.ids| - 1) + Emits(visits(n).messages)
                    + Ending(limit, visits(n), idOf, run.ids[|run.ids| - 1], n)
  }

  lemma LastAttempt<M>(
      limit: nat, visits: nat -> Visit<M>, idOf: M -> Option<string>, used: nat, id: Option<string>)
    requires used <= limit
    requires visits(used).verdict.Retry? && used < limit ==> visits(used).verdict.waitCancelled.Some?
    ensures IsLog(Loop(limit, visits, idOf, used, id), limit, visits, idOf, used)
  {
    hide Emits, LastId;
    var run := Loop(limit, visits, idOf, used, id);
    assert Attempts(limit, visits, run.ids, used, 0) == [];
    assert [] + Emits(visits(used).messages) == Emits(visits(used).messages);
  }

  lemma OneAttemptMore<M>(
      limit: nat, visits: nat -> Visit<M>, idOf: M -> Option<string>, used: nat, id: Option<string>, rest: Run<M>)
    requires used < limit && visits(used).verdict.Retry? && visits(used).verdict.waitCancelled.None?
    requires IsLog(rest, limit, visits, idOf, used + 1)
    requires rest.ids[0] == LastId(visits(used).messages, idOf, id)
    ensures var again := Reconnecting(used + 1, limit, visits(used).verdict.delayMs, rest.ids[0]);
      IsLog(Run(Emits(visits(used).messages) + [again] + rest.log, [id] + rest.ids), limit, visits, idOf, used)
  {
    hide Emits, LastId, Ending;
    var again: Update<M> := Reconnecting(used + 1, limit, visits(used).verdict.delayMs, rest.ids[0]);
    var ids, m, n := [id] + rest.ids, |rest.ids| - 1, used + |rest.ids|;
    assert ids[1..] == rest.ids && ids[1] == rest.ids[0];
    var head, sent := Emits(visits(used).messages) + [again], Attempts(limit, visits, rest.ids, used + 1, m);
    var last, end := Emits(visits(n).messages), Ending(limit, visits(n), idOf, rest.ids[m], n);
    assert Attempts(limit, visits, ids, used, m + 1) == head + sent;
    Regroup(head, sent, last, end);
  }

  lemma Regroup<M>(head: seq<M>, sent: seq<M>, last: seq<M>, end: seq<M>)
    ensures head + (sent + last + end) == head + sent + last + end
  {
  }

  /**
   * Main result: the log of a run is that of its attempts, one after the other: the messages of each, the announcement
   * of the next with its number, delay and id, and after the last one how it ended. An attempt is the last one when it
   * ends for good, when no other one may follow, or when the wait after it is cancelled.
   */
  lemma {:induction false} RunIsItsAttempts<M>(
      limit: nat, visits: nat -> Visit<M>, idOf: M -> Option<string>, used: nat, id: Option<string>)
    requires used <= limit
    ensures IsLog(Loop(limit, visits, idOf, used, id), limit, visits, idOf, used)
    ensures Loop(limit, visits, idOf, used, id).ids[0] == id
    decreases limit - used
  {
    hide Emits, LastId, IsLog;
    var v := visits(used).verdict;
    if v.Retry? && used < limit && v.waitCancelled.None? {
      var newId := LastId(visits(used).messages, idOf, id);
      RunIsItsAttempts(limit, visits, idOf, used + 1, newId);
      OneAttemptMore(limit, visits, idOf, used, id, Loop(limit, visits, idOf, used + 1, newId));
    } else {
      LastAttempt(limit, visits, idOf, used, id);
    }
  }
}
