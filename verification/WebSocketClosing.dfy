/** Closing and cancelling a WebSocket: what the user can end, and what he cannot. */
module WebSocketClosing {
  import opened Wrappers
  import opened Reconnect
  import opened WebSocketWorker

  /** The commands before the first one that closes. */
  function BeforeLeave(commands: seq<Queued>): (r: seq<Queued>)
    ensures r <= commands && forall queued <- r :: queued.command != Leave
    ensures |r| < |commands| ==> commands[|r|].command == Leave
  {
    if commands == [] || commands[0].command == Leave then [] else [commands[0]] + BeforeLeave(commands[1..])
  }

  /** The same environment with a user who neither closes nor cancels. */
  function Free(env: Env): Env {
    env.(commands := BeforeLeave(env.commands), token := NEVER)
  }

  predicate EndsByUser(turns: seq<Turn>) {
    turns != [] && (turns[|turns| - 1].UserCloses? || turns[|turns| - 1].UserCancels?)
  }

  predicate UserEnds(a: Attempt) {
    match a
    case CancelledConnecting => true
    case ConnectFailed(_, waiting) => waiting
    case HandshakeTimedOut(waiting) => waiting
    case Session(turns, waiting) => EndsByUser(turns) || waiting
  }

  /** What the console sees last when the user ends an attempt: a plain close of a session, or an error. */
  function LastUpdate(a: Attempt): Update<Message> {
    if a.Session? && EndsByUser(a.turns) then Closed else Failed(CANCELLED)
  }

  // ----- One session -----

  /** A turn of an environment is the turn without the user's closing, or that closing. */
  lemma TurnIsCutOrSame(env: Env, frames: seq<Frame>, place: Place)
    requires place.taken <= |BeforeLeave(env.commands)|
    ensures var (turn, more, next) := NextTurn(env, frames, place);
      if turn.UserCloses? || turn.UserCancels? then
        Stops(env.token, place.select_)
        || (place.taken == |BeforeLeave(env.commands)| < |env.commands|
            && env.commands[place.taken].at <= place.select_ && env.takes(place.select_))
      else
        !Stops(env.token, place.select_) && NextTurn(Free(env), frames, place) == (turn, more, next)
        && next.taken <= |BeforeLeave(env.commands)|
  {
  }

  /** A session is as it would be without the user's closing, or stops where it closes. */
  lemma {:induction false} SessionIsCutOrSame(env: Env, frames: seq<Frame>, place: Place)
    requires place.taken <= |BeforeLeave(env.commands)|
    ensures var (turns, end) := SessionFrom(env, frames, place);
      var (all, freeEnd) := SessionFrom(Free(env), frames, place);
      place.select_ < end.select_
      && if EndsByUser(turns) then
           Play(turns).1 == ByUser && Play(turns).0 <= Play(all).0 && end.select_ <= freeEnd.select_
           && (env.token == NEVER ==>
                 |BeforeLeave(env.commands)| < |env.commands|
                 && env.commands[|BeforeLeave(env.commands)|].at < end.select_)
         else (turns, end) == (all, freeEnd) && end.taken <= |BeforeLeave(env.commands)|
    decreases |frames| + |env.commands| - place.taken
  {
    hide BeforeLeave, NextTurn, TakesCommand, Stops, EffectOf, SessionFrom, Play;
    var (turn, more, next) := NextTurn(env, frames, place);
    TurnFacts(env, frames, place);
    SessionStep(env, frames, place);
    SessionStep(Free(env), frames, place);
    TurnIsCutOrSame(env, frames, place);
    NeverStops(place.select_);
    if turn.UserCloses? || turn.UserCancels? {
      UserTurnEnds(turn);
      FreeEnd(env, frames, place);
    } else if !EffectOf(turn).Ends? {
      SessionIsCutOrSame(env, more, next);
      SessionNotEmpty(env, more, next);
      PlayFirst(turn, SessionFrom(env, more, next).0);
      PlayFirst(turn, SessionFrom(Free(env), more, next).0);
    }
  }

  lemma NeverStops(k: nat)
    ensures !Stops(NEVER, k)
  {
  }

  lemma TurnFacts(env: Env, frames: seq<Frame>, place: Place)
    requires place.taken <= |env.commands|
    ensures var (turn, more, next) := NextTurn(env, frames, place);
      next.select_ == place.select_ + 1 && next.taken <= |env.commands|
      && (!EffectOf(turn).Ends? ==> |more| + |env.commands| - next.taken < |frames| + |env.commands| - place.taken)
  {
  }

  lemma SessionStep(env: Env, frames: seq<Frame>, place: Place)
    requires place.taken <= |env.commands|
    ensures var (turn, more, next) := NextTurn(env, frames, place);
      next.taken <= |env.commands|
      && SessionFrom(env, frames, place)
         == if EffectOf(turn).Ends? then ([turn], next)
            else ([turn] + SessionFrom(env, more, next).0, SessionFrom(env, more, next).1)
  {
    TurnFacts(env, frames, place);
    hide NextTurn, EffectOf;
  }

  lemma UserTurnEnds(turn: Turn)
    requires turn.UserCloses? || turn.UserCancels?
    ensures EffectOf(turn) == Ends(None, ByUser) && Play([turn]) == ([], ByUser)
  {
    assert [turn][1..] == [];
  }

  lemma {:induction false} FreeEnd(env: Env, frames: seq<Frame>, place: Place)
    requires place.taken <= |BeforeLeave(env.commands)|
    ensures place.select_ + 1 <= SessionFrom(Free(env), frames, place).1.select_
    decreases |frames| + |BeforeLeave(env.commands)| - place.taken
  {
    hide BeforeLeave, NextTurn, EffectOf;
    var (turn, more, next) := NextTurn(Free(env), frames, place);
    TurnFacts(Free(env), frames, place);
    if !EffectOf(turn).Ends? {
      FreeEnd(env, more, next);
    }
  }

  lemma SessionNotEmpty(env: Env, frames: seq<Frame>, place: Place)
    requires place.taken <= |env.commands|
    ensures SessionFrom(env, frames, place).0 != []
  {
    hide NextTurn, EffectOf;
  }

  lemma PlayFirst(turn: Turn, turns: seq<Turn>)
    requires !EffectOf(turn).Ends?
    ensures Play([turn] + turns).1 == Play(turns).1
    ensures Play([turn] + turns).0 == (if EffectOf(turn).Reports? then [EffectOf(turn).message] else []) + Play(turns).0
    ensures turns != [] ==> ([turn] + turns)[|turns|] == turns[|turns| - 1]
  {
    hide EffectOf;
    assert ([turn] + turns)[1..] == turns;
  }

  // ----- One attempt -----

  lemma AttemptIsCutOrSame(env: Env, plan: Plan, at: Place, mayWait: bool)
    requires at.taken <= |BeforeLeave(env.commands)|
    ensures var (a, next) := Resolve(env, plan, at, mayWait);
      var (b, freeNext) := Resolve(Free(env), plan, at, mayWait);
      if UserEnds(a) then CutShort(VisitOf(a), VisitOf(b), LastUpdate(a), mayWait)
      else a == b && next == freeNext && next.taken <= |BeforeLeave(env.commands)|
  {
    hide SessionFrom, BeforeLeave, Play, EndsByUser, Stops;
    NeverStops(at.select_);
    NeverStops(at.select_ + 1);
    if plan.connect.Opens? {
      var place := at.(select_ := at.select_ + 1);
      SessionIsCutOrSame(env, plan.frames, place);
      NeverStops(SessionFrom(Free(env), plan.frames, place).1.select_);
    }
  }

  lemma UserEndsTheVisit(env: Env, plan: Plan, at: Place, mayWait: bool)
    requires at.taken <= |BeforeLeave(env.commands)|
    ensures var a := Resolve(env, plan, at, mayWait).0;
      UserEnds(a) ==> VisitOf(a).verdict.End? || VisitOf(a).verdict.waitCancelled.Some?
  {
    hide Resolve, VisitOf, UserEnds, BeforeLeave;
    var a := Resolve(env, plan, at, mayWait).0;
    AttemptIsCutOrSame(env, plan, at, mayWait);
    if UserEnds(a) {
      CutDoesNotGoOn(VisitOf(a), VisitOf(Resolve(Free(env), plan, at, mayWait).0), LastUpdate(a), mayWait);
    }
  }

  // ----- The whole run -----

  /** The attempts of a run begin where they would without the user's closing. */
  lemma {:induction false} SamePlaces(env: Env, limit: nat, n: nat)
    requires n < |RunIn(env, limit).ids|
    ensures PlaceOf(env, n) == PlaceOf(Free(env), n) && PlaceOf(env, n).taken <= |BeforeLeave(env.commands)|
    decreases n
  {
    hide RunIn, Resolve, BeforeLeave, UserEnds;
    if n > 0 {
      SamePlaces(env, limit, n - 1);
      NotEndedBefore(env, limit, n - 1);
      AttemptIsCutOrSame(env, env.plans(n - 1), PlaceOf(env, n - 1), true);
    }
  }

  lemma NotEndedBefore(env: Env, limit: nat, n: nat)
    requires n + 1 < |RunIn(env, limit).ids| && PlaceOf(env, n).taken <= |BeforeLeave(env.commands)|
    ensures n < limit && !UserEnds(Resolve(env, env.plans(n), PlaceOf(env, n), true).0)
    ensures var v := VisitOf(Resolve(env, env.plans(n), PlaceOf(env, n), true).0).verdict;
      v.Retry? && v.waitCancelled.None?
  {
    hide Loop, Resolve, VisitOf, PlaceOf, BeforeLeave, UserEnds;
    GoesOnUntilLast(limit, Visits(AttemptsIn(env, limit)), NoId, 0, None, n);
    UserEndsTheVisit(env, env.plans(n), PlaceOf(env, n), true);
  }

  /**
   * Main result: in every environment the run is as it would be without the user's closing and cancelling, or
   * leaves off in the attempt that he ends: with a plain close when he ends a session, and else with an error.
   */
  lemma UserCutsTheRun(env: Env, limit: nat)
    ensures var run, free := RunIn(env, limit), RunIn(Free(env), limit); var n := |run.ids| - 1;
      run.ids != [] && (forall i | 0 <= i < n :: !UserEnds(AttemptsIn(env, limit)(i)))
      && if UserEnds(AttemptsIn(env, limit)(n)) then LeavesOff(run, free, LastUpdate(AttemptsIn(env, limit)(n)))
         else run == free
  {
    hide Loop, VisitOf, Resolve, CutShort, UserEnds, LeavesOff, PlaceOf, LastUpdate, BeforeLeave;
    var attempts, free := AttemptsIn(env, limit), AttemptsIn(Free(env), limit);
    var ended, last := (n: nat) => UserEnds(attempts(n)), (n: nat) => LastUpdate(attempts(n));
    forall n | 0 <= n < |RunIn(env, limit).ids|
      ensures if ended(n) then CutShort(Visits(attempts)(n), Visits(free)(n), last(n), n < limit)
              else Visits(attempts)(n) == Visits(free)(n)
    {
      SamePlaces(env, limit, n);
      AttemptIsCutOrSame(env, env.plans(n), PlaceOf(env, n), n < limit);
    }
    CutOrSame(limit, Visits(attempts), Visits(free), NoId, ended, last);
    assert forall i | 0 <= i < |RunIn(env, limit).ids| - 1 :: ended(i) == UserEnds(AttemptsIn(env, limit)(i));
  }

  lemma {:induction false} PlacesInOrder(env: Env, i: nat, n: nat)
    requires i <= n
    ensures PlaceOf(env, i).select_ <= PlaceOf(env, n).select_
    decreases n
  {
    hide Resolve;
    if i < n {
      PlacesInOrder(env, i, n - 1);
      PlaceMovesOn(env, env.plans(n - 1), PlaceOf(env, n - 1));
    }
  }

  lemma PlaceMovesOn(env: Env, plan: Plan, at: Place)
    requires at.taken <= |env.commands|
    ensures at.select_ <= Resolve(env, plan, at, true).1.select_
  {
    hide NextTurn, SessionFrom;
    if plan.connect.Opens? {
      SessionMovesOn(env, plan.frames, at.(select_ := at.select_ + 1));
    }
  }

  lemma {:induction false} SessionMovesOn(env: Env, frames: seq<Frame>, place: Place)
    requires place.taken <= |env.commands|
    ensures place.select_ < SessionFrom(env, frames, place).1.select_
    decreases |frames| + |env.commands| - place.taken
  {
    hide NextTurn, EffectOf;
    var (turn, more, next) := NextTurn(env, frames, place);
    TurnFacts(env, frames, place);
    if !EffectOf(turn).Ends? {
      SessionMovesOn(env, more, next);
    }
  }

  // ----- A close and what follows it -----

  /**
   * Every attempt that is made begins by the select that is pending at the moment `m`. Without a token no wait is
   * cut, so no reconnect is announced after that moment either: `AnnouncedReconnectsAreMade`.
   */
  ghost predicate NothingFollows(env: Env, limit: nat, m: nat) {
    forall i: nat | i < |RunIn(env, limit).ids| :: PlaceOf(env, i).select_ <= m
  }

  lemma AnnouncedReconnectsAreMade(env: Env, limit: nat)
    requires env.token == NEVER
    ensures Reconnects(RunIn(env, limit).log) == |RunIn(env, limit).ids| - 1
  {
    hide Loop, PlaceOf;
    var visits := Visits(AttemptsIn(env, limit));
    forall n: nat | visits(n).verdict.Retry? ensures visits(n).verdict.waitCancelled.None? {
      WaitIsNotCut(env, env.plans(n), PlaceOf(env, n), n < limit);
    }
    AnnouncedIsMade(limit, visits, NoId, 0, None);
  }

  lemma WaitIsNotCut(env: Env, plan: Plan, at: Place, mayWait: bool)
    requires env.token == NEVER && at.taken <= |env.commands|
    ensures var verdict := VisitOf(Resolve(env, plan, at, mayWait).0).verdict;
      verdict.Retry? ==> verdict.waitCancelled.None?
  {
    hide SessionFrom, Play;
    NeverStops(at.select_);
    NeverStops(at.select_ + 1);
    NeverStops(SessionFrom(env, plan.frames, at.(select_ := at.select_ + 1)).1.select_);
  }

  /** Without a token, an attempt that the user ends is a session that takes a queued close before its end. */
  lemma LeaveIsTakenInSession(env: Env, plan: Plan, at: Place, mayWait: bool)
    requires env.token == NEVER && at.taken <= |BeforeLeave(env.commands)|
    requires UserEnds(Resolve(env, plan, at, mayWait).0)
    ensures var c := |BeforeLeave(env.commands)|;
      plan.connect.Opens? && c < |env.commands|
      && env.commands[c].at + 1 < Resolve(Free(env), plan, at, true).1.select_
  {
    hide SessionFrom, BeforeLeave, Play;
    NeverStops(at.select_);
    NeverStops(at.select_ + 1);
    if plan.connect.Opens? {
      var place := at.(select_ := at.select_ + 1);
      SessionIsCutOrSame(env, plan.frames, place);
      NeverStops(SessionFrom(env, plan.frames, place).1.select_);
    }
  }

  /** The attempt under way at the moment `m` in the run without the close. */
  ghost predicate UnderWay(env: Env, limit: nat, n: nat, m: nat) {
    var attempts := |RunIn(Free(env), limit).ids|;
    n < attempts && PlaceOf(Free(env), n).select_ <= m
    && (n + 1 < attempts ==> m < PlaceOf(Free(env), n + 1).select_)
  }

  /**
   * Main result: after a close is queued, neither another attempt nor another wait begins if and only if the
   * attempt under way is the last one anyway or is a session that takes the close before it ends.
   */
  lemma NothingFollowsExactlyWhenTaken(env: Env, limit: nat, n: nat)
    requires env.token == NEVER && |BeforeLeave(env.commands)| < |env.commands|
    requires UnderWay(env, limit, n, env.commands[|BeforeLeave(env.commands)|].at)
    ensures NothingFollows(env, limit, env.commands[|BeforeLeave(env.commands)|].at)
       <==> n + 1 == |RunIn(Free(env), limit).ids| || UserEnds(AttemptsIn(env, limit)(n))
    ensures n < |RunIn(env, limit).ids|
  {
    hide RunIn, Resolve, BeforeLeave, UserEnds, LastUpdate, PlaceOf;
    var m := env.commands[|BeforeLeave(env.commands)|].at;
    var run, free := RunIn(env, limit), RunIn(Free(env), limit);
    var last := |run.ids| - 1;
    UserCutsTheRun(env, limit);
    SamePlaces(env, limit, last);
    if last < n {
      assert run.ids != free.ids;
      LeaveIsTakenInSession(env, env.plans(last), PlaceOf(env, last), last < limit);
      NextPlace(Free(env), last);
      PlacesInOrder(Free(env), last + 1, n);
    }
    assert n <= last;
    SamePlaces(env, limit, n);
    if n == last {
      forall i: nat | i < |run.ids| ensures PlaceOf(env, i).select_ <= m {
        PlacesInOrder(env, i, n);
      }
    } else {
      SamePlaces(env, limit, n + 1);
      MadeByBoth(run, free, LastUpdate(AttemptsIn(env, limit)(last)));
      assert PlaceOf(env, n + 1).select_ > m;
    }
  }

  lemma MadeByBoth(run: Run<Message>, whole: Run<Message>, last: Update<Message>)
    requires LeavesOff(run, whole, last) || run == whole
    ensures |run.ids| <= |whole.ids|
  {
  }

  lemma NextPlace(env: Env, n: nat)
    ensures PlaceOf(env, n + 1) == Resolve(env, env.plans(n), PlaceOf(env, n), true).1
  {
    hide Resolve;
  }

  // ----- When commands are taken at once -----

  /** Commands are queued one after the other, and a waiting one is taken before the next frame. */
  ghost predicate Prompt(env: Env) {
    (forall k: nat :: env.takes(k))
    && (forall i, j | 0 <= i < j < |env.commands| :: env.commands[i].at <= env.commands[j].at)
  }

  /** A session that is open, or just being opened, when a close is queued takes it, unless a text cannot be sent. */
  lemma {:induction false} PromptSessionLeaves(env: Env, frames: seq<Frame>, place: Place)
    requires env.token == NEVER && Prompt(env) && place.taken <= |BeforeLeave(env.commands)| < |env.commands|
    requires env.commands[|BeforeLeave(env.commands)|].at < SessionFrom(Free(env), frames, place).1.select_
    requires IsRetried(SessionFrom(Free(env), frames, place).0)
    ensures EndsByUser(SessionFrom(env, frames, place).0)
    decreases |frames| + |env.commands| - place.taken
  {
    hide BeforeLeave, NextTurn, EffectOf, Play, VerdictOf;
    var (turn, more, next) := NextTurn(env, frames, place);
    TurnFacts(env, frames, place);
    TurnIsCutOrSame(env, frames, place);
    NeverStops(place.select_);
    if turn.UserCloses? || turn.UserCancels? {
      UserTurnEnds(turn);
    } else {
      if EffectOf(turn).Ends? {
        PromptTurn(env, frames, place);
        SentOrLost(turn);
      } else {
        PlayFirst(turn, SessionFrom(Free(env), more, next).0);
        PromptSessionLeaves(env, more, next);
        SessionNotEmpty(env, more, next);
        PlayFirst(turn, SessionFrom(env, more, next).0);
      }
    }
  }

  /** From the moment of the close on, every turn takes a command. */
  lemma PromptTurn(env: Env, frames: seq<Frame>, place: Place)
    requires env.token == NEVER && Prompt(env) && place.taken <= |BeforeLeave(env.commands)| < |env.commands|
    requires env.commands[|BeforeLeave(env.commands)|].at <= place.select_
    ensures var turn := NextTurn(env, frames, place).0; turn.SendText? || turn.UserCloses?
  {
    NeverStops(place.select_);
    var c := |BeforeLeave(env.commands)|;
    assert env.commands[place.taken].at <= env.commands[c].at;
    assert env.takes(place.select_);
  }

  lemma SentOrLost(turn: Turn)
    requires turn.SendText? && EffectOf(turn).Ends?
    ensures !IsRetried([turn])
  {
  }

  /**
   * Main result: when commands are taken at once, neither another attempt nor another wait begins after a close
   * is queued if and only if the attempt under way is the last one anyway, or its connection opens and the close
   * is queued before the wait that follows the session.
   */
  lemma NothingFollowsExactlyBeforeTheWait(env: Env, limit: nat, n: nat)
    requires env.token == NEVER && Prompt(env) && |BeforeLeave(env.commands)| < |env.commands|
    requires UnderWay(env, limit, n, env.commands[|BeforeLeave(env.commands)|].at)
    ensures NothingFollows(env, limit, env.commands[|BeforeLeave(env.commands)|].at)
       <==> n + 1 == |RunIn(Free(env), limit).ids|
            || (env.plans(n).connect.Opens?
                && env.commands[|BeforeLeave(env.commands)|].at + 1 < PlaceOf(Free(env), n + 1).select_)
  {
    hide RunIn, Resolve, BeforeLeave, UserEnds, PlaceOf, NothingFollows, Prompt, UnderWay;
    var m := env.commands[|BeforeLeave(env.commands)|].at;
    NothingFollowsExactlyWhenTaken(env, limit, n);
    SamePlaces(env, limit, n);
    NextPlace(Free(env), n);
    if UserEnds(AttemptsIn(env, limit)(n)) {
      LeaveIsTakenInSession(env, env.plans(n), PlaceOf(env, n), n < limit);
    }
    StaysUnderWay(env, limit, n, m);
    if n + 1 < |RunIn(Free(env), limit).ids| {
      NotEndedBefore(Free(env), limit, n);
      if env.plans(n).connect.Opens? && m + 1 < PlaceOf(Free(env), n + 1).select_ {
        PromptAttemptEnds(env, env.plans(n), PlaceOf(env, n), n < limit);
      }
    }
  }

  lemma StaysUnderWay(env: Env, limit: nat, n: nat, m: nat)
    requires UnderWay(env, limit, n, m)
    ensures n < |RunIn(Free(env), limit).ids| && PlaceOf(Free(env), n).taken <= |BeforeLeave(Free(env).commands)|
  {
    SamePlaces(Free(env), limit, n);
  }

  lemma PromptAttemptEnds(env: Env, plan: Plan, at: Place, mayWait: bool)
    requires env.token == NEVER && Prompt(env) && at.taken <= |BeforeLeave(env.commands)| < |env.commands|
    requires plan.connect.Opens? && VisitOf(Resolve(Free(env), plan, at, true).0).verdict.Retry?
    requires env.commands[|BeforeLeave(env.commands)|].at + 1 < Resolve(Free(env), plan, at, true).1.select_
    ensures UserEnds(Resolve(env, plan, at, mayWait).0)
  {
    hide SessionFrom, BeforeLeave, Play, EndsByUser, Prompt;
    NeverStops(at.select_);
    var place := at.(select_ := at.select_ + 1);
    PromptSessionLeaves(env, plan.frames, place);
  }

  // ----- Closes that nobody hears -----

  /**
   * Main result: while no connection opens, closing does nothing, whenever it happens and whatever else is
   * queued: the worker makes every attempt it may make.
   */
  lemma CloseIsNotHeardOutsideSessions(env: Env, limit: nat)
    requires env.token == NEVER && forall n: nat :: !env.plans(n).connect.Opens?
    ensures var run := RunIn(env, limit);
      |run.ids| == limit + 1 && Reconnects(run.log) == limit && run.log[|run.log| - 1].Failed?
  {
    NeverOpens(env, limit, 0);
    var run := RunIn(env, limit);
    EveryRunIsDisciplined(limit, Visits(AttemptsIn(env, limit)), NoId, 0, None);
  }

  lemma NotOpened(env: Env, plan: Plan, at: Place, mayWait: bool)
    requires env.token == NEVER && !plan.connect.Opens? && at.taken <= |env.commands|
    ensures var visit := VisitOf(Resolve(env, plan, at, mayWait).0);
      visit.messages == [] && visit.verdict.Retry? && visit.verdict.exhausted.Some? && visit.verdict.waitCancelled.None?
  {
    NeverStops(at.select_);
    NeverStops(at.select_ + 1);
  }

  lemma {:induction false} NeverOpens(env: Env, limit: nat, used: nat)
    requires used <= limit && env.token == NEVER && forall n: nat :: !env.plans(n).connect.Opens?
    ensures var run := Loop(limit, Visits(AttemptsIn(env, limit)), NoId, used, None);
      |run.ids| == limit - used + 1 && run.log[|run.log| - 1].Failed?
    decreases limit - used
  {
    hide PlaceOf, Resolve, VisitOf;
    NotOpened(env, env.plans(used), PlaceOf(env, used), used < limit);
    if used < limit {
      NeverOpens(env, limit, used + 1);
    }
  }

  /** The user closes while the worker waits after a first failure, and no later connection opens. */
  lemma CloseWhileWaitingIsNotHeard(error: string, limit: nat)
    ensures var env := Env((n: nat) => Plan(Fails(error), []), [Queued(1, Leave)], NEVER, (k: nat) => true);
      |RunIn(env, limit).ids| == limit + 1 && Reconnects(RunIn(env, limit).log) == limit
  {
    CloseIsNotHeardOutsideSessions(
      Env((n: nat) => Plan(Fails(error), []), [Queued(1, Leave)], NEVER, (k: nat) => true), limit);
  }

  // ----- Cancelling -----

  lemma {:induction false} SessionIsNotStopped(env: Env, frames: seq<Frame>, place: Place, k: nat)
    requires place.taken <= |env.commands| && !EndsByUser(SessionFrom(env, frames, place).0)
    requires place.select_ <= k < SessionFrom(env, frames, place).1.select_
    ensures !Stops(env.token, k)
    decreases |frames| + |env.commands| - place.taken
  {
    hide Stops, TakesCommand, EffectOf;
    var (turn, more, next) := NextTurn(env, frames, place);
    TurnFacts(env, frames, place);
    if turn.UserCancels? {
      UserTurnEnds(turn);
    } else if !EffectOf(turn).Ends? {
      SessionNotEmpty(env, more, next);
      if k > place.select_ {
        SessionIsNotStopped(env, more, next, k);
      }
    }
  }

  /** No select before an attempt that is made was won by the token. */
  lemma {:induction false} NotStoppedBefore(env: Env, limit: nat, n: nat, k: nat)
    requires n < |RunIn(env, limit).ids| && k < PlaceOf(env, n).select_
    ensures !Stops(env.token, k)
    decreases n
  {
    hide RunIn, Resolve, Stops, BeforeLeave, UserEnds, PlaceOf;
    if n == 0 {
      Begins(env);
    } else {
      SamePlaces(env, limit, n - 1);
      NotEndedBefore(env, limit, n - 1);
      NextPlace(env, n - 1);
      if k < PlaceOf(env, n - 1).select_ {
        NotStoppedBefore(env, limit, n - 1, k);
      } else {
        NotStoppedWithin(env, env.plans(n - 1), PlaceOf(env, n - 1), k);
      }
    }
  }

  lemma NotStoppedWithin(env: Env, plan: Plan, at: Place, k: nat)
    requires at.taken <= |env.commands| && !UserEnds(Resolve(env, plan, at, true).0)
    requires VisitOf(Resolve(env, plan, at, true).0).verdict.Retry?
    requires at.select_ <= k < Resolve(env, plan, at, true).1.select_
    ensures !Stops(env.token, k)
  {
    hide SessionFrom, Play, EndsByUser, Stops;
    if plan.connect.Opens? && !Stops(env.token, at.select_) {
      var place := at.(select_ := at.select_ + 1);
      if place.select_ <= k < SessionFrom(env, plan.frames, place).1.select_ {
        SessionIsNotStopped(env, plan.frames, place, k);
      }
    }
  }

  /** The select that follows the connection and the session of an attempt: that of the wait, if there is one. */
  function WaitOf(env: Env, plan: Plan, at: Place): nat
    requires at.taken <= |env.commands|
  {
    if plan.connect.Opens? then SessionFrom(env, plan.frames, at.(select_ := at.select_ + 1)).1.select_
    else at.select_ + 1
  }

  /** An attempt has this select. */
  predicate Pends(env: Env, plan: Plan, at: Place, mayWait: bool, k: nat)
    requires at.taken <= |env.commands|
  {
    at.select_ <= k < WaitOf(env, plan, at)
    || (mayWait && k == WaitOf(env, plan, at) && VisitOf(Resolve(env, plan, at, false).0).verdict.Retry?)
  }

  lemma StopEndsTheAttempt(env: Env, plan: Plan, at: Place, mayWait: bool, k: nat)
    requires at.taken <= |env.commands| && Stops(env.token, k) && Pends(env, plan, at, mayWait, k)
    ensures UserEnds(Resolve(env, plan, at, mayWait).0)
  {
    hide SessionFrom, Play, EndsByUser, Stops;
    if plan.connect.Opens? && at.select_ < k {
      var place := at.(select_ := at.select_ + 1);
      if k < WaitOf(env, plan, at) && !EndsByUser(SessionFrom(env, plan.frames, place).0) {
        SessionIsNotStopped(env, plan.frames, place, k);
      }
    }
  }

  /** A cancellation that wins a select of an attempt that is made ends the run there. */
  lemma CancelEndsTheRun(env: Env, limit: nat, n: nat, k: nat)
    requires n < |RunIn(env, limit).ids|
    requires Stops(env.token, k) && Pends(env, env.plans(n), PlaceOf(env, n), n < limit, k)
    ensures n + 1 == |RunIn(env, limit).ids|
    ensures LeavesOff(RunIn(env, limit), RunIn(Free(env), limit), LastUpdate(AttemptsIn(env, limit)(n)))
  {
    hide RunIn, Resolve, Stops, Pends, UserEnds, PlaceOf, LeavesOff, LastUpdate, BeforeLeave;
    UserCutsTheRun(env, limit);
    StopEndsTheAttempt(env, env.plans(n), PlaceOf(env, n), n < limit, k);
    assert UserEnds(AttemptsIn(env, limit)(n));
  }

  /** After the token was set an attempt begins only if every select since was won by another branch. */
  lemma LaterAttemptsNeedLuck(env: Env, limit: nat, n: nat, m: nat)
    requires env.token.at == Some(m) && n < |RunIn(env, limit).ids|
    ensures forall k | m <= k < PlaceOf(env, n).select_ :: env.token.late(k)
  {
    hide RunIn, PlaceOf;
    forall k | m <= k < PlaceOf(env, n).select_ ensures env.token.late(k) {
      NotStoppedBefore(env, limit, n, k);
    }
  }

  /** The timer of a wait that begins when the token is set already is not ready at once. */
  ghost predicate TimersTakeTime(env: Env, m: nat) {
    forall i: nat :: PlaceOf(env, i).select_ > m + 1 ==> !env.token.late(PlaceOf(env, i).select_ - 1)
  }

  /**
   * Main result: no attempt begins after a cancellation that wins its select; and since the worker always waits
   * some time, a cancellation that loses its select lets at most one attempt begin, right after a wait.
   */
  lemma AtMostOneMoreAttempt(env: Env, limit: nat, n: nat, m: nat)
    requires env.token.at == Some(m) && n + 1 < |RunIn(env, limit).ids|
    requires TimersTakeTime(env, m)
    ensures PlaceOf(env, n + 1).select_ <= m + 1
    ensures PlaceOf(env, n + 1).select_ == m + 1 ==> env.token.late(m)
  {
    hide RunIn, PlaceOf;
    LaterAttemptsNeedLuck(env, limit, n + 1, m);
    assert PlaceOf(env, n + 1).select_ <= m + 1;
  }
}
