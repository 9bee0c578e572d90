/** What each connection attempt of a WebSocket reports and how it ends, select by select. */
module WebSocketMessages {
  import opened Wrappers
  import opened Reconnect
  import opened WebSocketWorker

  /** What one select of a session takes. */
  datatype Event = Heard(frame: Frame) | Told(command: Command) | NoFrameLeft | UserCancelled

  function FramesIn(trace: seq<Event>): nat {
    if trace == [] then 0 else (if trace[0].Heard? then 1 else 0) + FramesIn(trace[1..])
  }

  function CommandsIn(trace: seq<Event>): nat {
    if trace == [] then 0 else (if trace[0].Told? then 1 else 0) + CommandsIn(trace[1..])
  }

  /** A session goes on after this. */
  predicate GoesOnAfter(e: Event) {
    match e
    case Heard(Arrives(kind, _, replyError)) => kind != Close && !(kind == Ping && replyError.Some?)
    case Heard(Raw) => true
    case Heard(Breaks(_)) => false
    case Told(Say(_, sendError)) => sendError.None?
    case Told(Leave) => false
    case NoFrameLeft => false
    case UserCancelled => false
  }

  /** What the console is told of it. */
  function MessageOf(e: Event): Option<Message> {
    match e
    case Heard(Arrives(kind, data, replyError)) =>
      if kind == Ping && replyError.Some? then None else Some(Received(kind, data))
    case Told(Say(text, None)) => Some(Sent(text))
    case _ => None
  }

  function MessagesOf(trace: seq<Event>): seq<Message> {
    if trace == [] then []
    else (if MessageOf(trace[0]).Some? then [MessageOf(trace[0]).value] else []) + MessagesOf(trace[1..])
  }

  /** How a session ends after its last event. */
  function EndAfter(e: Event, waitCancelled: Option<string>): Verdict {
    match e
    case Heard(Breaks(error)) => Retry(250, Some("WebSocket receive failed: " + error), waitCancelled)
    case Heard(Arrives(Ping, _, Some(error))) => End(Some("could not reply to WebSocket ping: " + error))
    case Told(Say(_, Some(error))) => End(Some("WebSocket send failed: " + error))
    case Told(_) => End(None)
    case UserCancelled => End(None)
    case _ => Retry(250, None, waitCancelled)
  }

  /** What the `i`-th select of a session takes: the cancellation first, then a waiting command, then a frame. */
  function TakenAt(env: Env, frames: seq<Frame>, place: Place, trace: seq<Event>, i: nat): Event
    requires i <= |trace|
  {
    var k, c, f := place.select_ + i, place.taken + CommandsIn(trace[..i]), FramesIn(trace[..i]);
    if env.token.at.Some? && env.token.at.value <= k && !env.token.late(k) then UserCancelled
    else if c < |env.commands| && env.commands[c].at <= k && env.takes(k) then Told(env.commands[c].command)
    else if f < |frames| then Heard(frames[f])
    else NoFrameLeft
  }

  /** The selects of a session, to its end. */
  ghost predicate IsTrace(env: Env, frames: seq<Frame>, place: Place, trace: seq<Event>) {
    && trace != [] && !GoesOnAfter(trace[|trace| - 1])
    && (forall i | 0 <= i < |trace| - 1 :: GoesOnAfter(trace[i]))
    && (forall i | 0 <= i < |trace| :: trace[i] == TakenAt(env, frames, place, trace, i))
  }

  function TurnOf(e: Event): Turn {
    match e
    case Heard(frame) => TurnOfFrame(frame)
    case Told(command) => TurnOfCommand(command)
    case NoFrameLeft => NoMoreFrames
    case UserCancelled => UserCancels
  }

  // ----- A session is its trace -----

  lemma EffectIs(e: Event)
    ensures EffectOf(TurnOf(e)).Ends? <==> !GoesOnAfter(e)
    ensures GoesOnAfter(e) ==>
      EffectOf(TurnOf(e)) == if MessageOf(e).Some? then Reports(MessageOf(e).value) else Nothing
    ensures !GoesOnAfter(e) ==>
      EffectOf(TurnOf(e)).last == MessageOf(e)
      && (forall waiting ::
            VerdictOf(EffectOf(TurnOf(e)).end, waiting)
            == EndAfter(e, if waiting then Some("WebSocket connection cancelled") else None))
  {
  }

  lemma FirstTurn(env: Env, frames: seq<Frame>, place: Place)
    requires place.taken <= |env.commands|
    ensures var e := TakenAt(env, frames, place, [], 0); var (turn, more, next) := NextTurn(env, frames, place);
      turn == TurnOf(e) && next == Place(place.select_ + 1, place.taken + if e.Told? then 1 else 0)
      && more == if e.Heard? then frames[1..] else frames
    ensures TakenAt(env, frames, place, [], 0).Heard? ==> frames != []
    ensures TakenAt(env, frames, place, [], 0).Told? ==> place.taken < |env.commands|
  {
  }

  lemma CountsMore(e: Event, trace: seq<Event>, i: nat)
    requires i <= |trace|
    ensures FramesIn(([e] + trace)[..i + 1]) == (if e.Heard? then 1 else 0) + FramesIn(trace[..i])
    ensures CommandsIn(([e] + trace)[..i + 1]) == (if e.Told? then 1 else 0) + CommandsIn(trace[..i])
  {
    assert ([e] + trace)[..i + 1] == [e] + trace[..i];
    assert ([e] + trace[..i])[1..] == trace[..i];
  }

  lemma TakenLater(env: Env, frames: seq<Frame>, place: Place, trace: seq<Event>, i: nat)
    requires i <= |trace| && place.taken <= |env.commands|
    ensures var e := TakenAt(env, frames, place, [], 0); var (_, more, next) := NextTurn(env, frames, place);
      TakenAt(env, more, next, trace, i) == TakenAt(env, frames, place, [e] + trace, i + 1)
  {
    var e := TakenAt(env, frames, place, [], 0);
    FirstTurn(env, frames, place);
    CountsMore(e, trace, i);
    hide NextTurn, FramesIn, CommandsIn;
  }

  lemma TakenFirst(env: Env, frames: seq<Frame>, place: Place, trace: seq<Event>)
    ensures TakenAt(env, frames, place, trace, 0) == TakenAt(env, frames, place, [], 0)
  {
    assert trace[..0] == [];
  }

  lemma TraceGrows(env: Env, frames: seq<Frame>, place: Place, trace: seq<Event>)
    requires place.taken <= |env.commands|
    requires var (_, more, next) := NextTurn(env, frames, place); IsTrace(env, more, next, trace)
    requires GoesOnAfter(TakenAt(env, frames, place, [], 0))
    ensures IsTrace(env, frames, place, [TakenAt(env, frames, place, [], 0)] + trace)
  {
    hide NextTurn, TakenAt, GoesOnAfter;
    var e := TakenAt(env, frames, place, [], 0);
    var all := [e] + trace;
    TakenFirst(env, frames, place, all);
    forall i | 0 <= i < |all| ensures all[i] == TakenAt(env, frames, place, all, i) {
      if i > 0 {
        TakenLater(env, frames, place, trace, i - 1);
      }
    }
  }

  lemma TraceOfOne(env: Env, frames: seq<Frame>, place: Place)
    requires !GoesOnAfter(TakenAt(env, frames, place, [], 0))
    ensures IsTrace(env, frames, place, [TakenAt(env, frames, place, [], 0)])
  {
    hide TakenAt, GoesOnAfter;
    TakenFirst(env, frames, place, [TakenAt(env, frames, place, [], 0)]);
  }

  lemma PlayOne(e: Event)
    requires !GoesOnAfter(e)
    ensures Play([TurnOf(e)]).0 == MessagesOf([e])
    ensures forall waiting ::
      VerdictOf(Play([TurnOf(e)]).1, waiting)
      == EndAfter(e, if waiting then Some("WebSocket connection cancelled") else None)
  {
    hide EffectOf, MessageOf, EndAfter, VerdictOf;
    EffectIs(e);
    assert [e][1..] == [];
  }

  lemma PlayMore(e: Event, turns: seq<Turn>, trace: seq<Event>)
    requires GoesOnAfter(e) && Play(turns).0 == MessagesOf(trace)
    ensures Play([TurnOf(e)] + turns).0 == MessagesOf([e] + trace)
    ensures Play([TurnOf(e)] + turns).1 == Play(turns).1
  {
    hide EffectOf, MessageOf, GoesOnAfter;
    EffectIs(e);
    assert ([TurnOf(e)] + turns)[1..] == turns && ([e] + trace)[1..] == trace;
    assert [] + MessagesOf(trace) == MessagesOf(trace);
  }

  /** A session takes the events of its trace, reports their messages, and ends as the last one says. */
  lemma {:induction false} SessionIsItsTrace(env: Env, frames: seq<Frame>, place: Place) returns (trace: seq<Event>)
    requires place.taken <= |env.commands|
    ensures IsTrace(env, frames, place, trace)
    ensures var (turns, end) := SessionFrom(env, frames, place);
      && Play(turns).0 == MessagesOf(trace)
      && end == Place(place.select_ + |trace|, place.taken + CommandsIn(trace))
      && (forall waiting ::
            VerdictOf(Play(turns).1, waiting)
            == EndAfter(trace[|trace| - 1], if waiting then Some("WebSocket connection cancelled") else None))
    decreases |frames| + |env.commands| - place.taken
  {
    hide NextTurn, EffectOf, Play, TakenAt, GoesOnAfter, MessagesOf, EndAfter, VerdictOf, IsTrace, TurnOf;
    var e := TakenAt(env, frames, place, [], 0);
    var (turn, more, next) := NextTurn(env, frames, place);
    FirstTurn(env, frames, place);
    EffectIs(e);
    if !GoesOnAfter(e) {
      trace := [e];
      TraceOfOne(env, frames, place);
      PlayOne(e);
      assert [e][1..] == [];
    } else {
      GoesOnWith(e);
      var rest := SessionIsItsTrace(env, more, next);
      TraceGrows(env, frames, place, rest);
      PlayMore(e, SessionFrom(env, more, next).0, rest);
      trace := [e] + rest;
      assert trace[1..] == rest;
      NotEmpty(env, more, next, rest);
    }
  }

  lemma GoesOnWith(e: Event)
    requires GoesOnAfter(e)
    ensures e.Heard? || e.Told?
  {
  }

  lemma NotEmpty(env: Env, frames: seq<Frame>, place: Place, trace: seq<Event>)
    requires IsTrace(env, frames, place, trace)
    ensures trace != []
  {
    hide TakenAt, GoesOnAfter;
  }

  // ----- An attempt -----

  /** The token wins a select. */
  predicate Wins(token: Token, k: nat) {
    token.at.Some? && token.at.value <= k && !token.late(k)
  }

  function WaitCancelled(env: Env, mayWait: bool, k: nat): Option<string> {
    if mayWait && Wins(env.token, k) then Some("WebSocket connection cancelled") else None
  }

  /**
   * Main result: what an attempt reports and how it ends, in every environment. Nothing is reported unless the
   * connection opens; then the greeting comes first, and after it, in the order of the selects, each frame that is
   * taken, with its kind and data, and each text that is sent. The session ends with the first closing frame, failed
   * frame, failed reply or failed text, close, cancellation, or end of the frames; only a lost connection, a failed
   * one and one that the peer ends are retried, after 250 ms.
   */
  lemma AttemptReportsItsTrace(env: Env, plan: Plan, at: Place, mayWait: bool) returns (trace: seq<Event>)
    requires at.taken <= |env.commands|
    ensures var (attempt, after) := Resolve(env, plan, at, mayWait); var visit := VisitOf(attempt);
      if Wins(env.token, at.select_) then visit == Visit([], End(Some("WebSocket connection cancelled")))
      else
        match plan.connect
        case Fails(error) =>
          visit == Visit([], Retry(250, Some("WebSocket connection failed: " + error),
                                   WaitCancelled(env, mayWait, at.select_ + 1)))
          && after == Place(at.select_ + 2, at.taken)
        case TimesOut =>
          visit == Visit([], Retry(250, Some("WebSocket handshake timed out"),
                                   WaitCancelled(env, mayWait, at.select_ + 1)))
          && after == Place(at.select_ + 2, at.taken)
        case Opens =>
          && IsTrace(env, plan.frames, Place(at.select_ + 1, at.taken), trace)
          && visit.messages == [Connected] + MessagesOf(trace)
          && visit.verdict == EndAfter(trace[|trace| - 1], WaitCancelled(env, mayWait, at.select_ + 1 + |trace|))
          && after == Place(at.select_ + |trace| + 2, at.taken + CommandsIn(trace))
  {
    hide SessionFrom, Play, MessagesOf, IsTrace, EndAfter, VerdictOf;
    trace := [];
    if plan.connect.Opens? {
      var place := at.(select_ := at.select_ + 1);
      trace := SessionIsItsTrace(env, plan.frames, place);
      NotEmpty(env, plan.frames, place, trace);
      var turns := SessionFrom(env, plan.frames, place).0;
      assert VerdictOf(Play(turns).1, false) == EndAfter(trace[|trace| - 1], None);
      NoWaitAfterEnd(trace[|trace| - 1]);
    }
  }

  /** A session that is not retried does not wait. */
  lemma NoWaitAfterEnd(e: Event)
    ensures EndAfter(e, None).End? ==> forall w :: EndAfter(e, w) == EndAfter(e, None)
    ensures EndAfter(e, None).Retry? ==> forall w :: EndAfter(e, w) == EndAfter(e, None).(waitCancelled := w)
  {
  }

  // ----- Received and sent apart -----

  /** The messages that frames become: all but raw and failed ones, and pings without a reply. */
  function HeardMessages(frames: seq<Frame>): seq<Message> {
    if frames == [] then []
    else
      (match frames[0]
       case Arrives(kind, data, replyError) => if kind == Ping && replyError.Some? then [] else [Received(kind, data)]
       case _ => [])
      + HeardMessages(frames[1..])
  }

  /** The texts that were sent. */
  function SentMessages(commands: seq<Queued>): seq<Message> {
    if commands == [] then []
    else (match commands[0].command case Say(text, None) => [Sent(text)] case _ => []) + SentMessages(commands[1..])
  }

  function OnlyReceived(messages: seq<Message>): seq<Message> {
    if messages == [] then []
    else (if messages[0].Received? then [messages[0]] else []) + OnlyReceived(messages[1..])
  }

  function OnlySent(messages: seq<Message>): seq<Message> {
    if messages == [] then [] else (if messages[0].Sent? then [messages[0]] else []) + OnlySent(messages[1..])
  }

  lemma {:induction false} ReceivedConcat(s: seq<Frame>, t: seq<Frame>)
    ensures HeardMessages(s + t) == HeardMessages(s) + HeardMessages(t)
  {
    if s == [] {
      assert s + t == t;
    } else {
      assert (s + t)[1..] == s[1..] + t;
      ReceivedConcat(s[1..], t);
    }
  }

  lemma {:induction false} SentConcat(s: seq<Queued>, t: seq<Queued>)
    ensures SentMessages(s + t) == SentMessages(s) + SentMessages(t)
  {
    if s == [] {
      assert s + t == t;
    } else {
      assert (s + t)[1..] == s[1..] + t;
      SentConcat(s[1..], t);
    }
  }

  lemma {:induction false} OnlyConcat(s: seq<Message>, t: seq<Message>)
    ensures OnlyReceived(s + t) == OnlyReceived(s) + OnlyReceived(t) && OnlySent(s + t) == OnlySent(s) + OnlySent(t)
  {
    hide OnlyReceived, OnlySent;
    if s == [] {
      assert s + t == t;
      NothingYet();
      assert [] + OnlyReceived(t) == OnlyReceived(t) && [] + OnlySent(t) == OnlySent(t);
    } else {
      assert (s + t)[1..] == s[1..] + t;
      OnlyFirst(s);
      OnlyFirst(s + t);
      OnlyConcat(s[1..], t);
    }
  }

  lemma OnlyFirst(s: seq<Message>)
    requires s != []
    ensures OnlyReceived(s) == (if s[0].Received? then [s[0]] else []) + OnlyReceived(s[1..])
    ensures OnlySent(s) == (if s[0].Sent? then [s[0]] else []) + OnlySent(s[1..])
  {
  }

  lemma {:induction false} TraceConcat(s: seq<Event>, t: seq<Event>)
    ensures MessagesOf(s + t) == MessagesOf(s) + MessagesOf(t)
    ensures FramesIn(s + t) == FramesIn(s) + FramesIn(t) && CommandsIn(s + t) == CommandsIn(s) + CommandsIn(t)
  {
    hide MessagesOf, FramesIn, CommandsIn, MessageOf;
    if s == [] {
      assert s + t == t;
      NothingYet();
      assert [] + MessagesOf(t) == MessagesOf(t);
    } else {
      assert (s + t)[1..] == s[1..] + t;
      TraceFirst(s);
      TraceFirst(s + t);
      TraceConcat(s[1..], t);
    }
  }

  lemma TraceFirst(s: seq<Event>)
    requires s != []
    ensures MessagesOf(s) == (if MessageOf(s[0]).Some? then [MessageOf(s[0]).value] else []) + MessagesOf(s[1..])
    ensures FramesIn(s) == (if s[0].Heard? then 1 else 0) + FramesIn(s[1..])
    ensures CommandsIn(s) == (if s[0].Told? then 1 else 0) + CommandsIn(s[1..])
  {
  }

  /** One event more: one frame more, one command more, or neither. */
  lemma OneMore(e: Event, frames: seq<Frame>, commands: seq<Queued>, f: nat, c: nat)
    requires e.Heard? ==> f < |frames| && e.frame == frames[f]
    requires e.Told? ==> c < |commands| && e.command == commands[c].command
    requires f <= |frames| && c <= |commands|
    ensures OnlyReceived(MessagesOf([e])) == if e.Heard? then HeardMessages([frames[f]]) else []
    ensures OnlySent(MessagesOf([e])) == if e.Told? then SentMessages([commands[c]]) else []
    ensures FramesIn([e]) == (if e.Heard? then 1 else 0) && CommandsIn([e]) == if e.Told? then 1 else 0
  {
    assert [e][1..] == [];
    var m := MessageOf(e);
    if m.Some? {
      assert [m.value] + [] == [m.value] && [m.value][1..] == [];
    }
    if e.Heard? {
      assert [frames[f]][1..] == [];
    }
    if e.Told? {
      assert [commands[c]][1..] == [];
    }
  }

  lemma {:induction false} ApartUpTo(env: Env, frames: seq<Frame>, place: Place, trace: seq<Event>, n: nat)
    requires n <= |trace| && place.taken <= |env.commands|
    requires forall i | 0 <= i < |trace| :: trace[i] == TakenAt(env, frames, place, trace, i)
    ensures var part := trace[..n]; var f, c := FramesIn(part), place.taken + CommandsIn(part);
      f <= |frames| && c <= |env.commands|
      && OnlyReceived(MessagesOf(part)) == HeardMessages(frames[..f])
      && OnlySent(MessagesOf(part)) == SentMessages(env.commands[place.taken..c])
    decreases n
  {
    hide MessagesOf, OnlyReceived, OnlySent, HeardMessages, SentMessages, FramesIn, CommandsIn;
    if n == 0 {
      assert trace[..0] == [] && frames[..0] == [] && env.commands[place.taken..place.taken] == [];
      NothingYet();
    } else {
      var part, e := trace[..n - 1], trace[n - 1];
      ApartUpTo(env, frames, place, trace, n - 1);
      var f, c := FramesIn(part), place.taken + CommandsIn(part);
      assert trace[..n] == part + [e];
      assert e == TakenAt(env, frames, place, trace, n - 1);
      hide TakenAt;
      TakenIs(env, frames, place, trace, n - 1);
      TraceConcat(part, [e]);
      OnlyConcat(MessagesOf(part), MessagesOf([e]));
      OneMore(e, frames, env.commands, f, c);
      if e.Heard? {
        assert frames[..f + 1] == frames[..f] + [frames[f]];
        ReceivedConcat(frames[..f], [frames[f]]);
      }
      if e.Told? {
        assert env.commands[place.taken..c + 1] == env.commands[place.taken..c] + [env.commands[c]];
        SentConcat(env.commands[place.taken..c], [env.commands[c]]);
      }
      assert forall s: seq<Message> :: s + [] == s;
    }
  }

  lemma NothingYet()
    ensures FramesIn([]) == 0 && CommandsIn([]) == 0 && MessagesOf([]) == []
    ensures OnlyReceived([]) == [] && OnlySent([]) == [] && HeardMessages([]) == [] && SentMessages([]) == []
  {
  }

  lemma TakenIs(env: Env, frames: seq<Frame>, place: Place, trace: seq<Event>, i: nat)
    requires i < |trace|
    ensures var e, part := TakenAt(env, frames, place, trace, i), trace[..i];
      (e.Heard? ==> FramesIn(part) < |frames| && e.frame == frames[FramesIn(part)])
      && (e.Told? ==> place.taken + CommandsIn(part) < |env.commands|
                      && e.command == env.commands[place.taken + CommandsIn(part)].command)
  {
  }

  /**
   * Main result: what a session receives and sends. The messages received are those of the frames that came until it
   * ended, in order, without any gap; the messages sent are the texts of the commands that were queued next, in order.
   */
  lemma FramesAndTextsInOrder(env: Env, frames: seq<Frame>, place: Place, trace: seq<Event>)
    requires IsTrace(env, frames, place, trace) && place.taken <= |env.commands|
    ensures var f, c := FramesIn(trace), place.taken + CommandsIn(trace);
      f <= |frames| && c <= |env.commands|
      && OnlyReceived(MessagesOf(trace)) == HeardMessages(frames[..f])
      && OnlySent(MessagesOf(trace)) == SentMessages(env.commands[place.taken..c])
  {
    hide TakenAt, GoesOnAfter, MessagesOf, OnlyReceived, OnlySent, HeardMessages, SentMessages, FramesIn, CommandsIn;
    ApartUpTo(env, frames, place, trace, |trace|);
    assert trace[..|trace|] == trace;
  }
}
