/** The worker that keeps a WebSocket open, forwards both directions and reconnects. */
module WebSocketWorker {
  import opened Wrappers
  import opened Reconnect

  const CANCELLED := "WebSocket connection cancelled"
  const TIMED_OUT := "WebSocket handshake timed out"
  const DELAY: nat := 250

  datatype Kind = Text | Binary | Ping | Pong | Close

  datatype Message = Connected | Received(kind: Kind, data: string) | Sent(data: string)

  /** One turn of the inner loop: a frame, the end of the frames, a command, or the cancellation. */
  datatype Turn =
    | Inbound(kind: Kind, data: string, replyError: Option<string>)
    | RawFrame
    | ReceiveError(error: string)
    | NoMoreFrames
    | SendText(text: string, sendError: Option<string>)
    | UserCloses
    | UserCancels

  datatype SessionEnd = ByUser | ByPeer | Lost(error: string) | Fatal(error: string)

  /** What the network and the user do during one attempt; a session without further turns has no more frames. */
  datatype Attempt =
    | CancelledConnecting
    | ConnectFailed(error: string, cancelledWaiting: bool)
    | HandshakeTimedOut(cancelledWaiting: bool)
    | Session(turns: seq<Turn>, cancelledWaiting: bool)

  /** What one turn does: report a message, nothing, or end the session. */
  datatype Effect = Reports(message: Message) | Nothing | Ends(last: Option<Message>, end: SessionEnd)

  function EffectOf(t: Turn): Effect {
    match t
    case Inbound(Close, data, _) => Ends(Some(Received(Close, data)), ByPeer)
    case Inbound(Ping, data, Some(error)) => Ends(None, Fatal("could not reply to WebSocket ping: " + error))
    case Inbound(kind, data, _) => Reports(Received(kind, data))
    case RawFrame => Nothing
    case ReceiveError(error) => Ends(None, Lost("WebSocket receive failed: " + error))
    case NoMoreFrames => Ends(None, ByPeer)
    case SendText(text, Some(error)) => Ends(None, Fatal("WebSocket send failed: " + error))
    case SendText(text, None) => Reports(Sent(text))
    case UserCloses => Ends(None, ByUser)
    case UserCancels => Ends(None, ByUser)
  }

  /** The messages of a session after it was opened, and how it ends. */
  function Play(turns: seq<Turn>): (seq<Message>, SessionEnd) {
    if turns == [] then ([], ByPeer)
    else
      match EffectOf(turns[0])
      case Reports(message) => ([message] + Play(turns[1..]).0, Play(turns[1..]).1)
      case Nothing => Play(turns[1..])
      case Ends(last, end) => (if last.Some? then [last.value] else [], end)
  }

  function Cancelled(waiting: bool): Option<string> {
    if waiting then Some(CANCELLED) else None
  }

  function VerdictOf(end: SessionEnd, waiting: bool): Verdict {
    match end
    case ByUser => End(None)
    case ByPeer => Retry(DELAY, None, Cancelled(waiting))
    case Lost(error) => Retry(DELAY, Some(error), Cancelled(waiting))
    case Fatal(error) => End(Some(error))
  }

  function VisitOf(a: Attempt): Visit<Message> {
    match a
    case CancelledConnecting => Visit([], End(Some(CANCELLED)))
    case ConnectFailed(error, waiting) =>
      Visit([], Retry(DELAY, Some("WebSocket connection failed: " + error), Cancelled(waiting)))
    case HandshakeTimedOut(waiting) => Visit([], Retry(DELAY, Some(TIMED_OUT), Cancelled(waiting)))
    case Session(turns, waiting) => Visit([Connected] + Play(turns).0, VerdictOf(Play(turns).1, waiting))
  }

  function Visits(attempts: nat -> Attempt): nat -> Visit<Message> {
    (n: nat) => VisitOf(attempts(n))
  }

  function NoId(m: Message): Option<string> {
    None
  }

  // ----- What the network and the user do, and when -----

  datatype Connect = Fails(error: string) | TimesOut | Opens

  datatype Frame = Arrives(kind: Kind, data: string, replyError: Option<string>) | Raw | Breaks(error: string)

  /** One attempt as the network has it; after the frames of a session the peer ends it. */
  datatype Plan = Plan(connect: Connect, frames: seq<Frame>)

  datatype Command = Say(text: string, sendError: Option<string>) | Leave

  /** A command enters the queue while the select `at` is pending; dropping the queue's other end is `Leave`, too. */
  datatype Queued = Queued(at: nat, command: Command)

  /**
   * The plans of the attempts, the commands in the order in which they are queued, the token of the worker, and
   * for each select whether a waiting command wins it against a frame.
   */
  datatype Env = Env(plans: nat -> Plan, commands: seq<Queued>, token: Token, takes: nat -> bool)

  /** The next select, and how many commands were taken from the queue. */
  datatype Place = Place(select_: nat, taken: nat)

  function TurnOfFrame(f: Frame): Turn {
    match f
    case Arrives(kind, data, replyError) => Inbound(kind, data, replyError)
    case Raw => RawFrame
    case Breaks(error) => ReceiveError(error)
  }

  function TurnOfCommand(c: Command): Turn {
    match c
    case Say(text, sendError) => SendText(text, sendError)
    case Leave => UserCloses
  }

  /** A command waits when it was queued by now and all before it were taken; only a session takes commands. */
  predicate TakesCommand(env: Env, place: Place) {
    place.taken < |env.commands| && env.commands[place.taken].at <= place.select_ && env.takes(place.select_)
  }

  /** The next turn of a session that has these frames to come, and the frames and the place after it. */
  function NextTurn(env: Env, frames: seq<Frame>, place: Place): (Turn, seq<Frame>, Place) {
    var next := place.(select_ := place.select_ + 1);
    if Stops(env.token, place.select_) then (UserCancels, frames, next)
    else if TakesCommand(env, place) then
      (TurnOfCommand(env.commands[place.taken].command), frames, next.(taken := place.taken + 1))
    else if frames == [] then (NoMoreFrames, frames, next)
    else (TurnOfFrame(frames[0]), frames[1..], next)
  }

  /** A session, select by select, to its end. */
  function SessionFrom(env: Env, frames: seq<Frame>, place: Place): (seq<Turn>, Place)
    requires place.taken <= |env.commands|
    ensures SessionFrom(env, frames, place).1.taken <= |env.commands|
    decreases |frames| + |env.commands| - place.taken
  {
    var (turn, more, next) := NextTurn(env, frames, place);
    if EffectOf(turn).Ends? then ([turn], next)
    else
      var (turns, end) := SessionFrom(env, more, next);
      ([turn] + turns, end)
  }

  predicate IsRetried(turns: seq<Turn>) {
    VerdictOf(Play(turns).1, false).Retry?
  }

  /** An attempt in this environment, and the place after it and the wait that follows it. */
  function Resolve(env: Env, plan: Plan, at: Place, mayWait: bool): (r: (Attempt, Place))
    requires at.taken <= |env.commands|
    ensures r.1.taken <= |env.commands|
  {
    var afterWait := at.(select_ := at.select_ + 2);
    var stopped := mayWait && Stops(env.token, at.select_ + 1);
    if Stops(env.token, at.select_) then (CancelledConnecting, at)
    else
      match plan.connect
      case Fails(error) => (ConnectFailed(error, stopped), afterWait)
      case TimesOut => (HandshakeTimedOut(stopped), afterWait)
      case Opens =>
        var (turns, end) := SessionFrom(env, plan.frames, at.(select_ := at.select_ + 1));
        (Session(turns, mayWait && IsRetried(turns) && Stops(env.token, end.select_)),
         end.(select_ := end.select_ + 1))
  }

  /** Where an attempt begins, when it is made. */
  function PlaceOf(env: Env, n: nat): (place: Place)
    ensures place.taken <= |env.commands|
  {
    if n == 0 then Place(0, 0) else Resolve(env, env.plans(n - 1), PlaceOf(env, n - 1), true).1
  }

  function AttemptsIn(env: Env, limit: nat): nat -> Attempt {
    (n: nat) => Resolve(env, env.plans(n), PlaceOf(env, n), n < limit).0
  }

  /** The run of the worker in an environment. */
  function RunIn(env: Env, limit: nat): Run<Message> {
    Loop(limit, Visits(AttemptsIn(env, limit)), NoId, 0, None)
  }

  /** The inner loop over one open connection. */
  method RunSession(turns: seq<Turn>, log0: seq<Update<Message>>, dropAfter: Option<nat>)
    returns (log: seq<Update<Message>>, gone: bool, end: SessionEnd)
    requires dropAfter.None? || |log0| <= dropAfter.value
    ensures dropAfter.None? || |log| <= dropAfter.value
    ensures var (messages, ending) := Play(turns);
      if gone then CutOff(log, log0 + Emits(messages), dropAfter)
      else log == log0 + Emits(messages) && end == ending
  {
    hide Emits, Play, EffectOf;
    log, gone, end := log0, false, ByPeer;
    ghost var sent: seq<Message> := [];
    assert turns[0..] == turns && [] + Play(turns).0 == Play(turns).0;
    assert log0 + Emits<Message>([]) == log0 by { NothingSent(log0); }
    for i := 0 to |turns|
      invariant !gone && end == ByPeer
      invariant dropAfter.None? || |log| <= dropAfter.value
      invariant log == log0 + Emits(sent)
      invariant Play(turns).0 == sent + Play(turns[i..]).0 && Play(turns).1 == Play(turns[i..]).1
    {
      PlayStep(turns, i);
      var effect := EffectOf(turns[i]);
      if effect.Nothing? {
        continue;
      }
      if effect.Ends? && effect.last.None? {
        end := effect.end;
        return;
      }
      var message := if effect.Reports? then effect.message else effect.last.value;
      ghost var after := Play(turns).0[|sent| + 1..];
      assert Play(turns).0 == sent + [message] + after;
      EmitOneMore(log0, sent, message, after);
      if dropAfter == Some(|log|) {
        gone := true;
        return;
      }
      log := log + [Emit(message)];
      sent := sent + [message];
      if effect.Ends? {
        end := effect.end;
        return;
      }
    }
    PlayNothing(turns);
  }

  lemma PlayNothing(turns: seq<Turn>)
    ensures Play(turns[|turns|..]) == ([], ByPeer)
  {
  }

  lemma PlayStep(turns: seq<Turn>, i: nat)
    requires i < |turns|
    ensures Play(turns[i..])
         == match EffectOf(turns[i])
            case Reports(message) => ([message] + Play(turns[i + 1..]).0, Play(turns[i + 1..]).1)
            case Nothing => Play(turns[i + 1..])
            case Ends(last, end) => (if last.Some? then [last.value] else [], end)
  {
    assert turns[i..][1..] == turns[i + 1..];
  }

  lemma NothingSent(log0: seq<Update<Message>>)
    ensures log0 + Emits<Message>([]) == log0
  {
  }

  lemma EmitOneMore(log0: seq<Update<Message>>, sent: seq<Message>, message: Message, after: seq<Message>)
    ensures log0 + Emits(sent) + [Emit(message)] == log0 + Emits(sent + [message])
    ensures log0 + Emits(sent) < log0 + Emits(sent + [message] + after)
  {
  }

  /** One attempt: what it forwards and how it ends, unless the console is closed meanwhile. */
  method TryOnce(a: Attempt, log0: seq<Update<Message>>, dropAfter: Option<nat>)
    returns (log: seq<Update<Message>>, gone: bool, ending: Verdict)
    requires dropAfter.None? || |log0| <= dropAfter.value
    ensures dropAfter.None? || |log| <= dropAfter.value
    ensures if gone then CutOff(log, log0 + Emits(VisitOf(a).messages), dropAfter)
            else log == log0 + Emits(VisitOf(a).messages) && ending == VisitOf(a).verdict
  {
    hide Emits, Play;
    NothingSent(log0);
    log, gone, ending := log0, false, End(None);
    match a {
      case CancelledConnecting => ending := End(Some(CANCELLED));
      case ConnectFailed(error, waiting) =>
        ending := Retry(DELAY, Some("WebSocket connection failed: " + error), Cancelled(waiting));
      case HandshakeTimedOut(waiting) => ending := Retry(DELAY, Some(TIMED_OUT), Cancelled(waiting));
      case Session(turns, waiting) =>
        EmitOneMore(log0, [], Connected, Play(turns).0);
        assert [] + [Connected] == [Connected];
        if dropAfter == Some(|log|) {
          gone := true;
          return;
        }
        log := log + [Emit(Connected)];
        ConnectedThen(log0, Play(turns).0);
        var end;
        log, gone, end := RunSession(turns, log, dropAfter);
        ending := VerdictOf(end, waiting);
    }
  }

  lemma ConnectedThen(log0: seq<Update<Message>>, more: seq<Message>)
    ensures log0 + [Emit(Connected)] + Emits(more) == log0 + Emits([Connected] + more)
  {
  }

  /** The worker: the console sees the run of the reconnect loop up to the moment it is closed. */
  method RunWebSocket(limit: nat, env: Env, dropAfter: Option<nat>)
    returns (log: seq<Update<Message>>, connects: nat)
    ensures var run := RunIn(env, limit);
      && log == Seen(run.log, dropAfter)
      && connects <= |run.ids| && (log == run.log ==> connects == |run.ids|)
  {
    hide Emits, Loop, VisitOf, Seen, Resolve, PlaceOf, Visits, AttemptsIn;
    Begins(env);
    ghost var visits := Visits(AttemptsIn(env, limit));
    var place := Place(0, 0);
    ghost var whole := Loop(limit, visits, NoId, 0, None);
    ghost var ids: seq<Option<string>> := [];
    var used := 0;
    log, connects := [], 0;
    assert [] + whole.log == whole.log && [] + whole.ids == whole.ids;
    while true
      invariant used <= limit && connects == |ids| && place == PlaceOf(env, used)
      invariant whole.log == log + Loop(limit, visits, NoId, used, None).log
      invariant whole.ids == ids + Loop(limit, visits, NoId, used, None).ids
      invariant dropAfter.None? || |log| <= dropAfter.value
      decreases limit - used
    {
      ghost var log0, ids0 := log, ids;
      StartsWithVisit(limit, visits, NoId, used, None, log);
      NeverAnId(visits(used).messages);
      VisitHere(env, limit, used);
      connects, ids := connects + 1, ids + [None];
      var gone, ending;
      log, gone, ending := TryOnce(Resolve(env, env.plans(used), place, used < limit).0, log, dropAfter);
      if gone {
        IsCutOff(log, log0 + Emits(visits(used).messages), whole.log, dropAfter);
        return;
      }
      if ending.End? || used >= limit {
        EndsHere(limit, visits, NoId, used, None, log0, ids0);
        var error := match ending case End(error) => error case Retry(_, exhausted, _) => exhausted;
        log := Reconnect.Close(log, Final(error), dropAfter);
        return;
      }
      var again: Update<Message> := Reconnecting(used + 1, limit, ending.delayMs, None);
      if ending.waitCancelled.Some? {
        WaitIsCancelled(limit, visits, NoId, used, None, log0, ids0);
      } else {
        GoesOn(limit, visits, NoId, used, None, log0, ids0);
      }
      if dropAfter == Some(|log|) {
        IsCutOff(log, log + [again], whole.log, dropAfter);
        return;
      }
      log := log + [again];
      if ending.waitCancelled.Some? {
        log := Reconnect.Close(log, Failed(ending.waitCancelled.value), dropAfter);
        return;
      }
      place := Resolve(env, env.plans(used), place, true).1;
      used := used + 1;
    }
  }

  lemma Begins(env: Env)
    ensures PlaceOf(env, 0) == Place(0, 0)
  {
  }

  lemma VisitHere(env: Env, limit: nat, n: nat)
    ensures Visits(AttemptsIn(env, limit))(n) == VisitOf(Resolve(env, env.plans(n), PlaceOf(env, n), n < limit).0)
    ensures PlaceOf(env, n + 1) == Resolve(env, env.plans(n), PlaceOf(env, n), true).1
  {
    hide VisitOf, Resolve;
  }

  lemma {:induction false} NeverAnId(messages: seq<Message>)
    ensures LastId(messages, NoId, None) == None
  {
    if messages != [] {
      NeverAnId(messages[..|messages| - 1]);
    }
  }

  // ----- What the worker promises -----

  /** Main result: every run of the worker is disciplined, in every environment. */
  lemma WebSocketRunsAreDisciplined(limit: nat, env: Env)
    ensures Disciplined(RunIn(env, limit), limit, Visits(AttemptsIn(env, limit)), NoId, 0, None)
  {
    EveryRunIsDisciplined(limit, Visits(AttemptsIn(env, limit)), NoId, 0, None);
  }
}
