/** The four background workers of the application, of which at most one runs. */
module WorkerSlots {
  import opened Wrappers
  import opened Json
  import opened RequestModel
  import opened StreamConsole
  import Reconnect
  import SseWorker
  import WebSocketWorker

  /** A worker and its cancellation token are made together and share a number. */
  type Worker = nat

  datatype Kind = Http | Grpc | Schema

  /** An entry of the request history: the worker that produced it is recorded for the proofs. */
  datatype Entry = Entry(worker: Worker, request: Request, failed: bool)

  /** A worker's receiver and its cancellation token. */
  datatype Slot = Slot(worker: Option<Worker>, token: Option<Worker>)

  const FREE := Slot(None, None)

  /** The slot of a request worker, with what the application remembers about the request it was given. */
  datatype HttpSlot = HttpSlot(
    slot: Slot, request: Option<Request>, schema: bool, grpc: bool, deviceCode: Option<Worker>)

  const FREE_HTTP := HttpSlot(FREE, None, false, false, None)

  /**
   * What has happened outside of the slots: how many workers were made, which tokens were cancelled, which
   * request of which kind each HTTP worker was given, which workers were dropped before they answered, and
   * what was recorded.
   */
  datatype Log = Log(
    made: nat,
    cancelled: set<Worker>,
    started: map<Worker, Request>,
    kinds: map<Worker, Kind>,
    abandoned: set<Worker>,
    history: seq<Entry>)

  /** What a script reports. */
  datatype Report = Report(content: string)

  /** What the polls show. */
  datatype Display = Display(
    sse: Console<SseWorker.Message>,
    webSocket: Console<WebSocketWorker.Message>,
    responseError: Option<string>,
    scriptReport: Option<Report>,
    scriptError: Option<string>)

  const BLANK := Display(Console(false, false, None, []), Console(false, false, None, []), None, None, None)

  datatype Slots = Slots(
    http: HttpSlot, sse: Slot, webSocket: Slot, commands: Option<Worker>, script: Slot, log: Log, display: Display)

  const IDLE := Slots(FREE_HTTP, FREE, FREE, None, FREE, Log(0, {}, map[], map[], {}, []), BLANK)

  function Just<T(==)>(o: Option<T>): set<T> {
    if o.Some? then {o.value} else {}
  }

  predicate Busy(s: Slots) {
    s.http.slot.worker.Some? || s.sse.worker.Some? || s.webSocket.worker.Some? || s.script.worker.Some?
  }

  /** The workers that hold a slot. */
  function Running(s: Slots): set<Worker> {
    Just(s.http.slot.worker) + Just(s.sse.worker) + Just(s.webSocket.worker) + Just(s.script.worker)
  }

  /** The tokens that `cancel_active` reaches. */
  function Tokens(s: Slots): set<Worker> {
    Just(s.http.slot.token) + Just(s.sse.token) + Just(s.webSocket.token) + Just(s.script.token)
  }

  /** `cancel_active`. */
  function Cancel(s: Slots): Slots {
    s.(log := s.log.(cancelled := s.log.cancelled + Tokens(s)))
  }

  /** `clear_response`: cancels, and forgets every worker. */
  function Clear(s: Slots): Slots {
    Slots(FREE_HTTP, FREE, FREE, None, FREE,
          Cancel(s).log.(abandoned := s.log.abandoned + Just(s.http.slot.worker)), BLANK)
  }

  function StartHttp(s: Slots, request: Request, kind: Kind): Slots {
    if Busy(s) then s
    else
      var worker := s.log.made;
      var cleared := Clear(s);
      cleared.(
        http := HttpSlot(Slot(Some(worker), Some(worker)), Some(request), kind == Schema, kind == Grpc,
                         if kind == Http then Some(worker) else None),
        log := cleared.log.(made := worker + 1, started := cleared.log.started[worker := request],
                            kinds := cleared.log.kinds[worker := kind]))
  }

  /** The kind of worker that `send_current` starts. */
  function KindOf(request: Request): Kind {
    if request.grpc.Some? then Grpc else Http
  }

  /** The introspection request made from the edited one. */
  function SchemaRequest(request: Request, query: string): Request {
    request.(method_ := "POST", body := Graphql(query, Json.Obj(map[]), Some("PostlySchemaIntrospection")))
  }

  function StartSse(s: Slots): Slots {
    if Busy(s) then s
    else
      var cleared := Clear(s);
      cleared.(sse := Slot(Some(s.log.made), Some(s.log.made)), log := cleared.log.(made := s.log.made + 1),
               display := BLANK.(sse := BLANK.sse.(started := true)))
  }

  function StartWebSocket(s: Slots): Slots {
    if Busy(s) then s
    else
      var cleared := Clear(s);
      cleared.(webSocket := Slot(Some(s.log.made), Some(s.log.made)), commands := Some(s.log.made),
               log := cleared.log.(made := s.log.made + 1),
               display := BLANK.(webSocket := BLANK.webSocket.(started := true)))
  }

  /** The script worker starts without clearing the response it may look at. */
  function StartScript(s: Slots): Slots {
    if Busy(s) then s
    else
      s.(script := Slot(Some(s.log.made), Some(s.log.made)), log := s.log.(made := s.log.made + 1),
         display := s.display.(scriptReport := None, scriptError := None))
  }

  /** What asking an HTTP worker gives: a response comes with the reports of its scripts. */
  datatype Answer = NotYet | Response(scripts: seq<Report>, scriptError: Option<string>) | Error(error: string) | Gone

  predicate WasCancelled(slot: Slot, log: Log) {
    slot.token.Some? && slot.token.value in log.cancelled
  }

  /** An answer is recorded unless it is a schema, or a failure that the user asked for. */
  predicate Recorded(s: Slots, answer: Answer) {
    s.http.request.Some? && !s.http.schema && (answer.Response? || !WasCancelled(s.http.slot, s.log))
  }

  const REQUEST_STOPPED := "request worker stopped unexpectedly"
  const SSE_STOPPED := "SSE stream worker stopped unexpectedly"
  const WEB_SOCKET_STOPPED := "WebSocket worker stopped unexpectedly"
  const SCRIPT_STOPPED := "script worker stopped unexpectedly"
  const SCRIPT_CANCELLED := "script execution cancelled"

  /** Failures of schemas, and those that the user asked for, are not shown. */
  function Shown(s: Slots, answer: Answer): Display {
    match answer
    case NotYet => s.display
    case Response(scripts, error) =>
      var display := s.display.(responseError := None);
      if scripts == [] then display
      else display.(scriptReport := Some(scripts[|scripts| - 1]), scriptError := error)
    case Error(error) =>
      s.display.(responseError := if s.http.schema || WasCancelled(s.http.slot, s.log) then None else Some(error))
    case Gone =>
      s.display.(responseError :=
        if s.http.schema || WasCancelled(s.http.slot, s.log) then None else Some(REQUEST_STOPPED))
  }

  function PollHttp(s: Slots, answer: Answer): Slots {
    if s.http.slot.worker.None? || answer == NotYet then s
    else
      var shown := s.(http := FREE_HTTP, display := Shown(s, answer));
      if !Recorded(s, answer) then shown
      else
        var entry := Entry(s.http.slot.worker.value, s.http.request.value, !answer.Response?);
        shown.(log := s.log.(history := s.log.history + [entry]))
  }

  function PollDeviceCode(s: Slots, gone: bool): Slots {
    if gone then s.(http := s.http.(deviceCode := None)) else s
  }

  /** The error that is shown after a stream ended; a close leaves it as it is. */
  function ErrorAfter(before: Option<string>, ending: Ending, cancelled: bool, stopped: string): Option<string> {
    match ending
    case Unfinished => before
    case ByClose => before
    case ByFailure(error) => if cancelled then None else Some(error)
    case ByStop => if cancelled then None else Some(stopped)
  }

  function GreetsSse(): SseWorker.Message -> bool {
    (m: SseWorker.Message) => m.Connected?
  }

  function GreetsWebSocket(): WebSocketWorker.Message -> bool {
    (m: WebSocketWorker.Message) => m.Connected?
  }

  /** A poll shows what has come, and frees the slot when the worker is done. */
  function PollSse(s: Slots, queue: seq<Reconnect.Update<SseWorker.Message>>, gone: bool): Slots {
    if s.sse.worker.None? then s
    else
      var polled := Poll(s.display.sse, queue, gone, GreetsSse());
      var error := ErrorAfter(s.display.responseError, polled.ending, WasCancelled(s.sse, s.log), SSE_STOPPED);
      var shown := s.(display := s.display.(sse := polled.console, responseError := error));
      if polled.ending == Unfinished then shown else shown.(sse := FREE)
  }

  function PollWebSocket(s: Slots, queue: seq<Reconnect.Update<WebSocketWorker.Message>>, gone: bool): Slots {
    if s.webSocket.worker.None? then s
    else
      var polled := Poll(s.display.webSocket, queue, gone, GreetsWebSocket());
      var error :=
        ErrorAfter(s.display.responseError, polled.ending, WasCancelled(s.webSocket, s.log), WEB_SOCKET_STOPPED);
      var shown := s.(display := s.display.(webSocket := polled.console, responseError := error));
      if polled.ending == Unfinished then shown else shown.(webSocket := FREE, commands := None)
  }

  /** What asking a script worker gives. */
  datatype ScriptAnswer = NoReport | Finished(report: Report) | Broken(error: string) | Stopped

  /** A report replaces an error, and an error a report; a cancelled script leaves neither. */
  function PollScript(s: Slots, answer: ScriptAnswer): Slots {
    if s.script.worker.None? || answer == NoReport then s
    else
      var (report, error) :=
        match answer
        case Finished(report) => (Some(report), None)
        case Broken(error) => (None, if error == SCRIPT_CANCELLED then None else Some(error))
        case _ => (None, Some(SCRIPT_STOPPED));
      s.(script := FREE, display := s.display.(scriptReport := report, scriptError := error))
  }

  // ----- The application object -----

  class PostlyWorkers {
    var pending: Option<Worker>
    var pendingRequest: Option<Request>
    var pendingCancellation: Option<Worker>
    var pendingGraphqlSchema: bool
    var pendingGrpc: bool
    var pendingDeviceCode: Option<Worker>
    var ssePending: Option<Worker>
    var sseCancellation: Option<Worker>
    var websocketPending: Option<Worker>
    var websocketCancellation: Option<Worker>
    var websocketCommands: Option<Worker>
    var scriptPending: Option<Worker>
    var scriptCancellation: Option<Worker>
    var display: Display
    var log: Log

    constructor ()
      ensures View() == IDLE
    {
      pending, pendingRequest, pendingCancellation := None, None, None;
      pendingGraphqlSchema, pendingGrpc, pendingDeviceCode := false, false, None;
      ssePending, sseCancellation, websocketPending, websocketCancellation := None, None, None, None;
      websocketCommands, scriptPending, scriptCancellation := None, None, None;
      display := BLANK;
      log := Log(0, {}, map[], map[], {}, []);
    }

    ghost function View(): Slots
      reads this
    {
      Slots(HttpSlot(Slot(pending, pendingCancellation), pendingRequest, pendingGraphqlSchema, pendingGrpc,
                     pendingDeviceCode),
            Slot(ssePending, sseCancellation), Slot(websocketPending, websocketCancellation), websocketCommands,
            Slot(scriptPending, scriptCancellation), log, display)
    }

    method CancelActive()
      modifies this`log
      ensures View() == Cancel(old(View()))
    {
      if pendingCancellation.Some? {
        log := log.(cancelled := log.cancelled + {pendingCancellation.value});
      }
      if sseCancellation.Some? {
        log := log.(cancelled := log.cancelled + {sseCancellation.value});
      }
      if websocketCancellation.Some? {
        log := log.(cancelled := log.cancelled + {websocketCancellation.value});
      }
      if scriptCancellation.Some? {
        log := log.(cancelled := log.cancelled + {scriptCancellation.value});
      }
    }

    /** The fields that remember a request worker, as `clear_response` and `poll_http_pending` reset them. */
    method ForgetRequestWorker()
      modifies this`pending, this`pendingDeviceCode, this`pendingRequest, this`pendingGraphqlSchema, this`pendingGrpc,
               this`pendingCancellation
      ensures View() == old(View()).(http := FREE_HTTP)
    {
      pending, pendingDeviceCode, pendingRequest := None, None, None;
      pendingGraphqlSchema, pendingGrpc, pendingCancellation := false, false, None;
    }

    method ForgetStreams()
      modifies this`ssePending, this`sseCancellation, this`websocketPending, this`websocketCancellation,
               this`websocketCommands
      ensures View() == old(View()).(sse := FREE, webSocket := FREE, commands := None)
    {
      ssePending, sseCancellation := None, None;
      websocketPending, websocketCancellation, websocketCommands := None, None, None;
    }

    method ClearResponse()
      modifies this
      ensures View() == Clear(old(View()))
    {
      hide Tokens, Just;
      CancelActive();
      log := log.(abandoned := log.abandoned + Just(pending));
      display := BLANK;
      ForgetRequestWorker();
      scriptPending, scriptCancellation := None, None;
      ForgetStreams();
    }

    /** The fields that remember a request worker, as the operations that start one set them after clearing. */
    method HoldRequestWorker(worker: Worker, request: Request, kind: Kind)
      modifies this`pending, this`pendingDeviceCode, this`pendingRequest, this`pendingGraphqlSchema, this`pendingGrpc,
               this`pendingCancellation
      requires pendingDeviceCode.None?
      ensures View() == old(View()).(http := HttpSlot(Slot(Some(worker), Some(worker)), Some(request), kind == Schema,
                                                      kind == Grpc, if kind == Http then Some(worker) else None))
    {
      pending, pendingRequest, pendingCancellation := Some(worker), Some(request), Some(worker);
      if kind == Http {
        pendingDeviceCode := Some(worker);
      }
      pendingGraphqlSchema, pendingGrpc := kind == Schema, kind == Grpc;
    }

    /** What the three operations that start a request worker share. */
    method StartRequestWorker(request: Request, kind: Kind)
      modifies this
      ensures View() == StartHttp(old(View()), request, kind)
    {
      if pending.Some? || ssePending.Some? || websocketPending.Some? || scriptPending.Some? {
        return;
      }
      var worker := log.made;
      ClearResponse();
      log := log.(made := worker + 1, started := log.started[worker := request], kinds := log.kinds[worker := kind]);
      HoldRequestWorker(worker, request, kind);
    }

    /** `send_current`, which hands a gRPC request to `start_grpc_current`. */
    method SendCurrent(request: Request)
      modifies this
      ensures View() == StartHttp(old(View()), request, KindOf(request))
    {
      if request.grpc.Some? {
        StartRequestWorker(request, Grpc);
      } else {
        StartRequestWorker(request, Http);
      }
    }

    /** `start_graphql_schema`. */
    method StartGraphqlSchema(request: Request, query: string)
      modifies this
      ensures View() == StartHttp(old(View()), SchemaRequest(request, query), Schema)
    {
      StartRequestWorker(
        request.(method_ := "POST", body := Graphql(query, Json.Obj(map[]), Some("PostlySchemaIntrospection"))),
        Schema);
    }

    method StartSseCurrent()
      modifies this
      ensures View() == StartSse(old(View()))
    {
      if pending.Some? || ssePending.Some? || websocketPending.Some? || scriptPending.Some? {
        return;
      }
      hide Clear;
      var worker := log.made;
      log := log.(made := worker + 1);
      ClearResponse();
      ssePending, sseCancellation := Some(worker), Some(worker);
      display := display.(sse := display.sse.(started := true));
    }

    method StartWebSocketCurrent()
      modifies this
      ensures View() == StartWebSocket(old(View()))
    {
      if pending.Some? || ssePending.Some? || websocketPending.Some? || scriptPending.Some? {
        return;
      }
      hide Clear;
      var worker := log.made;
      log := log.(made := worker + 1);
      ClearResponse();
      websocketPending, websocketCancellation, websocketCommands := Some(worker), Some(worker), Some(worker);
      display := display.(webSocket := display.webSocket.(started := true));
    }

    method StartScriptRun()
      modifies this
      ensures View() == StartScript(old(View()))
    {
      if scriptPending.Some? || pending.Some? || ssePending.Some? || websocketPending.Some? {
        return;
      }
      var worker := log.made;
      log := log.(made := worker + 1);
      scriptPending, scriptCancellation := Some(worker), Some(worker);
      display := display.(scriptReport := None, scriptError := None);
    }

    method PollHttpPending(answer: Answer) returns (busy: bool)
      modifies this
      ensures View() == PollHttp(old(View()), answer)
      ensures busy == pending.Some?
    {
      if pending.None? {
        return false;
      }
      if answer == NotYet {
        return true;
      }
      var wasCancelled := pendingCancellation.Some? && pendingCancellation.value in log.cancelled;
      var request, worker, schema := pendingRequest, pending.value, pendingGraphqlSchema;
      ForgetRequestWorker();
      if answer.Response? {
        if answer.scripts != [] {
          var last := answer.scripts[|answer.scripts| - 1];
          display := display.(scriptReport := Some(last), scriptError := answer.scriptError);
        }
        display := display.(responseError := None);
        if !schema && request.Some? {
          log := log.(history := log.history + [Entry(worker, request.value, false)]);
        }
        return false;
      }
      var error := if answer == Gone then REQUEST_STOPPED else answer.error;
      if schema {
        display := display.(responseError := None);
        return false;
      }
      if !wasCancelled && request.Some? {
        log := log.(history := log.history + [Entry(worker, request.value, true)]);
      }
      display := display.(responseError := if wasCancelled then None else Some(error));
      return false;
    }

    method PollDeviceCodePrompt(gone: bool) returns (waiting: bool)
      modifies this`pendingDeviceCode
      ensures View() == PollDeviceCode(old(View()), gone)
      ensures waiting == pendingDeviceCode.Some?
    {
      if gone {
        pendingDeviceCode := None;
      }
      return pendingDeviceCode.Some?;
    }

    method PollSsePending(queue: seq<Reconnect.Update<SseWorker.Message>>, gone: bool) returns (busy: bool, taken: nat)
      modifies this`ssePending, this`sseCancellation, this`display
      ensures View() == PollSse(old(View()), queue, gone)
      ensures busy == ssePending.Some?
      ensures taken == if old(ssePending).None? then 0 else Poll(old(display).sse, queue, gone, GreetsSse()).taken
    {
      if ssePending.None? {
        return false, 0;
      }
      hide Poll;
      var cancelled := sseCancellation.Some? && sseCancellation.value in log.cancelled;
      var console, ending;
      console, ending, taken := TakeUpdates(display.sse, queue, gone, GreetsSse());
      display := display.(sse := console,
                          responseError := ErrorAfter(display.responseError, ending, cancelled, SSE_STOPPED));
      if ending != Unfinished {
        ssePending, sseCancellation := None, None;
      }
      busy := ssePending.Some?;
    }

    method PollWebSocketPending(queue: seq<Reconnect.Update<WebSocketWorker.Message>>, gone: bool)
      returns (busy: bool, taken: nat)
      modifies this`websocketPending, this`websocketCancellation, this`websocketCommands, this`display
      ensures View() == PollWebSocket(old(View()), queue, gone)
      ensures busy == websocketPending.Some?
      ensures taken == if old(websocketPending).None? then 0
                       else Poll(old(display).webSocket, queue, gone, GreetsWebSocket()).taken
    {
      if websocketPending.None? {
        return false, 0;
      }
      hide Poll;
      var cancelled := websocketCancellation.Some? && websocketCancellation.value in log.cancelled;
      var console, ending;
      console, ending, taken := TakeUpdates(display.webSocket, queue, gone, GreetsWebSocket());
      display := display.(webSocket := console,
                          responseError := ErrorAfter(display.responseError, ending, cancelled, WEB_SOCKET_STOPPED));
      if ending != Unfinished {
        websocketPending, websocketCancellation, websocketCommands := None, None, None;
      }
      busy := websocketPending.Some?;
    }

    method PollScriptPending(answer: ScriptAnswer) returns (busy: bool)
      modifies this`scriptPending, this`scriptCancellation, this`display
      ensures View() == PollScript(old(View()), answer)
      ensures busy == scriptPending.Some?
    {
      if scriptPending.None? {
        return false;
      }
      if answer == NoReport {
        return true;
      }
      scriptPending, scriptCancellation := None, None;
      if answer.Finished? {
        display := display.(scriptReport := Some(answer.report), scriptError := None);
        return false;
      }
      var error := if answer == Stopped then SCRIPT_STOPPED else answer.error;
      display := display.(scriptReport := None, scriptError := if error == SCRIPT_CANCELLED then None else Some(error));
      return false;
    }
  }
}

module WorkerSlotsTheorems {
  import opened Wrappers
  import opened RequestModel
  import opened StreamConsole
  import opened StreamConsoleTheorems
  import Reconnect
  import SseWorker
  import WebSocketWorker
  import opened WorkerSlots

  datatype Op =
    | SendOp(request: Request)
    | SchemaOp(request: Request, query: string)
    | SseOp
    | WebSocketOp
    | ScriptOp
    | ClearOp
    | CancelOp
    | PollHttpOp(answer: Answer)
    | PollDeviceCodeOp(gone: bool)
    | PollSseOp(sseQueue: seq<Reconnect.Update<SseWorker.Message>>, sseGone: bool)
    | PollWebSocketOp(queue: seq<Reconnect.Update<WebSocketWorker.Message>>, webSocketGone: bool)
    | PollScriptOp(scriptAnswer: ScriptAnswer)

  function Apply(s: Slots, op: Op): Slots {
    match op
    case SendOp(request) => StartHttp(s, request, KindOf(request))
    case SchemaOp(request, query) => StartHttp(s, SchemaRequest(request, query), Schema)
    case SseOp => StartSse(s)
    case WebSocketOp => StartWebSocket(s)
    case ScriptOp => StartScript(s)
    case ClearOp => Clear(s)
    case CancelOp => Cancel(s)
    case PollHttpOp(answer) => PollHttp(s, answer)
    case PollDeviceCodeOp(gone) => PollDeviceCode(s, gone)
    case PollSseOp(queue, gone) => PollSse(s, queue, gone)
    case PollWebSocketOp(queue, gone) => PollWebSocket(s, queue, gone)
    case PollScriptOp(answer) => PollScript(s, answer)
  }

  function Run(s: Slots, ops: seq<Op>): Slots
    decreases |ops|
  {
    if ops == [] then s else Run(Apply(s, ops[0]), ops[1..])
  }

  /** Slots in step with their tokens, at most one of them taken. */
  predicate Exclusive(s: Slots) {
    && s.http.slot.token == s.http.slot.worker && (s.http.request.Some? <==> s.http.slot.worker.Some?)
    && s.sse.token == s.sse.worker && s.webSocket.token == s.webSocket.worker && s.commands == s.webSocket.worker
    && s.script.token == s.script.worker
    && !(s.http.slot.worker.Some? && (s.sse.worker.Some? || s.webSocket.worker.Some? || s.script.worker.Some?))
    && !(s.sse.worker.Some? && (s.webSocket.worker.Some? || s.script.worker.Some?))
    && !(s.webSocket.worker.Some? && s.script.worker.Some?)
    && (s.http.deviceCode.Some? ==> s.http.deviceCode == s.http.slot.worker)
  }

  /** The pending request is the one its worker was given, and the flags are of its kind. */
  predicate Paired(s: Slots) {
    && s.log.started.Keys == s.log.kinds.Keys
    && (s.http.slot.worker.None? ==> !s.http.schema && !s.http.grpc)
    && (s.http.slot.worker.Some? ==>
          var worker := s.http.slot.worker.value;
          && worker in s.log.kinds && worker !in s.log.abandoned
          && s.http.request == Some(s.log.started[worker])
          && (s.http.schema <==> s.log.kinds[worker] == Schema)
          && (s.http.grpc <==> s.log.kinds[worker] == Grpc))
  }

  /** An entry holds the request its worker was given; the worker was no introspection, and was not dropped. */
  predicate Truthful(s: Slots, entry: Entry) {
    && entry.worker in s.log.started && entry.worker in s.log.kinds
    && entry.request == s.log.started[entry.worker] && s.log.kinds[entry.worker] != Schema
    && entry.worker !in s.log.abandoned && s.http.slot.worker != Some(entry.worker)
  }

  /** History pairs each answer with the request of the worker that gave it, once. */
  predicate Honest(s: Slots) {
    && (forall i | 0 <= i < |s.log.history| :: Truthful(s, s.log.history[i]))
    && (forall i, j | 0 <= i < j < |s.log.history| :: s.log.history[i].worker != s.log.history[j].worker)
  }

  predicate Below(workers: set<Worker>, bound: nat) {
    forall n <- workers :: n < bound
  }

  /** Numbers handed out so far are below `made`. */
  predicate Numbered(s: Slots) {
    && Below(s.log.cancelled, s.log.made) && Below(s.log.started.Keys, s.log.made)
    && Below(s.log.abandoned, s.log.made) && Below(Running(s), s.log.made)
  }

  /** No error is shown while a worker is pending that may bring one. */
  predicate Quiet(s: Slots) {
    s.http.slot.worker.Some? || s.sse.worker.Some? || s.webSocket.worker.Some? ==> s.display.responseError.None?
  }

  predicate Inv(s: Slots) {
    Exclusive(s) && Numbered(s) && Paired(s) && Honest(s) && Quiet(s)
  }

  lemma SendKeepsInv(s: Slots, request: Request, kind: Kind)
    requires Inv(s)
    ensures Inv(StartHttp(s, request, kind))
  {
    if !Busy(s) {
      var t := StartHttp(s, request, kind);
      assert s.log.made !in s.log.started;
      assert Running(t) == {s.log.made};
      assert Tokens(s) == {};
      forall i | 0 <= i < |t.log.history| ensures Truthful(t, t.log.history[i]) {
        assert Truthful(s, s.log.history[i]);
      }
    }
  }

  lemma PollKeepsInv(s: Slots, answer: Answer)
    requires Inv(s)
    ensures Inv(PollHttp(s, answer))
  {
    var t := PollHttp(s, answer);
    if t.http != s.http {
      assert Running(t) <= Running(s);
      forall i | 0 <= i < |t.log.history| ensures Truthful(t, t.log.history[i]) {
        if i < |s.log.history| {
          assert Truthful(s, s.log.history[i]);
        }
      }
    }
  }

  lemma ClearKeepsInv(s: Slots)
    requires Inv(s)
    ensures Inv(Clear(s)) && Inv(Cancel(s))
  {
    assert Tokens(s) == Running(s);
    var t, u := Clear(s), Cancel(s);
    forall i | 0 <= i < |s.log.history| ensures Truthful(t, s.log.history[i]) && Truthful(u, s.log.history[i]) {
      assert Truthful(s, s.log.history[i]);
    }
  }

  /** The operations that only touch the other slots. */
  lemma OthersKeepInv(s: Slots, op: Op)
    requires Inv(s) && !(op.SendOp? || op.SchemaOp? || op.PollHttpOp? || op.ClearOp? || op.CancelOp?)
    ensures Inv(Apply(s, op))
  {
    hide Poll, GreetsSse, GreetsWebSocket;
    var t := Apply(s, op);
    assert Running(t) <= Running(s) + {s.log.made};
    if (op.SseOp? || op.WebSocketOp? || op.ScriptOp?) && !Busy(s) {
      assert Tokens(s) == {};
    }
    forall i | 0 <= i < |s.log.history| ensures Truthful(t, s.log.history[i]) {
      assert Truthful(s, s.log.history[i]);
    }
  }

  lemma KeepsInv(s: Slots, op: Op)
    requires Inv(s)
    ensures Inv(Apply(s, op))
  {
    hide Inv, StartHttp, PollHttp, Clear, Cancel, StartSse, StartWebSocket, StartScript;
    match op {
      case SendOp(request) => SendKeepsInv(s, request, KindOf(request));
      case SchemaOp(request, query) => SendKeepsInv(s, SchemaRequest(request, query), Schema);
      case PollHttpOp(answer) => PollKeepsInv(s, answer);
      case ClearOp => ClearKeepsInv(s);
      case CancelOp => ClearKeepsInv(s);
      case _ => OthersKeepInv(s, op);
    }
  }

  lemma IdleHasInv()
    ensures Inv(IDLE)
  {
  }

  lemma {:induction false} RunsKeepInv(s: Slots, ops: seq<Op>)
    requires Inv(s)
    ensures Inv(Run(s, ops))
    decreases |ops|
  {
    hide Inv;
    if ops != [] {
      KeepsInv(s, ops[0]);
      RunsKeepInv(Apply(s, ops[0]), ops[1..]);
    }
  }

  /**
   * Main result: in every reachable state at most one worker is pending, every pending worker has its
   * own token, and history never pairs an answer with another request.
   */
  lemma ReachableStatesKeepInv(ops: seq<Op>)
    ensures Inv(Run(IDLE, ops))
  {
    hide Inv, Run;
    IdleHasInv();
    RunsKeepInv(IDLE, ops);
  }

  predicate Starts(op: Op) {
    op.SendOp? || op.SchemaOp? || op.SseOp? || op.WebSocketOp? || op.ScriptOp?
  }

  /** Main result: starting a worker cancels no token at all, in particular not its own. */
  lemma StartingCancelsNothing(s: Slots, op: Op)
    requires Inv(s) && Starts(op)
    ensures var t := Apply(s, op);
      && t.log.cancelled == s.log.cancelled && t.log.abandoned == s.log.abandoned
      && (Busy(s) ==> t == s)
      && (!Busy(s) ==> Busy(t) && t.log.made == s.log.made + 1 && s.log.made !in t.log.cancelled
                       && Running(t) == Tokens(t) == {s.log.made})
  {
    if !Busy(s) {
      assert Tokens(s) == {} && Just(s.http.slot.worker) == {};
      assert s.log.cancelled + Tokens(s) == s.log.cancelled;
      assert s.log.abandoned + Just(s.http.slot.worker) == s.log.abandoned;
    }
  }

  /** Clearing cancels exactly the running worker, and frees every slot. */
  lemma ClearingCancelsTheRunning(s: Slots)
    requires Inv(s)
    ensures var t := Clear(s);
      !Busy(t) && t.log.cancelled == s.log.cancelled + Running(s) && t.log.history == s.log.history
  {
    assert Tokens(s) == Running(s);
  }

  /** A dropped worker stays dropped. */
  lemma {:induction false} DroppedStaysDropped(s: Slots, ops: seq<Op>, worker: Worker)
    requires worker in s.log.abandoned
    ensures worker in Run(s, ops).log.abandoned
    decreases |ops|
  {
    if ops != [] {
      DroppedStaysDropped(Apply(s, ops[0]), ops[1..], worker);
    }
  }

  /** A worker that was dropped is never recorded, whatever happens later. */
  lemma {:induction false} DroppedIsNeverRecorded(s: Slots, ops: seq<Op>, worker: Worker)
    requires Inv(s) && worker in s.log.abandoned
    ensures forall i | 0 <= i < |Run(s, ops).log.history| :: Run(s, ops).log.history[i].worker != worker
  {
    RunsKeepInv(s, ops);
    DroppedStaysDropped(s, ops, worker);
    var t := Run(s, ops);
    forall i | 0 <= i < |t.log.history| ensures t.log.history[i].worker != worker {
      assert Truthful(t, t.log.history[i]);
    }
  }

  /** A failure of a cancelled worker is not recorded; a response that arrives all the same is. */
  lemma CancelledFailuresAreNotRecorded(s: Slots, answer: Answer)
    requires Inv(s) && s.http.slot.worker.Some? && answer != NotYet
    ensures var before, after := s.log.history, PollHttp(Cancel(s), answer).log.history;
      after == if answer.Response? && !s.http.schema
               then before + [Entry(s.http.slot.worker.value, s.http.request.value, false)] else before
  {
    assert s.http.slot.token.value in Tokens(s);
  }

  /** Nor is it shown: after cancelling, no answer and no end of a stream leaves an error behind. */
  lemma CancelledFailuresAreNotShown(s: Slots, op: Op)
    requires Inv(s) && (op.PollHttpOp? || op.PollSseOp? || op.PollWebSocketOp?)
    requires s.http.slot.worker.Some? || s.sse.worker.Some? || s.webSocket.worker.Some?
    ensures Apply(Cancel(s), op).display.responseError.None?
  {
    hide Poll;
    assert Tokens(s) == Running(s);
    assert s.sse.worker.Some? ==> s.sse.worker.value in Running(s);
    assert s.webSocket.worker.Some? ==> s.webSocket.worker.value in Running(s);
    assert s.http.slot.worker.Some? ==> s.http.slot.worker.value in Running(s);
  }

  // ----- A stream on its console -----

  function PollsSse(s: Slots, queues: seq<seq<Reconnect.Update<SseWorker.Message>>>): Slots
    decreases |queues|
  {
    if queues == [] then s else PollsSse(PollSse(s, queues[0], false), queues[1..])
  }

  function PollsWebSocket(s: Slots, queues: seq<seq<Reconnect.Update<WebSocketWorker.Message>>>): Slots
    decreases |queues|
  {
    if queues == [] then s else PollsWebSocket(PollWebSocket(s, queues[0], false), queues[1..])
  }

  /** It does not matter how often the application polls. */
  lemma {:induction false} SsePollsDoNotMatter(s: Slots, queues: seq<seq<Reconnect.Update<SseWorker.Message>>>)
    ensures PollsSse(s, queues) == PollSse(s, Together(queues), false)
    decreases |queues|
  {
    hide Poll, GreetsSse;
    if queues == [] {
      NothingPolled(s.display.sse, GreetsSse());
    } else {
      SsePollsDoNotMatter(PollSse(s, queues[0], false), queues[1..]);
      PollTwice(s.display.sse, queues[0], Together(queues[1..]), false, GreetsSse());
    }
  }

  lemma {:induction false} WebSocketPollsDoNotMatter(
      s: Slots, queues: seq<seq<Reconnect.Update<WebSocketWorker.Message>>>)
    ensures PollsWebSocket(s, queues) == PollWebSocket(s, Together(queues), false)
    decreases |queues|
  {
    hide Poll, GreetsWebSocket;
    if queues == [] {
      NothingPolled(s.display.webSocket, GreetsWebSocket());
    } else {
      WebSocketPollsDoNotMatter(PollWebSocket(s, queues[0], false), queues[1..]);
      PollTwice(s.display.webSocket, queues[0], Together(queues[1..]), false, GreetsWebSocket());
    }
  }

  /**
   * Main result: from its start to its end a stream's worker holds its slot for exactly its whole run. However the
   * application polls, the last update of the run frees the slot, the newest messages of all its connections are
   * shown, and its failure unless it was cancelled.
   */
  lemma SseRunIsShown(
      s: Slots, queues: seq<seq<Reconnect.Update<SseWorker.Message>>>, limit: nat,
      visits: nat -> Reconnect.Visit<SseWorker.Message>)
    requires s.sse.worker.Some? && |s.display.sse.kept| <= MAX_ITEMS
    requires Together(queues) == Reconnect.Loop(limit, visits, SseWorker.IdOf, 0, None).log
    ensures var log, t := Together(queues), PollsSse(s, queues);
      log != [] && t.sse == FREE && !t.display.sse.connected && t.log == s.log
      && t.display.sse.kept == Newest(s.display.sse.kept + Retained(log, GreetsSse()))
      && t.display.responseError
         == ErrorAfter(s.display.responseError, EndingOf(log[|log| - 1]), WasCancelled(s.sse, s.log), SSE_STOPPED)
  {
    hide Poll, PollEach, Together, Newest, Retained, Reconnect.Loop, GreetsSse, PollsSse, ErrorAfter;
    EveryRunIsShown(limit, visits, SseWorker.IdOf, s.display.sse, queues, GreetsSse());
    PollsDoNotMatter(s.display.sse, queues, GreetsSse());
    SsePollsDoNotMatter(s, queues);
  }

  lemma WebSocketRunIsShown(
      s: Slots, queues: seq<seq<Reconnect.Update<WebSocketWorker.Message>>>, limit: nat,
      visits: nat -> Reconnect.Visit<WebSocketWorker.Message>)
    requires s.webSocket.worker.Some? && |s.display.webSocket.kept| <= MAX_ITEMS
    requires Together(queues) == Reconnect.Loop(limit, visits, WebSocketWorker.NoId, 0, None).log
    ensures var log, t := Together(queues), PollsWebSocket(s, queues);
      log != [] && t.webSocket == FREE && t.commands == None && !t.display.webSocket.connected && t.log == s.log
      && t.display.webSocket.kept == Newest(s.display.webSocket.kept + Retained(log, GreetsWebSocket()))
      && t.display.responseError
         == ErrorAfter(s.display.responseError, EndingOf(log[|log| - 1]), WasCancelled(s.webSocket, s.log),
                       WEB_SOCKET_STOPPED)
  {
    hide Poll, PollEach, Together, Newest, Retained, Reconnect.Loop, GreetsWebSocket, PollsWebSocket, ErrorAfter;
    EveryRunIsShown(limit, visits, WebSocketWorker.NoId, s.display.webSocket, queues, GreetsWebSocket());
    PollsDoNotMatter(s.display.webSocket, queues, GreetsWebSocket());
    WebSocketPollsDoNotMatter(s, queues);
  }
}
