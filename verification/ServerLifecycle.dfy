/**
 Starting, retrying and stopping the PAS servers (server/serve.py, server/runtime.py).

 `serve_with_settings` is one coroutine: each stretch between two awaits is one step.  Clock readings,
 the outcome of entering the application lifespan, listeners coming up or dying, and shutdown are
 inputs of the steps.
 */
module ServerLifecycle {
  import opened Common

  datatype Phase = STARTING | SCHEMA_OUTDATED | SCHEMA_TOO_NEW | SETUP | READY | STOPPING | FAILED

  datatype Code =
    | SchemaWaiting | Outdated | NotInitialized | TooNew | OtherSchema(name: string)
    | InitializationFailed | WaitTimeout

  // What entering the lifespan comes to; `setup` is the access mode the application reports.
  datatype Outcome = Entered(setup: bool) | SchemaError(code: Code) | OtherError

  // ----- the runtime -----

  // `entered` and `exited` count the successful entries and the exits of the lifespan context.
  datatype Rt = Rt(startAttempted: bool, stopped: bool, held: bool, phase: Phase, error: Option<Code>,
                   entered: nat, exited: nat)

  function NewRt(): Rt {
    Rt(false, false, false, STARTING, None, 0, 0)
  }

  function PhaseOf(code: Code): Phase {
    match code
    case Outdated => SCHEMA_OUTDATED
    case TooNew => SCHEMA_TOO_NEW
    case _ => FAILED
  }

  function AfterStart(rt: Rt, outcome: Outcome): Rt {
    match outcome
    case Entered(setup) =>
      rt.(held := true, entered := rt.entered + 1, error := None, phase := if setup then SETUP else READY)
    case SchemaError(code) => rt.(startAttempted := false, error := Some(code), phase := PhaseOf(code))
    case OtherError => rt.(error := Some(InitializationFailed), phase := FAILED)
  }

  function AfterStop(rt: Rt): Rt {
    if rt.stopped then rt
    else rt.(stopped := true, phase := STOPPING, held := false, exited := if rt.held then rt.exited + 1 else rt.exited)
  }

  class PasRuntime {
    var startAttempted: bool
    var stopped: bool
    var held: bool
    var phase: Phase
    var error: Option<Code>
    ghost var entered: nat
    ghost var exited: nat

    ghost function View(): Rt
      reads this
    {
      Rt(startAttempted, stopped, held, phase, error, entered, exited)
    }

    constructor ()
      ensures View() == NewRt()
    {
      startAttempted, stopped, held, phase, error := false, false, false, STARTING, None;
      entered, exited := 0, 0;
    }

    // Refused when a start is under way or has succeeded.
    method StartBegin() returns (refused: bool)
      modifies this
      ensures refused == old(startAttempted)
      ensures View() == old(View()).(startAttempted := true)
    {
      refused := startAttempted;
      startAttempted := true;
    }

    method StartEnd(outcome: Outcome)
      modifies this
      ensures View() == AfterStart(old(View()), outcome)
    {
      match outcome {
        case Entered(setup) =>
          held := true;
          entered := entered + 1;
          error := None;
          phase := if setup then SETUP else READY;
        case SchemaError(code) =>
          startAttempted := false;
          error := Some(code);
          phase := match code { case Outdated => SCHEMA_OUTDATED case TooNew => SCHEMA_TOO_NEW case _ => FAILED };
        case OtherError =>
          error := Some(InitializationFailed);
          phase := FAILED;
      }
    }

    // `exiting` says that the context is left, which the caller then awaits.
    method StopBegin() returns (exiting: bool)
      modifies this
      ensures View() == AfterStop(old(View()))
      ensures exiting == (!old(stopped) && old(held))
    {
      exiting := false;
      if stopped {
        return;
      }
      stopped := true;
      phase := STOPPING;
      exiting := held;
      held := false;
      if exiting {
        exited := exited + 1;
      }
    }
  }

  // ----- listeners -----

  datatype Kind = Management | Gated | Business

  datatype Server = Server(kind: Kind, started: bool, shouldExit: bool, done: bool)

  datatype Gate = Gate(ready: bool, code: Code)

  datatype Request = Http(path: string) | WebSocket | OtherScope

  datatype Reply = Forwarded | Status(failed: bool, code: Code, status: int, retryAfter: bool) | Closed(reason: int) | Silent

  // The health gate: only a ready gate forwards.
  function Respond(gate: Gate, request: Request): Reply {
    if gate.ready then Forwarded
    else
      match request
      case Http(path) =>
        Status(gate.code != SchemaWaiting, gate.code, if path == "/livez" then 200 else 503, path != "/livez")
      case WebSocket => Closed(1013)
      case OtherScope => Silent
  }

  // ----- the coroutine -----

  datatype Point =
    | Fresh | ManagementStarting | Starting | GateStarting | RetryWait | Retrying | BusinessStarting
    | ShutdownWait | Draining | Exiting | Done

  datatype State = State(
    management: bool,
    timeout: int,
    rt: Rt,
    servers: seq<Server>,
    gate: Gate,
    runtimeStarted: bool,
    shutdown: bool,
    deadline: int,
    refused: bool,  // a start was refused because the runtime was started already
    point: Point)

  datatype Event =
    | Shutdown
    | ServerUp(i: nat)
    | ServerEnds(i: nat)
    | Begin(made: bool)
    | ManagementUp(made: bool)
    | StartReturns(outcome: Outcome, made: bool)
    | GateUp(now: int, later: int)
    | RetryTimeout
    | RetryInterrupted
    | RetryReturns(outcome: Outcome, now: int)
    | BusinessUp
    | ListenerDown
    | WaitReturns
    | Drained
    | ExitReturns
    | Cancel

  predicate AnyDone(servers: seq<Server>) {
    exists i :: 0 <= i < |servers| && servers[i].done
  }

  predicate AllDone(servers: seq<Server>) {
    forall i :: 0 <= i < |servers| ==> servers[i].done
  }

  function ToldToExit(servers: seq<Server>): (r: seq<Server>)
    ensures |r| == |servers| && forall i :: 0 <= i < |r| ==> r[i] == servers[i].(shouldExit := true)
  {
    seq(|servers|, i requires 0 <= i < |servers| => servers[i].(shouldExit := true))
  }

  predicate Recoverable(code: Code) {
    code == Outdated || code == NotInitialized
  }

  function AddServer(s: State, kind: Kind): State {
    s.(servers := s.servers + [Server(kind, false, false, false)])
  }

  // The `finally` block, up to its first await.
  function Finally(s: State): State {
    var told := s.(servers := ToldToExit(s.servers));
    if s.servers != [] then told.(point := Draining) else StopRuntime(told)
  }

  function StopRuntime(s: State): State {
    if !s.runtimeStarted then s.(point := Done)
    else s.(rt := AfterStop(s.rt), point := if !s.rt.stopped && s.rt.held then Exiting else Done)
  }

  function CallStart(s: State, point: Point): State {
    if s.rt.startAttempted then Finally(s.(refused := true))
    else s.(rt := s.rt.(startAttempted := true), point := point)
  }

  // The head of the retry loop.
  function RetryLoop(s: State, now: int): State {
    if now < s.deadline && !s.shutdown then
      if AnyDone(s.servers) then Finally(s) else s.(point := RetryWait)
    else AfterRetries(s, now)
  }

  function AfterRetries(s: State, now: int): State {
    if !s.runtimeStarted && !s.shutdown && now >= s.deadline then
      s.(rt := s.rt.(error := Some(WaitTimeout), phase := FAILED), gate := s.gate.(code := WaitTimeout), point := ShutdownWait)
    else s.(point := ShutdownWait)
  }

  predicate IsStretch(e: Event) {
    !e.Shutdown? && !e.ServerUp? && !e.ServerEnds?
  }

  predicate Possible(s: State, e: Event) {
    match e
    case Shutdown => true
    case ServerUp(i) => i < |s.servers| && !s.servers[i].done
    case ServerEnds(i) => i < |s.servers| && !s.servers[i].done
    case Begin(_) => s.point == Fresh
    case ManagementUp(_) => s.point == ManagementStarting && s.servers != [] && s.servers[|s.servers| - 1].started
    case StartReturns(_, _) => s.point == Starting
    case GateUp(now, later) => s.point == GateStarting && now <= later && s.servers != [] && s.servers[|s.servers| - 1].started
    case RetryTimeout => s.point == RetryWait
    case RetryInterrupted => s.point == RetryWait && s.shutdown
    case RetryReturns(_, _) => s.point == Retrying
    case BusinessUp => s.point == BusinessStarting && s.servers != [] && s.servers[|s.servers| - 1].started
    case ListenerDown =>
      (s.point == ManagementStarting || s.point == GateStarting || s.point == BusinessStarting)
      && s.servers != [] && s.servers[|s.servers| - 1].done
    case WaitReturns => s.point == ShutdownWait && (s.shutdown || AnyDone(s.servers))
    case Drained => s.point == Draining && AllDone(s.servers)
    case ExitReturns => s.point == Exiting
    case Cancel => s.point != Fresh && s.point != Draining && s.point != Exiting && s.point != Done
  }

  function Step(s: State, e: Event): State
    requires Possible(s, e)
  {
    match e
    case Shutdown => s.(shutdown := true)
    case ServerUp(i) => s.(servers := s.servers[i := s.servers[i].(started := true)])
    case ServerEnds(i) => s.(servers := s.servers[i := s.servers[i].(done := true)])
    case Begin(made) =>
      if !made then Finally(s)
      else if s.management then AddServer(s, Management).(point := ManagementStarting)
      else CallStart(s, Starting)
    case ManagementUp(made) => if made then CallStart(s, Starting) else Finally(s)
    case StartReturns(outcome, made) => FirstStart(s.(rt := AfterStart(s.rt, outcome)), outcome, made)
    case GateUp(now, later) => RetryLoop(s.(deadline := now + s.timeout), later)
    case RetryTimeout => CallStart(s, Retrying)
    case RetryInterrupted => s.(point := ShutdownWait)
    case RetryReturns(outcome, now) => NextStart(s.(rt := AfterStart(s.rt, outcome)), outcome, now)
    case BusinessUp => s.(point := ShutdownWait)
    case ListenerDown => Finally(s)
    case WaitReturns => Finally(s)
    case Drained => StopRuntime(s)
    case ExitReturns => s.(point := Done)
    case Cancel => Finally(s)
  }

  // What follows the first start; `made` says that the listener it calls for could be created.
  function FirstStart(s: State, outcome: Outcome, made: bool): State {
    match outcome
    case Entered(_) =>
      var started := s.(runtimeStarted := true);
      if made then AddServer(started, Business).(point := BusinessStarting) else Finally(started)
    case OtherError => Finally(s)
    case SchemaError(code) =>
      if !s.management then Finally(s)
      else if !Recoverable(code) || s.shutdown then s.(point := ShutdownWait)
      else if made then AddServer(s, Gated).(point := GateStarting)
      else Finally(s)
  }

  function NextStart(s: State, outcome: Outcome, now: int): State {
    match outcome
    case Entered(_) => s.(runtimeStarted := true, gate := s.gate.(ready := true), point := ShutdownWait)
    case OtherError => Finally(s)
    case SchemaError(code) =>
      if Recoverable(code) then RetryLoop(s, now)
      else AfterRetries(s.(gate := s.gate.(code := code)), now)
  }

  function Initial(management: bool, timeout: int): State {
    State(management, timeout, NewRt(), [], Gate(false, SchemaWaiting), false, false, 0, false, Fresh)
  }

  // The variables of `serve_with_settings` and the point at which it is suspended.
  class ServeWithSettings {
    const management: bool
    const timeout: int
    const runtime: PasRuntime
    var servers: seq<Server>
    var gate: Gate
    var runtimeStarted: bool
    var shutdown: bool
    var deadline: int
    var refused: bool
    var point: Point

    ghost function View(): State
      reads this, runtime
    {
      State(management, timeout, runtime.View(), servers, gate, runtimeStarted, shutdown, deadline, refused, point)
    }

    constructor (management: bool, timeout: int, runtime: PasRuntime)
      requires runtime.View() == NewRt()
      ensures View() == Initial(management, timeout) && this.runtime == runtime
    {
      this.management, this.timeout, this.runtime := management, timeout, runtime;
      servers, gate, runtimeStarted, shutdown := [], Gate(false, SchemaWaiting), false, false;
      deadline, refused, point := 0, false, Fresh;
    }

    method RunFinally()
      modifies this, runtime
      ensures View() == Finally(old(View()))
    {
      var told: seq<Server> := [];
      for n := 0 to |servers|
        invariant servers == old(servers) && View() == old(View())
        invariant |told| == n && forall i :: 0 <= i < n ==> told[i] == servers[i].(shouldExit := true)
      {
        told := told + [servers[n].(shouldExit := true)];
      }
      assert told == ToldToExit(servers);
      servers := told;
      if servers != [] {
        point := Draining;
      } else {
        StopTheRuntime();
      }
    }

    method StopTheRuntime()
      modifies this, runtime
      ensures View() == StopRuntime(old(View()))
    {
      point := Done;
      if runtimeStarted {
        var exiting := runtime.StopBegin();
        if exiting {
          point := Exiting;
        }
      }
    }

    method StartTheRuntime(waiting: Point)
      modifies this, runtime
      ensures View() == CallStart(old(View()), waiting)
    {
      if runtime.startAttempted {
        refused := true;
        RunFinally();
        return;
      }
      var _ := runtime.StartBegin();
      point := waiting;
    }

    method RunRetryLoop(now: int)
      modifies this, runtime
      ensures View() == RetryLoop(old(View()), now)
    {
      if now < deadline && !shutdown {
        if AnyDone(servers) {
          RunFinally();
        } else {
          point := RetryWait;
        }
      } else {
        GiveUpRetrying(now);
      }
    }

    method GiveUpRetrying(now: int)
      modifies this, runtime
      ensures View() == AfterRetries(old(View()), now)
    {
      if !runtimeStarted && !shutdown && now >= deadline {
        runtime.error := Some(WaitTimeout);
        runtime.phase := FAILED;
        gate := gate.(code := WaitTimeout);
      }
      point := ShutdownWait;
    }

    method FirstStartReturned(outcome: Outcome, made: bool)
      requires Possible(View(), StartReturns(outcome, made))
      modifies this, runtime
      ensures View() == Step(old(View()), StartReturns(outcome, made))
    {
      runtime.StartEnd(outcome);
      match outcome {
        case Entered(_) =>
          runtimeStarted := true;
          CreateOrFail(made, Business, BusinessStarting);
        case OtherError => RunFinally();
        case SchemaError(code) =>
          if !management {
            RunFinally();
          } else if !Recoverable(code) || shutdown {
            point := ShutdownWait;
          } else {
            CreateOrFail(made, Gated, GateStarting);
          }
      }
    }

    method CreateOrFail(made: bool, kind: Kind, waiting: Point)
      modifies this, runtime
      ensures View() == if made then AddServer(old(View()), kind).(point := waiting) else Finally(old(View()))
    {
      if made {
        servers := servers + [Server(kind, false, false, false)];
        point := waiting;
      } else {
        RunFinally();
      }
    }

    method GateStarted(now: int, later: int)
      requires Possible(View(), GateUp(now, later))
      modifies this, runtime
      ensures View() == Step(old(View()), GateUp(now, later))
    {
      deadline := now + timeout;
      RunRetryLoop(later);
    }

    method RetryReturned(outcome: Outcome, now: int)
      requires Possible(View(), RetryReturns(outcome, now))
      modifies this, runtime
      ensures View() == Step(old(View()), RetryReturns(outcome, now))
    {
      runtime.StartEnd(outcome);
      match outcome {
        case Entered(_) =>
          runtimeStarted := true;
          gate := gate.(ready := true);
          point := ShutdownWait;
        case OtherError => RunFinally();
        case SchemaError(code) =>
          if Recoverable(code) {
            RunRetryLoop(now);
          } else {
            gate := gate.(code := code);
            GiveUpRetrying(now);
          }
      }
    }

    // From the first line to the first await; without a management listener the runtime starts at once.
    method BeginServing(made: bool)
      requires Possible(View(), Begin(made))
      modifies this, runtime
      ensures View() == Step(old(View()), Begin(made))
    {
      if made && !management {
        StartTheRuntime(Starting);
      } else {
        CreateOrFail(made, Management, ManagementStarting);
      }
    }

    method ManagementStarted(made: bool)
      requires Possible(View(), ManagementUp(made))
      modifies this, runtime
      ensures View() == Step(old(View()), ManagementUp(made))
    {
      if made {
        StartTheRuntime(Starting);
      } else {
        RunFinally();
      }
    }

    // What happens outside the coroutine.
    method Outside(e: Event)
      requires Possible(View(), e) && !IsStretch(e)
      modifies this
      ensures View() == Step(old(View()), e)
    {
      match e {
        case Shutdown => shutdown := true;
        case ServerUp(i) => servers := servers[i := servers[i].(started := true)];
        case ServerEnds(i) => servers := servers[i := servers[i].(done := true)];
      }
    }

    // The stretches that end the coroutine or only move it on.
    method MoveOn(e: Event)
      requires Possible(View(), e)
      requires e.RetryInterrupted? || e.BusinessUp? || e.ListenerDown? || e.WaitReturns? || e.Drained? || e.ExitReturns? || e.Cancel?
      modifies this, runtime
      ensures View() == Step(old(View()), e)
    {
      if e.RetryInterrupted? || e.BusinessUp? {
        point := ShutdownWait;
      } else if e.Drained? {
        StopTheRuntime();
      } else if e.ExitReturns? {
        point := Done;
      } else {
        RunFinally();
      }
    }

    method Handle(e: Event)
      requires Possible(View(), e)
      modifies this, runtime
      ensures View() == Step(old(View()), e)
    {
      match e {
        case Begin(made) => BeginServing(made);
        case ManagementUp(made) => ManagementStarted(made);
        case StartReturns(outcome, made) => FirstStartReturned(outcome, made);
        case GateUp(now, later) => GateStarted(now, later);
        case RetryTimeout => StartTheRuntime(Retrying);
        case RetryReturns(outcome, now) => RetryReturned(outcome, now);
        case Shutdown => Outside(e);
        case ServerUp(_) => Outside(e);
        case ServerEnds(_) => Outside(e);
        case _ => MoveOn(e);
      }
    }

    /** The objects go through the very states the theorems about runs speak of. */
    method Drive(events: seq<Event>)
      requires IsRun(View(), events)
      modifies this, runtime
      ensures View() == After(old(View()), events)
    {
      ghost var start := View();
      assert events[0..] == events;
      for n := 0 to |events|
        invariant IsRun(View(), events[n..])
        invariant After(View(), events[n..]) == After(start, events)
      {
        assert events[n..][0] == events[n] && events[n..][1..] == events[n + 1..];
        Handle(events[n]);
      }
      assert events[|events|..] == [];
    }
  }

  // ----- safety -----

  ghost predicate InStart(point: Point) {
    point == Starting || point == Retrying
  }

  ghost predicate Closing(point: Point) {
    point == Draining || point == Exiting || point == Done
  }

  // The runtime, seen from the points of the coroutine.
  ghost predicate RtSafe(s: State) {
    && !s.refused
    && s.rt.entered == (if s.runtimeStarted then 1 else 0)
    && (s.rt.held <==> s.runtimeStarted && !s.rt.stopped)
    && (s.rt.stopped ==> s.runtimeStarted && (s.point == Exiting || s.point == Done))
    && s.rt.exited == (if s.rt.stopped then 1 else 0)
    && (s.rt.held ==> (s.rt.phase == READY || s.rt.phase == SETUP) && s.rt.error.None?)
    && (!s.rt.held ==> s.rt.phase != READY && s.rt.phase != SETUP)
    && (s.point == Done || s.point == Exiting ==> (s.runtimeStarted ==> s.rt.stopped))
    && (s.point == Fresh || s.point == ManagementStarting || s.point == GateStarting || s.point == RetryWait ==>
          !s.rt.startAttempted && !s.runtimeStarted)
    && (InStart(s.point) ==> !s.runtimeStarted)
  }

  // The listeners: business requests are let through only once the runtime was started, and every
  // listener is told to exit before it is waited for.
  ghost predicate ListenersSafe(s: State) {
    && (s.gate.ready ==> s.runtimeStarted)
    && (forall i :: 0 <= i < |s.servers| && s.servers[i].kind == Business ==> s.runtimeStarted)
    && (Closing(s.point) ==> forall i :: 0 <= i < |s.servers| ==> s.servers[i].shouldExit)
    && (s.point == Exiting || s.point == Done ==> AllDone(s.servers))
  }

  ghost predicate Safe(s: State) {
    RtSafe(s) && ListenersSafe(s)
  }

  // The state of a stretch before its next await.
  ghost predicate Mid(s: State) {
    && !s.refused && !s.rt.stopped
    && s.rt.entered == (if s.runtimeStarted then 1 else 0) && s.rt.exited == 0
    && (s.rt.held <==> s.runtimeStarted)
    && (s.rt.held ==> (s.rt.phase == READY || s.rt.phase == SETUP) && s.rt.error.None?)
    && (!s.rt.held ==> s.rt.phase != READY && s.rt.phase != SETUP)
    && (s.gate.ready ==> s.runtimeStarted)
    && (forall i :: 0 <= i < |s.servers| && s.servers[i].kind == Business ==> s.runtimeStarted)
  }

  lemma FinallyIsSafe(s: State)
    requires Mid(s)
    ensures Safe(Finally(s))
  {
  }

  lemma RetryLoopIsSafe(s: State, now: int)
    requires Mid(s) && !s.rt.startAttempted && !s.runtimeStarted
    ensures Safe(RetryLoop(s, now)) && Safe(AfterRetries(s, now))
  {
    FinallyIsSafe(s);
  }

  lemma SafeIsMid(s: State)
    requires Safe(s) && !Closing(s.point)
    ensures Mid(s)
  {
  }

  lemma FirstStartIsSafe(s: State, outcome: Outcome, made: bool)
    requires Safe(s) && s.point == Starting
    ensures Safe(Step(s, StartReturns(outcome, made)))
  {
    var t := s.(rt := AfterStart(s.rt, outcome));
    match outcome
    case Entered(_) => FinallyIsSafe(t.(runtimeStarted := true));
    case _ => FinallyIsSafe(t);
  }

  lemma NextStartIsSafe(s: State, outcome: Outcome, now: int)
    requires Safe(s) && s.point == Retrying
    ensures Safe(Step(s, RetryReturns(outcome, now)))
  {
    var t := s.(rt := AfterStart(s.rt, outcome));
    match outcome
    case Entered(_) =>
    case OtherError => FinallyIsSafe(t);
    case SchemaError(code) =>
      RetryLoopIsSafe(t, now);
      RetryLoopIsSafe(t.(gate := t.gate.(code := code)), now);
  }

  lemma OutsideIsSafe(s: State, e: Event)
    requires Safe(s) && Possible(s, e) && !IsStretch(e)
    ensures Safe(Step(s, e))
  {
    var t := Step(s, e);
    assert forall i :: 0 <= i < |t.servers| ==> t.servers[i].kind == s.servers[i].kind;
  }

  lemma CallStartIsSafe(s: State, point: Point)
    requires Mid(s) && !s.rt.startAttempted && !s.runtimeStarted && InStart(point)
    ensures Safe(CallStart(s, point))
  {
  }

  lemma OpeningIsSafe(s: State, made: bool)
    requires Safe(s)
    ensures s.point == Fresh ==> Safe(Step(s, Begin(made)))
    ensures Possible(s, ManagementUp(made)) ==> Safe(Step(s, ManagementUp(made)))
  {
    if s.point == Fresh || s.point == ManagementStarting {
      SafeIsMid(s);
      FinallyIsSafe(s);
      CallStartIsSafe(s, Starting);
    }
  }

  lemma ClosingIsSafe(s: State, e: Event)
    requires Safe(s) && Possible(s, e) && (e.Drained? || e.ExitReturns?)
    ensures Safe(Step(s, e))
  {
  }

  lemma StepIsSafe(s: State, e: Event)
    requires Safe(s) && Possible(s, e)
    ensures Safe(Step(s, e))
  {
    match e
    case Shutdown => OutsideIsSafe(s, e);
    case ServerUp(_) => OutsideIsSafe(s, e);
    case ServerEnds(_) => OutsideIsSafe(s, e);
    case Begin(made) => OpeningIsSafe(s, made);
    case ManagementUp(made) => OpeningIsSafe(s, made);
    case StartReturns(outcome, made) => FirstStartIsSafe(s, outcome, made);
    case GateUp(now, later) =>
      SafeIsMid(s);
      RetryLoopIsSafe(s.(deadline := now + s.timeout), later);
    case RetryTimeout =>
      SafeIsMid(s);
      CallStartIsSafe(s, Retrying);
    case RetryInterrupted => WaitIsSafe(s);
    case RetryReturns(outcome, now) => NextStartIsSafe(s, outcome, now);
    case BusinessUp => WaitIsSafe(s);
    case Drained => ClosingIsSafe(s, e);
    case ExitReturns => ClosingIsSafe(s, e);
    case _ =>
      SafeIsMid(s);
      FinallyIsSafe(s);
  }

  lemma WaitIsSafe(s: State)
    requires Safe(s) && !Closing(s.point)
    ensures Safe(s.(point := ShutdownWait))
  {
  }

  predicate IsRun(s: State, events: seq<Event>)
    decreases |events|
  {
    events == [] || (Possible(s, events[0]) && IsRun(Step(s, events[0]), events[1..]))
  }

  function After(s: State, events: seq<Event>): State
    requires IsRun(s, events)
    decreases |events|
  {
    if events == [] then s else After(Step(s, events[0]), events[1..])
  }

  lemma {:induction false} RunIsSafe(s: State, events: seq<Event>)
    requires Safe(s) && IsRun(s, events)
    ensures Safe(After(s, events))
    decreases |events|
  {
    if events != [] {
      StepIsSafe(s, events[0]);
      RunIsSafe(Step(s, events[0]), events[1..]);
    }
  }

  // What listener i does with a request of the business port.
  function Answer(s: State, i: nat, request: Request): Reply
    requires i < |s.servers|
  {
    if s.servers[i].done then Silent
    else
      match s.servers[i].kind
      case Management => Silent
      case Gated => Respond(s.gate, request)
      case Business => Forwarded
  }

  /** Every run, through immediate start, waiting for the schema, retry, timeout, the death of a
      listener, a failure, cancellation and shutdown: a request reaches the business app only while the
      lifespan context is held, that is entered once and not exited; the context is entered at most
      once, and exited exactly once by the end if it was entered; a start is never refused; READY and
      SETUP mean a held context and no error; and every listener is told to exit before it is awaited. */
  lemma LifecycleSafety(management: bool, timeout: int, events: seq<Event>)
    requires IsRun(Initial(management, timeout), events)
    ensures var s := After(Initial(management, timeout), events);
            && (forall i: nat, request :: i < |s.servers| && Answer(s, i, request) == Forwarded ==>
                  s.rt.held && s.rt.entered == 1 && s.rt.exited == 0)
            && s.rt.exited <= s.rt.entered <= 1
            && (s.point == Done ==> s.rt.exited == s.rt.entered && AllDone(s.servers))
            && (Closing(s.point) ==> forall i :: 0 <= i < |s.servers| ==> s.servers[i].shouldExit)
            && (s.rt.phase == READY || s.rt.phase == SETUP ==> s.rt.held && s.rt.error.None?)
            && !s.refused
  {
    RunIsSafe(Initial(management, timeout), events);
  }

  // ----- every run ends once it is asked to -----

  function Left(point: Point): nat {
    match point
    case Fresh => 10
    case ManagementStarting => 9
    case Starting => 8
    case GateStarting => 7
    case BusinessStarting => 7
    case RetryWait => 6
    case Retrying => 5
    case ShutdownWait => 3
    case Draining => 2
    case Exiting => 1
    case Done => 0
  }

  function Stretches(events: seq<Event>): nat {
    if events == [] then 0 else (if IsStretch(events[0]) then 1 else 0) + Stretches(events[1..])
  }

  predicate Ending(s: State) {
    s.shutdown || AnyDone(s.servers)
  }

  // Nothing that ended comes back.
  ghost predicate Later(s: State, t: State) {
    && (s.shutdown ==> t.shutdown)
    && |s.servers| <= |t.servers|
    && forall i :: 0 <= i < |s.servers| && s.servers[i].done ==> t.servers[i].done
  }

  lemma LaterIsEnding(s: State, t: State)
    requires Later(s, t) && Ending(s)
    ensures Ending(t)
  {
    if i :| 0 <= i < |s.servers| && s.servers[i].done {
      assert t.servers[i].done;
    }
  }

  lemma FinallyIsLater(s: State, t: State)
    requires t.servers == s.servers && t.shutdown == s.shutdown
    ensures Later(s, Finally(t))
  {
  }

  lemma RetryLoopIsLater(s: State, t: State, now: int)
    requires t.servers == s.servers && t.shutdown == s.shutdown
    ensures Later(s, RetryLoop(t, now)) && Later(s, AfterRetries(t, now))
  {
    FinallyIsLater(s, t);
  }

  lemma FirstStartIsLater(s: State, outcome: Outcome, made: bool)
    ensures Later(s, FirstStart(s.(rt := AfterStart(s.rt, outcome)), outcome, made))
  {
    var t := s.(rt := AfterStart(s.rt, outcome));
    FinallyIsLater(s, t);
    FinallyIsLater(s, t.(runtimeStarted := true));
  }

  lemma NextStartIsLater(s: State, outcome: Outcome, now: int)
    ensures Later(s, NextStart(s.(rt := AfterStart(s.rt, outcome)), outcome, now))
  {
    var t := s.(rt := AfterStart(s.rt, outcome));
    FinallyIsLater(s, t);
    RetryLoopIsLater(s, t, now);
    RetryLoopIsLater(s, if outcome.SchemaError? then t.(gate := t.gate.(code := outcome.code)) else t, now);
  }

  lemma StepIsLater(s: State, e: Event)
    requires Possible(s, e)
    ensures Later(s, Step(s, e))
  {
    match e
    case StartReturns(outcome, made) => FirstStartIsLater(s, outcome, made);
    case RetryReturns(outcome, now) => NextStartIsLater(s, outcome, now);
    case GateUp(now, later) => RetryLoopIsLater(s, s.(deadline := now + s.timeout), later);
    case Begin(_) => OpeningIsLater(s, e);
    case ManagementUp(_) => OpeningIsLater(s, e);
    case RetryTimeout => OpeningIsLater(s, e);
    case _ => OtherIsLater(s, e);
  }

  lemma OpeningIsLater(s: State, e: Event)
    requires Possible(s, e) && (e.Begin? || e.ManagementUp? || e.RetryTimeout?)
    ensures Later(s, Step(s, e))
  {
    FinallyIsLater(s, s);
    CallStartIsLater(s, if e.RetryTimeout? then Retrying else Starting);
  }

  lemma CallStartIsLater(s: State, point: Point)
    ensures Later(s, CallStart(s, point))
  {
    FinallyIsLater(s, s.(refused := true));
  }

  lemma OtherIsLater(s: State, e: Event)
    requires Possible(s, e) && !e.StartReturns? && !e.RetryReturns? && !e.GateUp?
    requires !e.Begin? && !e.ManagementUp? && !e.RetryTimeout?
    ensures Later(s, Step(s, e))
  {
    FinallyIsLater(s, s);
  }

  lemma FirstStartShrinks(s: State, outcome: Outcome, made: bool)
    ensures Left(FirstStart(s, outcome, made).point) <= Left(GateStarting)
  {
  }

  lemma NextStartShrinks(s: State, outcome: Outcome, now: int)
    requires Ending(s)
    ensures Left(NextStart(s, outcome, now).point) <= Left(ShutdownWait)
  {
  }

  lemma CallStartShrinks(s: State, point: Point)
    requires InStart(point)
    ensures Left(CallStart(s, point).point) <= Left(point)
  {
  }

  lemma OpeningShrinks(s: State, e: Event)
    requires Possible(s, e) && (e.Begin? || e.ManagementUp? || e.RetryTimeout?)
    ensures Left(Step(s, e).point) < Left(s.point)
  {
    CallStartShrinks(s, if e.RetryTimeout? then Retrying else Starting);
  }

  lemma ClosingShrinks(s: State, e: Event)
    requires Possible(s, e) && (e.RetryInterrupted? || e.BusinessUp? || e.Drained? || e.ExitReturns?)
    ensures Left(Step(s, e).point) < Left(s.point)
  {
  }

  lemma LeavingShrinks(s: State, e: Event)
    requires Possible(s, e) && (e.ListenerDown? || e.WaitReturns? || e.Cancel?)
    ensures Left(Step(s, e).point) < Left(s.point)
  {
    assert Left(Finally(s).point) <= Left(Draining);
  }

  lemma RetryLoopShrinks(s: State, now: int)
    requires Ending(s)
    ensures Left(RetryLoop(s, now).point) <= Left(ShutdownWait)
  {
  }

  lemma StretchShrinks(s: State, e: Event)
    requires Possible(s, e) && IsStretch(e) && Ending(s)
    ensures Left(Step(s, e).point) < Left(s.point)
  {
    match e
    case StartReturns(outcome, made) => FirstStartShrinks(s.(rt := AfterStart(s.rt, outcome)), outcome, made);
    case RetryReturns(outcome, now) => NextStartShrinks(s.(rt := AfterStart(s.rt, outcome)), outcome, now);
    case GateUp(now, later) => RetryLoopShrinks(s.(deadline := now + s.timeout), later);
    case Begin(_) => OpeningShrinks(s, e);
    case ManagementUp(_) => OpeningShrinks(s, e);
    case RetryTimeout => OpeningShrinks(s, e);
    case ListenerDown => LeavingShrinks(s, e);
    case WaitReturns => LeavingShrinks(s, e);
    case Cancel => LeavingShrinks(s, e);
    case _ => ClosingShrinks(s, e);
  }

  /** Once shutdown was asked for, or any listener has died, the coroutine finishes within ten
      stretches, however the starts it is still waiting for turn out. */
  lemma {:induction false} EndsOnceAsked(s: State, events: seq<Event>)
    requires Ending(s) && IsRun(s, events)
    ensures Left(After(s, events).point) + Stretches(events) <= Left(s.point)
    decreases |events|
  {
    if events != [] {
      StepIsLater(s, events[0]);
      LaterIsEnding(s, Step(s, events[0]));
      if IsStretch(events[0]) {
        StretchShrinks(s, events[0]);
      }
      EndsOnceAsked(Step(s, events[0]), events[1..]);
    }
  }

  // ----- the error codes -----

  ghost predicate Settled(s: State) {
    s.point == ShutdownWait || Closing(s.point)
  }

  lemma StaysSettled(s: State, e: Event)
    requires Possible(s, e) && Settled(s)
    ensures Settled(Step(s, e)) && Step(s, e).gate == s.gate && Step(s, e).rt.error == s.rt.error
  {
  }

  lemma {:induction false} GateIsSettled(s: State, events: seq<Event>)
    requires IsRun(s, events) && Settled(s)
    ensures After(s, events).gate == s.gate && After(s, events).rt.error == s.rt.error
    decreases |events|
  {
    if events != [] {
      StaysSettled(s, events[0]);
      GateIsSettled(Step(s, events[0]), events[1..]);
    }
  }

  /** After a retry that fails beyond recovery, the gate and the runtime show its code for the rest of
      the run exactly when the deadline had not passed or shutdown was asked for; otherwise the
      timeout has taken its place for good. */
  lemma RetryCodeKeptIff(s: State, code: Code, now: int, events: seq<Event>)
    requires Safe(s) && s.point == Retrying && !Recoverable(code) && code != WaitTimeout
    requires IsRun(Step(s, RetryReturns(SchemaError(code), now)), events)
    ensures var t := After(Step(s, RetryReturns(SchemaError(code), now)), events);
            && (t.gate.code == code <==> now < s.deadline || s.shutdown)
            && (t.rt.error == Some(code) <==> now < s.deadline || s.shutdown)
            && (now >= s.deadline && !s.shutdown ==> t.gate.code == WaitTimeout && t.rt.error == Some(WaitTimeout))
            && !t.gate.ready
  {
    GateIsSettled(Step(s, RetryReturns(SchemaError(code), now)), events);
  }

  lemma RunStep(s: State, e: Event, rest: seq<Event>)
    requires Possible(s, e) && IsRun(Step(s, e), rest)
    ensures IsRun(s, [e] + rest) && After(s, [e] + rest) == After(Step(s, e), rest)
  {
    assert ([e] + rest)[1..] == rest;
  }

  /** FAILED is not the end: from any wait for the schema, whatever phase it shows, a retry that
      succeeds makes the runtime ready and opens the gate. */
  lemma FailedCanRecover(s: State, now: int)
    requires Safe(s) && s.point == RetryWait
    ensures IsRun(s, [RetryTimeout, RetryReturns(Entered(false), now)])
    ensures var t := After(s, [RetryTimeout, RetryReturns(Entered(false), now)]);
            t.rt.phase == READY && t.rt.error.None? && t.rt.held && t.gate.ready
  {
    RunStep(Step(s, RetryTimeout), RetryReturns(Entered(false), now), []);
    RunStep(s, RetryTimeout, [RetryReturns(Entered(false), now)]);
  }

  /** With a management port its listener comes up before the runtime is started; without one the
      runtime is started at once, and a schema error ends the coroutine. */
  lemma ManagementComesFirst(management: bool, timeout: int, outcome: Outcome, made: bool)
    ensures var t := Step(Initial(management, timeout), Begin(true));
            && (management ==> t.point == ManagementStarting && t.servers == [Server(Management, false, false, false)]
                               && !t.rt.startAttempted)
            && (!management ==> t.point == Starting && t.servers == [] && t.rt.startAttempted
                                && (outcome.SchemaError? ==> Step(t, StartReturns(outcome, made)).point == Done))
  {
  }

  /** What the runtime and the coroutine make of the first start. */
  lemma FirstStartOutcomes(s: State, outcome: Outcome, made: bool)
    requires Safe(s) && s.point == Starting && s.management && s.servers != []
    ensures var t := Step(s, StartReturns(outcome, made));
            && (outcome == Entered(true) ==> t.rt.phase == SETUP && t.rt.error.None? && t.rt.held && t.runtimeStarted)
            && (outcome == Entered(false) ==> t.rt.phase == READY && t.rt.error.None? && t.rt.held && t.runtimeStarted)
            && (outcome.Entered? && made ==> t.point == BusinessStarting && t.servers == s.servers + [Server(Business, false, false, false)])
            && (outcome == SchemaError(Outdated) ==> t.rt.phase == SCHEMA_OUTDATED)
            && (outcome == SchemaError(TooNew) ==> t.rt.phase == SCHEMA_TOO_NEW)
            && (outcome.SchemaError? && outcome.code != Outdated && outcome.code != TooNew ==> t.rt.phase == FAILED)
            && (outcome.SchemaError? ==> t.rt.error == Some(outcome.code) && !t.rt.startAttempted && !t.rt.held)
            && (outcome == OtherError ==> t.rt.phase == FAILED && t.rt.error == Some(InitializationFailed)
                                          && !t.rt.held && t.point == Draining)
  {
  }

  /** A schema that is missing or too old is waited for behind a gate on the business port, which
      listens with the gate closed; every other schema error waits for shutdown without it. */
  lemma SchemaIsWaitedForIff(s: State, code: Code)
    requires Safe(s) && s.point == Starting && s.management && !s.shutdown
    ensures var t := Step(s, StartReturns(SchemaError(code), true));
            && (t.point == GateStarting <==> code == Outdated || code == NotInitialized)
            && (t.point == GateStarting ==> t.servers == s.servers + [Server(Gated, false, false, false)])
            && (t.point != GateStarting ==> t.servers == s.servers && t.point == ShutdownWait)
  {
  }

  // ----- retrying until the schema is there -----

  // Between the start of the gate and the deadline: listeners come up, and every retry fails in a way
  // that a migration can mend.
  ghost predicate IsFailedRetrying(events: seq<Event>, deadline: int) {
    forall e :: e in events ==>
      || e.ServerUp?
      || e.RetryTimeout?
      || (e.RetryReturns? && e.now < deadline && (e.outcome == SchemaError(Outdated) || e.outcome == SchemaError(NotInitialized)))
  }

  // The runtime shows the error of the last failed retry.
  ghost predicate ShowsFailure(rt: Rt, e: Event) {
    e.RetryReturns? && e.outcome.SchemaError? ==>
      rt.error == Some(e.outcome.code) && rt.phase == (if e.outcome.code == Outdated then SCHEMA_OUTDATED else FAILED)
  }

  ghost predicate IsWaiting(s: State) {
    && (s.point == RetryWait || s.point == Retrying)
    && !s.shutdown && !s.runtimeStarted && !s.rt.held && !s.gate.ready
    && (s.point == RetryWait ==> !s.rt.startAttempted)
    && forall i :: 0 <= i < |s.servers| ==> !s.servers[i].done
  }

  lemma RetryStepWaits(s: State, e: Event)
    requires IsWaiting(s) && Possible(s, e) && IsFailedRetrying([e], s.deadline)
    ensures var t := Step(s, e);
            && IsWaiting(t) && t.deadline == s.deadline && t.gate == s.gate
            && (e.RetryReturns? ==> t.point == RetryWait) && (e.RetryTimeout? ==> t.point == Retrying)
            && (e.ServerUp? ==> t.point == s.point && t.rt == s.rt) && ShowsFailure(t.rt, e)
  {
    assert e in [e];
  }

  /** Retries go on.  From any wait for the schema, whatever number of retries fails recoverably before
      the deadline, each failure leads back to the wait and shows its own code and phase, the deadline
      stands, and the gate stays closed with the code it had. */
  lemma {:induction false} RetriesGoOn(s: State, events: seq<Event>)
    requires IsRun(s, events) && IsFailedRetrying(events, s.deadline)
    requires IsWaiting(s)
    ensures var t := After(s, events);
            && IsWaiting(t) && t.deadline == s.deadline && t.gate == s.gate
            && (events != [] && events[|events| - 1].RetryReturns? ==> t.point == RetryWait)
            && (events != [] ==> ShowsFailure(t.rt, events[|events| - 1]))
    decreases |events|
  {
    if events != [] {
      assert events[0] in events;
      RetryStepWaits(s, events[0]);
      RetriesGoOn(Step(s, events[0]), events[1..]);
      assert |events| > 1 ==> events[1..][|events[1..]| - 1] == events[|events| - 1];
    }
  }

  // Retries that fail one after the other, each with a code and the clock read after it.
  function Failures(fs: seq<(Code, int)>): seq<Event> {
    if fs == [] then [] else [RetryTimeout, RetryReturns(SchemaError(fs[0].0), fs[0].1)] + Failures(fs[1..])
  }

  lemma FailedRetry(s: State, f: (Code, int)) returns (t: State)
    requires IsWaiting(s) && s.point == RetryWait
    requires (f.0 == Outdated || f.0 == NotInitialized) && f.1 < s.deadline
    ensures t == Step(Step(s, RetryTimeout), RetryReturns(SchemaError(f.0), f.1))
    ensures IsWaiting(t) && t.point == RetryWait && t.deadline == s.deadline && t.servers == s.servers
  {
    t := Step(Step(s, RetryTimeout), RetryReturns(SchemaError(f.0), f.1));
  }

  lemma RetryThen(s: State, e: Event, rest: seq<Event>)
    requires s.point == RetryWait && !s.rt.startAttempted && e.RetryReturns?
    requires IsRun(Step(Step(s, RetryTimeout), e), rest)
    ensures IsRun(s, [RetryTimeout, e] + rest)
    ensures After(s, [RetryTimeout, e] + rest) == After(Step(Step(s, RetryTimeout), e), rest)
  {
    RunStep(Step(s, RetryTimeout), e, rest);
    RunStep(s, RetryTimeout, [e] + rest);
    assert [RetryTimeout] + ([e] + rest) == [RetryTimeout, e] + rest;
  }

  /** Any number of recoverable failures before the deadline can follow each other, and the success
      that comes after them makes the runtime ready and opens the gate. */
  lemma {:induction false} SucceedsAfterFailures(s: State, fs: seq<(Code, int)>, setup: bool, now: int)
    requires IsWaiting(s) && s.point == RetryWait
    requires forall f :: f in fs ==> (f.0 == Outdated || f.0 == NotInitialized) && f.1 < s.deadline
    ensures var events := Failures(fs) + [RetryTimeout, RetryReturns(Entered(setup), now)];
            && IsRun(s, events)
            && var t := After(s, events);
            && t.point == ShutdownWait && t.runtimeStarted && t.rt.held && t.gate.ready
            && t.rt.error.None? && t.rt.phase == (if setup then SETUP else READY)
            && t.servers == s.servers
    decreases |fs|
  {
    var success := [RetryTimeout, RetryReturns(Entered(setup), now)];
    if fs == [] {
      var u := Step(s, RetryTimeout);
      RunStep(u, success[1], []);
      RunStep(s, RetryTimeout, [success[1]]);
      assert Failures(fs) + success == success;
    } else {
      assert fs[0] in fs;
      var t := FailedRetry(s, fs[0]);
      var rest := Failures(fs[1..]) + success;
      SucceedsAfterFailures(t, fs[1..], setup, now);
      RetryThen(s, RetryReturns(SchemaError(fs[0].0), fs[0].1), rest);
      assert [RetryTimeout, RetryReturns(SchemaError(fs[0].0), fs[0].1)] + rest == Failures(fs) + success;
    }
  }

  /** The wait begins when the gate listens.  Its deadline is the reading at that moment plus the
      timeout, if no shutdown was asked for, no listener is down and the clock has not passed it. */
  lemma WaitBegins(s: State, now: int, later: int)
    requires Safe(s) && Possible(s, GateUp(now, later))
    ensures var t := Step(s, GateUp(now, later));
            && t.deadline == now + s.timeout
            && (t.point == RetryWait <==>
                  later < now + s.timeout && !s.shutdown && forall i :: 0 <= i < |s.servers| ==> !s.servers[i].done)
            && (t.point == RetryWait ==> IsWaiting(t) && t.gate == s.gate && t.rt == s.rt)
  {
  }

  /** A recoverable failure read at or after the deadline ends the wait: the timeout is shown by the
      runtime and by the gate, to every listener that is up, for the rest of the run. */
  lemma WaitEndsAtDeadline(s: State, code: Code, now: int, events: seq<Event>)
    requires Safe(s) && s.point == Retrying && !s.shutdown && now >= s.deadline && (code == Outdated || code == NotInitialized)
    requires IsRun(Step(s, RetryReturns(SchemaError(code), now)), events)
    ensures var t := Step(s, RetryReturns(SchemaError(code), now));
            && t.point == ShutdownWait && t.rt.phase == FAILED && !t.rt.held && t.servers == s.servers
    ensures var t := After(Step(s, RetryReturns(SchemaError(code), now)), events);
            && t.rt.error == Some(WaitTimeout) && t.gate.code == WaitTimeout && !t.gate.ready
  {
    GateIsSettled(Step(s, RetryReturns(SchemaError(code), now)), events);
  }

  // ----- serving -----

  // Nothing asks the servers to end.
  ghost predicate IsQuiet(events: seq<Event>) {
    forall e :: e in events ==> !e.Shutdown? && !e.ServerEnds? && !e.Cancel?
  }

  ghost predicate IsServing(s: State) {
    && (s.point == BusinessStarting || s.point == ShutdownWait)
    && s.runtimeStarted && s.rt.held && !s.shutdown
    && forall i :: 0 <= i < |s.servers| ==> !s.servers[i].done
  }

  lemma StepServes(s: State, e: Event)
    requires IsServing(s) && Possible(s, e) && !e.Shutdown? && !e.ServerEnds? && !e.Cancel?
    ensures var t := Step(s, e);
            IsServing(t) && t.rt == s.rt && t.gate == s.gate && |t.servers| == |s.servers|
            && forall i :: 0 <= i < |s.servers| ==> t.servers[i].kind == s.servers[i].kind
  {
  }

  /** A runtime that was started keeps serving until shutdown, the death of a listener or cancellation:
      the context stays held, and what was forwarded stays forwarded. */
  lemma {:induction false} KeepsServing(s: State, events: seq<Event>)
    requires IsServing(s) && IsRun(s, events) && IsQuiet(events)
    ensures var t := After(s, events);
            && IsServing(t) && t.rt == s.rt && t.gate == s.gate && |t.servers| == |s.servers|
            && forall i: nat, request :: i < |s.servers| ==> Answer(t, i, request) == Answer(s, i, request)
    decreases |events|
  {
    if events != [] {
      assert events[0] in events;
      StepServes(s, events[0]);
      var u := Step(s, events[0]);
      KeepsServing(u, events[1..]);
      forall i: nat, request | i < |s.servers|
        ensures Answer(u, i, request) == Answer(s, i, request)
      {
      }
    }
  }

  // ----- what the gate answers -----

  ghost predicate HasGate(s: State) {
    exists i :: 0 <= i < |s.servers| && s.servers[i].kind == Gated
  }

  // A gate that listens is ready exactly when the runtime was started, and its code stays the initial
  // one until retrying is over.
  ghost predicate GateSafe(s: State) {
    && (HasGate(s) ==> (s.gate.ready <==> s.runtimeStarted))
    && (s.point == Fresh || s.point == ManagementStarting || s.point == Starting ==> !HasGate(s))
    && (!Settled(s) ==> s.gate.code == SchemaWaiting)
    && (s.gate.code != SchemaWaiting ==> s.rt.error == Some(s.gate.code) && !s.runtimeStarted)
  }

  lemma SameKinds(s: State, t: State)
    requires |t.servers| == |s.servers| && forall i :: 0 <= i < |s.servers| ==> t.servers[i].kind == s.servers[i].kind
    ensures HasGate(t) <==> HasGate(s)
  {
    if i :| 0 <= i < |s.servers| && s.servers[i].kind == Gated {
      assert t.servers[i].kind == Gated;
    }
  }

  lemma FinallyKeepsGate(s: State)
    requires GateSafe(s)
    ensures GateSafe(Finally(s))
  {
    SameKinds(s, Finally(s));
  }

  lemma RetryLoopKeepsGate(s: State, now: int)
    requires GateSafe(s) && !s.runtimeStarted && s.gate.code == SchemaWaiting
    ensures GateSafe(RetryLoop(s, now))
  {
    FinallyKeepsGate(s);
  }

  lemma FirstStartKeepsGate(s: State, outcome: Outcome, made: bool)
    requires Safe(s) && GateSafe(s) && s.point == Starting
    ensures GateSafe(Step(s, StartReturns(outcome, made)))
  {
    var t := s.(rt := AfterStart(s.rt, outcome));
    SameKinds(s, t);
    match outcome
    case Entered(_) => FinallyKeepsGate(t.(runtimeStarted := true));
    case _ => FinallyKeepsGate(t);
  }

  lemma NextStartKeepsGate(s: State, outcome: Outcome, now: int)
    requires Safe(s) && GateSafe(s) && s.point == Retrying
    ensures GateSafe(Step(s, RetryReturns(outcome, now)))
  {
    var t := s.(rt := AfterStart(s.rt, outcome));
    SameKinds(s, t);
    match outcome
    case Entered(_) =>
    case OtherError => FinallyKeepsGate(t);
    case SchemaError(code) => RetryLoopKeepsGate(t, now);
  }

  lemma OutsideKeepsGate(s: State, e: Event)
    requires GateSafe(s) && Possible(s, e) && !IsStretch(e)
    ensures GateSafe(Step(s, e))
  {
    SameKinds(s, Step(s, e));
  }

  lemma OpeningKeepsGate(s: State, e: Event)
    requires Safe(s) && GateSafe(s) && Possible(s, e) && (e.Begin? || e.ManagementUp? || e.RetryTimeout?)
    ensures GateSafe(Step(s, e))
  {
    FinallyKeepsGate(s);
  }

  lemma OtherKeepsGate(s: State, e: Event)
    requires Safe(s) && GateSafe(s) && Possible(s, e) && IsStretch(e)
    requires !e.Begin? && !e.ManagementUp? && !e.RetryTimeout? && !e.StartReturns? && !e.RetryReturns? && !e.GateUp?
    ensures GateSafe(Step(s, e))
  {
    FinallyKeepsGate(s);
    SameKinds(s, Step(s, e));
  }

  lemma StepKeepsGate(s: State, e: Event)
    requires Safe(s) && GateSafe(s) && Possible(s, e)
    ensures GateSafe(Step(s, e))
  {
    match e
    case StartReturns(outcome, made) => FirstStartKeepsGate(s, outcome, made);
    case RetryReturns(outcome, now) => NextStartKeepsGate(s, outcome, now);
    case GateUp(now, later) => RetryLoopKeepsGate(s.(deadline := now + s.timeout), later);
    case Shutdown => OutsideKeepsGate(s, e);
    case ServerUp(_) => OutsideKeepsGate(s, e);
    case ServerEnds(_) => OutsideKeepsGate(s, e);
    case Begin(_) => OpeningKeepsGate(s, e);
    case ManagementUp(_) => OpeningKeepsGate(s, e);
    case RetryTimeout => OpeningKeepsGate(s, e);
    case _ => OtherKeepsGate(s, e);
  }

  lemma {:induction false} RunKeepsGate(s: State, events: seq<Event>)
    requires Safe(s) && GateSafe(s) && IsRun(s, events)
    ensures GateSafe(After(s, events))
    decreases |events|
  {
    if events != [] {
      StepIsSafe(s, events[0]);
      StepKeepsGate(s, events[0]);
      RunKeepsGate(Step(s, events[0]), events[1..]);
    }
  }

  /** What a gate that listens answers, in every run.  Once the runtime was started everything is
      forwarded.  Until then only /livez is answered 200, every other path 503 with Retry-After, and a
      websocket is closed with 1013; the code is that of the wait, and reads as a failure only after
      retrying ended, when it is also the error of the runtime. */
  lemma GateAnswers(management: bool, timeout: int, events: seq<Event>, i: nat, path: string)
    requires IsRun(Initial(management, timeout), events)
    requires i < |After(Initial(management, timeout), events).servers|
    ensures var s := After(Initial(management, timeout), events);
            s.servers[i].kind == Gated && !s.servers[i].done ==>
              var reply := Answer(s, i, Http(path));
              && (s.runtimeStarted ==> reply == Forwarded && Answer(s, i, WebSocket) == Forwarded && Answer(s, i, OtherScope) == Forwarded)
              && (!s.runtimeStarted ==>
                    && reply.Status? && Answer(s, i, WebSocket) == Closed(1013) && Answer(s, i, OtherScope) == Silent
                    && (path == "/livez" ==> reply.status == 200 && !reply.retryAfter)
                    && (path != "/livez" ==> reply.status == 503 && reply.retryAfter)
                    && (s.point == GateStarting || s.point == RetryWait || s.point == Retrying ==>
                          !reply.failed && reply.code == SchemaWaiting)
                    && (reply.failed <==> reply.code != SchemaWaiting)
                    && (reply.failed ==> s.rt.error == Some(reply.code)))
  {
    RunKeepsGate(Initial(management, timeout), events);
    var s := After(Initial(management, timeout), events);
    assert s.servers[i].kind == Gated ==> HasGate(s);
  }
}
