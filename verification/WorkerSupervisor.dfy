/**
 The supervisor of the dedicated pool worker (server/app.py).

 The supervisor is one coroutine.  Between two awaits it runs alone, so each stretch between awaits is
 one step; requests, configuration changes and the end of a worker happen between steps.
 */
module WorkerSupervisor {
  import opened Common

  type Task = nat

  // What follows once the old worker has finished.
  datatype Next = Disabled | Rebuild | Unavailable | Restart | Final

  // Where the coroutine is suspended.
  datatype Point =
    | Fresh
    | Waiting
    | Woken(stopDone: bool, wakeDone: bool)
    | Stopping(task: Task, next: Next)
    | Building
    | Stopped

  datatype State = State(
    enabled: bool,          // configuration
    clientAvailable: bool,  // set by the last successful build
    rebuildRequired: bool,
    wake: bool,
    stop: bool,
    flag: bool,             // app.state.dedicated_pool_worker_enabled
    task: Option<Task>,     // the worker held
    point: Point,
    live: set<Task>,        // workers that have not finished
    asked: set<Task>,       // workers told to stop
    cancelled: set<Task>,
    created: nat)

  datatype Event =
    | Request(rebuild: bool)
    | RequestRun
    | Configure(enabled: bool)
    | RequestStop
    | WorkerEnds(task: Task)
    | Begin
    | WaitReturns(stopDone: bool, wakeDone: bool)
    | Resume
    | StopEnds
    | BuildEnds(ok: bool, available: bool)
    | Cancel

  // ----- one stretch of the coroutine -----

  function Rank(next: Next): nat {
    if next == Final then 0 else 3
  }

  function StopWorker(s: State, next: Next): State
    decreases Rank(next) + 1
  {
    var released := s.(task := None, flag := false);
    match s.task
    case None => AfterStop(released, next)
    case Some(t) =>
      released.(asked := s.asked + {t}, cancelled := if next == Final then s.cancelled + {t} else s.cancelled,
                point := Stopping(t, next))
  }

  function AfterStop(s: State, next: Next): State
    decreases Rank(next)
  {
    match next
    case Disabled => EndPass(s)
    case Unavailable => EndPass(s)
    case Rebuild => s.(point := Building)
    case Restart => EndPass(StartWorker(s))
    case Final => s.(point := Stopped)
  }

  function EndPass(s: State): State
    decreases 2
  {
    if s.stop then StopWorker(s, Final) else s.(point := Waiting)
  }

  function StartWorker(s: State): State {
    s.(task := Some(s.created), live := s.live + {s.created}, created := s.created + 1, flag := true)
  }

  function BeginPass(s: State): State {
    if !s.enabled then StopWorker(s.(rebuildRequired := false), Disabled)
    else if s.rebuildRequired then StopWorker(s, Rebuild)
    else AfterBuild(s)
  }

  function AfterBuild(s: State): State {
    if !s.clientAvailable then StopWorker(s, Unavailable)
    else
      match s.task
      case None => EndPass(StartWorker(s))
      case Some(t) => if t in s.live then EndPass(s) else StopWorker(s, Restart)
  }

  predicate Possible(s: State, e: Event) {
    match e
    case Begin => s.point.Fresh?
    case WaitReturns(stopDone, wakeDone) => s.point.Waiting? && (stopDone ==> s.stop) && (wakeDone ==> s.wake)
    case Resume => s.point.Woken?
    case StopEnds => s.point.Stopping? && s.point.task !in s.live
    case BuildEnds(_, _) => s.point.Building?
    case Cancel => s.point.Waiting? || s.point.Woken? || s.point.Building?
    case WorkerEnds(t) => t in s.live
    case _ => true
  }

  function Step(s: State, e: Event): State
    requires Possible(s, e)
  {
    match e
    case Request(rebuild) => s.(rebuildRequired := s.rebuildRequired || rebuild, wake := true)
    case RequestRun => s.(wake := true)
    case Configure(enabled) => s.(enabled := enabled)
    case RequestStop => s.(stop := true)
    case WorkerEnds(t) => s.(live := s.live - {t})
    case Begin => BeginPass(s)
    case WaitReturns(stopDone, wakeDone) => s.(point := Woken(stopDone, wakeDone))
    case Resume =>
      if s.point.stopDone && s.stop then StopWorker(s, Final)
      else BeginPass(if s.point.wakeDone then s.(wake := false) else s)
    case StopEnds => AfterStop(s, s.point.next)
    case BuildEnds(ok, available) =>
      if ok then AfterBuild(s.(clientAvailable := available, rebuildRequired := false))
      else EndPass(s.(flag := false))
    case Cancel => StopWorker(s, Final)
  }

  function Initial(enabled: bool, clientAvailable: bool): State {
    State(enabled, clientAvailable, false, false, false, false, None, Fresh, {}, {}, {}, 0)
  }

  // ----- the supervisor object -----

  class DedicatedPoolWorkerSupervisor {
    var enabled: bool
    var clientAvailable: bool
    var rebuildRequired: bool
    var wake: bool
    var stop: bool
    var flag: bool
    var task: Option<Task>
    var point: Point
    var live: set<Task>
    var asked: set<Task>
    var cancelled: set<Task>
    var created: nat

    function View(): State
      reads this
    {
      State(enabled, clientAvailable, rebuildRequired, wake, stop, flag, task, point, live, asked, cancelled, created)
    }

    constructor (enabled: bool, clientAvailable: bool)
      ensures View() == Initial(enabled, clientAvailable)
    {
      this.enabled, this.clientAvailable := enabled, clientAvailable;
      rebuildRequired, wake, stop, flag := false, false, false, false;
      task, point := None, Fresh;
      live, asked, cancelled, created := {}, {}, {}, 0;
    }

    method RequestReconcile(rebuild: bool)
      modifies this
      ensures View() == Step(old(View()), Request(rebuild))
    {
      rebuildRequired := rebuildRequired || rebuild;
      wake := true;
    }

    method StopWorkerBegin(next: Next)
      modifies this
      ensures View() == StopWorker(old(View()), next)
      decreases Rank(next) + 1
    {
      var held := task;
      task := None;
      flag := false;
      if held.None? {
        StopWorkerEnd(next);
        return;
      }
      asked := asked + {held.value};
      if next == Final {
        cancelled := cancelled + {held.value};
      }
      point := Stopping(held.value, next);
    }

    // The rest of the method that awaited the old worker.
    method StopWorkerEnd(next: Next)
      modifies this
      ensures View() == AfterStop(old(View()), next)
      decreases Rank(next)
    {
      match next {
        case Disabled => EndReconcile();
        case Unavailable => EndReconcile();
        case Rebuild => point := Building;
        case Restart =>
          CreateWorker();
          EndReconcile();
        case Final => point := Stopped;
      }
    }

    method CreateWorker()
      modifies this
      ensures View() == StartWorker(old(View()))
    {
      task := Some(created);
      live := live + {created};
      created := created + 1;
      flag := true;
    }

    method EndReconcile()
      modifies this
      ensures View() == EndPass(old(View()))
      decreases 2
    {
      if stop {
        StopWorkerBegin(Final);
      } else {
        point := Waiting;
      }
    }

    method ReconcileBegin()
      modifies this
      ensures View() == BeginPass(old(View()))
    {
      if !enabled {
        rebuildRequired := false;
        StopWorkerBegin(Disabled);
      } else if rebuildRequired {
        StopWorkerBegin(Rebuild);
      } else {
        ReconcileWorker();
      }
    }

    method ReconcileWorker()
      modifies this
      ensures View() == AfterBuild(old(View()))
    {
      if !clientAvailable {
        StopWorkerBegin(Unavailable);
      } else if task.Some? && task.value !in live {
        StopWorkerBegin(Restart);
      } else if task.Some? {
        EndReconcile();
      } else {
        CreateWorker();
        EndReconcile();
      }
    }

    method BuildReturned(ok: bool, available: bool)
      requires Possible(View(), BuildEnds(ok, available))
      modifies this
      ensures View() == Step(old(View()), BuildEnds(ok, available))
    {
      if ok {
        clientAvailable := available;
        rebuildRequired := false;
        ReconcileWorker();
      } else {
        flag := false;
        EndReconcile();
      }
    }

    method Resumed()
      requires Possible(View(), Event.Resume)
      modifies this
      ensures View() == Step(old(View()), Event.Resume)
    {
      if point.stopDone && stop {
        StopWorkerBegin(Final);
        return;
      }
      if point.wakeDone {
        wake := false;
      }
      ReconcileBegin();
    }

    // One event of a run: a stretch of the coroutine, or something that happens between two stretches.
    method Handle(e: Event)
      requires Possible(View(), e)
      modifies this
      ensures View() == Step(old(View()), e)
    {
      match e {
        case Request(rebuild) => RequestReconcile(rebuild);
        case RequestRun => wake := true;
        case Configure(on) => enabled := on;
        case RequestStop => stop := true;
        case WorkerEnds(t) => live := live - {t};
        case Begin => ReconcileBegin();
        case WaitReturns(stopDone, wakeDone) => point := Woken(stopDone, wakeDone);
        case Resume => Resumed();
        case StopEnds => StopWorkerEnd(point.next);
        case BuildEnds(ok, available) => BuildReturned(ok, available);
        case Cancel => StopWorkerBegin(Final);
      }
    }

    /** The object goes through the very states the theorems about runs speak of. */
    method Drive(events: seq<Event>, ghost start: Run)
      requires start.s == View() && IsRun(start, events)
      modifies this
      ensures View() == After(start, events).s
    {
      ghost var r := start;
      assert events[0..] == events;
      for n := 0 to |events|
        invariant r.s == View() && IsRun(r, events[n..])
        invariant After(r, events[n..]) == After(start, events)
      {
        assert events[n..][0] == events[n] && events[n..][1..] == events[n + 1..];
        r := Follow(r, events[n]);
        Handle(events[n]);
      }
      assert events[|events|..] == [];
    }
  }

  // ----- safety -----

  // Flag and held worker agree; only the worker held, or the one being waited for, can be live.
  ghost predicate Safe(s: State) {
    && (s.flag <==> s.task.Some?)
    && (s.task.Some? ==> s.task.value < s.created)
    && match s.point {
         case Stopping(t, next) =>
           && s.task.None? && s.live <= {t} && t in s.asked && t < s.created
           && (next == Rebuild ==> s.rebuildRequired)
           && (next == Final ==> t in s.cancelled)
         case Building => s.task.None? && s.live == {} && s.rebuildRequired
         case Stopped => s.task.None? && s.live == {}
         case Fresh => s.task.None? && s.live == {}
         case _ => if s.task.Some? then s.live <= {s.task.value} else s.live == {}
       }
  }

  // No stretch of the coroutine is running and none but the held worker is live.
  ghost predicate Calm(s: State) {
    && (s.flag <==> s.task.Some?)
    && (s.task.Some? ==> s.task.value < s.created)
    && if s.task.Some? then s.live <= {s.task.value} else s.live == {}
  }

  lemma StopIsSafe(s: State, next: Next)
    requires Calm(s) && (next == Rebuild ==> s.rebuildRequired)
    ensures Safe(StopWorker(s, next))
    decreases Rank(next) + 1
  {
    if s.task.None? {
      AfterStopIsSafe(s.(task := None, flag := false), next);
    }
  }

  lemma AfterStopIsSafe(s: State, next: Next)
    requires Calm(s) && s.task.None? && (next == Rebuild ==> s.rebuildRequired)
    ensures Safe(AfterStop(s, next))
    decreases Rank(next)
  {
    match next
    case Disabled => EndIsSafe(s);
    case Unavailable => EndIsSafe(s);
    case Restart => EndIsSafe(StartWorker(s));
    case _ =>
  }

  lemma EndIsSafe(s: State)
    requires Calm(s)
    ensures Safe(EndPass(s))
    decreases 2
  {
    if s.stop {
      StopIsSafe(s, Final);
    }
  }

  lemma AfterBuildIsSafe(s: State)
    requires Calm(s)
    ensures Safe(AfterBuild(s))
  {
    if !s.clientAvailable {
      StopIsSafe(s, Unavailable);
    } else if s.task.None? {
      EndIsSafe(StartWorker(s));
    } else if s.task.value in s.live {
      EndIsSafe(s);
    } else {
      StopIsSafe(s, Restart);
    }
  }

  lemma BeginIsSafe(s: State)
    requires Calm(s)
    ensures Safe(BeginPass(s))
  {
    if !s.enabled {
      StopIsSafe(s.(rebuildRequired := false), Disabled);
    } else if s.rebuildRequired {
      StopIsSafe(s, Rebuild);
    } else {
      AfterBuildIsSafe(s);
    }
  }

  lemma StepIsSafe(s: State, e: Event)
    requires Safe(s) && Possible(s, e)
    ensures Safe(Step(s, e))
  {
    match e
    case Begin => BeginIsSafe(s);
    case Resume =>
      if s.point.stopDone && s.stop {
        StopIsSafe(s, Final);
      } else {
        BeginIsSafe(if s.point.wakeDone then s.(wake := false) else s);
      }
    case StopEnds => AfterStopIsSafe(s, s.point.next);
    case BuildEnds(ok, available) =>
      if ok {
        AfterBuildIsSafe(s.(clientAvailable := available, rebuildRequired := false));
      } else {
        EndIsSafe(s.(flag := false));
      }
    case Cancel => StopIsSafe(s, Final);
    case _ =>
  }

  // ----- runs -----

  // What happened so far, told from the events: passes started, whether a request awaits a pass,
  // whether a rebuild request awaits a build, the pool setting in force and the one the current pass
  // saw, how its build ended, whether the last successful build reported a client, and whether a worker
  // has finished since the last stretch of a pass.
  datatype Run = Run(s: State, passes: nat, outstanding: bool, unserved: bool, configured: bool, wasEnabled: bool,
                     buildFailed: bool, client: bool, lost: bool)

  predicate StartsPass(s: State, e: Event)
    requires Possible(s, e)
  {
    e.Begin? || (e.Resume? && !(s.point.stopDone && s.stop))
  }

  function Follow(r: Run, e: Event): Run
    requires Possible(r.s, e)
  {
    var after, pass := Step(r.s, e), StartsPass(r.s, e);
    Run(after,
        if pass then r.passes + 1 else r.passes,
        if e.Request? || e.RequestRun? then true else r.outstanding && !pass,
        if e == Request(true) then true else r.unserved && !(after.point.Building? && !r.s.point.Building?),
        if e.Configure? then e.enabled else r.configured,
        if pass then r.configured else r.wasEnabled,
        if pass then false else if e.BuildEnds? then !e.ok else r.buildFailed,
        if e.BuildEnds? && e.ok then e.available else r.client,
        e.WorkerEnds? || (r.lost && !pass && !e.StopEnds? && !e.BuildEnds?))
  }

  predicate IsRun(r: Run, events: seq<Event>)
    decreases |events|
  {
    events == [] || (Possible(r.s, events[0]) && IsRun(Follow(r, events[0]), events[1..]))
  }

  function After(r: Run, events: seq<Event>): Run
    requires IsRun(r, events)
    decreases |events|
  {
    if events == [] then r else After(Follow(r, events[0]), events[1..])
  }

  function Start(enabled: bool, clientAvailable: bool): Run {
    Run(Initial(enabled, clientAvailable), 0, false, false, enabled, false, false, clientAvailable, false)
  }

  // A pass in progress, by what it decided.
  ghost predicate Decided(r: Run) {
    match r.s.point
    case Stopping(_, Disabled) => !r.wasEnabled && !r.buildFailed
    case Stopping(_, Unavailable) => r.wasEnabled && !r.client && !r.buildFailed
    case Stopping(_, Restart) => r.wasEnabled && r.client && !r.buildFailed
    case Stopping(_, Rebuild) => r.wasEnabled && !r.buildFailed
    case Building => r.wasEnabled && !r.buildFailed
    case Waiting => PassMeaning(r)
    case Woken(_, _) => PassMeaning(r)
    case _ => true
  }

  // After a pass a worker is held exactly when the pass saw the pool enabled and has a client.
  ghost predicate PassMeaning(r: Run) {
    && (r.s.task.Some? <==> !r.buildFailed && r.wasEnabled && r.client)
    && (r.s.task.Some? && !r.lost ==> r.s.task.value in r.s.live)
  }

  ghost predicate Holds(r: Run) {
    && Safe(r.s)
    && Decided(r)
    && r.s.clientAvailable == r.client && r.s.enabled == r.configured
    && (r.outstanding ==> r.s.wake)
    && (r.buildFailed ==> r.s.rebuildRequired)
  }

  // The supervisor only has its last worker to wait for, or not even that.
  predicate Over(point: Point) {
    point.Stopped? || (point.Stopping? && point.next == Final)
  }

  // The worker held, if any, has not finished.
  ghost predicate Running(s: State) {
    s.task.Some? ==> s.task.value in s.live
  }

  // What one stretch leaves alone, and where it can end.
  lemma StopKeeps(s: State, next: Next)
    ensures var t := StopWorker(s, next);
            && t.wake == s.wake && t.rebuildRequired == s.rebuildRequired && t.clientAvailable == s.clientAvailable
            && t.enabled == s.enabled && t.stop == s.stop
            && (t.point.Stopping? ==> t.point.next == next || t.point.next == Final)
            && (t.point.Building? ==> next == Rebuild)
            && (t.point.Waiting? ==> next != Final && next != Rebuild && (t.task.Some? <==> next == Restart) && Running(t) && !s.stop)
            && (Over(t.point) ==> s.stop || next == Final)
            && !t.point.Woken? && !t.point.Fresh?
    decreases Rank(next) + 1
  {
    if s.task.None? {
      AfterStopKeeps(s.(task := None, flag := false), next);
    }
  }

  lemma AfterStopKeeps(s: State, next: Next)
    requires s.task.None?
    ensures var t := AfterStop(s, next);
            && t.wake == s.wake && t.rebuildRequired == s.rebuildRequired && t.clientAvailable == s.clientAvailable
            && t.enabled == s.enabled && t.stop == s.stop
            && (t.point.Stopping? ==> t.point.next == Final)
            && (t.point.Building? ==> next == Rebuild)
            && (t.point.Waiting? ==> next != Final && next != Rebuild && (t.task.Some? <==> next == Restart) && Running(t) && !s.stop)
            && (Over(t.point) ==> s.stop || next == Final)
            && !t.point.Woken? && !t.point.Fresh?
    decreases Rank(next)
  {
    match next
    case Disabled => EndKeeps(s);
    case Unavailable => EndKeeps(s);
    case Restart => EndKeeps(StartWorker(s));
    case _ =>
  }

  lemma EndKeeps(s: State)
    ensures var t := EndPass(s);
            && t.wake == s.wake && t.rebuildRequired == s.rebuildRequired && t.clientAvailable == s.clientAvailable
            && t.enabled == s.enabled && t.stop == s.stop
            && (t.point.Stopping? ==> t.point.next == Final)
            && (t.point.Waiting? ==> t.task == s.task && t.live == s.live && !s.stop)
            && (Over(t.point) ==> s.stop)
            && !t.point.Building? && !t.point.Woken? && !t.point.Fresh?
    decreases 2
  {
    if s.stop {
      StopKeeps(s, Final);
    }
  }

  lemma AfterBuildKeeps(s: State)
    ensures var t := AfterBuild(s);
            && t.wake == s.wake && t.rebuildRequired == s.rebuildRequired && t.clientAvailable == s.clientAvailable
            && t.enabled == s.enabled && t.stop == s.stop
            && (t.point.Stopping? ==> t.point.next == Final || t.point.next == if s.clientAvailable then Restart else Unavailable)
            && (t.point.Waiting? ==> (t.task.Some? <==> s.clientAvailable) && Running(t) && !s.stop)
            && (Over(t.point) ==> s.stop)
            && !t.point.Building? && !t.point.Woken? && !t.point.Fresh?
  {
    if !s.clientAvailable {
      StopKeeps(s, Unavailable);
    } else if s.task.None? {
      EndKeeps(StartWorker(s));
    } else if s.task.value in s.live {
      EndKeeps(s);
    } else {
      StopKeeps(s, Restart);
    }
  }

  lemma BeginKeeps(s: State)
    ensures var t := BeginPass(s);
            && t.wake == s.wake && t.clientAvailable == s.clientAvailable && t.enabled == s.enabled && t.stop == s.stop
            && t.rebuildRequired == (s.enabled && s.rebuildRequired)
            && (t.point.Stopping? && t.point.next != Final ==>
                  t.point.next == if !s.enabled then Disabled else if s.rebuildRequired then Rebuild
                                  else if s.clientAvailable then Restart else Unavailable)
            && (t.point.Building? ==> s.enabled && s.rebuildRequired)
            && (t.point.Waiting? ==> (t.task.Some? <==> s.enabled && s.clientAvailable) && Running(t) && !s.stop)
            && (Over(t.point) ==> s.stop)
            && !t.point.Woken? && !t.point.Fresh?
  {
    if !s.enabled {
      StopKeeps(s.(rebuildRequired := false), Disabled);
    } else if s.rebuildRequired {
      StopKeeps(s, Rebuild);
    } else {
      AfterBuildKeeps(s);
    }
  }

  predicate IsStretch(e: Event) {
    e.Begin? || e.WaitReturns? || e.Resume? || e.StopEnds? || e.BuildEnds?
  }

  function Stretches(events: seq<Event>): nat {
    if events == [] then 0 else (if IsStretch(events[0]) then 1 else 0) + Stretches(events[1..])
  }

  // How many stretches the supervisor takes at most until it starts the next pass.
  function Distance(point: Point): nat {
    match point
    case Fresh => 1
    case Woken(_, _) => 1
    case Waiting => 2
    case Stopping(_, Rebuild) => 5
    case Building => 4
    case _ => 3
  }

  // How many stretches it takes at most to stop once it is asked to.
  function Remaining(point: Point): nat {
    match point
    case Waiting => 7
    case Fresh => 6
    case Woken(_, _) => 6
    case Stopping(_, Rebuild) => 5
    case Building => 4
    case Stopping(_, Final) => 1
    case Stopping(_, _) => 3
    case Stopped => 0
  }

  lemma StepFacts(s: State, e: Event)
    requires Safe(s) && Possible(s, e)
    ensures var t := Step(s, e);
            && t.enabled == (if e.Configure? then e.enabled else s.enabled)
            && t.stop == (s.stop || e.RequestStop?)
            && t.rebuildRequired == (if StartsPass(s, e) then s.enabled && s.rebuildRequired
                                     else if e.BuildEnds? && e.ok then false
                                     else s.rebuildRequired || e == Request(true))
            && (t.point.Building? && !s.point.Building? ==>
                  (StartsPass(s, e) && s.enabled && s.rebuildRequired) || (e.StopEnds? && s.point.next == Rebuild))
            && (Over(t.point) && !Over(s.point) ==> t.stop || e.Cancel?)
            && (!IsStretch(e) && !e.Cancel? ==> t.point == s.point)
            && (IsStretch(e) && s.stop ==> !t.point.Waiting? && Remaining(t.point) < Remaining(s.point))
            && (IsStretch(e) && !Over(t.point) ==> StartsPass(s, e) || Distance(t.point) < Distance(s.point))
  {
    match e
    case Begin => BeginKeeps(s);
    case Resume =>
      if s.point.stopDone && s.stop {
        StopKeeps(s, Final);
      } else {
        BeginKeeps(if s.point.wakeDone then s.(wake := false) else s);
      }
    case StopEnds => AfterStopKeeps(s, s.point.next);
    case BuildEnds(ok, available) =>
      if ok {
        AfterBuildKeeps(s.(clientAvailable := available, rebuildRequired := false));
      } else {
        EndKeeps(s.(flag := false));
      }
    case Cancel => StopKeeps(s, Final);
    case _ =>
  }

  lemma PassHolds(r: Run, e: Event)
    requires Holds(r) && Possible(r.s, e) && StartsPass(r.s, e)
    ensures Holds(Follow(r, e))
  {
    StepIsSafe(r.s, e);
    BeginKeeps(if e.Resume? && r.s.point.wakeDone then r.s.(wake := false) else r.s);
  }

  lemma BuildHolds(r: Run, e: Event)
    requires Holds(r) && Possible(r.s, e) && e.BuildEnds?
    ensures Holds(Follow(r, e))
  {
    StepIsSafe(r.s, e);
    if e.ok {
      AfterBuildKeeps(r.s.(clientAvailable := e.available, rebuildRequired := false));
    } else {
      EndKeeps(r.s.(flag := false));
    }
  }

  lemma StopHolds(r: Run, e: Event)
    requires Holds(r) && Possible(r.s, e) && !StartsPass(r.s, e) && (e.Resume? || e.StopEnds? || e.Cancel?)
    ensures Holds(Follow(r, e))
  {
    StepIsSafe(r.s, e);
    if e.StopEnds? {
      AfterStopKeeps(r.s, r.s.point.next);
    } else {
      StopKeeps(r.s, Final);
    }
  }

  lemma StepHolds(r: Run, e: Event)
    requires Holds(r) && Possible(r.s, e)
    ensures Holds(Follow(r, e))
  {
    if StartsPass(r.s, e) {
      PassHolds(r, e);
    } else if e.BuildEnds? {
      BuildHolds(r, e);
    } else if e.Resume? || e.StopEnds? || e.Cancel? {
      StopHolds(r, e);
    } else {
      StepIsSafe(r.s, e);
    }
  }

  lemma {:induction false} RunHolds(r: Run, events: seq<Event>)
    requires Holds(r) && IsRun(r, events)
    ensures Holds(After(r, events))
    decreases |events|
  {
    if events != [] {
      StepHolds(r, events[0]);
      RunHolds(Follow(r, events[0]), events[1..]);
    }
  }

  /** Every run, whatever the interleaving: at most one worker is live; a replacement is built only
      once no worker is live; between passes the flag is up exactly when the last pass saw the pool
      enabled, its build did not fail, and the last successful build, or the initial value if there was
      none, reported a client, and then the worker held runs unless one finished since; while a pass waits for anything the flag is down; after a failed build
      the rebuild stays pending; a request not yet followed by a pass has the wake event set; a worker
      that is waited for was told to stop; and a stopped supervisor leaves no worker behind. */
  lemma SupervisorSafety(enabled: bool, clientAvailable: bool, events: seq<Event>)
    requires IsRun(Start(enabled, clientAvailable), events)
    ensures var r := After(Start(enabled, clientAvailable), events);
            && |r.s.live| <= 1
            && (r.s.point.Building? ==> r.s.live == {})
            && (r.s.point.Waiting? || r.s.point.Woken? ==>
                  (r.s.flag <==> r.wasEnabled && !r.buildFailed && r.client) && (r.s.flag <==> r.s.task.Some?)
                  && (r.s.flag && !r.lost ==> r.s.task.value in r.s.live))
            && (!r.s.point.Waiting? && !r.s.point.Woken? ==> !r.s.flag && r.s.task.None?)
            && (r.buildFailed ==> r.s.rebuildRequired)
            && (r.outstanding ==> r.s.wake)
            && (r.s.point.Stopping? ==> r.s.live <= {r.s.point.task} && r.s.point.task in r.s.asked
                                        && (r.s.point.next == Final ==> r.s.point.task in r.s.cancelled))
            && (r.s.point.Stopped? ==> r.s.live == {})
  {
    RunHolds(Start(enabled, clientAvailable), events);
    OneAtMost(After(Start(enabled, clientAvailable), events).s);
  }

  lemma OneAtMost(s: State)
    requires Safe(s)
    ensures |s.live| <= 1
  {
    var t := if s.task.Some? then s.task.value else if s.point.Stopping? then s.point.task else 0;
    assert s.live <= {t};
    if t in s.live {
      assert s.live == {t};
    } else {
      assert s.live == {};
    }
  }

  /** What a pass decides.  It keeps a running worker that needs no rebuild, and otherwise first waits
      for the worker it holds; a new worker starts at once only when none is held. */
  lemma PassDecides(r: Run, e: Event)
    requires Holds(r) && Possible(r.s, e) && StartsPass(r.s, e) && !r.s.stop
    ensures var t := Step(r.s, e);
            && (r.configured && !r.s.rebuildRequired && r.client && r.s.flag && r.s.task.value in r.s.live ==>
                  t.point.Waiting? && t.task == r.s.task && t.live == r.s.live && t.asked == r.s.asked && t.created == r.s.created)
            && (r.configured && !r.s.rebuildRequired && r.client && !r.s.flag ==>
                  t.point.Waiting? && t.task == Some(r.s.created) && t.live == {r.s.created})
            && (r.s.flag && (!r.configured || r.s.rebuildRequired || !r.client || r.s.task.value !in r.s.live) ==>
                  t.point.Stopping? && t.point.task == r.s.task.value && t.created == r.s.created)
            && (!r.s.flag && (!r.configured || (!r.s.rebuildRequired && !r.client)) ==>
                  t.point.Waiting? && t.task.None? && t.live == {})
            && (!r.s.flag && r.configured && r.s.rebuildRequired ==> t.point.Building?)
  {
  }

  /** Once the old worker has finished, the pass goes on with what it had decided: a rebuild is built,
      a finished worker is replaced, and a disabled or unavailable pool is left without one. */
  lemma StopLeadsOn(r: Run)
    requires Holds(r) && Possible(r.s, StopEnds) && !r.s.stop && r.s.point.next != Final
    ensures var t := Step(r.s, StopEnds);
            && (r.s.point.next == Rebuild ==> t.point.Building?)
            && (r.s.point.next == Restart ==> t.point.Waiting? && t.task == Some(r.s.created) && t.live == {r.s.created})
            && (r.s.point.next == Disabled || r.s.point.next == Unavailable ==> t.point.Waiting? && t.task.None? && t.live == {})
  {
  }

  /** A build that succeeds starts a new worker exactly when it reports a client and ends the request;
      one that fails leaves the request and the earlier client as they were. */
  lemma BuildDecides(r: Run, ok: bool, available: bool)
    requires Holds(r) && r.s.point.Building? && !r.s.stop
    ensures var t := Step(r.s, BuildEnds(ok, available));
            && t.point.Waiting?
            && t.rebuildRequired == !ok
            && (if ok && available then t.task == Some(r.s.created) && t.live == {r.s.created} && t.flag
                else t.task.None? && t.live == {} && !t.flag)
            && t.clientAvailable == (if ok then available else r.client)
  {
  }

  // ----- stopping -----

  /** Once stop was asked for, the supervisor stops within seven stretches of any moment.  Until then
      it can always go on, except that it may have to wait for a worker that it told to stop. */
  lemma {:induction false} StopsOnceAsked(r: Run, events: seq<Event>)
    requires Holds(r) && IsRun(r, events) && r.s.stop
    requires forall e :: e in events ==> !e.Cancel?
    ensures var t := After(r, events).s;
            && Remaining(t.point) + Stretches(events) <= Remaining(r.s.point)
            && (t.point.Stopped? || CanGoOn(t)
                || (t.point.Stopping? && t.point.task in t.live && t.point.task in t.asked))
    decreases |events|
  {
    if events != [] {
      var e := events[0];
      assert e in events;
      StepHolds(r, e);
      StepFacts(r.s, e);
      StopsOnceAsked(Follow(r, e), events[1..]);
    } else {
      var e := match r.s.point
               case Fresh => Begin
               case Waiting => WaitReturns(true, false)
               case Woken(_, _) => Event.Resume
               case Stopping(_, _) => StopEnds
               case _ => BuildEnds(false, false);
      assert IsStretch(e);
    }
  }

  // The coroutine itself can run on.
  ghost predicate CanGoOn(s: State) {
    exists e :: IsStretch(e) && Possible(s, e)
  }

  /** The supervisor ends only because stop was asked for or it was cancelled. */
  lemma {:induction false} RunsUntilAsked(r: Run, events: seq<Event>)
    requires Holds(r) && IsRun(r, events) && !r.s.stop && !Over(r.s.point)
    requires forall e :: e in events ==> !e.RequestStop? && !e.Cancel?
    ensures !Over(After(r, events).s.point) && !After(r, events).s.stop
    decreases |events|
  {
    if events != [] {
      assert events[0] in events;
      StepHolds(r, events[0]);
      StepFacts(r.s, events[0]);
      RunsUntilAsked(Follow(r, events[0]), events[1..]);
    }
  }

  // ----- every request is followed by a pass -----

  /** While the supervisor is neither stopped nor cancelled, a pass starts within five stretches of
      any moment, so also after any request; a waiting supervisor with a request can go on at once. */
  lemma {:induction false} PassFollows(r: Run, events: seq<Event>)
    requires Holds(r) && IsRun(r, events) && !r.s.stop && !Over(r.s.point)
    requires forall e :: e in events ==> !e.RequestStop? && !e.Cancel?
    ensures Stretches(events) >= Distance(r.s.point) ==> After(r, events).passes > r.passes
    ensures After(r, events).passes >= r.passes
    ensures r.outstanding && r.s.point.Waiting? ==> Possible(r.s, WaitReturns(false, true))
    decreases |events|
  {
    if events != [] {
      var e := events[0];
      assert e in events;
      StepHolds(r, e);
      StepFacts(r.s, e);
      PassFollows(Follow(r, e), events[1..]);
    }
  }

  // ----- rebuild requests -----

  /** A pending rebuild request is forgotten without a build exactly when a pass begins with the pool
      disabled, or when the request arrived during a build that then succeeds. */
  lemma ForgottenIff(r: Run, e: Event)
    requires Holds(r) && Possible(r.s, e) && r.unserved && r.s.rebuildRequired
    ensures var t := Follow(r, e);
            (t.unserved && !t.s.rebuildRequired) <==>
            (StartsPass(r.s, e) && !r.s.enabled) || (e.BuildEnds? && e.ok)
  {
    StepFacts(r.s, e);
  }

  /** A rebuild request that arrives outside a build stays pending until a build starts, over every run
      in which the pool stays enabled and no later request replaces it. */
  lemma {:induction false} RequestStaysPending(r: Run, events: seq<Event>)
    requires Holds(r) && IsRun(r, events) && r.s.enabled
    requires r.unserved ==> r.s.rebuildRequired && !r.s.point.Building?
    requires forall e :: e in events ==> e != Configure(false) && e != Request(true)
    ensures After(r, events).unserved ==> After(r, events).s.rebuildRequired
    decreases |events|
  {
    if events != [] {
      var e := events[0];
      assert e in events;
      StepHolds(r, e);
      EnabledStays(r, e);
      assert forall later :: later in events[1..] ==> later in events;
      RequestStaysPending(Follow(r, e), events[1..]);
    }
  }

  lemma EnabledStays(r: Run, e: Event)
    requires Holds(r) && Possible(r.s, e) && r.s.enabled && e != Configure(false) && e != Request(true)
    requires r.unserved ==> r.s.rebuildRequired && !r.s.point.Building?
    ensures var t := Follow(r, e);
            t.s.enabled && (t.unserved ==> t.s.rebuildRequired && !t.s.point.Building?)
  {
    StepFacts(r.s, e);
  }

  /** A rebuild request during a successful build is dropped, though its wake-up is not: the pass that
      follows keeps the worker that was built before the request. */
  lemma RequestDuringBuildIsDropped(r: Run)
    requires Holds(r) && r.s.point.Building? && r.s.enabled && !r.s.stop
    ensures var events := [Request(true), BuildEnds(true, true), WaitReturns(false, true), Event.Resume];
            && IsRun(r, events)
            && var t := After(r, events);
               && t.s.point.Waiting? && t.passes == r.passes + 1
               && t.unserved && !t.s.rebuildRequired && !t.s.wake && t.s.task == Some(r.s.created)
  {
    var built := Follow(Follow(r, Request(true)), BuildEnds(true, true));
    BuiltThenWoken(built);
    var last := [WaitReturns(false, true), Event.Resume];
    RunStep(Follow(r, Request(true)), BuildEnds(true, true), last);
    RunStep(r, Request(true), [BuildEnds(true, true)] + last);
  }

  lemma BuiltThenWoken(r: Run)
    requires r.s.point.Waiting? && r.s.wake && !r.s.rebuildRequired && r.s.enabled && r.s.clientAvailable && !r.s.stop
    requires r.s.task.Some? && r.s.task.value in r.s.live
    ensures var events := [WaitReturns(false, true), Event.Resume];
            && IsRun(r, events)
            && var t := After(r, events);
               && t.s.point.Waiting? && t.passes == r.passes + 1 && t.unserved == r.unserved
               && !t.s.rebuildRequired && !t.s.wake && t.s.task == r.s.task
  {
    RunStep(Follow(r, WaitReturns(false, true)), Event.Resume, []);
    RunStep(r, WaitReturns(false, true), [Event.Resume]);
  }

  lemma RunStep(r: Run, e: Event, rest: seq<Event>)
    requires Possible(r.s, e) && IsRun(Follow(r, e), rest)
    ensures IsRun(r, [e] + rest) && After(r, [e] + rest) == After(Follow(r, e), rest)
  {
    assert ([e] + rest)[1..] == rest;
  }
}
