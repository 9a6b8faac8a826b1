/**
 Assigning every user to an agent in the background (server/api/agent_polarrag_access.py).

 A worker claims the agent's row for an hour.  What it wrote commits only together with a
 conditional update of that row, so a worker that was replaced cannot commit.  Each handler and each
 worker transaction is one atomic step.
 */
module BulkAssignment {
  import opened Common

  const LEASE_SECONDS: int := 3600

  type UserId = string
  type WorkerId = nat     // a fresh random id in the source; the claim that issued it

  datatype Assignment = Assignment(direct: bool, createdBy: string)

  type Assignments = map<UserId, Assignment>

  datatype Status = Running | Completed | Failed

  datatype Row = Row(
    status: Status,
    createdCount: nat,
    error: Option<string>,
    workerId: Option<WorkerId>,
    leaseUntil: Option<int>)

  // A group assigned to the agent: everybody of an identity source, or any other group.
  datatype Group = AllOfSource(source: string) | OtherGroup(id: string)

  datatype State = State(row: Row, assignments: Assignments, builtinUsers: bool, groups: set<Group>)

  const IDLE_ROW := Row(Completed, 0, None, None, None)

  // ----- the loop over the users -----

  predicate IsDirect(a: Assignments, u: UserId) {
    u in a && a[u].direct
  }

  function Promote(a: Assignments, u: UserId, admin: string): Assignments {
    if IsDirect(a, u) then a else a[u := Assignment(true, admin)]
  }

  function AssignAll(a: Assignments, users: seq<UserId>, admin: string): Assignments {
    if users == [] then a else Promote(AssignAll(a, users[..|users| - 1], admin), users[|users| - 1], admin)
  }

  // The users that have no direct assignment yet.
  function Missing(a: Assignments, users: seq<UserId>): set<UserId> {
    set u | u in users && !IsDirect(a, u)
  }

  // `existing` is read once; rows are added or promoted as the loop goes.
  method RunLoop(existing: Assignments, users: seq<UserId>, admin: string)
    returns (result: Assignments, createdCount: nat)
    requires forall i, j :: 0 <= i < j < |users| ==> users[i] != users[j]
    ensures result == AssignAll(existing, users, admin)
    ensures createdCount == |Missing(existing, users)|
  {
    result, createdCount := existing, 0;
    for i := 0 to |users|
      invariant result == AssignAll(existing, users[..i], admin)
      invariant createdCount == |Missing(existing, users[..i])|
    {
      var u := users[i];
      AssignStep(existing, users, i, admin);
      MissingStep(existing, users, i);
      if u !in existing {
        result := result[u := Assignment(true, admin)];
        createdCount := createdCount + 1;
      } else if !existing[u].direct {
        result := result[u := Assignment(true, admin)];
        createdCount := createdCount + 1;
      }
    }
    assert users[..|users|] == users;
  }

  lemma AssignStep(a: Assignments, users: seq<UserId>, i: nat, admin: string)
    requires i < |users| && forall i, j :: 0 <= i < j < |users| ==> users[i] != users[j]
    ensures AssignAll(a, users[..i + 1], admin) ==
            if IsDirect(a, users[i]) then AssignAll(a, users[..i], admin)
            else AssignAll(a, users[..i], admin)[users[i] := Assignment(true, admin)]
  {
    AssignAllMeaning(a, users[..i], admin);
    assert users[..i + 1][..i] == users[..i];
    assert users[i] !in users[..i];
  }

  lemma MissingStep(a: Assignments, users: seq<UserId>, i: nat)
    requires i < |users| && forall i, j :: 0 <= i < j < |users| ==> users[i] != users[j]
    ensures users[i] !in users[..i]
    ensures |Missing(a, users[..i + 1])| == |Missing(a, users[..i])| + if IsDirect(a, users[i]) then 0 else 1
  {
    assert users[..i + 1] == users[..i] + [users[i]];
    assert Missing(a, users[..i + 1]) ==
           if IsDirect(a, users[i]) then Missing(a, users[..i]) else Missing(a, users[..i]) + {users[i]};
  }

  /** Every listed user ends up assigned directly, an assignment that was direct keeps its row, and
      nobody else's assignment changes. */
  lemma {:induction false} AssignAllMeaning(a: Assignments, users: seq<UserId>, admin: string)
    ensures var after := AssignAll(a, users, admin);
            forall u :: u in after <==> u in a || u in users
    ensures var after := AssignAll(a, users, admin);
            forall u :: u in after ==>
              after[u] == if u in users && !IsDirect(a, u) then Assignment(true, admin) else a[u]
  {
    if users != [] {
      var n := |users| - 1;
      AssignAllMeaning(a, users[..n], admin);
      assert users == users[..n] + [users[n]];
    }
  }

  /** Assigning the same users again finds nothing to do. */
  lemma SecondRunIsIdle(a: Assignments, users: seq<UserId>, admin: string, again: string)
    ensures var after := AssignAll(a, users, admin);
            Missing(after, users) == {} && AssignAll(after, users, again) == after
  {
    AssignAllMeaning(a, users, admin);
    AssignAllMeaning(AssignAll(a, users, admin), users, again);
    var after := AssignAll(a, users, admin);
    assert AssignAll(after, users, again).Keys == after.Keys;
  }

  // ----- the conditional updates of the row -----

  predicate Claimable(row: Row, now: int) {
    row.workerId.None? || row.leaseUntil.None? || row.leaseUntil.value <= now
  }

  function Claimed(s: State, worker: WorkerId, now: int): State {
    if Claimable(s.row, now)
    then s.(row := Row(Running, 0, None, Some(worker), Some(now + LEASE_SECONDS)))
    else s
  }

  function Reported(s: State, worker: WorkerId, error: string): State {
    if s.row.workerId == Some(worker)
    then s.(row := s.row.(status := Failed, error := Some(error), workerId := None, leaseUntil := None))
    else s
  }

  function Committed(s: State, worker: WorkerId, users: seq<UserId>, admin: string): State {
    if s.row.workerId == Some(worker)
    then s.(row := Row(Completed, |Missing(s.assignments, users)|, None, None, None),
            assignments := AssignAll(s.assignments, users, admin))
    else s
  }

  // Whether the all-subjects endpoint answers 409.
  predicate Locked(row: Row, now: int) {
    row.status.Running? && row.leaseUntil.Some? && now < row.leaseUntil.value
  }

  function Everybody(sources: set<string>): set<Group> {
    set source | source in sources :: AllOfSource(source)
  }

  // `sources` are the identity sources that can be bound to the agent.
  function AllSubjects(s: State, bind: bool, now: int, sources: set<string>): State {
    if Locked(s.row, now) then s
    else if bind then s.(builtinUsers := true, groups := s.groups + Everybody(sources))
    else s.(builtinUsers := false, groups := {}, assignments := map[])
  }

  class AgentRecord {
    var row: Row
    var assignments: Assignments
    var builtinUsers: bool
    var groups: set<Group>

    function Now(): State
      reads this
    {
      State(row, assignments, builtinUsers, groups)
    }

    method Claim(worker: WorkerId, now: int) returns (claimed: bool)
      modifies this`row
      ensures claimed == Claimable(old(row), now) && Now() == Claimed(old(Now()), worker, now)
    {
      claimed := Claimable(row, now);
      if claimed {
        row := Row(Running, 0, None, Some(worker), Some(now + LEASE_SECONDS));
      }
    }

    method ReportFailure(worker: WorkerId, error: string) returns (updated: bool)
      modifies this`row
      ensures updated == (old(row).workerId == Some(worker)) && Now() == Reported(old(Now()), worker, error)
    {
      updated := row.workerId == Some(worker);
      if updated {
        row := row.(status := Failed, error := Some(error), workerId := None, leaseUntil := None);
      }
    }

    // The worker's transaction: its assignments are kept only if the row is still its own.
    method RunWorker(worker: WorkerId, users: seq<UserId>, admin: string) returns (committed: bool)
      requires forall i, j :: 0 <= i < j < |users| ==> users[i] != users[j]
      modifies this
      ensures committed == (old(row).workerId == Some(worker))
      ensures Now() == Committed(old(Now()), worker, users, admin)
    {
      var saved := assignments;
      var createdCount;
      assignments, createdCount := RunLoop(assignments, users, admin);
      committed := row.workerId == Some(worker);
      if committed {
        row := Row(Completed, createdCount, None, None, None);
      } else {
        assignments := saved;   // rollback
      }
    }

    method UpdateAllSubjects(bind: bool, now: int, sources: set<string>) returns (conflict: bool)
      modifies this`assignments, this`builtinUsers, this`groups
      ensures conflict == Locked(row, now) && Now() == AllSubjects(old(Now()), bind, now, sources)
    {
      conflict := row.status.Running? && row.leaseUntil.Some? && now < row.leaseUntil.value;
      if conflict {
        return;
      }
      if !bind {
        builtinUsers, groups, assignments := false, {}, map[];
        return;
      }
      builtinUsers := true;
      var bound := groups;
      var rest := sources;
      while rest != {}
        invariant rest <= sources && bound == groups + Everybody(sources - rest)
        decreases |rest|
      {
        var source :| source in rest;
        assert sources - (rest - {source}) == sources - rest + {source};
        rest := rest - {source};
        if AllOfSource(source) !in groups {
          bound := bound + {AllOfSource(source)};
        }
      }
      assert sources - rest == sources;
      groups := bound;
    }
  }

  // ----- every run of claims, workers, crashes and other requests -----

  // A crashed worker is one that does nothing more.  `Edit` stands for any other endpoint that
  // changes assignments.  `issued` counts the claims that succeeded.
  datatype Event =
    | TryClaim(now: int)
    | Commit(worker: WorkerId, users: seq<UserId>, admin: string)
    | Report(worker: WorkerId, error: string)
    | UpdateAll(bind: bool, now: int, sources: set<string>)
    | Edit(assignments: Assignments)

  datatype System = System(state: State, issued: nat)

  function Apply(s: System, e: Event): System {
    match e
    case TryClaim(now) =>
      System(Claimed(s.state, s.issued, now), if Claimable(s.state.row, now) then s.issued + 1 else s.issued)
    case Commit(w, users, admin) => s.(state := Committed(s.state, w, users, admin))
    case Report(w, error) => s.(state := Reported(s.state, w, error))
    case UpdateAll(bind, now, sources) => s.(state := AllSubjects(s.state, bind, now, sources))
    case Edit(a) => s.(state := s.state.(assignments := a))
  }

  ghost predicate IsRun(states: seq<System>, events: seq<Event>) {
    && |states| == |events| + 1
    && states[0].state.row == IDLE_ROW && states[0].issued == 0
    && forall k: nat :: k < |events| ==> states[k + 1] == Apply(states[k], events[k])
  }

  // The event is an action of worker w.
  predicate ActionOf(e: Event, w: WorkerId) {
    (e.Commit? || e.Report?) && e.worker == w
  }

  predicate RowOk(s: System) {
    && (s.state.row.status.Running? <==> s.state.row.workerId.Some?)
    && (s.state.row.workerId.Some? <==> s.state.row.leaseUntil.Some?)
    && (s.state.row.workerId.Some? ==> s.state.row.workerId.value < s.issued)
  }

  /** The status is "running" exactly while a worker is recorded, and that worker has a lease. */
  lemma {:induction false} RunningIffOwned(states: seq<System>, events: seq<Event>, k: nat)
    requires IsRun(states, events) && k <= |events|
    ensures RowOk(states[k])
  {
    if k > 0 {
      RunningIffOwned(states, events, k - 1);
    }
  }

  /** A claim succeeds exactly when nobody holds an unexpired lease; otherwise it changes nothing. */
  lemma ClaimRespectsLease(states: seq<System>, events: seq<Event>, k: nat)
    requires IsRun(states, events) && k < |events| && events[k].TryClaim?
    ensures var row := states[k].state.row;
            if Locked(row, events[k].now)
            then states[k + 1] == states[k]
            else states[k + 1].state.row.workerId == Some(states[k].issued)
                 && states[k + 1].state.row.leaseUntil == Some(events[k].now + LEASE_SECONDS)
  {
    RunningIffOwned(states, events, k);
  }

  lemma {:induction false} NeverOwnerAgain(states: seq<System>, events: seq<Event>, j: nat, k: nat, w: WorkerId)
    requires IsRun(states, events) && j <= k <= |events|
    requires w < states[j].issued && states[j].state.row.workerId != Some(w)
    ensures w < states[k].issued && states[k].state.row.workerId != Some(w)
    decreases k
  {
    if j < k {
      NeverOwnerAgain(states, events, j, k - 1, w);
    }
  }

  /** Fencing: once a worker no longer owns the row, because it was replaced or because it finished,
      nothing it does changes an assignment, the status or the count, for the rest of the run. */
  lemma Fenced(states: seq<System>, events: seq<Event>, j: nat, k: nat, w: WorkerId)
    requires IsRun(states, events) && j <= k < |events|
    requires w < states[j].issued && states[j].state.row.workerId != Some(w)
    requires ActionOf(events[k], w)
    ensures states[k + 1] == states[k]
  {
    NeverOwnerAgain(states, events, j, k, w);
  }

  /** A worker takes effect at most once: after its commit or its failure report, nothing. */
  lemma ActsOnce(states: seq<System>, events: seq<Event>, j: nat, k: nat, w: WorkerId)
    requires IsRun(states, events) && j < k < |events|
    requires ActionOf(events[j], w) && ActionOf(events[k], w)
    requires states[j + 1] != states[j]
    ensures states[k + 1] == states[k]
  {
    RunningIffOwned(states, events, j);
    Fenced(states, events, j + 1, k, w);
  }

  /** A commit that takes effect leaves every user of its snapshot with a direct assignment, and
      reports how many had none before. */
  lemma CommitCountsTheMissing(states: seq<System>, events: seq<Event>, k: nat)
    requires IsRun(states, events) && k < |events| && events[k].Commit?
    requires states[k].state.row.workerId == Some(events[k].worker)
    ensures var after := states[k + 1].state;
            && after.row.status.Completed?
            && after.row.createdCount == |Missing(states[k].state.assignments, events[k].users)|
            && (forall u :: u in events[k].users ==> IsDirect(after.assignments, u))
            && (forall u :: IsDirect(states[k].state.assignments, u) ==>
                  u in after.assignments && after.assignments[u] == states[k].state.assignments[u])
  {
    AssignAllMeaning(states[k].state.assignments, events[k].users, events[k].admin);
  }

  /** A crash does not lock the agent for ever: from every reachable state some later claim succeeds. */
  lemma LeaseRunsOut(states: seq<System>, events: seq<Event>, k: nat, now: int) returns (later: int)
    requires IsRun(states, events) && k <= |events|
    ensures now <= later
    ensures forall t :: later <= t ==> Apply(states[k], TryClaim(t)).state.row.workerId == Some(states[k].issued)
  {
    var lease := states[k].state.row.leaseUntil;
    later := if lease.Some? && now < lease.value then lease.value else now;
  }

  // ----- what each request leaves behind, for the rest of the run -----

  // While a worker is recorded nothing has been counted and nothing has failed.
  lemma {:induction false} RunningIsClean(states: seq<System>, events: seq<Event>, k: nat)
    requires IsRun(states, events) && k <= |events|
    ensures states[k].state.row.status.Running? ==> states[k].state.row.createdCount == 0 && states[k].state.row.error.None?
  {
    if k > 0 {
      RunningIsClean(states, events, k - 1);
      RunningIffOwned(states, events, k - 1);
    }
  }

  lemma {:induction false} UnownedRowStays(states: seq<System>, events: seq<Event>, j: nat, k: nat)
    requires IsRun(states, events) && j <= k <= |events|
    requires states[j].state.row.workerId.None?
    requires forall i :: j <= i < k ==> !events[i].TryClaim?
    ensures states[k].state.row == states[j].state.row
  {
    if j < k {
      UnownedRowStays(states, events, j, k - 1);
    }
  }

  /** A failure that its worker reports while it owns the row is what the row shows until the next
      claim, and nothing was assigned: status Failed, the error, no worker, no lease, nothing counted. */
  lemma FailureIsShown(states: seq<System>, events: seq<Event>, j: nat, k: nat)
    requires IsRun(states, events) && j < k <= |events|
    requires events[j].Report? && states[j].state.row.workerId == Some(events[j].worker)
    requires forall i :: j < i < k ==> !events[i].TryClaim?
    ensures states[k].state.row == Row(Failed, 0, Some(events[j].error), None, None)
    ensures states[j + 1].state.assignments == states[j].state.assignments
    ensures states[j + 1].state.groups == states[j].state.groups && states[j + 1].issued == states[j].issued
    ensures states[j + 1].state.builtinUsers == states[j].state.builtinUsers
  {
    RunningIffOwned(states, events, j);
    RunningIsClean(states, events, j);
    UnownedRowStays(states, events, j + 1, k);
  }

  /** A commit of the owner is what the row shows until the next claim, with the number of users of the
      snapshot that had no direct assignment.  They get one by the admin; everybody else, the groups
      and the built-in flag stay as they were. */
  lemma CommitIsShown(states: seq<System>, events: seq<Event>, j: nat, k: nat)
    requires IsRun(states, events) && j < k <= |events|
    requires events[j].Commit? && states[j].state.row.workerId == Some(events[j].worker)
    requires forall i :: j < i < k ==> !events[i].TryClaim?
    ensures var before, after := states[j].state, states[j + 1].state;
            && states[k].state.row ==
                 Row(Completed, |set u | u in events[j].users && !(u in before.assignments && before.assignments[u].direct)|,
                     None, None, None)
            && after.groups == before.groups && after.builtinUsers == before.builtinUsers
            && (forall u :: u in after.assignments <==> u in before.assignments || u in events[j].users)
            && (forall u :: u in after.assignments ==>
                  after.assignments[u] ==
                    if u in events[j].users && !(u in before.assignments && before.assignments[u].direct)
                    then Assignment(true, events[j].admin) else before.assignments[u])
  {
    var before := states[j].state;
    AssignAllMeaning(before.assignments, events[j].users, events[j].admin);
    assert Missing(before.assignments, events[j].users) ==
           set u | u in events[j].users && !(u in before.assignments && before.assignments[u].direct);
    UnownedRowStays(states, events, j + 1, k);
  }

  /** An accepted claim is what the row shows until the next claim or until its own worker acts: running,
      with an hour's lease, and the count and the error of the last worker gone. */
  lemma {:induction false} ClaimIsShown(states: seq<System>, events: seq<Event>, j: nat, k: nat)
    requires IsRun(states, events) && j < k <= |events|
    requires events[j].TryClaim? && !Locked(states[j].state.row, events[j].now)
    requires forall i :: j < i < k ==> !events[i].TryClaim? && !ActionOf(events[i], states[j].issued)
    ensures states[k].state.row == Row(Running, 0, None, Some(states[j].issued), Some(events[j].now + 3600))
    ensures states[j + 1].issued == states[j].issued + 1
    ensures states[j + 1].state == states[j].state.(row := states[j + 1].state.row)
    decreases k
  {
    RunningIffOwned(states, events, j);
    if j + 1 < k {
      ClaimIsShown(states, events, j, k - 1);
    }
  }

  /** The all-subjects endpoint.  While an unexpired lease is held it changes nothing.  Binding turns the
      built-in users on, adds everybody of each source, keeps the groups that were there and touches no
      assignment.  Unbinding leaves no group and no assignment.  Neither touches the row. */
  lemma AllSubjectsMeaning(states: seq<System>, events: seq<Event>, k: nat, g: Group)
    requires IsRun(states, events) && k < |events| && events[k].UpdateAll?
    ensures var before, after := states[k].state, states[k + 1].state;
            && after.row == before.row && states[k + 1].issued == states[k].issued
            && (before.row.workerId.Some? && before.row.leaseUntil.Some? && events[k].now < before.row.leaseUntil.value ==>
                  after == before)
            && (before.row.workerId.None? || (before.row.leaseUntil.Some? && before.row.leaseUntil.value <= events[k].now) ==>
                  if events[k].bind then
                    && after.builtinUsers && after.assignments == before.assignments
                    && (g in after.groups <==> g in before.groups || (g.AllOfSource? && g.source in events[k].sources))
                  else
                    !after.builtinUsers && g !in after.groups && after.assignments == map[])
  {
    RunningIffOwned(states, events, k);
    if g.AllOfSource? && g.source in events[k].sources {
      assert AllOfSource(g.source) in Everybody(events[k].sources);
    }
  }

  // ----- what an unbind of all subjects is worth -----

  function Follow(s: System, events: seq<Event>): System
    decreases |events|
  {
    if events == [] then s else Follow(Apply(s, events[0]), events[1..])
  }

  lemma {:induction false} NeverOwnerFrom(s: System, events: seq<Event>, w: WorkerId)
    requires w < s.issued && s.state.row.workerId != Some(w)
    ensures w < Follow(s, events).issued && Follow(s, events).state.row.workerId != Some(w)
    decreases |events|
  {
    if events != [] {
      NeverOwnerFrom(Apply(s, events[0]), events[1..], w);
    }
  }

  // The commit of worker w, after the given events, takes effect on a snapshot of some user.
  ghost predicate BringsBack(s: System, events: seq<Event>, w: WorkerId, users: seq<UserId>, admin: string) {
    users != [] && Apply(Follow(s, events), Commit(w, users, admin)) != Follow(s, events)
  }

  // Some worker that was issued before the unbind can still commit after it.
  ghost predicate CanBeUndone(s: System, now: int, sources: set<string>) {
    exists events, w: nat, users, admin :: w < s.issued && BringsBack(Apply(s, UpdateAll(false, now, sources)), events, w, users, admin)
  }

  /** The fence is ownership of the row, not the lease: after an accepted unbind the recorded worker,
      its lease expired, still commits, and every user of its snapshot is assigned again. */
  lemma OwnerUndoesUnbind(s: System, w: WorkerId, now: int, sources: set<string>, users: seq<UserId>, admin: string)
    requires RowOk(s) && s.state.row.workerId == Some(w) && !Locked(s.state.row, now) && users != []
    ensures var unbound := Apply(s, UpdateAll(false, now, sources));
            && unbound.state.assignments == map[] && w < s.issued
            && BringsBack(unbound, [], w, users, admin)
            && forall u :: u in users ==> IsDirect(Apply(unbound, Commit(w, users, admin)).state.assignments, u)
  {
    AssignAllMeaning(map[], users, admin);
    var unbound := Apply(s, UpdateAll(false, now, sources));
    assert unbound.state.row.workerId == Some(w);
    assert Apply(unbound, Commit(w, users, admin)).state.row.workerId.None?;
  }

  /** An accepted unbind of all subjects can be undone by a worker issued before it, in some
      continuation of the run, exactly when the row records a worker at the unbind. */
  lemma UnbindCanBeUndoneIff(states: seq<System>, events: seq<Event>, j: nat, now: int, sources: set<string>)
    requires IsRun(states, events) && j <= |events| && !Locked(states[j].state.row, now)
    ensures CanBeUndone(states[j], now, sources) <==> states[j].state.row.workerId.Some?
  {
    var s := states[j];
    RunningIffOwned(states, events, j);
    var unbound := Apply(s, UpdateAll(false, now, sources));
    if s.state.row.workerId.Some? {
      OwnerUndoesUnbind(s, s.state.row.workerId.value, now, sources, ["u"], "admin");
    } else {
      forall later, w: nat, users, admin | w < s.issued
        ensures !BringsBack(unbound, later, w, users, admin)
      {
        NeverOwnerFrom(unbound, later, w);
      }
    }
  }

  /** A run in which that happens: the worker claims, its lease runs out, everybody is unbound, and the
      worker commits. */
  lemma ExpiredWorkerCommits()
    returns (states: seq<System>, events: seq<Event>)
    ensures IsRun(states, events) && |events| == 3
    ensures events[0] == TryClaim(0) && events[1] == UpdateAll(false, 2 * LEASE_SECONDS, {})
    ensures events[2] == Commit(0, ["u"], "admin")
    ensures states[1].state.row.leaseUntil == Some(LEASE_SECONDS)
    ensures states[2].state.assignments == map[] && IsDirect(states[3].state.assignments, "u")
  {
    var s0 := System(State(IDLE_ROW, map[], false, {}), 0);
    events := [TryClaim(0), UpdateAll(false, 2 * LEASE_SECONDS, {}), Commit(0, ["u"], "admin")];
    var s1 := Apply(s0, events[0]);
    var s2 := Apply(s1, events[1]);
    var s3 := Apply(s2, events[2]);
    states := [s0, s1, s2, s3];
    OwnerUndoesUnbind(s1, 0, 2 * LEASE_SECONDS, {}, ["u"], "admin");
  }

  /** In a given run, assignments removed by an all-subjects unbind come back only through the worker
      that was recorded, with an expired lease, when the unbind was accepted: a worker issued earlier
      and replaced or finished by then cannot bring them back. */
  lemma UnbindUndoneOnlyByExpiredOwner(states: seq<System>, events: seq<Event>, j: nat, k: nat)
    requires IsRun(states, events) && j < k < |events|
    requires events[j].UpdateAll? && !events[j].bind && !Locked(states[j].state.row, events[j].now)
    requires events[k].Commit? && events[k].worker < states[j].issued && states[k + 1] != states[k]
    ensures states[j].state.row.workerId == Some(events[k].worker)
    ensures states[j].state.row.leaseUntil.Some? && states[j].state.row.leaseUntil.value <= events[j].now
  {
    RunningIffOwned(states, events, j);
    if states[j].state.row.workerId != Some(events[k].worker) {
      Fenced(states, events, j, k, events[k].worker);
    }
  }
}
