/**
 A batch of knowledge-binding operations as a left fold
 (server/api/agent_knowledge_scopes.py, update_knowledge_bindings_batch).

 Subjects are named in two ways.  A `SubjectKey` is what the administrator wrote; a `SubjectRef`
 is the user or group assignment it resolved to, and is what grants are bound to.  A key of a
 group that has no assignment on the agent resolves to nothing.
 */
module KnowledgeBatch {
  type ResourceId = string

  datatype SubjectKey =
    | UserKey(user: string)
    | DepartmentKey(department: string)
    | GroupKey(source: string, group: string)
    | SourceKey(source: string)

  datatype SubjectRef = UserRef(id: string) | GroupRef(id: string)

  datatype Kind = Bind | Unbind

  datatype Operation = Operation(kind: Kind, subjects: set<SubjectKey>, targets: set<ResourceId>)

  datatype Policy = Policy(selectAll: bool, excluded: set<SubjectKey>)

  type Policies = map<ResourceId, Policy>
  type Desired = map<SubjectRef, set<ResourceId>>
  type Resolved = map<SubjectKey, SubjectRef>

  // The default that LEGACY_ALL stands for, made explicit.
  const SELECT_ALL := Policy(true, {})

  function RefsOf(op: Operation, resolved: Resolved): set<SubjectRef> {
    set k | k in op.subjects && k in resolved :: resolved[k]
  }

  // ----- one operation -----

  function EditPolicy(policy: Policy, op: Operation): Policy {
    if op.kind.Bind? then policy.(excluded := policy.excluded - op.subjects)
    else if policy.selectAll then policy.(excluded := policy.excluded + op.subjects)
    else policy
  }

  // The policies after the operation has handled the targets in `done`.
  function EditPolicies(policies: Policies, op: Operation, materialize: bool, done: set<ResourceId>): Policies {
    map r | r in policies.Keys + (if materialize then done else {}) ::
      var policy := if r in policies then policies[r] else SELECT_ALL;
      if r in done then EditPolicy(policy, op) else policy
  }

  // The desired grants after the operation has handled the subjects in `done`.
  function EditDesired(desired: Desired, op: Operation, done: set<SubjectRef>): Desired {
    map s | s in desired ::
      if s !in done then desired[s]
      else if op.kind.Bind? then desired[s] + op.targets
      else desired[s] - op.targets
  }

  // ----- the fold -----

  function FoldPolicies(policies: Policies, ops: seq<Operation>, materialize: bool): Policies {
    if ops == [] then policies
    else
      var last := ops[|ops| - 1];
      EditPolicies(FoldPolicies(policies, ops[..|ops| - 1], materialize), last, materialize, last.targets)
  }

  function FoldDesired(desired: Desired, ops: seq<Operation>, resolved: Resolved): Desired {
    if ops == [] then desired
    else
      var last := ops[|ops| - 1];
      EditDesired(FoldDesired(desired, ops[..|ops| - 1], resolved), last, RefsOf(last, resolved))
  }

  method RunOnPolicies(policies: Policies, op: Operation, materialize: bool) returns (policies': Policies)
    ensures policies' == EditPolicies(policies, op, materialize, op.targets)
  {
    policies' := policies;
    ghost var done: set<ResourceId> := {};
    var targets := op.targets;
    while targets != {}
      invariant targets <= op.targets && done == op.targets - targets
      invariant policies' == EditPolicies(policies, op, materialize, done)
    {
      var r :| r in targets;
      targets := targets - {r};
      done := done + {r};
      if r !in policies' && materialize {
        policies' := policies'[r := SELECT_ALL];
      }
      if r in policies' {
        policies' := policies'[r := EditPolicy(policies'[r], op)];
      }
    }
  }

  method RunOnGrants(desired: Desired, op: Operation, resolved: Resolved) returns (desired': Desired)
    requires RefsOf(op, resolved) <= desired.Keys
    ensures desired' == EditDesired(desired, op, RefsOf(op, resolved))
  {
    desired' := desired;
    ghost var served: set<SubjectRef> := {};
    var refs := RefsOf(op, resolved);
    while refs != {}
      invariant refs <= RefsOf(op, resolved) && served == RefsOf(op, resolved) - refs
      invariant desired' == EditDesired(desired, op, served)
    {
      var s :| s in refs;
      refs := refs - {s};
      served := served + {s};
      desired' := desired'[s := if op.kind.Bind? then desired'[s] + op.targets else desired'[s] - op.targets];
    }
  }

  method RunBatch(policies: Policies, desired: Desired, ops: seq<Operation>, resolved: Resolved, materialize: bool)
    returns (policies': Policies, desired': Desired)
    requires resolved.Values <= desired.Keys
    ensures policies' == FoldPolicies(policies, ops, materialize)
    ensures desired' == FoldDesired(desired, ops, resolved) && desired'.Keys == desired.Keys
  {
    policies', desired' := policies, desired;
    for i := 0 to |ops|
      invariant policies' == FoldPolicies(policies, ops[..i], materialize)
      invariant desired' == FoldDesired(desired, ops[..i], resolved) && desired'.Keys == desired.Keys
    {
      assert ops[..i + 1][..i] == ops[..i];
      policies' := RunOnPolicies(policies', ops[i], materialize);
      desired' := RunOnGrants(desired', ops[i], resolved);
    }
    assert ops[..|ops|] == ops;
  }

  // ----- the last operation decides -----

  // The operation names the pair (subject, resource).
  predicate TouchesGrant(op: Operation, resolved: Resolved, s: SubjectRef, r: ResourceId) {
    r in op.targets && s in RefsOf(op, resolved)
  }

  predicate TouchesExclusion(op: Operation, k: SubjectKey, r: ResourceId) {
    r in op.targets && k in op.subjects
  }

  // i is the last operation that touches the grant.
  ghost predicate LastOnGrant(ops: seq<Operation>, resolved: Resolved, s: SubjectRef, r: ResourceId, i: nat) {
    && i < |ops| && TouchesGrant(ops[i], resolved, s, r)
    && forall j :: i < j < |ops| ==> !TouchesGrant(ops[j], resolved, s, r)
  }

  ghost predicate LastOnExclusion(ops: seq<Operation>, k: SubjectKey, r: ResourceId, i: nat) {
    && i < |ops| && TouchesExclusion(ops[i], k, r)
    && forall j :: i < j < |ops| ==> !TouchesExclusion(ops[j], k, r)
  }

  /** The last operation that names a subject and a resource decides whether the subject is granted
      the resource by hand; a pair nobody names keeps its grant. */
  lemma {:induction false} LastOperationDecidesGrant(desired: Desired, ops: seq<Operation>, resolved: Resolved,
                                                     s: SubjectRef, r: ResourceId)
    requires s in desired
    ensures var after := FoldDesired(desired, ops, resolved);
            && after.Keys == desired.Keys
            && (forall i: nat :: LastOnGrant(ops, resolved, s, r, i) ==> (r in after[s] <==> ops[i].kind.Bind?))
            && ((forall i :: 0 <= i < |ops| ==> !TouchesGrant(ops[i], resolved, s, r)) ==> (r in after[s] <==> r in desired[s]))
  {
    if ops != [] {
      var n := |ops| - 1;
      LastOperationDecidesGrant(desired, ops[..n], resolved, s, r);
      forall i: nat | LastOnGrant(ops, resolved, s, r, i)
        ensures r in FoldDesired(desired, ops, resolved)[s] <==> ops[i].kind.Bind?
      {
        if i < n {
          assert !TouchesGrant(ops[n], resolved, s, r);
          assert LastOnGrant(ops[..n], resolved, s, r, i);
        }
      }
    }
  }

  lemma {:induction false} LastTouch(ops: seq<Operation>, resolved: Resolved, s: SubjectRef, r: ResourceId) returns (i: int)
    ensures i == -1 ==> forall j :: 0 <= j < |ops| ==> !TouchesGrant(ops[j], resolved, s, r)
    ensures i != -1 ==> 0 <= i && LastOnGrant(ops, resolved, s, r, i)
  {
    if ops == [] {
      i := -1;
    } else if TouchesGrant(ops[|ops| - 1], resolved, s, r) {
      i := |ops| - 1;
    } else {
      var n := |ops| - 1;
      i := LastTouch(ops[..n], resolved, s, r);
      forall j | 0 <= j < n
        ensures ops[..n][j] == ops[j]
      {
      }
    }
  }

  /** Sending the same batch again changes no grant. */
  lemma RepeatingBatchIsIdle(desired: Desired, ops: seq<Operation>, resolved: Resolved)
    ensures var once := FoldDesired(desired, ops, resolved);
            FoldDesired(once, ops, resolved) == once
  {
    var once := FoldDesired(desired, ops, resolved);
    var twice := FoldDesired(once, ops, resolved);
    DesiredKeys(desired, ops, resolved);
    DesiredKeys(once, ops, resolved);
    forall s | s in desired
      ensures once[s] == twice[s]
    {
      forall r
        ensures r in once[s] <==> r in twice[s]
      {
        var i := LastTouch(ops, resolved, s, r);
        LastOperationDecidesGrant(desired, ops, resolved, s, r);
        LastOperationDecidesGrant(once, ops, resolved, s, r);
        if i != -1 {
          assert LastOnGrant(ops, resolved, s, r, i);
        }
      }
    }
  }

  lemma {:induction false} DesiredKeys(desired: Desired, ops: seq<Operation>, resolved: Resolved)
    ensures FoldDesired(desired, ops, resolved).Keys == desired.Keys
  {
    if ops != [] {
      DesiredKeys(desired, ops[..|ops| - 1], resolved);
    }
  }

  // Some policy exists for r when the batch ends.
  lemma {:induction false} PolicyAppears(policies: Policies, ops: seq<Operation>, materialize: bool, r: ResourceId)
    ensures r in FoldPolicies(policies, ops, materialize) <==>
            r in policies || (materialize && exists i :: 0 <= i < |ops| && r in ops[i].targets)
    ensures r in FoldPolicies(policies, ops, materialize) ==>
              FoldPolicies(policies, ops, materialize)[r].selectAll == (r in policies ==> policies[r].selectAll)
  {
    if ops != [] {
      var n := |ops| - 1;
      PolicyAppears(policies, ops[..n], materialize, r);
      if exists i :: 0 <= i < |ops[..n]| && r in ops[..n][i].targets {
        var i :| 0 <= i < |ops[..n]| && r in ops[..n][i].targets;
        assert r in ops[i].targets;
      }
      if exists i :: 0 <= i < |ops| && r in ops[i].targets {
        var i :| 0 <= i < |ops| && r in ops[i].targets;
        assert i < n ==> ops[..n][i] == ops[i];
      }
    }
  }

  /** Under a select-all policy, also one the batch itself made explicit, the last operation that
      names a subject and a resource decides whether the subject is excluded from it. */
  lemma {:induction false} LastOperationDecidesExclusion(policies: Policies, ops: seq<Operation>, materialize: bool,
                                                         k: SubjectKey, r: ResourceId)
    requires r in FoldPolicies(policies, ops, materialize)
    requires r in policies ==> policies[r].selectAll
    ensures var after := FoldPolicies(policies, ops, materialize)[r].excluded;
            && (forall i: nat :: LastOnExclusion(ops, k, r, i) ==> (k in after <==> ops[i].kind.Unbind?))
            && ((forall i :: 0 <= i < |ops| ==> !TouchesExclusion(ops[i], k, r)) ==>
                  (k in after <==> r in policies && k in policies[r].excluded))
  {
    if ops != [] {
      var n := |ops| - 1;
      PolicyAppears(policies, ops, materialize, r);
      PolicyAppears(policies, ops[..n], materialize, r);
      if r in FoldPolicies(policies, ops[..n], materialize) {
        LastOperationDecidesExclusion(policies, ops[..n], materialize, k, r);
        forall i: nat | LastOnExclusion(ops, k, r, i)
          ensures k in FoldPolicies(policies, ops, materialize)[r].excluded <==> ops[i].kind.Unbind?
        {
          if i < n {
            assert !TouchesExclusion(ops[n], k, r);
            assert LastOnExclusion(ops[..n], k, r, i);
          }
        }
      } else {
        forall i: nat | i < n
          ensures r !in ops[i].targets
        {
          assert ops[..n][i] == ops[i];
        }
      }
    }
  }

  /** Without select-all an exclusion can only be lifted: a subject stays excluded exactly when it
      was excluded and no operation of the batch binds it. */
  lemma {:induction false} ExclusionWithoutSelectAll(policies: Policies, ops: seq<Operation>, materialize: bool,
                                                     k: SubjectKey, r: ResourceId)
    requires r in policies && !policies[r].selectAll
    ensures r in FoldPolicies(policies, ops, materialize)
    ensures k in FoldPolicies(policies, ops, materialize)[r].excluded <==>
            k in policies[r].excluded && forall i :: 0 <= i < |ops| && TouchesExclusion(ops[i], k, r) ==> ops[i].kind.Unbind?
  {
    PolicyAppears(policies, ops, materialize, r);
    if ops != [] {
      var n := |ops| - 1;
      PolicyAppears(policies, ops[..n], materialize, r);
      ExclusionWithoutSelectAll(policies, ops[..n], materialize, k, r);
      forall i | 0 <= i < n
        ensures ops[..n][i] == ops[i]
      {
      }
    }
  }
}
