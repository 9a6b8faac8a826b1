/**
 What the edits of KnowledgeStore and KnowledgeBatch do to the access that KnowledgeStatus reports,
 and how that access relates to what the server enforces when a user reads.
 */
module KnowledgeAccess {
  import opened Common
  import opened KnowledgeBatch
  import opened KnowledgeStore
  import opened KnowledgeStatus
  import opened KnowledgeSubjects
  import Visibility

  // The grants of the view are the rows of the tables.
  ghost predicate Describes(v: View, scopes: Scopes, bindings: set<Binding>, agent: AgentId) {
    forall origin, ref, r :: Granted(v, origin, ref, r) <==> Grants(scopes, bindings, agent, origin, ref, r)
  }

  // The second view is the first after the policies, the grants and the mode changed.
  ghost predicate SameDirectory(v0: View, v1: View) {
    v0.directory == v1.directory && v0.resolved == v1.resolved
  }

  lemma ExternalUnchanged(v0: View, v1: View, scopes0: Scopes, bindings0: set<Binding>,
                          scopes1: Scopes, bindings1: set<Binding>, agent: AgentId, k: SubjectKey, r: ResourceId)
    requires SameDirectory(v0, v1)
    requires Describes(v0, scopes0, bindings0, agent) && Describes(v1, scopes1, bindings1, agent)
    requires SameElsewhere(scopes0, bindings0, scopes1, bindings1, agent)
    ensures External(v0, k, r) <==> External(v1, k, r)
  {
    forall ref
      ensures Granted(v0, ExternalSync, ref, r) <==> Granted(v1, ExternalSync, ref, r)
      ensures Covers(v0, ExternalSync, ref, k) <==> Covers(v1, ExternalSync, ref, k)
    {
      ExternalGrantsUnchanged(agent, scopes0, bindings0, scopes1, bindings1, agent, ExternalSync, ref, r);
    }
  }

  // ----- the organisation and the tables of an agent -----

  // What no endpoint of this file changes: who contains whom, and which users a group assignment of
  // some value would reach.
  datatype Organisation = Organisation(
    knowledgeSubjects: SubjectKey -> set<SubjectKey>,
    members: SubjectKey -> set<string>,
    fallsUnder: (string, GroupAssignment) -> bool,
    builtin: string -> bool)   // has access without an assignment

  datatype Tables = Tables(scopes: Scopes, bindings: set<Binding>, groups: Groups, direct: set<string>)

  ghost predicate MatchesUser(d: Directory, o: Organisation, t: Tables, user: string) {
    forall id :: id in d.matchingGroups(user) <==> id in t.groups && o.fallsUnder(user, t.groups[id])
  }

  // What the membership lookups answer when the agent's assignments are these.
  ghost predicate IsDirectory(d: Directory, o: Organisation, t: Tables) {
    && d.assignments == t.groups
    && (forall k :: d.knowledgeSubjects(k) == o.knowledgeSubjects(k))
    && (forall k :: d.members(k) == o.members(k))
    && (forall u :: MatchesUser(d, o, t, u))
    && (forall u :: d.hasAccess(u) <==> u in t.direct || o.builtin(u) || d.matchingGroups(u) != {})
  }

  // Who belongs to the agent, for an administrator who asks about the given keys.
  ghost predicate Enrols(v: View, o: Organisation, t: Tables, keys: set<SubjectKey>) {
    IsDirectory(v.directory, o, t) && IsResolution(v.resolved, keys, t.groups) && OneRowEach(t.groups)
  }

  // The view shows the tables.
  ghost predicate Reflects(v: View, o: Organisation, t: Tables, agent: AgentId, keys: set<SubjectKey>) {
    Enrols(v, o, t, keys) && Describes(v, t.scopes, t.bindings, agent)
  }

  // The second view is the first after the keys in `created` were assigned to the agent.
  ghost predicate Enrolled(o: Organisation, v0: View, v1: View, t0: Tables, t1: Tables, created: set<SubjectKey>,
                           keys: set<SubjectKey>) {
    && Enrols(v0, o, t0, keys) && Enrols(v1, o, t1, keys)
    && Grown(t0.groups, t1.groups, created) && GrownUsers(t0.direct, t1.direct, created)
  }

  // The keys of a user or a group contain the subject itself.
  ghost predicate SelfContained(o: Organisation) {
    forall k: SubjectKey :: k in o.knowledgeSubjects(k)
  }

  function KeysAbove(o: Organisation, k: SubjectKey): set<SubjectKey> {
    if k.UserKey? || k.GroupKey? then o.knowledgeSubjects(k) else {k}
  }

  // The second view and its tables are the first after UpdateBatch, in the mode the agent had.
  // `resolved` is how the batch resolved its subjects.
  ghost predicate AfterBatch(o: Organisation, v0: View, v1: View, t0: Tables, t1: Tables, agent: AgentId,
                             ops: seq<Operation>, resolved: Resolved, keys: set<SubjectKey>) {
    && Reflects(v0, o, t0, agent, keys) && Reflects(v1, o, t1, agent, keys) && v0.legacyAll == v1.legacyAll
    && IsResolution(resolved, KeysOf(ops), t1.groups)
    && Enrolled(o, v0, v1, t0, t1, BoundKeys(ops), keys)
    && (forall b :: b in t0.bindings && b.subject.GroupRef? && b.subject.id in t1.groups ==> b.subject.id in t0.groups)
    && SameElsewhere(t0.scopes, t0.bindings, t1.scopes, t1.bindings, agent)
    && v1.policies == FoldPolicies(v0.policies, ops, v0.legacyAll)
    && GrantsFollow(t0, t1, agent, ops, resolved)
  }

  // The last operation that names a pair decides its manual grant; other pairs keep theirs.
  ghost predicate GrantsFollow(t0: Tables, t1: Tables, agent: AgentId, ops: seq<Operation>, resolved: Resolved) {
    && (forall s, r, i: nat :: LastOnGrant(ops, resolved, s, r, i) ==>
          (Grants(t1.scopes, t1.bindings, agent, Manual, s, r) <==> ops[i].kind.Bind?))
    && (forall s, r :: Unnamed(ops, resolved, s, r) ==>
          (Grants(t1.scopes, t1.bindings, agent, Manual, s, r) <==> Grants(t0.scopes, t0.bindings, agent, Manual, s, r)))
  }

  // No operation names the pair.
  ghost predicate Unnamed(ops: seq<Operation>, resolved: Resolved, s: SubjectRef, r: ResourceId) {
    forall i :: 0 <= i < |ops| ==> !TouchesGrant(ops[i], resolved, s, r)
  }

  ghost function TablesOf(store: AgentKnowledgeStore): Tables
    reads store
  {
    Tables(store.scopes, store.bindings, store.groups, store.directUsers)
  }

  // The view shows the store.
  ghost predicate ShowsStore(v: View, o: Organisation, store: AgentKnowledgeStore, keys: set<SubjectKey>)
    reads store
  {
    Reflects(v, o, TablesOf(store), store.agent, keys) && v.policies == store.policies && v.legacyAll == store.legacyAll
  }

  /** The batch endpoint, in the mode the agent has: whatever view shows the store afterwards is related
      by AfterBatch to the view that showed it before. */
  method BatchEndpoint(store: AgentKnowledgeStore, ops: seq<Operation>, newIds: map<SubjectKey, string>,
                       ghost o: Organisation, ghost v0: View, ghost keys: set<SubjectKey>)
    returns (resolved: Resolved)
    requires store.Valid() && FreshIds(newIds, KeysOf(ops), store.groups) && ShowsStore(v0, o, store, keys)
    requires forall b :: b in store.bindings && b.subject.GroupRef? ==> b.subject.id !in newIds.Values
    modifies store
    ensures store.Valid()
    ensures forall v1 :: ShowsStore(v1, o, store, keys) ==>
              AfterBatch(o, v0, v1, old(TablesOf(store)), TablesOf(store), store.agent, ops, resolved, keys)
  {
    resolved := store.UpdateBatch(ops, newIds, false);
  }

  // ----- what the new assignments change -----

  // Assigning x to the agent makes k a member of it.
  predicate Admits(o: Organisation, x: SubjectKey, k: SubjectKey) {
    || x == k
    || (k.UserKey? && !x.UserKey? && o.fallsUnder(k.user, AssignmentFor(x)))
    || (k.GroupKey? && x == SourceKey(k.source))
    || (k.GroupKey? && x.GroupKey? && x in o.knowledgeSubjects(k))
  }

  // Assigning these subjects makes k a member.
  ghost predicate AdmittedBy(o: Organisation, created: set<SubjectKey>, k: SubjectKey) {
    exists x :: x in created && Admits(o, x, k)
  }

  // Some operation binds a subject that makes k a member.
  ghost predicate Joins(o: Organisation, ops: seq<Operation>, k: SubjectKey) {
    AdmittedBy(o, BoundKeys(ops), k)
  }

  lemma RefIsStable(v0: View, v1: View, t0: Tables, t1: Tables, created: set<SubjectKey>, keys: set<SubjectKey>, k: SubjectKey)
    requires IsResolution(v0.resolved, keys, t0.groups) && IsResolution(v1.resolved, keys, t1.groups) && k in keys
    requires OneRowEach(t0.groups) && Grown(t0.groups, t1.groups, created)
    ensures Ref(v0, k).Some? ==> Ref(v1, k) == Ref(v0, k)
    ensures Ref(v1, k).Some? && Ref(v0, k).None? ==>
              Ref(v1, k).value.GroupRef? && Ref(v1, k).value.id in t1.groups && Ref(v1, k).value.id !in t0.groups
    ensures Ref(v1, k).Some? <==> Ref(v0, k).Some? || k in created
  {
    if Ref(v0, k).Some? {
      StandsForOne(t1.groups, k, k, Ref(v0, k).value, Ref(v1, k).value);
    } else if Ref(v1, k).Some? {
      var id := Ref(v1, k).value.id;
      assert id !in t0.groups;
      var x :| x in created && !x.UserKey? && t1.groups[id] == AssignmentFor(x);
      assert x == k;
    }
  }

  lemma MatchingAfter(o: Organisation, v0: View, v1: View, t0: Tables, t1: Tables, created: set<SubjectKey>,
                      keys: set<SubjectKey>, user: string)
    requires Enrolled(o, v0, v1, t0, t1, created, keys)
    ensures v1.directory.matchingGroups(user) != {} <==>
            || v0.directory.matchingGroups(user) != {}
            || exists x :: x in created && !x.UserKey? && o.fallsUnder(user, AssignmentFor(x))
  {
    assert MatchesUser(v0.directory, o, t0, user) && MatchesUser(v1.directory, o, t1, user);
    var m0, m1 := v0.directory.matchingGroups(user), v1.directory.matchingGroups(user);
    if id :| id in m0 {
      assert id in m1;
    }
    if x :| x in created && !x.UserKey? && o.fallsUnder(user, AssignmentFor(x)) {
      var id :| id in t1.groups && t1.groups[id] == AssignmentFor(x);
      assert id in m1;
    }
    if id :| id in m1 {
      if id in t0.groups {
        assert id in m0;
      }
    }
  }

  lemma SourceAssignedAfter(o: Organisation, v0: View, v1: View, t0: Tables, t1: Tables, created: set<SubjectKey>,
                            keys: set<SubjectKey>, source: string)
    requires Enrolled(o, v0, v1, t0, t1, created, keys)
    ensures SourceAssigned(v1.directory, source) <==> SourceAssigned(v0.directory, source) || SourceKey(source) in created
  {
    if SourceKey(source) in created {
      var id :| id in t1.groups && t1.groups[id] == AssignmentFor(SourceKey(source));
      assert t1.groups[id].kind.SourceAll? && t1.groups[id].source == source;
    }
    if SourceAssigned(v0.directory, source) {
      var a :| a in t0.groups && t0.groups[a].kind.SourceAll? && t0.groups[a].source == source;
      assert a in t1.groups && t1.groups[a].kind.SourceAll? && t1.groups[a].source == source;
    }
    if SourceAssigned(v1.directory, source) {
      var a :| a in t1.groups && t1.groups[a].kind.SourceAll? && t1.groups[a].source == source;
      if a in t0.groups {
        assert t0.groups[a].kind.SourceAll? && t0.groups[a].source == source;
      } else {
        var x :| x in created && !x.UserKey? && t1.groups[a] == AssignmentFor(x);
        assert x == SourceKey(source);
      }
    }
  }

  // Some assigned directory group is the given key.
  lemma AssignedGroupsAfter(o: Organisation, v0: View, v1: View, t0: Tables, t1: Tables, created: set<SubjectKey>,
                            keys: set<SubjectKey>, x: SubjectKey)
    requires Enrolled(o, v0, v1, t0, t1, created, keys)
    ensures x in AssignedGroups(v1.directory) <==> x in AssignedGroups(v0.directory) || (x.GroupKey? && x in created)
  {
    if x in AssignedGroups(v0.directory) {
      var a :| a in t0.groups && t0.groups[a].kind.SourceGroup? && GroupKey(t0.groups[a].source, t0.groups[a].principal) == x;
      assert a in t1.groups && t1.groups[a].kind.SourceGroup? && GroupKey(t1.groups[a].source, t1.groups[a].principal) == x;
    }
    if x.GroupKey? && x in created {
      var id :| id in t1.groups && t1.groups[id] == AssignmentFor(x);
      assert t1.groups[id].kind.SourceGroup? && GroupKey(t1.groups[id].source, t1.groups[id].principal) == x;
    }
    if x in AssignedGroups(v1.directory) {
      var a :| a in t1.groups && t1.groups[a].kind.SourceGroup? && GroupKey(t1.groups[a].source, t1.groups[a].principal) == x;
      if a in t0.groups {
        assert t0.groups[a].kind.SourceGroup? && GroupKey(t0.groups[a].source, t0.groups[a].principal) == x;
      } else {
        var y :| y in created && !y.UserKey? && t1.groups[a] == AssignmentFor(y);
        assert x == y;
      }
    }
  }

  lemma GroupsAboveAfter(o: Organisation, v0: View, v1: View, t0: Tables, t1: Tables, created: set<SubjectKey>,
                         keys: set<SubjectKey>, k: SubjectKey)
    requires Enrolled(o, v0, v1, t0, t1, created, keys) && k.GroupKey?
    ensures MatchingKeys(v1.directory, k) * AssignedGroups(v1.directory) != {} <==>
            || MatchingKeys(v0.directory, k) * AssignedGroups(v0.directory) != {}
            || exists x :: x in created && x.GroupKey? && x in o.knowledgeSubjects(k)
  {
    var above := o.knowledgeSubjects(k);
    var common0, common1 := above * AssignedGroups(v0.directory), above * AssignedGroups(v1.directory);
    forall x
      ensures x in common1 <==> x in common0 || (x in above && x.GroupKey? && x in created)
    {
      AssignedGroupsAfter(o, v0, v1, t0, t1, created, keys, x);
    }
  }

  /** Assigning subjects to an agent makes a subject a member of it exactly when one of them admits it. */
  lemma MemberAfter(o: Organisation, v0: View, v1: View, t0: Tables, t1: Tables, created: set<SubjectKey>,
                    keys: set<SubjectKey>, k: SubjectKey)
    requires Enrolled(o, v0, v1, t0, t1, created, keys) && k in keys
    ensures Member(v1, k) <==> Member(v0, k) || AdmittedBy(o, created, k)
  {
    AdmittedMeaning(o, created, k);
    if k.UserKey? {
      MatchingAfter(o, v0, v1, t0, t1, created, keys, k.user);
    } else {
      RefIsStable(v0, v1, t0, t1, created, keys, k);
      if k.GroupKey? {
        SourceAssignedAfter(o, v0, v1, t0, t1, created, keys, k.source);
        GroupsAboveAfter(o, v0, v1, t0, t1, created, keys, k);
      }
    }
  }

  lemma AdmittedMeaning(o: Organisation, created: set<SubjectKey>, k: SubjectKey)
    ensures AdmittedBy(o, created, k) <==>
            || k in created
            || (k.UserKey? && exists x :: x in created && !x.UserKey? && o.fallsUnder(k.user, AssignmentFor(x)))
            || (k.GroupKey? && SourceKey(k.source) in created)
            || (k.GroupKey? && exists x :: x in created && x.GroupKey? && x in o.knowledgeSubjects(k))
  {
    if k in created {
      assert Admits(o, k, k);
    }
    if k.UserKey? {
      if x :| x in created && !x.UserKey? && o.fallsUnder(k.user, AssignmentFor(x)) {
        assert Admits(o, x, k);
      }
    }
    if k.GroupKey? {
      if SourceKey(k.source) in created {
        assert Admits(o, SourceKey(k.source), k);
      }
      if x :| x in created && x.GroupKey? && x in o.knowledgeSubjects(k) {
        assert Admits(o, x, k);
      }
    }
  }

  // ----- what the batch changes otherwise -----

  // The batch did not add this row.
  predicate IsOld(t: Tables, ref: SubjectRef) {
    ref.UserRef? || ref.id in t.groups
  }

  lemma OldRefIsStable(v0: View, v1: View, t0: Tables, t1: Tables, created: set<SubjectKey>, keys: set<SubjectKey>,
                       k: SubjectKey, ref: SubjectRef)
    requires IsResolution(v0.resolved, keys, t0.groups) && IsResolution(v1.resolved, keys, t1.groups) && k in keys
    requires OneRowEach(t0.groups) && Grown(t0.groups, t1.groups, created) && IsOld(t0, ref)
    ensures Ref(v1, k) == Some(ref) <==> Ref(v0, k) == Some(ref)
  {
    RefIsStable(v0, v1, t0, t1, created, keys, k);
  }

  lemma OldMatchIsStable(o: Organisation, d0: Directory, d1: Directory, t0: Tables, t1: Tables, created: set<SubjectKey>,
                         user: string, id: string)
    requires MatchesUser(d0, o, t0, user) && MatchesUser(d1, o, t1, user) && Grown(t0.groups, t1.groups, created)
    requires id in t0.groups
    ensures id in d1.matchingGroups(user) <==> id in d0.matchingGroups(user)
  {
  }

  lemma CoversIsStable(o: Organisation, v0: View, v1: View, t0: Tables, t1: Tables, created: set<SubjectKey>,
                       keys: set<SubjectKey>, k: SubjectKey, origin: Origin, ref: SubjectRef)
    requires Enrolled(o, v0, v1, t0, t1, created, keys) && k in keys && IsOld(t0, ref)
    ensures Covers(v1, origin, ref, k) <==> Covers(v0, origin, ref, k)
    ensures Ref(v1, k) == Some(ref) <==> Ref(v0, k) == Some(ref)
  {
    OldRefIsStable(v0, v1, t0, t1, created, keys, k, ref);
    var d0, d1 := v0.directory, v1.directory;
    assert AssignmentOf(d1, ref) == AssignmentOf(d0, ref);
    if k.UserKey? && ref.GroupRef? {
      OldMatchIsStable(o, d0, d1, t0, t1, created, k.user, ref.id);
    } else if k.GroupKey? {
      assert MatchingKeys(d1, k) == o.knowledgeSubjects(k) == MatchingKeys(d0, k);
    }
  }

  // Whoever had something before the batch has a row from before the batch.
  lemma GrantedIsOld(o: Organisation, v0: View, v1: View, t0: Tables, t1: Tables, agent: AgentId,
                     ops: seq<Operation>, resolved: Resolved, keys: set<SubjectKey>,
                     origin: Origin, ref: SubjectRef, r: ResourceId)
    requires AfterBatch(o, v0, v1, t0, t1, agent, ops, resolved, keys)
    requires Granted(v0, origin, ref, r) && (ref.GroupRef? ==> ref.id in t1.groups)
    ensures IsOld(t0, ref)
  {
    var id :| Binding(id, ref) in t0.bindings && id in t0.scopes && t0.scopes[id].agent == agent
              && t0.scopes[id].origin == origin && r in t0.scopes[id].resources;
    assert Binding(id, ref).subject == ref;
  }

  // A grant that reaches the subject belongs to a row there is.
  lemma ReachedHasRow(v: View, o: Organisation, t: Tables, agent: AgentId, keys: set<SubjectKey>, k: SubjectKey,
                      origin: Origin, ref: SubjectRef)
    requires Reflects(v, o, t, agent, keys)
    requires Covers(v, origin, ref, k) || Ref(v, k) == Some(ref)
    ensures ref.GroupRef? ==> ref.id in t.groups
  {
    if k.UserKey? {
      assert MatchesUser(v.directory, o, t, k.user);
    }
  }

  lemma ExternalAfterBatch(o: Organisation, v0: View, v1: View, t0: Tables, t1: Tables, agent: AgentId,
                           ops: seq<Operation>, resolved: Resolved, keys: set<SubjectKey>, k: SubjectKey, r: ResourceId)
    requires AfterBatch(o, v0, v1, t0, t1, agent, ops, resolved, keys) && k in keys
    ensures External(v1, k, r) <==> External(v0, k, r)
  {
    forall ref
      ensures Granted(v1, ExternalSync, ref, r) <==> Granted(v0, ExternalSync, ref, r)
    {
      ExternalGrantsUnchanged(agent, t0.scopes, t0.bindings, t1.scopes, t1.bindings, agent, ExternalSync, ref, r);
    }
    if External(v0, k, r) {
      var ref :| Granted(v0, ExternalSync, ref, r) && Covers(v0, ExternalSync, ref, k);
      ReachedHasRow(v0, o, t0, agent, keys, k, ExternalSync, ref);
      CoversIsStable(o, v0, v1, t0, t1, BoundKeys(ops), keys, k, ExternalSync, ref);
    }
    if External(v1, k, r) {
      var ref :| Granted(v1, ExternalSync, ref, r) && Covers(v1, ExternalSync, ref, k);
      ReachedHasRow(v1, o, t1, agent, keys, k, ExternalSync, ref);
      GrantedIsOld(o, v0, v1, t0, t1, agent, ops, resolved, keys, ExternalSync, ref, r);
      CoversIsStable(o, v0, v1, t0, t1, BoundKeys(ops), keys, k, ExternalSync, ref);
    }
  }

  lemma AllSelectedAfterBatch(v0: View, v1: View, ops: seq<Operation>, r: ResourceId)
    requires v1.policies == FoldPolicies(v0.policies, ops, v0.legacyAll) && v0.legacyAll == v1.legacyAll
    ensures AllSelected(v1, r) <==> AllSelected(v0, r)
  {
    PolicyAppears(v0.policies, ops, v0.legacyAll, r);
  }

  // ----- subjects the batch does not touch -----

  // Naming x can reach k: x excludes or grants something to k.
  predicate Concerns(o: Organisation, x: SubjectKey, k: SubjectKey) {
    || x == k
    || x in KeysAbove(o, k)
    || (k.UserKey? && !x.UserKey? && o.fallsUnder(k.user, AssignmentFor(x)))
    || (k.GroupKey? && x == SourceKey(k.source))
  }

  // No operation on r names a subject that concerns k.
  ghost predicate Untouched(o: Organisation, ops: seq<Operation>, k: SubjectKey, r: ResourceId) {
    forall i, x :: 0 <= i < |ops| && r in ops[i].targets && x in ops[i].subjects ==> !Concerns(o, x, k)
  }

  // The grant could reach k, as its own or through a group.
  ghost predicate ManualReach(v: View, k: SubjectKey, ref: SubjectRef) {
    Ref(v, k) == Some(ref) || Covers(v, Manual, ref, k)
  }

  lemma UntouchedUnnamed(o: Organisation, v0: View, v1: View, t0: Tables, t1: Tables, agent: AgentId,
                         ops: seq<Operation>, resolved: Resolved, keys: set<SubjectKey>, k: SubjectKey, r: ResourceId,
                         ref: SubjectRef)
    requires AfterBatch(o, v0, v1, t0, t1, agent, ops, resolved, keys) && k in keys
    ensures Untouched(o, ops, k, r) && ManualReach(v1, k, ref) ==> Unnamed(ops, resolved, ref, r)
  {
    if ManualReach(v1, k, ref) && !Unnamed(ops, resolved, ref, r) {
      var i :| 0 <= i < |ops| && TouchesGrant(ops[i], resolved, ref, r);
      var x :| x in ops[i].subjects && x in resolved && resolved[x] == ref;
      NamedConcerns(o, v1, t1, agent, keys, k, x, ref);
    }
  }

  lemma NamedConcerns(o: Organisation, v: View, t: Tables, agent: AgentId, keys: set<SubjectKey>, k: SubjectKey, x: SubjectKey,
                      ref: SubjectRef)
    requires Reflects(v, o, t, agent, keys) && StandsFor(t.groups, x, ref) && ManualReach(v, k, ref)
    ensures Concerns(o, x, k)
  {
    if Ref(v, k) == Some(ref) {
      StandsForOne(t.groups, k, x, ref, ref);
    } else if k.UserKey? {
      assert MatchesUser(v.directory, o, t, k.user);
    } else if k.GroupKey? && HasKind(v.directory, ref, SourceGroup) {
      assert x == GroupOf(v.directory, ref);
    }
  }

  // The grants that reach an untouched subject are those it had.
  lemma ManualUntouched(o: Organisation, v0: View, v1: View, t0: Tables, t1: Tables, agent: AgentId,
                        ops: seq<Operation>, resolved: Resolved, keys: set<SubjectKey>, k: SubjectKey, r: ResourceId,
                        ref: SubjectRef)
    requires AfterBatch(o, v0, v1, t0, t1, agent, ops, resolved, keys) && k in keys && Untouched(o, ops, k, r)
    ensures Granted(v1, Manual, ref, r) && Ref(v1, k) == Some(ref) <==> Granted(v0, Manual, ref, r) && Ref(v0, k) == Some(ref)
    ensures Granted(v1, Manual, ref, r) && Covers(v1, Manual, ref, k) <==>
            Granted(v0, Manual, ref, r) && Covers(v0, Manual, ref, k)
  {
    if ManualReach(v1, k, ref) {
      ReachedHasRow(v1, o, t1, agent, keys, k, Manual, ref);
      UntouchedUnnamed(o, v0, v1, t0, t1, agent, ops, resolved, keys, k, r, ref);
      if Granted(v0, Manual, ref, r) {
        GrantedIsOld(o, v0, v1, t0, t1, agent, ops, resolved, keys, Manual, ref, r);
        CoversIsStable(o, v0, v1, t0, t1, BoundKeys(ops), keys, k, Manual, ref);
      }
    }
    if ManualReach(v0, k, ref) {
      ReachedHasRow(v0, o, t0, agent, keys, k, Manual, ref);
      CoversIsStable(o, v0, v1, t0, t1, BoundKeys(ops), keys, k, Manual, ref);
    }
  }

  lemma GrantsUntouched(o: Organisation, v0: View, v1: View, t0: Tables, t1: Tables, agent: AgentId,
                        ops: seq<Operation>, resolved: Resolved, keys: set<SubjectKey>, k: SubjectKey, r: ResourceId)
    requires AfterBatch(o, v0, v1, t0, t1, agent, ops, resolved, keys) && k in keys && Untouched(o, ops, k, r)
    ensures Direct(v1, k, r) <==> Direct(v0, k, r)
    ensures Inherited(v1, k, r) || External(v1, k, r) <==> Inherited(v0, k, r) || External(v0, k, r)
  {
    ExternalAfterBatch(o, v0, v1, t0, t1, agent, ops, resolved, keys, k, r);
    forall ref
      ensures Granted(v1, Manual, ref, r) && Ref(v1, k) == Some(ref) <==> Granted(v0, Manual, ref, r) && Ref(v0, k) == Some(ref)
      ensures Granted(v1, Manual, ref, r) && Covers(v1, Manual, ref, k) <==>
              Granted(v0, Manual, ref, r) && Covers(v0, Manual, ref, k)
    {
      ManualUntouched(o, v0, v1, t0, t1, agent, ops, resolved, keys, k, r, ref);
    }
    InheritedIsManualOrExternal(v0, k, r);
    InheritedIsManualOrExternal(v1, k, r);
  }

  lemma InheritedIsManualOrExternal(v: View, k: SubjectKey, r: ResourceId)
    ensures Inherited(v, k, r) <==>
            External(v, k, r) || exists ref :: Granted(v, Manual, ref, r) && Covers(v, Manual, ref, k)
  {
    if origin, ref :| Granted(v, origin, ref, r) && Covers(v, origin, ref, k) {
      assert origin == Manual || origin == ExternalSync;
    }
  }

  lemma ExclusionUntouched(o: Organisation, v0: View, v1: View, ops: seq<Operation>, k: SubjectKey, r: ResourceId)
    requires v1.policies == FoldPolicies(v0.policies, ops, v0.legacyAll) && Untouched(o, ops, k, r)
    requires MatchingKeys(v0.directory, k) == KeysAbove(o, k) == MatchingKeys(v1.directory, k)
    ensures Excluded(v1, k, r) <==> Excluded(v0, k, r)
  {
    PolicyAppears(v0.policies, ops, v0.legacyAll, r);
    if r in v1.policies {
      forall x | x in KeysAbove(o, k)
        ensures x in Exclusions(v1, r) <==> x in Exclusions(v0, r)
      {
        assert Concerns(o, x, k);
        if r in v0.policies && !v0.policies[r].selectAll {
          ExclusionWithoutSelectAll(v0.policies, ops, v0.legacyAll, x, r);
        } else {
          LastOperationDecidesExclusion(v0.policies, ops, v0.legacyAll, x, r);
        }
      }
      assert KeysAbove(o, k) * Exclusions(v1, r) == KeysAbove(o, k) * Exclusions(v0, r);
    }
  }

  /** What a batch does to a subject and a resource that none of its operations touches together: it
      takes nothing, and it gives the resource exactly when everybody has it, the subject is not
      excluded, and some operation, on whatever resource, binds somebody who makes it a member. */
  lemma UntouchedAfterBatch(o: Organisation, v0: View, v1: View, t0: Tables, t1: Tables, agent: AgentId,
                            ops: seq<Operation>, resolved: Resolved, keys: set<SubjectKey>, k: SubjectKey, r: ResourceId)
    requires AfterBatch(o, v0, v1, t0, t1, agent, ops, resolved, keys) && k in keys && Untouched(o, ops, k, r)
    ensures Bound(v1, k, r) <==> Bound(v0, k, r) || (AllSelected(v0, r) && !Excluded(v0, k, r) && Joins(o, ops, k))
  {
    ExternalAfterBatch(o, v0, v1, t0, t1, agent, ops, resolved, keys, k, r);
    AllSelectedAfterBatch(v0, v1, ops, r);
    MemberAfter(o, v0, v1, t0, t1, BoundKeys(ops), keys, k);
    ExclusionUntouched(o, v0, v1, ops, k, r);
    GrantsUntouched(o, v0, v1, t0, t1, agent, ops, resolved, keys, k, r);
  }

  /** So a batch, also one that makes the LEGACY_ALL default explicit, changes the access of no
      untouched subject that it does not make a member. */
  lemma BatchLeavesOthersAlone(o: Organisation, v0: View, v1: View, t0: Tables, t1: Tables, agent: AgentId,
                               ops: seq<Operation>, resolved: Resolved, keys: set<SubjectKey>, k: SubjectKey, r: ResourceId)
    requires AfterBatch(o, v0, v1, t0, t1, agent, ops, resolved, keys) && k in keys && Untouched(o, ops, k, r)
    requires Joins(o, ops, k) ==> Member(v0, k)
    ensures Bound(v1, k, r) <==> Bound(v0, k, r)
  {
    UntouchedAfterBatch(o, v0, v1, t0, t1, agent, ops, resolved, keys, k, r);
  }

  // An agent in LEGACY_ALL mode without policies, assignments or grants, before and after one user is
  // bound to one resource.
  const NO_TABLES := Tables(map[], {}, map[], {})

  function OneGrant(agent: AgentId, user: string, r: ResourceId): Tables {
    Tables(map[0 := Scope(agent, Manual, {r})], {Binding(0, UserRef(user))}, map[], {user})
  }

  ghost function ViewOf(o: Organisation, direct: set<string>, user: string, grants: seq<Grant>, policies: Policies): View {
    var d := Directory(o.knowledgeSubjects, o.members, u => u in direct || o.builtin(u), _ => {}, map[]);
    View(d, map[UserKey(user) := UserRef(user)], grants, policies, true)
  }

  lemma OneBind(o: Organisation, agent: AgentId, user: string, r: ResourceId)
    ensures var ops := [Operation(Bind, {UserKey(user)}, {r})];
            AfterBatch(o, ViewOf(o, {}, user, [], map[]),
                       ViewOf(o, {user}, user, [Grant(Manual, {r}, UserRef(user))], FoldPolicies(map[], ops, true)),
                       NO_TABLES, OneGrant(agent, user, r), agent, ops, map[UserKey(user) := UserRef(user)], {UserKey(user)})
  {
    var ops := [Operation(Bind, {UserKey(user)}, {r})];
    assert BoundKeys(ops) == {UserKey(user)} == KeysOf(ops) by {
      assert ops[0] in ops;
    }
    NoGrantReflected(o, agent, user);
    OneGrantReflected(o, agent, user, r, FoldPolicies(map[], ops, true));
    OneGrantFollows(agent, user, r);
  }

  lemma NoGrantReflected(o: Organisation, agent: AgentId, user: string)
    ensures Reflects(ViewOf(o, {}, user, [], map[]), o, NO_TABLES, agent, {UserKey(user)})
  {
  }

  lemma OneGrantReflected(o: Organisation, agent: AgentId, user: string, r: ResourceId, policies: Policies)
    ensures Reflects(ViewOf(o, {user}, user, [Grant(Manual, {r}, UserRef(user))], policies), o, OneGrant(agent, user, r),
                     agent, {UserKey(user)})
  {
    var v, t := ViewOf(o, {user}, user, [Grant(Manual, {r}, UserRef(user))], policies), OneGrant(agent, user, r);
    forall origin, ref, q
      ensures Granted(v, origin, ref, q) <==> Grants(t.scopes, t.bindings, agent, origin, ref, q)
    {
      OneGrantIs(agent, user, r, origin, ref, q);
      assert v.grants[0] in v.grants;
    }
  }

  lemma OneGrantIs(agent: AgentId, user: string, r: ResourceId, origin: Origin, ref: SubjectRef, q: ResourceId)
    ensures var t := OneGrant(agent, user, r);
            Grants(t.scopes, t.bindings, agent, origin, ref, q) <==> origin == Manual && ref == UserRef(user) && q == r
  {
    assert Binding(0, UserRef(user)) in OneGrant(agent, user, r).bindings;
  }

  lemma OneGrantFollows(agent: AgentId, user: string, r: ResourceId)
    ensures GrantsFollow(NO_TABLES, OneGrant(agent, user, r), agent, [Operation(Bind, {UserKey(user)}, {r})],
                         map[UserKey(user) := UserRef(user)])
  {
    var ops, resolved := [Operation(Bind, {UserKey(user)}, {r})], map[UserKey(user) := UserRef(user)];
    var t := OneGrant(agent, user, r);
    forall s, q
      ensures Grants(t.scopes, t.bindings, agent, Manual, s, q) <==> TouchesGrant(ops[0], resolved, s, q)
    {
      OneGrantIs(agent, user, r, Manual, s, q);
      assert UserKey(user) in ops[0].subjects;
    }
  }

  /** Binding a user to one resource can give it another that no operation names: the user becomes a
      member of the agent, and has by default whatever everybody has. */
  lemma BindingReachesUnnamed(o: Organisation, agent: AgentId, user: string, r: ResourceId, other: ResourceId)
    requires r != other && !o.builtin(user)
    ensures var ops := [Operation(Bind, {UserKey(user)}, {r})];
            var v0 := ViewOf(o, {}, user, [], map[]);
            var v1 := ViewOf(o, {user}, user, [Grant(Manual, {r}, UserRef(user))], FoldPolicies(map[], ops, true));
            && AfterBatch(o, v0, v1, NO_TABLES, OneGrant(agent, user, r), agent, ops,
                          map[UserKey(user) := UserRef(user)], {UserKey(user)})
            && Untouched(o, ops, UserKey(user), other)
            && !Bound(v0, UserKey(user), other) && Bound(v1, UserKey(user), other)
  {
    var ops := [Operation(Bind, {UserKey(user)}, {r})];
    var v0 := ViewOf(o, {}, user, [], map[]);
    var v1 := ViewOf(o, {user}, user, [Grant(Manual, {r}, UserRef(user))], FoldPolicies(map[], ops, true));
    OneBind(o, agent, user, r);
    assert ops[0] in ops && UserKey(user) in BoundKeys(ops) && Admits(o, UserKey(user), UserKey(user));
    UntouchedAfterBatch(o, v0, v1, NO_TABLES, OneGrant(agent, user, r), agent, ops,
                        map[UserKey(user) := UserRef(user)], {UserKey(user)}, UserKey(user), other);
  }

  // ----- resources selected for everybody -----

  // What the exclusions of the resource will be, told from the policies and the operations.
  ghost predicate WillBeExcluded(v: View, ops: seq<Operation>, k: SubjectKey, r: ResourceId) {
    exists x :: x in MatchingKeys(v.directory, k) && LosesResource(v, ops, x, r)
  }

  // The last operation that names the pair unbinds it, or none names it and it is excluded already.
  ghost predicate LosesResource(v: View, ops: seq<Operation>, x: SubjectKey, r: ResourceId) {
    || (exists i: nat :: LastOnExclusion(ops, x, r, i) && ops[i].kind.Unbind?)
    || ((forall i :: 0 <= i < |ops| ==> !TouchesExclusion(ops[i], x, r)) && x in Exclusions(v, r))
  }

  lemma {:induction false} LastExclusion(ops: seq<Operation>, k: SubjectKey, r: ResourceId) returns (i: int)
    ensures i == -1 ==> forall j :: 0 <= j < |ops| ==> !TouchesExclusion(ops[j], k, r)
    ensures i != -1 ==> 0 <= i && LastOnExclusion(ops, k, r, i)
  {
    if ops == [] {
      i := -1;
    } else if TouchesExclusion(ops[|ops| - 1], k, r) {
      i := |ops| - 1;
    } else {
      var n := |ops| - 1;
      i := LastExclusion(ops[..n], k, r);
      forall j | 0 <= j < n
        ensures ops[..n][j] == ops[j]
      {
      }
    }
  }

  lemma ExclusionOfKey(v0: View, v1: View, ops: seq<Operation>, x: SubjectKey, r: ResourceId)
    requires v1.policies == FoldPolicies(v0.policies, ops, v0.legacyAll) && AllSelected(v0, r)
    ensures x in Exclusions(v1, r) <==> LosesResource(v0, ops, x, r)
  {
    PolicyAppears(v0.policies, ops, v0.legacyAll, r);
    var i := LastExclusion(ops, x, r);
    if r in v1.policies {
      LastOperationDecidesExclusion(v0.policies, ops, v0.legacyAll, x, r);
    }
    if i != -1 {
      assert r in ops[i].targets;
    }
  }

  /** On a resource selected for everybody, a subject is excluded after the batch exactly when some
      key it falls under was unbound last, or was excluded before and is not named. */
  lemma ExcludedAfterBatch(v0: View, v1: View, ops: seq<Operation>, k: SubjectKey, r: ResourceId)
    requires v1.policies == FoldPolicies(v0.policies, ops, v0.legacyAll) && AllSelected(v0, r)
    requires MatchingKeys(v1.directory, k) == MatchingKeys(v0.directory, k)
    ensures Excluded(v1, k, r) <==> WillBeExcluded(v0, ops, k, r)
  {
    forall x
      ensures x in Exclusions(v1, r) <==> LosesResource(v0, ops, x, r)
    {
      ExclusionOfKey(v0, v1, ops, x, r);
    }
    if x :| x in MatchingKeys(v0.directory, k) && LosesResource(v0, ops, x, r) {
      assert x in MatchingKeys(v1.directory, k) * Exclusions(v1, r);
    }
  }

  // Whoever a grant reaches is a member, save a user without access who still holds a grant.
  lemma ReachedIsMember(v: View, o: Organisation, t: Tables, agent: AgentId, keys: set<SubjectKey>, k: SubjectKey, r: ResourceId)
    requires Reflects(v, o, t, agent, keys)
    ensures Direct(v, k, r) && !k.UserKey? ==> Member(v, k)
    ensures Inherited(v, k, r) ==> Member(v, k) || External(v, k, r)
  {
    if Inherited(v, k, r) {
      var origin, ref :| Granted(v, origin, ref, r) && Covers(v, origin, ref, k);
      if origin.ExternalSync? {
        assert External(v, k, r);
      } else if k.GroupKey? && HasKind(v.directory, ref, SourceGroup) && GroupOf(v.directory, ref) in MatchingKeys(v.directory, k) {
        assert GroupOf(v.directory, ref) in MatchingKeys(v.directory, k) * AssignedGroups(v.directory);
      } else if k.GroupKey? {
        assert ref.id in v.directory.assignments;
      }
    }
  }

  lemma SelectedIsBound(v: View, o: Organisation, t: Tables, agent: AgentId, keys: set<SubjectKey>, k: SubjectKey, r: ResourceId)
    requires Reflects(v, o, t, agent, keys) && AllSelected(v, r)
    ensures Bound(v, k, r) <==>
            External(v, k, r) || (!Excluded(v, k, r) && (Member(v, k) || Direct(v, k, r)))
  {
    ReachedIsMember(v, o, t, agent, keys, k, r);
  }

  // A user that the batch neither binds nor excludes keeps exactly its own grants.
  lemma OwnGrantAfterBatch(o: Organisation, v0: View, v1: View, t0: Tables, t1: Tables, agent: AgentId,
                           ops: seq<Operation>, resolved: Resolved, keys: set<SubjectKey>, k: SubjectKey, r: ResourceId)
    requires AfterBatch(o, v0, v1, t0, t1, agent, ops, resolved, keys) && k in keys && SelfContained(o)
    requires k.UserKey? && AllSelected(v0, r) && !WillBeExcluded(v0, ops, k, r) && k !in BoundKeys(ops)
    ensures Direct(v1, k, r) <==> Direct(v0, k, r)
  {
    var ref := UserRef(k.user);
    NamedOrLost(v0, ops, k, r);
    assert k in MatchingKeys(v0.directory, k);
    forall j | 0 <= j < |ops|
      ensures !TouchesGrant(ops[j], resolved, ref, r)
    {
      OwnName(t1.groups, ops[j], resolved, k, r);
    }
    assert Unnamed(ops, resolved, ref, r);
    assert Ref(v0, k) == Some(ref) == Ref(v1, k);
  }

  // A key that is named is bound by some operation, or unbound last.
  lemma NamedOrLost(v: View, ops: seq<Operation>, k: SubjectKey, r: ResourceId)
    ensures || (forall j :: 0 <= j < |ops| ==> !TouchesExclusion(ops[j], k, r))
            || k in BoundKeys(ops)
            || LosesResource(v, ops, k, r)
  {
    var i := LastExclusion(ops, k, r);
    if i != -1 {
      assert ops[i] in ops;
    }
  }

  lemma OwnName(groups: Groups, op: Operation, resolved: Resolved, k: SubjectKey, r: ResourceId)
    requires k.UserKey? && forall x :: x in resolved ==> StandsFor(groups, x, resolved[x])
    ensures TouchesGrant(op, resolved, UserRef(k.user), r) ==> TouchesExclusion(op, k, r)
  {
  }

  /** Access to a resource selected for everybody after a batch, told entirely from what was there
      before: external sync grants it, or no key the subject falls under loses it and the subject is a
      member, becomes one, or is a user with a grant of its own. */
  lemma SelectAllAfterBatch(o: Organisation, v0: View, v1: View, t0: Tables, t1: Tables, agent: AgentId,
                            ops: seq<Operation>, resolved: Resolved, keys: set<SubjectKey>, k: SubjectKey, r: ResourceId)
    requires AfterBatch(o, v0, v1, t0, t1, agent, ops, resolved, keys) && k in keys && SelfContained(o)
    requires AllSelected(v0, r)
    ensures Bound(v1, k, r) <==>
            || External(v0, k, r)
            || (!WillBeExcluded(v0, ops, k, r) && (Member(v0, k) || Joins(o, ops, k) || Direct(v0, k, r)))
  {
    ExternalAfterBatch(o, v0, v1, t0, t1, agent, ops, resolved, keys, k, r);
    AllSelectedAfterBatch(v0, v1, ops, r);
    MemberAfter(o, v0, v1, t0, t1, BoundKeys(ops), keys, k);
    ExcludedAfterBatch(v0, v1, ops, k, r);
    SelectedIsBound(v1, o, t1, agent, keys, k, r);
    ReachedIsMember(v0, o, t0, agent, keys, k, r);
    ReachedIsMember(v1, o, t1, agent, keys, k, r);
    if k.UserKey? && k !in BoundKeys(ops) && !WillBeExcluded(v0, ops, k, r) {
      OwnGrantAfterBatch(o, v0, v1, t0, t1, agent, ops, resolved, keys, k, r);
    } else if k in BoundKeys(ops) {
      assert Admits(o, k, k);
    }
  }

  /** A batch takes a resource selected for everybody from a subject exactly when the subject had it
      other than by external sync and some key it falls under loses it, named by the batch or not. */
  lemma TakenByBatchIff(o: Organisation, v0: View, v1: View, t0: Tables, t1: Tables, agent: AgentId,
                        ops: seq<Operation>, resolved: Resolved, keys: set<SubjectKey>, k: SubjectKey, r: ResourceId)
    requires AfterBatch(o, v0, v1, t0, t1, agent, ops, resolved, keys) && k in keys && SelfContained(o)
    requires AllSelected(v0, r)
    ensures Bound(v0, k, r) && !Bound(v1, k, r) <==>
            Bound(v0, k, r) && !External(v0, k, r) && WillBeExcluded(v0, ops, k, r)
  {
    SelectAllAfterBatch(o, v0, v1, t0, t1, agent, ops, resolved, keys, k, r);
    SelectedIsBound(v0, o, t0, agent, keys, k, r);
  }

  /** Removing a subject from a resource that is selected for everybody leaves it only what external
      sync grants: the exclusion the batch records beats select-all and every manual grant. */
  lemma UnbindUnderSelectAll(o: Organisation, v0: View, v1: View, t0: Tables, t1: Tables, agent: AgentId,
                             ops: seq<Operation>, resolved: Resolved, keys: set<SubjectKey>, k: SubjectKey, r: ResourceId, i: nat)
    requires AfterBatch(o, v0, v1, t0, t1, agent, ops, resolved, keys) && k in keys && SelfContained(o)
    requires AllSelected(v0, r) && LastOnExclusion(ops, k, r, i) && ops[i].kind.Unbind?
    ensures Bound(v1, k, r) <==> External(v0, k, r)
  {
    assert k in MatchingKeys(v0.directory, k) && LosesResource(v0, ops, k, r);
    SelectAllAfterBatch(o, v0, v1, t0, t1, agent, ops, resolved, keys, k, r);
  }

  // ----- resources granted subject by subject -----

  // Excluded before, and no operation binds the key.
  ghost predicate StaysExcluded(v: View, ops: seq<Operation>, k: SubjectKey, r: ResourceId) {
    exists x :: x in MatchingKeys(v.directory, k) && x in Exclusions(v, r)
                && forall i :: 0 <= i < |ops| && TouchesExclusion(ops[i], x, r) ==> ops[i].kind.Unbind?
  }

  // The last operation that names the pair binds it, or none names it and it was granted.
  ghost predicate WillBeGranted(v: View, ops: seq<Operation>, resolved: Resolved, ref: SubjectRef, r: ResourceId) {
    || (exists i: nat :: LastOnGrant(ops, resolved, ref, r, i) && ops[i].kind.Bind?)
    || (Unnamed(ops, resolved, ref, r) && Granted(v, Manual, ref, r))
  }

  lemma StaysExcludedMeaning(v0: View, v1: View, ops: seq<Operation>, k: SubjectKey, r: ResourceId)
    requires v1.policies == FoldPolicies(v0.policies, ops, v0.legacyAll) && !AllSelected(v0, r)
    requires MatchingKeys(v1.directory, k) == MatchingKeys(v0.directory, k)
    ensures Excluded(v1, k, r) <==> StaysExcluded(v0, ops, k, r)
  {
    PolicyAppears(v0.policies, ops, v0.legacyAll, r);
    if r in v0.policies {
      forall x
        ensures x in Exclusions(v1, r) <==>
                x in Exclusions(v0, r) && forall i :: 0 <= i < |ops| && TouchesExclusion(ops[i], x, r) ==> ops[i].kind.Unbind?
      {
        ExclusionWithoutSelectAll(v0.policies, ops, v0.legacyAll, x, r);
      }
      if StaysExcluded(v0, ops, k, r) {
        var x :| x in MatchingKeys(v0.directory, k) && x in Exclusions(v0, r)
                 && forall i :: 0 <= i < |ops| && TouchesExclusion(ops[i], x, r) ==> ops[i].kind.Unbind?;
        assert x in MatchingKeys(v1.directory, k) * Exclusions(v1, r);
      }
    }
  }

  lemma GrantedAfterBatch(o: Organisation, v0: View, v1: View, t0: Tables, t1: Tables, agent: AgentId,
                          ops: seq<Operation>, resolved: Resolved, keys: set<SubjectKey>, ref: SubjectRef, r: ResourceId)
    requires AfterBatch(o, v0, v1, t0, t1, agent, ops, resolved, keys)
    ensures Granted(v1, Manual, ref, r) <==> WillBeGranted(v0, ops, resolved, ref, r)
  {
    var i := LastTouch(ops, resolved, ref, r);
    if i != -1 {
      assert LastOnGrant(ops, resolved, ref, r, i);
    } else {
      assert Unnamed(ops, resolved, ref, r);
    }
  }

  /** Access to any other resource after a batch: external sync grants it, or no key the subject falls
      under stays excluded and some grant that reaches the subject is bound last or kept. */
  lemma GrantsDecideAfterBatch(o: Organisation, v0: View, v1: View, t0: Tables, t1: Tables, agent: AgentId,
                               ops: seq<Operation>, resolved: Resolved, keys: set<SubjectKey>, k: SubjectKey, r: ResourceId)
    requires AfterBatch(o, v0, v1, t0, t1, agent, ops, resolved, keys) && k in keys
    requires !AllSelected(v0, r)
    ensures Bound(v1, k, r) <==>
            || External(v0, k, r)
            || (!StaysExcluded(v0, ops, k, r)
                && exists ref :: ManualReach(v1, k, ref) && WillBeGranted(v0, ops, resolved, ref, r))
  {
    ExternalAfterBatch(o, v0, v1, t0, t1, agent, ops, resolved, keys, k, r);
    AllSelectedAfterBatch(v0, v1, ops, r);
    StaysExcludedMeaning(v0, v1, ops, k, r);
    forall ref
      ensures Granted(v1, Manual, ref, r) <==> WillBeGranted(v0, ops, resolved, ref, r)
    {
      GrantedAfterBatch(o, v0, v1, t0, t1, agent, ops, resolved, keys, ref, r);
    }
    InheritedIsManualOrExternal(v1, k, r);
    if Direct(v1, k, r) {
      assert ManualReach(v1, k, Ref(v1, k).value) && WillBeGranted(v0, ops, resolved, Ref(v1, k).value, r);
    }
    if ref :| ManualReach(v1, k, ref) && WillBeGranted(v0, ops, resolved, ref, r) {
      assert Granted(v1, Manual, ref, r);
      assert Ref(v1, k) == Some(ref) || Covers(v1, Manual, ref, k);
    }
  }

  /** A subject that loses a resource need not be named, as TakenByBatchIff says: unbinding a group
      from a resource everybody has by default takes it from a member nobody named. */
  lemma UnbindingGroupReachesMember(user: string, source: string, group: string, r: ResourceId)
    ensures var u, g := UserKey(user), GroupKey(source, group);
            var d := Directory(x => if x == u then {u, g} else {x}, _ => {}, _ => true, _ => {}, map[]);
            var v0 := View(d, map[u := UserRef(user)], [], map[], true);
            var ops := [Operation(Unbind, {g}, {r})];
            var v1 := v0.(policies := FoldPolicies(v0.policies, ops, v0.legacyAll));
            && u !in ops[0].subjects
            && Bound(v0, u, r) && !Bound(v1, u, r)
  {
    var u, g := UserKey(user), GroupKey(source, group);
    var d := Directory(x => if x == u then {u, g} else {x}, _ => {}, _ => true, _ => {}, map[]);
    var v0 := View(d, map[u := UserRef(user)], [], map[], true);
    var ops := [Operation(Unbind, {g}, {r})];
    var v1 := v0.(policies := FoldPolicies(v0.policies, ops, v0.legacyAll));
    assert ops[..0] == [];
    LastOperationDecidesExclusion(v0.policies, ops, true, g, r);
    PolicyAppears(v0.policies, ops, true, r);
    assert r in ops[0].targets && LastOnExclusion(ops, g, r, 0);
    assert g in MatchingKeys(d, u) * Exclusions(v1, r);
  }

  /** Activating scoped mode with a batch drops the default instead of making it explicit: on a
      resource without a policy of its own, only grants are left. */
  lemma ActivationDropsDefault(v0: View, v1: View, ops: seq<Operation>, k: SubjectKey, r: ResourceId)
    requires !v1.legacyAll
    requires v1.policies == FoldPolicies(v0.policies, ops, false)
    requires r !in v0.policies
    ensures Bound(v1, k, r) <==> External(v1, k, r) || Direct(v1, k, r) || Inherited(v1, k, r)
  {
    PolicyAppears(v0.policies, ops, false, r);
  }

  /** Binding all users gives a resource to every member; unbinding all users leaves a subject only
      what external sync grants. */
  lemma AllUsersAccess(v0: View, v1: View, scopes0: Scopes, bindings0: set<Binding>,
                       scopes1: Scopes, bindings1: set<Binding>, agent: AgentId,
                       kind: Kind, targets: set<ResourceId>, k: SubjectKey, r: ResourceId)
    requires SameDirectory(v0, v1) && r in targets
    requires Describes(v0, scopes0, bindings0, agent) && Describes(v1, scopes1, bindings1, agent)
    requires SameElsewhere(scopes0, bindings0, scopes1, bindings1, agent)
    requires v1.policies == v0.policies + map q | q in targets :: Policy(kind.Bind?, {})
    requires kind.Unbind? ==> forall s, q :: Grants(scopes1, bindings1, agent, Manual, s, q) <==>
                                             Grants(scopes0, bindings0, agent, Manual, s, q) && q !in targets
    ensures kind.Bind? && Member(v0, k) ==> Bound(v1, k, r) && !Partial(v1, k, r)
    ensures kind.Unbind? ==> (Bound(v1, k, r) <==> External(v0, k, r))
  {
    ExternalUnchanged(v0, v1, scopes0, bindings0, scopes1, bindings1, agent, k, r);
    if kind.Unbind? && Inherited(v1, k, r) {
      var origin, ref :| Granted(v1, origin, ref, r) && Covers(v1, origin, ref, k);
      assert origin == ExternalSync;
      assert Granted(v1, ExternalSync, ref, r) && Covers(v1, ExternalSync, ref, k);
    }
  }

  // ----- what is enforced -----

  // The keys the server compares with exclusions when the user reads; it looks them up only when
  // some policy excludes somebody.
  function EnforcedKeys(v: View, user: string): set<SubjectKey> {
    if exists r :: r in v.policies && v.policies[r].excluded != {}
    then MatchingKeys(v.directory, UserKey(user))
    else {UserKey(user)}
  }

  predicate Denied(v: View, user: string, r: ResourceId) {
    r in v.policies && EnforcedKeys(v, user) * v.policies[r].excluded != {}
  }

  // A grant bound to the user or to a group assignment the user falls under.
  predicate Reaches(v: View, ref: SubjectRef, user: string) {
    ref == UserRef(user) || (ref.GroupRef? && ref.id in v.directory.matchingGroups(user))
  }

  // The resource is in the allowed set of the user's knowledge scope.
  ghost predicate Enforced(v: View, user: string, r: ResourceId) {
    || (v.legacyAll && r !in v.policies)
    || (r in v.policies && !Denied(v, user, r) && v.policies[r].selectAll)
    || (exists g :: g in v.grants && Reaches(v, g.ref, user) && r in g.resources
                    && (g.origin.Manual? ==> !Denied(v, user, r)))
  }

  lemma DeniedIsExcluded(v: View, user: string, r: ResourceId)
    ensures Denied(v, user, r) <==> Excluded(v, UserKey(user), r)
  {
    if r in v.policies && v.policies[r].excluded != {} {
      assert EnforcedKeys(v, user) == MatchingKeys(v.directory, UserKey(user));
    }
  }

  /** The status shown to administrators is the allowed set of a read: a user of the agent is shown as
      bound to a resource exactly when its knowledge scope allows it.  Which of the allowed resources
      can be read is said by ReadIffBoundAndVisible. */
  lemma StatusIsEnforced(v: View, user: string, r: ResourceId)
    requires Ref(v, UserKey(user)) == Some(UserRef(user))
    requires Member(v, UserKey(user))
    ensures Bound(v, UserKey(user), r) <==> Enforced(v, user, r)
  {
    var k := UserKey(user);
    DeniedIsExcluded(v, user, r);
    forall g | g in v.grants && r in g.resources && Reaches(v, g.ref, user)
      ensures g.origin.ExternalSync? ==> External(v, k, r)
      ensures g.origin.Manual? ==> Direct(v, k, r) || Inherited(v, k, r)
    {
      assert Granted(v, g.origin, g.ref, r);
      assert g.ref != UserRef(user) ==> Covers(v, g.origin, g.ref, k);
      assert g.origin.ExternalSync? ==> Covers(v, g.origin, g.ref, k);
    }
    if External(v, k, r) {
      var ref :| Granted(v, ExternalSync, ref, r) && Covers(v, ExternalSync, ref, k);
      var g :| g in v.grants && g.origin == ExternalSync && g.ref == ref && r in g.resources;
      assert Reaches(v, g.ref, user);
    }
    if Inherited(v, k, r) && !Excluded(v, k, r) {
      var origin, ref :| Granted(v, origin, ref, r) && Covers(v, origin, ref, k);
      var g :| g in v.grants && g.origin == origin && g.ref == ref && r in g.resources;
      assert Reaches(v, g.ref, user);
    }
    if Direct(v, k, r) && !Excluded(v, k, r) {
      var g :| g in v.grants && g.origin == Manual && g.ref == UserRef(user) && r in g.resources;
      assert Reaches(v, g.ref, user);
    }
  }

  // ----- what a read may touch -----

  // A knowledge base of an instance; no type means one that visibility lists do not speak about.
  datatype KnowledgeBase = KnowledgeBase(id: ResourceId, instance: string, kbType: Option<Visibility.KbType>)

  // The agent's binding rows, by instance.
  type InstanceRows = map<string, Visibility.Row>

  type Selections = map<string, Option<set<ResourceId>>>

  datatype ReadScope = ReadScope(bindings: Selections, personal: Selections, excluded: set<ResourceId>, allowed: set<ResourceId>)

  predicate Allows(scope: ReadScope, kb: KnowledgeBase) {
    && kb.id !in scope.excluded
    && kb.id in scope.allowed
    && kb.instance in scope.bindings
    && var selected := if kb.kbType == Some(Visibility.PERSONAL)
                       then if kb.instance in scope.personal then scope.personal[kb.instance] else None
                       else scope.bindings[kb.instance];
       kb.kbType.None? || selected.None? || kb.id in selected.value
  }

  // The grants that a read counts: an external grant of a stale source is passed over.
  function Fresh(grants: seq<Grant>, stale: Grant -> bool): (counted: seq<Grant>)
    ensures forall g :: g in counted <==> g in grants && (g.origin.Manual? || !stale(g))
  {
    if grants == [] then []
    else (if grants[0].origin.Manual? || !stale(grants[0]) then [grants[0]] else []) + Fresh(grants[1..], stale)
  }

  function Usable(v: View, stale: Grant -> bool): View {
    v.(grants := Fresh(v.grants, stale))
  }

  // The resources of bound instances, and those that a visibility exclusion hides.
  function InstanceResources(rows: InstanceRows, table: set<KnowledgeBase>): set<ResourceId> {
    set kb | kb in table && kb.instance in rows :: kb.id
  }

  function HiddenResources(rows: InstanceRows, table: set<KnowledgeBase>): set<ResourceId> {
    set kb | kb in table && kb.instance in rows && kb.kbType.Some?
             && kb.id in Visibility.Exclusions(rows[kb.instance], kb.kbType.value) :: kb.id
  }

  // The resources the policies allow the user, and those they deny.
  method PolicyResources(v: View, user: string, instanceIds: set<ResourceId>)
    returns (allowed: set<ResourceId>, denied: set<ResourceId>)
    ensures forall r :: r in denied <==> Denied(v, user, r)
    ensures forall r :: r in allowed <==>
              || (v.legacyAll && r !in v.policies && r in instanceIds)
              || (r in v.policies && !Denied(v, user, r) && v.policies[r].selectAll)
  {
    allowed, denied := if v.legacyAll then instanceIds - v.policies.Keys else {}, {};
    ghost var allowed0 := allowed;
    var subjects := EnforcedKeys(v, user);
    var rest := v.policies.Keys;
    while rest != {}
      invariant rest <= v.policies.Keys
      invariant forall r :: r in denied <==> r in v.policies && r !in rest && Denied(v, user, r)
      invariant forall r :: r in allowed <==>
                  r in allowed0 || (r in v.policies && r !in rest && !Denied(v, user, r) && v.policies[r].selectAll)
      decreases |rest|
    {
      var r :| r in rest;
      rest := rest - {r};
      if subjects * v.policies[r].excluded != {} {
        denied := denied + {r};
      } else if v.policies[r].selectAll {
        allowed := allowed + {r};
      }
    }
  }

  method ResolveReadScope(v: View, user: string, rows: InstanceRows, table: set<KnowledgeBase>, stale: Grant -> bool)
    returns (scope: ReadScope)
    ensures scope.bindings == map i | i in rows :: rows[i].publicIds
    ensures scope.personal == map i | i in rows :: rows[i].personalIds
    ensures scope.excluded == HiddenResources(rows, table)
    ensures forall r :: r in scope.allowed <==> r in InstanceResources(rows, table) && Enforced(Usable(v, stale), user, r)
  {
    var instanceIds := InstanceResources(rows, table);
    var allowed, denied := PolicyResources(v, user, instanceIds);
    ghost var byPolicy := allowed;
    for n := 0 to |v.grants|
      invariant forall r :: r in allowed <==> r in byPolicy || GrantedBy(v, v.grants[..n], user, stale, denied, r)
    {
      var g := v.grants[n];
      assert v.grants[..n + 1] == v.grants[..n] + [g];
      if !Reaches(v, g.ref, user) {
        continue;
      }
      if g.origin.ExternalSync? && stale(g) {
        continue;
      }
      allowed := allowed + if g.origin.Manual? then g.resources - denied else g.resources;
    }
    assert v.grants[..|v.grants|] == v.grants;
    scope := ReadScope(map i | i in rows :: rows[i].publicIds, map i | i in rows :: rows[i].personalIds,
                       HiddenResources(rows, table), allowed * instanceIds);
    forall r
      ensures r in byPolicy || GrantedBy(v, v.grants, user, stale, denied, r) ==> Enforced(Usable(v, stale), user, r)
      ensures r in instanceIds && Enforced(Usable(v, stale), user, r) ==> r in byPolicy || GrantedBy(v, v.grants, user, stale, denied, r)
    {
      EnforcedByParts(v, user, stale, denied, r);
    }
  }

  // Some of the grants reaches the user, counts for a read and holds the resource.
  predicate GrantedBy(v: View, grants: seq<Grant>, user: string, stale: Grant -> bool, denied: set<ResourceId>, r: ResourceId) {
    exists g :: g in grants && Reaches(v, g.ref, user) && (g.origin.Manual? || !stale(g)) && r in g.resources
                && (g.origin.Manual? ==> r !in denied)
  }

  lemma EnforcedByParts(v: View, user: string, stale: Grant -> bool, denied: set<ResourceId>, r: ResourceId)
    requires r in denied <==> Denied(v, user, r)
    ensures Enforced(Usable(v, stale), user, r) <==>
            || (v.legacyAll && r !in v.policies)
            || (r in v.policies && !Denied(v, user, r) && v.policies[r].selectAll)
            || GrantedBy(v, v.grants, user, stale, denied, r)
  {
    var u := Usable(v, stale);
    assert Denied(u, user, r) == Denied(v, user, r);
    if g :| g in u.grants && Reaches(u, g.ref, user) && r in g.resources && (g.origin.Manual? ==> !Denied(u, user, r)) {
      assert g in v.grants && Reaches(v, g.ref, user);
    }
    if g :| g in v.grants && Reaches(v, g.ref, user) && (g.origin.Manual? || !stale(g)) && r in g.resources
            && (g.origin.Manual? ==> r !in denied) {
      assert g in u.grants && Reaches(u, g.ref, user);
    }
  }

  // The instance is bound and its row shows the knowledge base.
  predicate VisibleTo(rows: InstanceRows, kb: KnowledgeBase) {
    && kb.instance in rows
    && (kb.kbType.None? || Visibility.Visible(rows[kb.instance], Visibility.Resource(kb.id, kb.kbType.value)))
  }

  /** A user of the agent can read a knowledge base exactly when its instance is bound, its row shows
      it, and the user is bound to it by what is not stale.  So what is shown as bound and cannot be
      read is hidden, outside the bound instances, or held only through a stale source. */
  lemma ReadIffBoundAndVisible(v: View, user: string, rows: InstanceRows, table: set<KnowledgeBase>, stale: Grant -> bool,
                               scope: ReadScope, kb: KnowledgeBase)
    requires Ref(v, UserKey(user)) == Some(UserRef(user)) && Member(v, UserKey(user))
    requires kb in table && forall other :: other in table && other.id == kb.id ==> other == kb
    requires scope.bindings == map i | i in rows :: rows[i].publicIds
    requires scope.personal == map i | i in rows :: rows[i].personalIds
    requires scope.excluded == HiddenResources(rows, table)
    requires forall r :: r in scope.allowed <==> r in InstanceResources(rows, table) && Enforced(Usable(v, stale), user, r)
    ensures Allows(scope, kb) <==> VisibleTo(rows, kb) && Bound(Usable(v, stale), UserKey(user), kb.id)
  {
    StatusIsEnforced(Usable(v, stale), user, kb.id);
  }

  /** Staleness matters only to what external sync grants: without a stale grant of the resource that
      reaches the user, the status needs no correction. */
  lemma FreshStatusIsStatus(v: View, user: string, stale: Grant -> bool, r: ResourceId)
    requires Ref(v, UserKey(user)) == Some(UserRef(user)) && Member(v, UserKey(user))
    requires forall g :: g in v.grants && g.origin.ExternalSync? && Reaches(v, g.ref, user) && r in g.resources ==> !stale(g)
    ensures Bound(Usable(v, stale), UserKey(user), r) <==> Bound(v, UserKey(user), r)
  {
    var u := Usable(v, stale);
    StatusIsEnforced(v, user, r);
    StatusIsEnforced(u, user, r);
    assert Denied(u, user, r) == Denied(v, user, r);
    if g :| g in v.grants && Reaches(v, g.ref, user) && r in g.resources && (g.origin.Manual? ==> !Denied(v, user, r)) {
      assert g in u.grants && Reaches(u, g.ref, user);
    }
    if g :| g in u.grants && Reaches(u, g.ref, user) && r in g.resources && (g.origin.Manual? ==> !Denied(u, user, r)) {
      assert g in v.grants && Reaches(v, g.ref, user);
    }
  }
}
