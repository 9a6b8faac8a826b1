/**
 Manual knowledge grants as the database keeps them: scopes that hold a set of resources and are
 shared between subjects, and rows that bind subjects to scopes
 (server/api/agent_knowledge_scopes.py).

 `Grants` is the plain relation between subjects and resources that the tables stand for.  The
 methods of `AgentKnowledgeStore` rewrite the tables; their contracts speak about the relation.
 */
module KnowledgeStore {
  import opened KnowledgeBatch
  import opened KnowledgeSubjects

  type AgentId = string
  type ScopeId = int

  datatype Origin = Manual | ExternalSync

  datatype Scope = Scope(agent: AgentId, origin: Origin, resources: set<ResourceId>)

  datatype Binding = Binding(scope: ScopeId, subject: SubjectRef)

  type Scopes = map<ScopeId, Scope>

  // The sequence lists every element of the set once, as a query or a dictionary does.
  ghost predicate IsListing<T(!new)>(list: seq<T>, all: set<T>) {
    && (forall x :: x in all <==> x in list)
    && (forall i, j :: 0 <= i < j < |list| ==> list[i] != list[j])
  }

  ghost function Listed<T>(list: seq<T>): set<T> {
    set x | x in list
  }

  lemma ListedStep<T(!new)>(list: seq<T>, all: set<T>, i: nat)
    requires IsListing(list, all) && i < |list|
    ensures list[i] in all && list[i] !in Listed(list[..i])
    ensures Listed(list[..i + 1]) == Listed(list[..i]) + {list[i]}
  {
    assert list[i] in list;
    assert list[..i + 1] == list[..i] + [list[i]];
  }

  lemma ListedAll<T(!new)>(list: seq<T>, all: set<T>)
    requires IsListing(list, all)
    ensures Listed(list[..|list|]) == all && Listed(list[..0]) == {}
  {
    assert list[..|list|] == list;
  }

  // A listing of the set, in some order.
  method ListOf<T(==,!new)>(all: set<T>) returns (list: seq<T>)
    ensures IsListing(list, all)
  {
    list := [];
    var rest := all;
    while rest != {}
      invariant rest <= all && IsListing(list, all - rest)
      decreases |rest|
    {
      var x :| x in rest;
      rest := rest - {x};
      list := list + [x];
    }
  }

  predicate IsManual(scopes: Scopes, agent: AgentId, id: ScopeId) {
    id in scopes && scopes[id].agent == agent && scopes[id].origin.Manual?
  }

  // The subject is granted the resource by a scope of this origin.
  ghost predicate Grants(scopes: Scopes, bindings: set<Binding>, agent: AgentId, origin: Origin,
                         s: SubjectRef, r: ResourceId) {
    exists id :: Binding(id, s) in bindings && id in scopes && scopes[id].agent == agent
                 && scopes[id].origin == origin && r in scopes[id].resources
  }

  // No manual scope of the agent is without a binding.
  ghost predicate NoOrphan(scopes: Scopes, bindings: set<Binding>, agent: AgentId) {
    forall id :: IsManual(scopes, agent, id) ==> exists s :: Binding(id, s) in bindings
  }

  // Scopes that are not manual scopes of the agent, and their bindings, are the same in both tables.
  ghost predicate SameElsewhere(scopes0: Scopes, bindings0: set<Binding>, scopes1: Scopes, bindings1: set<Binding>,
                                agent: AgentId) {
    && (forall id :: id in scopes0 && !IsManual(scopes0, agent, id) ==> id in scopes1 && scopes1[id] == scopes0[id])
    && (forall id :: id in scopes1 && !IsManual(scopes1, agent, id) ==> id in scopes0 && scopes0[id] == scopes1[id])
    && (forall b: Binding :: !IsManual(scopes0, agent, b.scope) && !IsManual(scopes1, agent, b.scope) ==>
                      (b in bindings0 <==> b in bindings1))
  }

  ghost predicate OneScopeEach(scopes: Scopes, bindings: set<Binding>, agent: AgentId, subjects: set<SubjectRef>) {
    forall s, i, j | s in subjects && Binding(i, s) in bindings && Binding(j, s) in bindings ::
      IsManual(scopes, agent, i) && IsManual(scopes, agent, j) ==> i == j
  }

  // A manual scope that was added holds a set of resources that no other manual scope holds or held.
  ghost predicate CreatesOnlyNewContent(scopes0: Scopes, scopes1: Scopes, agent: AgentId) {
    && (forall i, j | IsManual(scopes1, agent, i) && i !in scopes0 && IsManual(scopes0, agent, j) ::
          scopes1[i].resources != scopes0[j].resources)
    && (forall i, j | IsManual(scopes1, agent, i) && i !in scopes0 && IsManual(scopes1, agent, j) ::
          scopes1[i].resources == scopes1[j].resources ==> i == j)
  }

  // The map finds a manual scope for every set of resources that some manual scope holds.
  ghost predicate ReusableFor(scopes: Scopes, agent: AgentId, reusable: map<set<ResourceId>, ScopeId>) {
    && (forall c :: c in reusable ==> IsManual(scopes, agent, reusable[c]) && scopes[reusable[c]].resources == c)
    && (forall id :: IsManual(scopes, agent, id) ==> scopes[id].resources in reusable)
  }

  // Each subject of `done` that desires something is bound to the manual scope chosen for it, and
  // nothing else was bound or changed.
  ghost predicate BoundTo(agent: AgentId, scopes0: Scopes, kept: set<Binding>, scopes1: Scopes, bindings1: set<Binding>,
                          desired: Desired, done: set<SubjectRef>, chosen: map<SubjectRef, ScopeId>) {
    && (forall s :: s in chosen <==> s in desired && s in done && desired[s] != {})
    && (forall s :: s in chosen ==> IsManual(scopes1, agent, chosen[s]) && scopes1[chosen[s]].resources == desired[s])
    && (forall id :: id in scopes0 ==> id in scopes1 && scopes1[id] == scopes0[id])
    && (forall id :: id in scopes1 && id !in scopes0 ==>
          IsManual(scopes1, agent, id) && (forall b :: b in kept ==> b.scope != id)
          && exists s :: s in chosen && chosen[s] == id)
    && (forall b :: b in bindings1 <==> b in kept || (b.subject in chosen && b.scope == chosen[b.subject]))
  }

  // How the tables look after the manual bindings of the subjects of `desired` were replaced.
  ghost predicate Replaced(agent: AgentId, scopes0: Scopes, bindings0: set<Binding>,
                           scopes1: Scopes, bindings1: set<Binding>,
                           desired: Desired, chosen: map<SubjectRef, ScopeId>) {
    && (forall s :: s in chosen <==> s in desired && desired[s] != {})
    && (forall s :: s in chosen ==> IsManual(scopes1, agent, chosen[s]) && scopes1[chosen[s]].resources == desired[s])
    && (forall id :: id in scopes0 && id in scopes1 ==> scopes1[id] == scopes0[id])
    && (forall id :: id in scopes0 && !IsManual(scopes0, agent, id) ==> id in scopes1)
    && (forall id :: id in scopes1 && id !in scopes0 ==> IsManual(scopes1, agent, id))
    && (forall b :: b in bindings1 <==>
          || (b in bindings0 && !(IsManual(scopes0, agent, b.scope) && b.subject in desired))
          || (b.subject in chosen && b.scope == chosen[b.subject]))
    && (forall b :: b in bindings0 && b.scope in scopes1 ==> b.scope in scopes0)
    && (forall id :: IsManual(scopes0, agent, id) && (exists s :: Binding(id, s) in bindings1) ==> id in scopes1)
    && NoOrphan(scopes1, bindings1, agent)
  }

  lemma BindOne(agent: AgentId, scopes0: Scopes, kept: set<Binding>, scopes1: Scopes, scopes2: Scopes, bindings1: set<Binding>,
                desired: Desired, done: set<SubjectRef>, chosen: map<SubjectRef, ScopeId>, s: SubjectRef, id: ScopeId)
    requires BoundTo(agent, scopes0, kept, scopes1, bindings1, desired, done, chosen)
    requires s in desired && s !in done && desired[s] != {}
    requires scopes2 == scopes1 || (id !in scopes1 && scopes2 == scopes1[id := Scope(agent, Manual, desired[s])])
    requires IsManual(scopes2, agent, id) && scopes2[id].resources == desired[s]
    requires scopes2 != scopes1 ==> forall b :: b in kept ==> b.scope != id
    ensures BoundTo(agent, scopes0, kept, scopes2, bindings1 + {Binding(id, s)}, desired, done + {s}, chosen[s := id])
  {
    var chosen' := chosen[s := id];
    forall i | i in scopes2 && i !in scopes0
      ensures IsManual(scopes2, agent, i) && (forall b :: b in kept ==> b.scope != i)
      ensures exists q :: q in chosen' && chosen'[q] == i
    {
      if i in scopes1 {
        var q :| q in chosen && chosen[q] == i;
        assert q in chosen' && chosen'[q] == i;
      } else {
        assert s in chosen' && chosen'[s] == i;
      }
    }
  }

  lemma BindNone(agent: AgentId, scopes0: Scopes, kept: set<Binding>, scopes1: Scopes, bindings1: set<Binding>,
                 desired: Desired, done: set<SubjectRef>, chosen: map<SubjectRef, ScopeId>, s: SubjectRef)
    requires BoundTo(agent, scopes0, kept, scopes1, bindings1, desired, done, chosen)
    requires s in desired && desired[s] == {}
    ensures BoundTo(agent, scopes0, kept, scopes1, bindings1, desired, done + {s}, chosen)
  {
  }

  lemma NewContentStep(agent: AgentId, scopes0: Scopes, scopes1: Scopes, id: ScopeId, resources: set<ResourceId>)
    requires CreatesOnlyNewContent(scopes0, scopes1, agent)
    requires forall i :: i in scopes0 ==> i in scopes1 && scopes1[i] == scopes0[i]
    requires id !in scopes1 && forall i :: IsManual(scopes1, agent, i) ==> scopes1[i].resources != resources
    ensures CreatesOnlyNewContent(scopes0, scopes1[id := Scope(agent, Manual, resources)], agent)
  {
  }

  lemma DropUnbound(agent: AgentId, scopes0: Scopes, bindings0: set<Binding>, kept: set<Binding>,
                    scopes1: Scopes, scopes2: Scopes, bindings1: set<Binding>,
                    desired: Desired, chosen: map<SubjectRef, ScopeId>)
    requires kept == set b | b in bindings0 && !(IsManual(scopes0, agent, b.scope) && b.subject in desired)
    requires BoundTo(agent, scopes0, kept, scopes1, bindings1, desired, desired.Keys, chosen)
    requires forall id :: id in scopes2 <==>
               id in scopes1 && (!IsManual(scopes0, agent, id) || exists s :: Binding(id, s) in bindings1)
    requires forall id :: id in scopes2 ==> scopes2[id] == scopes1[id]
    ensures Replaced(agent, scopes0, bindings0, scopes2, bindings1, desired, chosen)
    ensures OneScopeEach(scopes2, bindings1, agent, desired.Keys)
    ensures SameElsewhere(scopes0, bindings0, scopes2, bindings1, agent)
  {
    forall s | s in chosen
      ensures chosen[s] in scopes2
    {
      assert Binding(chosen[s], s) in bindings1;
    }
    forall id | IsManual(scopes2, agent, id)
      ensures exists s :: Binding(id, s) in bindings1
    {
      if id !in scopes0 {
        var s :| s in chosen && chosen[s] == id;
        assert Binding(id, s) in bindings1;
      }
    }
  }

  lemma ReplacedGrants(agent: AgentId, scopes0: Scopes, bindings0: set<Binding>,
                       scopes1: Scopes, bindings1: set<Binding>,
                       desired: Desired, chosen: map<SubjectRef, ScopeId>, s: SubjectRef, r: ResourceId)
    requires Replaced(agent, scopes0, bindings0, scopes1, bindings1, desired, chosen)
    ensures Grants(scopes1, bindings1, agent, Manual, s, r) <==>
            if s in desired then r in desired[s] else Grants(scopes0, bindings0, agent, Manual, s, r)
  {
    if s in desired {
      if r in desired[s] {
        assert Binding(chosen[s], s) in bindings1;
      }
    } else {
      if Grants(scopes0, bindings0, agent, Manual, s, r) {
        var id :| Binding(id, s) in bindings0 && id in scopes0 && scopes0[id].agent == agent
                  && scopes0[id].origin == Manual && r in scopes0[id].resources;
        assert IsManual(scopes0, agent, id);
        assert Binding(id, s) in bindings1;
      }
      if Grants(scopes1, bindings1, agent, Manual, s, r) {
        var id :| Binding(id, s) in bindings1 && id in scopes1 && scopes1[id].agent == agent
                  && scopes1[id].origin == Manual && r in scopes1[id].resources;
        assert Binding(id, s) in bindings0;
      }
    }
  }

  /** External grants, and every grant on another agent, are untouched whenever the tables agree
      outside the manual scopes of the agent. */
  lemma ExternalGrantsUnchanged(agent: AgentId, scopes0: Scopes, bindings0: set<Binding>,
                                scopes1: Scopes, bindings1: set<Binding>,
                                a: AgentId, origin: Origin, s: SubjectRef, r: ResourceId)
    requires SameElsewhere(scopes0, bindings0, scopes1, bindings1, agent)
    requires a != agent || origin == ExternalSync
    ensures Grants(scopes0, bindings0, a, origin, s, r) <==> Grants(scopes1, bindings1, a, origin, s, r)
  {
    if Grants(scopes0, bindings0, a, origin, s, r) {
      var id :| Binding(id, s) in bindings0 && id in scopes0 && scopes0[id].agent == a
                && scopes0[id].origin == origin && r in scopes0[id].resources;
      assert !IsManual(scopes0, agent, id) && !IsManual(scopes1, agent, id);
      assert Binding(id, s) in bindings1;
    }
    if Grants(scopes1, bindings1, a, origin, s, r) {
      var id :| Binding(id, s) in bindings1 && id in scopes1 && scopes1[id].agent == a
                && scopes1[id].origin == origin && r in scopes1[id].resources;
      assert !IsManual(scopes1, agent, id) && !IsManual(scopes0, agent, id);
      assert Binding(id, s) in bindings0;
    }
  }

  // The scope would hold nothing once the targets are gone.
  predicate Emptied(agent: AgentId, scopes: Scopes, id: ScopeId, targets: set<ResourceId>) {
    IsManual(scopes, agent, id) && scopes[id].resources <= targets
  }

  // The targets were removed from the manual scopes in `done`, dropping those that held nothing else.
  ghost predicate Shrunk(agent: AgentId, scopes0: Scopes, bindings0: set<Binding>, scopes1: Scopes, bindings1: set<Binding>,
                         targets: set<ResourceId>, done: set<ScopeId>) {
    && (forall id :: id in scopes1 <==> id in scopes0 && !(id in done && Emptied(agent, scopes0, id, targets)))
    && (forall id :: id in scopes1 ==>
          scopes1[id] == if id in done && IsManual(scopes0, agent, id)
                         then scopes0[id].(resources := scopes0[id].resources - targets)
                         else scopes0[id])
    && (forall b :: b in bindings1 <==> b in bindings0 && !(b.scope in done && Emptied(agent, scopes0, b.scope, targets)))
  }

  lemma ShrunkGrants(agent: AgentId, scopes0: Scopes, bindings0: set<Binding>, scopes1: Scopes, bindings1: set<Binding>,
                     targets: set<ResourceId>, s: SubjectRef, r: ResourceId)
    requires Shrunk(agent, scopes0, bindings0, scopes1, bindings1, targets, scopes0.Keys)
    ensures Grants(scopes1, bindings1, agent, Manual, s, r) <==>
            Grants(scopes0, bindings0, agent, Manual, s, r) && r !in targets
  {
    if Grants(scopes0, bindings0, agent, Manual, s, r) && r !in targets {
      var id :| Binding(id, s) in bindings0 && id in scopes0 && scopes0[id].agent == agent
                && scopes0[id].origin == Manual && r in scopes0[id].resources;
      assert IsManual(scopes0, agent, id);
      assert Binding(id, s) in bindings1;
    }
    if Grants(scopes1, bindings1, agent, Manual, s, r) {
      var id :| Binding(id, s) in bindings1 && id in scopes1 && scopes1[id].agent == agent
                && scopes1[id].origin == Manual && r in scopes1[id].resources;
      assert IsManual(scopes0, agent, id);
      assert Binding(id, s) in bindings0;
    }
  }

  // Shrinking drops a scope together with its bindings, so it strands no other scope.
  lemma ShrinkingStrandsNone(agent: AgentId, scopes0: Scopes, bindings0: set<Binding>, scopes1: Scopes, bindings1: set<Binding>,
                             targets: set<ResourceId>)
    requires Shrunk(agent, scopes0, bindings0, scopes1, bindings1, targets, scopes0.Keys)
    requires NoOrphan(scopes0, bindings0, agent)
    ensures NoOrphan(scopes1, bindings1, agent)
  {
    forall id | IsManual(scopes1, agent, id)
      ensures exists s :: Binding(id, s) in bindings1
    {
      assert IsManual(scopes0, agent, id);
      var s :| Binding(id, s) in bindings0;
      assert Binding(id, s) in bindings1;
    }
  }

  function WithoutGroup(bindings: set<Binding>, group: string): set<Binding> {
    set b | b in bindings && b.subject != GroupRef(group)
  }

  // Every manual scope that binds the group binds somebody else too.
  ghost predicate BoundElsewhere(scopes: Scopes, bindings: set<Binding>, agent: AgentId, group: string) {
    forall id :: IsManual(scopes, agent, id) && Binding(id, GroupRef(group)) in bindings ==>
      exists s :: s != GroupRef(group) && Binding(id, s) in bindings
  }

  /** Deleting a group assignment leaves every manual scope with a binding exactly when each manual
      scope that binds the group binds another subject too. */
  lemma DeletionKeepsIff(scopes: Scopes, bindings: set<Binding>, agent: AgentId, group: string)
    requires NoOrphan(scopes, bindings, agent)
    ensures NoOrphan(scopes, WithoutGroup(bindings, group), agent) <==> BoundElsewhere(scopes, bindings, agent, group)
  {
    var after := WithoutGroup(bindings, group);
    if NoOrphan(scopes, after, agent) {
      forall id | IsManual(scopes, agent, id) && Binding(id, GroupRef(group)) in bindings
        ensures exists s :: s != GroupRef(group) && Binding(id, s) in bindings
      {
        var s :| Binding(id, s) in after;
      }
    }
    if BoundElsewhere(scopes, bindings, agent, group) {
      forall id | IsManual(scopes, agent, id)
        ensures exists s :: Binding(id, s) in after
      {
        var s :| Binding(id, s) in bindings;
        if s == GroupRef(group) {
          var other :| other != GroupRef(group) && Binding(id, other) in bindings;
          assert Binding(id, other) in after;
        } else {
          assert Binding(id, s) in after;
        }
      }
    }
  }

  class AgentKnowledgeStore {
    const agent: AgentId
    var scopes: Scopes
    var bindings: set<Binding>
    var policies: Policies
    var legacyAll: bool        // the agent is in LEGACY_ALL mode
    var nextId: ScopeId        // the id the next scope will get; ids are never used twice
    var groups: Groups         // the group assignments of the agent
    var directUsers: set<string>   // the users assigned to the agent directly

    ghost predicate Valid()
      reads this
    {
      && (forall id :: id in scopes ==> id < nextId)
      && (forall b :: b in bindings ==> b.scope < nextId)
      && OneRowEach(groups)
    }

    constructor (agent: AgentId)
      ensures Valid() && this.agent == agent && legacyAll
      ensures scopes == map[] && bindings == {} && policies == map[] && groups == map[] && directUsers == {}
    {
      this.agent := agent;
      scopes, bindings, policies, legacyAll, nextId := map[], {}, map[], true, 0;
      groups, directUsers := map[], {};
    }

    // The rows that already assign one of the keys, found by their group key.
    method ExistingAssignments(keys: set<SubjectKey>) returns (existing: map<GroupAssignment, string>)
      requires Valid()
      ensures forall a :: a in existing ==> existing[a] in groups && groups[existing[a]] == a
      ensures forall k :: k in keys && !k.UserKey? && HasRow(groups, AssignmentFor(k)) ==> AssignmentFor(k) in existing
    {
      var wanted := set k | k in keys && !k.UserKey? :: AssignmentFor(k);
      existing := map id | id in groups && groups[id] in wanted :: groups[id] := id;
    }

    // The new rows are assigned to the keys in `created` that had none.
    method CreateAssignments(keys: set<SubjectKey>, created: set<SubjectKey>, newIds: map<SubjectKey, string>)
      returns (existing: map<GroupAssignment, string>)
      requires Valid() && created <= keys && FreshIds(newIds, keys, groups)
      modifies this`groups
      ensures Valid() && Grown(old(groups), groups, created)
      ensures forall id :: id in groups && id !in old(groups) ==> id in newIds.Values
      ensures forall a :: a in existing ==> existing[a] in groups && groups[existing[a]] == a
      ensures forall k :: k in keys && !k.UserKey? ==> (AssignmentFor(k) in existing <==> HasRow(groups, AssignmentFor(k)))
    {
      existing := ExistingAssignments(keys);
      ghost var groups0 := groups;
      var rest := keys;
      while rest != {}
        invariant rest <= keys && OneRowEach(groups) && PartlyGrown(groups0, groups, created, keys - rest)
        invariant forall k :: k in rest ==> newIds[k] !in groups
        invariant forall id :: id in groups && id !in groups0 ==> id in newIds.Values
        invariant forall a :: a in existing ==> existing[a] in groups && groups[existing[a]] == a
        invariant forall k :: k in keys && !k.UserKey? && HasRow(groups, AssignmentFor(k)) ==> AssignmentFor(k) in existing
        decreases |rest|
      {
        var k :| k in rest;
        rest := rest - {k};
        if !k.UserKey? && AssignmentFor(k) !in existing && k in created {
          var a, id := AssignmentFor(k), newIds[k];
          AddRow(groups0, groups, created, keys - rest, k, id);
          groups := groups[id := a];
          existing := existing[a := id];
        }
      }
    }

    /** Resolves the subjects of a request after assigning those that it binds: users become direct,
        groups get a row unless they have one, and nobody else's assignment changes. */
    method ResolveSubjects(keys: set<SubjectKey>, created: set<SubjectKey>, newIds: map<SubjectKey, string>)
      returns (resolved: Resolved)
      requires Valid() && created <= keys && FreshIds(newIds, keys, groups)
      modifies this`groups, this`directUsers
      ensures Valid() && IsResolution(resolved, keys, groups)
      ensures Grown(old(groups), groups, created) && GrownUsers(old(directUsers), directUsers, created)
      ensures forall id :: id in groups && id !in old(groups) ==> id in newIds.Values
    {
      var existing := CreateAssignments(keys, created, newIds);
      directUsers := directUsers + set k | k in created && k.UserKey? :: k.user;
      resolved := Resolution(keys, existing);
      ResolutionMeaning(groups, keys, existing);
    }

    method SelectedManualResources(refs: set<SubjectRef>) returns (resources: Desired)
      ensures resources.Keys == refs
      ensures forall s, r :: s in refs ==> (r in resources[s] <==> Grants(scopes, bindings, agent, Manual, s, r))
    {
      resources := map s | s in refs :: {};
      var rows := set b | b in bindings && IsManual(scopes, agent, b.scope) && b.subject in refs;
      ghost var done: set<Binding> := {};
      ghost var all := rows;
      while rows != {}
        invariant rows <= all && done == all - rows
        invariant resources.Keys == refs
        invariant forall s, r :: s in refs ==>
                    (r in resources[s] <==> exists id :: Binding(id, s) in done && r in scopes[id].resources)
      {
        var b :| b in rows;
        rows := rows - {b};
        ghost var was := done;
        done := done + {b};
        ghost var before := resources;
        resources := resources[b.subject := resources[b.subject] + scopes[b.scope].resources];
        forall s, r | s in refs
          ensures r in resources[s] <==> exists id :: Binding(id, s) in done && r in scopes[id].resources
        {
          if r in before[s] {
            var id :| Binding(id, s) in was && r in scopes[id].resources;
            assert Binding(id, s) in done;
          }
          if s == b.subject && r in scopes[b.scope].resources {
            assert Binding(b.scope, s) in done;
          }
        }
      }
    }

    // The first manual scope found for each set of resources.
    method ReusableScopes() returns (reusable: map<set<ResourceId>, ScopeId>)
      ensures ReusableFor(scopes, agent, reusable)
    {
      reusable := map[];
      var rows := set id | id in scopes && IsManual(scopes, agent, id);
      while rows != {}
        invariant forall id :: id in rows ==> IsManual(scopes, agent, id)
        invariant forall c :: c in reusable ==> IsManual(scopes, agent, reusable[c]) && scopes[reusable[c]].resources == c
        invariant forall id :: IsManual(scopes, agent, id) ==> id in rows || scopes[id].resources in reusable
      {
        var id :| id in rows;
        rows := rows - {id};
        if scopes[id].resources !in reusable {
          reusable := reusable[scopes[id].resources := id];
        }
      }
    }

    // The scope for a set of resources: one that holds it already, or a new one.
    method ScopeFor(resources: set<ResourceId>, reusable: map<set<ResourceId>, ScopeId>, ghost scopes0: Scopes)
      returns (id: ScopeId, reusable': map<set<ResourceId>, ScopeId>)
      requires Valid() && ReusableFor(scopes, agent, reusable)
      requires CreatesOnlyNewContent(scopes0, scopes, agent)
      requires forall i :: i in scopes0 ==> i in scopes && scopes[i] == scopes0[i]
      modifies this`scopes, this`nextId
      ensures Valid() && ReusableFor(scopes, agent, reusable') && old(nextId) <= nextId
      ensures IsManual(scopes, agent, id) && scopes[id].resources == resources
      ensures scopes == old(scopes)
              || (old(nextId) == id && scopes == old(scopes)[id := Scope(agent, Manual, resources)])
      ensures CreatesOnlyNewContent(scopes0, scopes, agent)
    {
      reusable' := reusable;
      if resources !in reusable' {
        NewContentStep(agent, scopes0, scopes, nextId, resources);
        scopes := scopes[nextId := Scope(agent, Manual, resources)];
        reusable' := reusable'[resources := nextId];
        nextId := nextId + 1;
      }
      id := reusable'[resources];
    }

    method BindSubject(desired: Desired, s: SubjectRef, reusable: map<set<ResourceId>, ScopeId>,
                       ghost scopes0: Scopes, ghost kept: set<Binding>, ghost done: set<SubjectRef>,
                       ghost chosen: map<SubjectRef, ScopeId>)
      returns (reusable': map<set<ResourceId>, ScopeId>, ghost chosen': map<SubjectRef, ScopeId>)
      requires Valid() && ReusableFor(scopes, agent, reusable)
      requires forall b :: b in kept ==> b.scope < nextId
      requires BoundTo(agent, scopes0, kept, scopes, bindings, desired, done, chosen)
      requires CreatesOnlyNewContent(scopes0, scopes, agent)
      requires s in desired && s !in done && desired[s] != {}
      modifies this`scopes, this`bindings, this`nextId
      ensures Valid() && ReusableFor(scopes, agent, reusable') && old(nextId) <= nextId
      ensures BoundTo(agent, scopes0, kept, scopes, bindings, desired, done + {s}, chosen')
      ensures CreatesOnlyNewContent(scopes0, scopes, agent)
    {
      ghost var scopes1, bindings1 := scopes, bindings;
      var id;
      id, reusable' := ScopeFor(desired[s], reusable, scopes0);
      assert id < nextId;
      bindings := bindings + {Binding(id, s)};
      assert Valid();
      chosen' := chosen[s := id];
      BindOne(agent, scopes0, kept, scopes1, scopes, bindings1, desired, done, chosen, s, id);
    }

    // Binds every subject of `desired`, in the order of its keys, to a scope that holds exactly what
    // is desired for it.
    method BindDesired(desired: Desired, subjects: seq<SubjectRef>, reusable0: map<set<ResourceId>, ScopeId>)
      returns (ghost chosen: map<SubjectRef, ScopeId>)
      requires Valid() && ReusableFor(scopes, agent, reusable0)
      requires IsListing(subjects, desired.Keys)
      modifies this`scopes, this`bindings, this`nextId
      ensures Valid()
      ensures BoundTo(agent, old(scopes), old(bindings), scopes, bindings, desired, desired.Keys, chosen)
      ensures CreatesOnlyNewContent(old(scopes), scopes, agent)
    {
      var reusable := reusable0;
      ghost var scopes0, kept := scopes, bindings;
      chosen := map[];
      for i := 0 to |subjects|
        invariant Valid() && ReusableFor(scopes, agent, reusable)
        invariant forall b :: b in kept ==> b.scope < nextId
        invariant BoundTo(agent, scopes0, kept, scopes, bindings, desired, Listed(subjects[..i]), chosen)
        invariant CreatesOnlyNewContent(scopes0, scopes, agent)
      {
        ListedStep(subjects, desired.Keys, i);
        if desired[subjects[i]] != {} {
          reusable, chosen := BindSubject(desired, subjects[i], reusable, scopes0, kept, Listed(subjects[..i]), chosen);
        } else {
          BindNone(agent, scopes0, kept, scopes, bindings, desired, Listed(subjects[..i]), chosen, subjects[i]);
        }
      }
      ListedAll(subjects, desired.Keys);
    }

    /** Replaces the manual bindings of the subjects of `desired`.  Afterwards they are granted exactly
        what was desired, through at most one scope each; everybody else keeps what they had, also where
        scopes were shared; nothing outside the manual scopes of this agent changes; no manual scope is
        left without a binding; and a scope is created only for a set of resources no scope held. */
    method ReplaceSelectedManualBindings(desired: Desired, subjects: seq<SubjectRef>)
      requires Valid() && IsListing(subjects, desired.Keys)
      modifies this`scopes, this`bindings, this`nextId
      ensures Valid()
      ensures forall s, r :: Grants(scopes, bindings, agent, Manual, s, r) <==>
                if s in desired then r in desired[s] else Grants(old(scopes), old(bindings), agent, Manual, s, r)
      ensures OneScopeEach(scopes, bindings, agent, desired.Keys)
      ensures SameElsewhere(old(scopes), old(bindings), scopes, bindings, agent)
      ensures NoOrphan(scopes, bindings, agent)
      ensures CreatesOnlyNewContent(old(scopes), scopes, agent)
    {
      ghost var scopes0, bindings0 := scopes, bindings;
      ghost var chosen := Rebind(desired, subjects);
      assert SameElsewhere(scopes0, bindings0, scopes, bindings, agent);
      forall s, r {
        ReplacedGrants(agent, scopes0, bindings0, scopes, bindings, desired, chosen, s, r);
      }
    }

    method Rebind(desired: Desired, subjects: seq<SubjectRef>) returns (ghost chosen: map<SubjectRef, ScopeId>)
      requires Valid() && IsListing(subjects, desired.Keys)
      modifies this`scopes, this`bindings, this`nextId
      ensures Valid()
      ensures Replaced(agent, old(scopes), old(bindings), scopes, bindings, desired, chosen)
      ensures OneScopeEach(scopes, bindings, agent, desired.Keys)
      ensures SameElsewhere(old(scopes), old(bindings), scopes, bindings, agent)
      ensures CreatesOnlyNewContent(old(scopes), scopes, agent)
    {
      ghost var scopes0, bindings0 := scopes, bindings;
      var rows := set id | id in scopes && IsManual(scopes, agent, id);
      var reusable := ReusableScopes();
      bindings := set b | b in bindings && !(IsManual(scopes, agent, b.scope) && b.subject in desired);
      ghost var kept := bindings;
      chosen := BindDesired(desired, subjects, reusable);
      DropUnboundScopes(rows, desired, scopes0, bindings0, kept, chosen);
    }

    // Deletes those of the listed scopes that no row binds any more.
    method DropUnboundScopes(rows: set<ScopeId>, desired: Desired, ghost scopes0: Scopes, ghost bindings0: set<Binding>,
                             ghost kept: set<Binding>, ghost chosen: map<SubjectRef, ScopeId>)
      requires Valid()
      requires rows == set id | id in scopes0 && IsManual(scopes0, agent, id)
      requires kept == set b | b in bindings0 && !(IsManual(scopes0, agent, b.scope) && b.subject in desired)
      requires BoundTo(agent, scopes0, kept, scopes, bindings, desired, desired.Keys, chosen)
      requires CreatesOnlyNewContent(scopes0, scopes, agent)
      modifies this`scopes
      ensures Valid()
      ensures Replaced(agent, scopes0, bindings0, scopes, bindings, desired, chosen)
      ensures OneScopeEach(scopes, bindings, agent, desired.Keys)
      ensures SameElsewhere(scopes0, bindings0, scopes, bindings, agent)
      ensures CreatesOnlyNewContent(scopes0, scopes, agent)
    {
      ghost var scopes1 := scopes;
      var bound := set b | b in bindings && b.scope in rows :: b.scope;
      scopes := map id | id in scopes && (id !in rows || id in bound) :: scopes[id];
      assert Valid();
      assert CreatesOnlyNewContent(scopes0, scopes, agent);
      DropUnbound(agent, scopes0, bindings0, kept, scopes1, scopes, bindings, desired, chosen);
    }

    /** The batch endpoint.  It assigns the subjects it binds to the agent.  For every subject and resource the last operation that names the pair
        decides the manual grant, unnamed pairs keep theirs, external grants do not change, and no
        manual scope is left without a binding, whatever the tables looked like before. */
    method UpdateBatch(ops: seq<Operation>, newIds: map<SubjectKey, string>, activateScopedMode: bool)
      returns (resolved: Resolved)
      requires Valid() && FreshIds(newIds, KeysOf(ops), groups)
      modifies this
      ensures Valid() && IsResolution(resolved, KeysOf(ops), groups)
      ensures Grown(old(groups), groups, BoundKeys(ops)) && GrownUsers(old(directUsers), directUsers, BoundKeys(ops))
      ensures forall id :: id in groups && id !in old(groups) ==> id in newIds.Values
      ensures forall s, r, i: nat :: LastOnGrant(ops, resolved, s, r, i) ==>
                (Grants(scopes, bindings, agent, Manual, s, r) <==> ops[i].kind.Bind?)
      ensures forall s, r :: (forall i :: 0 <= i < |ops| ==> !TouchesGrant(ops[i], resolved, s, r)) ==>
                (Grants(scopes, bindings, agent, Manual, s, r) <==> Grants(old(scopes), old(bindings), agent, Manual, s, r))
      ensures OneScopeEach(scopes, bindings, agent, resolved.Values)
      ensures SameElsewhere(old(scopes), old(bindings), scopes, bindings, agent)
      ensures NoOrphan(scopes, bindings, agent)
      ensures policies == FoldPolicies(old(policies), ops, old(legacyAll) && !activateScopedMode)
      ensures legacyAll == (old(legacyAll) && !activateScopedMode)
    {
      resolved := ResolveSubjects(KeysOf(ops), BoundKeys(ops), newIds);
      RunOperations(ops, resolved, activateScopedMode);
    }

    // The batch once its subjects are resolved.
    method RunOperations(ops: seq<Operation>, resolved: Resolved, activateScopedMode: bool)
      requires Valid()
      modifies this`scopes, this`bindings, this`nextId, this`policies, this`legacyAll
      ensures Valid()
      ensures forall s, r, i: nat :: LastOnGrant(ops, resolved, s, r, i) ==>
                (Grants(scopes, bindings, agent, Manual, s, r) <==> ops[i].kind.Bind?)
      ensures forall s, r :: (forall i :: 0 <= i < |ops| ==> !TouchesGrant(ops[i], resolved, s, r)) ==>
                (Grants(scopes, bindings, agent, Manual, s, r) <==> Grants(old(scopes), old(bindings), agent, Manual, s, r))
      ensures OneScopeEach(scopes, bindings, agent, resolved.Values)
      ensures SameElsewhere(old(scopes), old(bindings), scopes, bindings, agent)
      ensures NoOrphan(scopes, bindings, agent)
      ensures policies == FoldPolicies(old(policies), ops, old(legacyAll) && !activateScopedMode)
      ensures legacyAll == (old(legacyAll) && !activateScopedMode)
    {
      var desired := SelectedManualResources(resolved.Values);
      var policies', desired' := RunBatch(policies, desired, ops, resolved, legacyAll && !activateScopedMode);
      policies := policies';
      var subjects := ListOf(desired'.Keys);
      ReplaceSelectedManualBindings(desired', subjects);
      if activateScopedMode {
        legacyAll := false;
      }
      forall s, r | s in resolved.Values {
        LastOperationDecidesGrant(desired, ops, resolved, s, r);
      }
    }

    method ShrinkScope(id: ScopeId, targets: set<ResourceId>, ghost scopes0: Scopes, ghost bindings0: set<Binding>,
                       ghost done: set<ScopeId>)
      requires Valid() && id in scopes0 && id !in done
      requires Shrunk(agent, scopes0, bindings0, scopes, bindings, targets, done)
      modifies this`scopes, this`bindings
      ensures Valid()
      ensures Shrunk(agent, scopes0, bindings0, scopes, bindings, targets, done + {id})
    {
      if IsManual(scopes, agent, id) {
        var remaining := scopes[id].resources - targets;
        if remaining != {} {
          scopes := scopes[id := scopes[id].(resources := remaining)];
          assert !Emptied(agent, scopes0, id, targets);
        } else {
          bindings := set b | b in bindings && b.scope != id;
          scopes := map i | i in scopes && i != id :: scopes[i];
          assert scopes0[id].resources <= targets by {
            forall r | r in scopes0[id].resources
              ensures r in targets
            {
              assert r !in remaining;
            }
          }
        }
      }
    }

    // Removes the targets from every manual scope, and the scopes that hold nothing else.
    method RemoveFromManualScopes(rows: seq<ScopeId>, targets: set<ResourceId>)
      requires Valid() && IsListing(rows, scopes.Keys)
      modifies this`scopes, this`bindings
      ensures Valid()
      ensures Shrunk(agent, old(scopes), old(bindings), scopes, bindings, targets, old(scopes).Keys)
    {
      ghost var scopes0, bindings0 := scopes, bindings;
      for i := 0 to |rows|
        invariant Valid()
        invariant Shrunk(agent, scopes0, bindings0, scopes, bindings, targets, Listed(rows[..i]))
      {
        ListedStep(rows, scopes0.Keys, i);
        ShrinkScope(rows[i], targets, scopes0, bindings0, Listed(rows[..i]));
      }
      ListedAll(rows, scopes0.Keys);
    }

    /** The all-users endpoint.  Binding makes select-all policies and leaves every grant alone;
        unbinding also takes exactly the target resources out of every manual grant. */
    method UpdateAllUsers(kind: Kind, targets: set<ResourceId>, rows: seq<ScopeId>)
      requires Valid() && IsListing(rows, scopes.Keys)
      modifies this`scopes, this`bindings, this`policies
      ensures Valid()
      ensures policies == old(policies) + map r | r in targets :: Policy(kind.Bind?, {})
      ensures kind.Bind? ==> scopes == old(scopes) && bindings == old(bindings)
      ensures kind.Unbind? ==> forall s, r ::
                Grants(scopes, bindings, agent, Manual, s, r) <==>
                Grants(old(scopes), old(bindings), agent, Manual, s, r) && r !in targets
      ensures kind.Unbind? ==> forall id :: IsManual(scopes, agent, id) ==>
                scopes[id].resources !! targets && scopes[id].resources != {}
      ensures NoOrphan(old(scopes), old(bindings), agent) ==> NoOrphan(scopes, bindings, agent)
      ensures SameElsewhere(old(scopes), old(bindings), scopes, bindings, agent)
    {
      ghost var policies0 := policies;
      ghost var done: set<ResourceId> := {};
      var rest := targets;
      while rest != {}
        invariant rest <= targets && done == targets - rest
        modifies this`policies
        invariant policies == policies0 + map r | r in done :: Policy(kind.Bind?, {})
      {
        var r :| r in rest;
        rest := rest - {r};
        done := done + {r};
        policies := policies[r := Policy(kind.Bind?, {})];
      }
      if kind.Unbind? {
        RemoveFromManualScopes(rows, targets);
        forall s, r {
          ShrunkGrants(agent, old(scopes), old(bindings), scopes, bindings, targets, s, r);
        }
        if NoOrphan(old(scopes), old(bindings), agent) {
          ShrinkingStrandsNone(agent, old(scopes), old(bindings), scopes, bindings, targets);
        }
      }
    }

    // Deleting a group assignment removes its bindings and its row, and keeps the scopes.
    method DeleteGroupAssignment(group: string) returns (found: bool)
      requires Valid()
      modifies this`bindings, this`groups
      ensures Valid() && found == (group in old(groups))
      ensures !found ==> bindings == old(bindings) && groups == old(groups)
      ensures found ==> forall b :: b in bindings <==> b in old(bindings) && b.subject != GroupRef(group)
      ensures found ==> groups == old(groups) - {group}
      ensures found && NoOrphan(scopes, old(bindings), agent) ==>
                (NoOrphan(scopes, bindings, agent) <==> BoundElsewhere(scopes, old(bindings), agent, group))
    {
      found := group in groups;
      if !found {
        return;
      }
      bindings := set b | b in bindings && b.subject != GroupRef(group);
      groups := map id | id in groups && id != group :: groups[id];
      if NoOrphan(scopes, old(bindings), agent) {
        DeletionKeepsIff(scopes, old(bindings), agent, group);
      }
    }
  }

  /** Deleting a group assignment can leave a manual scope without a binding, so NoOrphan is what a
      batch establishes, not something every operation keeps. */
  lemma DeletionLeavesOrphan(agent: AgentId, group: string, r: ResourceId)
    ensures var scopes: Scopes := map[0 := Scope(agent, Manual, {r})];
            var bindings := {Binding(0, GroupRef(group))};
            && NoOrphan(scopes, bindings, agent)
            && !NoOrphan(scopes, WithoutGroup(bindings, group), agent)
  {
    var scopes: Scopes := map[0 := Scope(agent, Manual, {r})];
    assert IsManual(scopes, agent, 0);
    forall id | IsManual(scopes, agent, id)
      ensures Binding(id, GroupRef(group)) in {Binding(0, GroupRef(group))}
    {
    }
  }
}
