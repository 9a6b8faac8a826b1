/**
 The knowledge status of a subject, told from the tables of the agent and the organisation alone: which
 rows reach it, what they were granted, and what the policy of the resource excludes.

 The definitions of KnowledgeStatus are those of the code, a view of joined rows tested clause by
 clause.  Here they are proved equal to one relation between rows and subjects.
 */
module KnowledgeReach {
  import opened Common
  import opened KnowledgeBatch
  import opened KnowledgeStore
  import opened KnowledgeStatus
  import opened KnowledgeSubjects
  import opened KnowledgeAccess
  import Visibility

  // What is granted to a row of this value is had by the subject.
  ghost predicate RowReaches(o: Organisation, a: GroupAssignment, k: SubjectKey) {
    match k
    case UserKey(user) => o.fallsUnder(user, a)
    case DepartmentKey(department) => a == GroupAssignment(Department, "", department)
    case SourceKey(source) => a == GroupAssignment(SourceAll, source, "")
    case GroupKey(source, group) =>
      || a == GroupAssignment(SourceGroup, source, group)
      || (a.kind == SourceAll && a.source == source)
      || (a.kind == SourceGroup && GroupKey(a.source, a.principal) in o.knowledgeSubjects(k))
  }

  // The row stands for the subject itself.
  ghost predicate IsOwnRow(a: GroupAssignment, k: SubjectKey) {
    match k
    case UserKey(_) => false
    case DepartmentKey(department) => a == GroupAssignment(Department, "", department)
    case SourceKey(source) => a == GroupAssignment(SourceAll, source, "")
    case GroupKey(source, group) => a == GroupAssignment(SourceGroup, source, group)
  }

  // Granted to the subject itself.
  ghost predicate OwnGrant(t: Tables, agent: AgentId, origin: Origin, k: SubjectKey, r: ResourceId) {
    || (k.UserKey? && Grants(t.scopes, t.bindings, agent, origin, UserRef(k.user), r))
    || exists id :: id in t.groups && IsOwnRow(t.groups[id], k) && Grants(t.scopes, t.bindings, agent, origin, GroupRef(id), r)
  }

  // Granted to another row that reaches the subject.
  ghost predicate GrantFromAbove(o: Organisation, t: Tables, agent: AgentId, origin: Origin, k: SubjectKey, r: ResourceId) {
    exists id :: id in t.groups && RowReaches(o, t.groups[id], k) && !IsOwnRow(t.groups[id], k)
                 && Grants(t.scopes, t.bindings, agent, origin, GroupRef(id), r)
  }

  // Granted to the subject or to a row that reaches it.
  ghost predicate Reached(o: Organisation, t: Tables, agent: AgentId, origin: Origin, k: SubjectKey, r: ResourceId) {
    OwnGrant(t, agent, origin, k, r) || GrantFromAbove(o, t, agent, origin, k, r)
  }

  // The subject belongs to the agent.
  ghost predicate Belongs(o: Organisation, t: Tables, k: SubjectKey) {
    || (k.UserKey? && (k.user in t.direct || o.builtin(k.user)))
    || exists id :: id in t.groups && RowReaches(o, t.groups[id], k)
  }

  // The policy of the resource excludes the subject, or a subject that contains it.
  ghost predicate ExcludedByPolicy(o: Organisation, policies: Policies, k: SubjectKey, r: ResourceId) {
    r in policies && exists x :: x in policies[r].excluded && if k.UserKey? || k.GroupKey? then x in o.knowledgeSubjects(k) else x == k
  }

  // The resource is selected for everybody who belongs to the agent.
  ghost predicate ForEverybody(policies: Policies, legacyAll: bool, r: ResourceId) {
    (r in policies && policies[r].selectAll) || (r !in policies && legacyAll)
  }

  lemma OwnRowIsRef(v: View, o: Organisation, t: Tables, keys: set<SubjectKey>, k: SubjectKey, id: string)
    requires Enrols(v, o, t, keys) && k in keys
    ensures !k.UserKey? ==> (Ref(v, k) == Some(GroupRef(id)) <==> id in t.groups && IsOwnRow(t.groups[id], k))
    ensures k.UserKey? ==> Ref(v, k) == Some(UserRef(k.user))
  {
    if !k.UserKey? && id in t.groups && IsOwnRow(t.groups[id], k) {
      assert t.groups[id] == AssignmentFor(k);
      assert k in v.resolved;
      StandsForOne(t.groups, k, k, GroupRef(id), v.resolved[k]);
    }
  }

  // The rows that cover a subject are those that reach it.
  lemma CoversMeaning(v: View, o: Organisation, t: Tables, keys: set<SubjectKey>, k: SubjectKey, origin: Origin, ref: SubjectRef)
    requires Enrols(v, o, t, keys) && k in keys
    ensures Covers(v, origin, ref, k) <==>
            if ref.UserRef? then k == UserKey(ref.id) && !origin.Manual?
            else ref.id in t.groups && RowReaches(o, t.groups[ref.id], k) && (origin.Manual? ==> !IsOwnRow(t.groups[ref.id], k))
  {
    OwnRowIsRef(v, o, t, keys, k, ref.id);
    assert k.UserKey? ==> MatchesUser(v.directory, o, t, k.user);
  }

  lemma ReachedMeaning(v: View, o: Organisation, t: Tables, agent: AgentId, keys: set<SubjectKey>, k: SubjectKey, r: ResourceId)
    requires Reflects(v, o, t, agent, keys) && k in keys
    ensures External(v, k, r) <==> Reached(o, t, agent, ExternalSync, k, r)
    ensures Inherited(v, k, r) <==>
            Reached(o, t, agent, ExternalSync, k, r) || GrantFromAbove(o, t, agent, Manual, k, r)
  {
    forall origin, ref
      ensures Covers(v, origin, ref, k) <==>
              if ref.UserRef? then k == UserKey(ref.id) && !origin.Manual?
              else ref.id in t.groups && RowReaches(o, t.groups[ref.id], k) && (origin.Manual? ==> !IsOwnRow(t.groups[ref.id], k))
    {
      CoversMeaning(v, o, t, keys, k, origin, ref);
    }
    GivenByRows(v, o, t, agent, keys, k, r);
    OriginsInherited(v, k, r);
  }

  lemma OriginsInherited(v: View, k: SubjectKey, r: ResourceId)
    ensures Inherited(v, k, r) <==> External(v, k, r) || exists ref :: Granted(v, Manual, ref, r) && Covers(v, Manual, ref, k)
  {
  }

  // Grants through rows of either origin, with the rows that cover the subject known.
  lemma GivenByRows(v: View, o: Organisation, t: Tables, agent: AgentId, keys: set<SubjectKey>, k: SubjectKey, r: ResourceId)
    requires Reflects(v, o, t, agent, keys) && k in keys
    ensures (exists ref :: Granted(v, ExternalSync, ref, r) && Covers(v, ExternalSync, ref, k)) <==>
            Reached(o, t, agent, ExternalSync, k, r)
    ensures (exists ref :: Granted(v, Manual, ref, r) && Covers(v, Manual, ref, k)) <==>
            GrantFromAbove(o, t, agent, Manual, k, r)
  {
    RowsGive(v, o, t, agent, keys, k, r);
    forall origin: Origin, ref | Granted(v, origin, ref, r) && Covers(v, origin, ref, k)
      ensures if origin.Manual? then GrantFromAbove(o, t, agent, Manual, k, r) else Reached(o, t, agent, ExternalSync, k, r)
    {
      CoversMeaning(v, o, t, keys, k, origin, ref);
    }
  }

  lemma RowsGive(v: View, o: Organisation, t: Tables, agent: AgentId, keys: set<SubjectKey>, k: SubjectKey, r: ResourceId)
    requires Reflects(v, o, t, agent, keys) && k in keys
    ensures Reached(o, t, agent, ExternalSync, k, r) ==>
            exists ref :: Granted(v, ExternalSync, ref, r) && Covers(v, ExternalSync, ref, k)
    ensures GrantFromAbove(o, t, agent, Manual, k, r) ==>
            exists ref :: Granted(v, Manual, ref, r) && Covers(v, Manual, ref, k)
  {
    if Reached(o, t, agent, ExternalSync, k, r) {
      var ref := ReachingRef(o, t, agent, k, r);
      CoversMeaning(v, o, t, keys, k, ExternalSync, ref);
      assert Granted(v, ExternalSync, ref, r);
    }
    if GrantFromAbove(o, t, agent, Manual, k, r) {
      var id :| id in t.groups && RowReaches(o, t.groups[id], k) && !IsOwnRow(t.groups[id], k)
                && Grants(t.scopes, t.bindings, agent, Manual, GroupRef(id), r);
      CoversMeaning(v, o, t, keys, k, Manual, GroupRef(id));
      assert Granted(v, Manual, GroupRef(id), r);
    }
  }

  lemma ReachingRef(o: Organisation, t: Tables, agent: AgentId, k: SubjectKey, r: ResourceId) returns (ref: SubjectRef)
    requires Reached(o, t, agent, ExternalSync, k, r)
    ensures Grants(t.scopes, t.bindings, agent, ExternalSync, ref, r)
    ensures if ref.UserRef? then k == UserKey(ref.id) else ref.id in t.groups && RowReaches(o, t.groups[ref.id], k)
  {
    if k.UserKey? && Grants(t.scopes, t.bindings, agent, ExternalSync, UserRef(k.user), r) {
      ref := UserRef(k.user);
    } else if OwnGrant(t, agent, ExternalSync, k, r) {
      var id :| id in t.groups && IsOwnRow(t.groups[id], k) && Grants(t.scopes, t.bindings, agent, ExternalSync, GroupRef(id), r);
      ref := GroupRef(id);
    } else {
      var id :| id in t.groups && RowReaches(o, t.groups[id], k) && Grants(t.scopes, t.bindings, agent, ExternalSync, GroupRef(id), r);
      ref := GroupRef(id);
    }
  }

  lemma DirectMeaning(v: View, o: Organisation, t: Tables, agent: AgentId, keys: set<SubjectKey>, k: SubjectKey, r: ResourceId)
    requires Reflects(v, o, t, agent, keys) && k in keys
    ensures Direct(v, k, r) <==> OwnGrant(t, agent, Manual, k, r)
  {
    forall id
      ensures !k.UserKey? ==> (Ref(v, k) == Some(GroupRef(id)) <==> id in t.groups && IsOwnRow(t.groups[id], k))
      ensures k.UserKey? ==> Ref(v, k) == Some(UserRef(k.user))
    {
      OwnRowIsRef(v, o, t, keys, k, id);
    }
    if Direct(v, k, r) && !k.UserKey? {
      var ref := Ref(v, k).value;
      assert StandsFor(t.groups, k, ref);
      assert ref == GroupRef(ref.id) && IsOwnRow(t.groups[ref.id], k);
    }
  }

  lemma RefMeaning(v: View, o: Organisation, t: Tables, keys: set<SubjectKey>, k: SubjectKey)
    requires Enrols(v, o, t, keys) && k in keys && !k.UserKey?
    ensures Ref(v, k).Some? <==> exists id :: id in t.groups && IsOwnRow(t.groups[id], k)
  {
    if Ref(v, k).Some? {
      assert StandsFor(t.groups, k, v.resolved[k]);
    }
    if id :| id in t.groups && IsOwnRow(t.groups[id], k) {
      OwnRowIsRef(v, o, t, keys, k, id);
    }
  }

  lemma MemberMeaning(v: View, o: Organisation, t: Tables, keys: set<SubjectKey>, k: SubjectKey)
    requires Enrols(v, o, t, keys) && k in keys
    ensures Member(v, k) <==> Belongs(o, t, k)
  {
    if k.UserKey? {
      var d := v.directory;
      assert MatchesUser(d, o, t, k.user);
      if id :| id in t.groups && RowReaches(o, t.groups[id], k) {
        assert id in d.matchingGroups(k.user);
      }
      if id :| id in d.matchingGroups(k.user) {
        assert RowReaches(o, t.groups[id], k);
      }
    } else {
      RefMeaning(v, o, t, keys, k);
      if k.GroupKey? {
        GroupMembership(v, o, t, keys, k);
      }
    }
  }

  lemma GroupMembership(v: View, o: Organisation, t: Tables, keys: set<SubjectKey>, k: SubjectKey)
    requires Enrols(v, o, t, keys) && k in keys && k.GroupKey?
    ensures SourceAssigned(v.directory, k.source) <==> exists id :: id in t.groups && t.groups[id].kind == SourceAll && t.groups[id].source == k.source
    ensures MatchingKeys(v.directory, k) * AssignedGroups(v.directory) != {} <==>
            exists id :: id in t.groups && t.groups[id].kind == SourceGroup
                         && GroupKey(t.groups[id].source, t.groups[id].principal) in o.knowledgeSubjects(k)
  {
    var common := MatchingKeys(v.directory, k) * AssignedGroups(v.directory);
    if x :| x in common {
      var id :| id in t.groups && t.groups[id].kind.SourceGroup? && GroupKey(t.groups[id].source, t.groups[id].principal) == x;
      assert GroupKey(t.groups[id].source, t.groups[id].principal) in o.knowledgeSubjects(k);
    }
    if id :| id in t.groups && t.groups[id].kind == SourceGroup
             && GroupKey(t.groups[id].source, t.groups[id].principal) in o.knowledgeSubjects(k) {
      assert GroupKey(t.groups[id].source, t.groups[id].principal) in common;
    }
  }

  lemma ExcludedMeaning(v: View, o: Organisation, t: Tables, keys: set<SubjectKey>, k: SubjectKey, r: ResourceId)
    requires Enrols(v, o, t, keys)
    ensures Excluded(v, k, r) <==> ExcludedByPolicy(o, v.policies, k, r)
  {
    var common := MatchingKeys(v.directory, k) * Exclusions(v, r);
    if x :| x in common {
      assert x in v.policies[r].excluded;
    }
    if ExcludedByPolicy(o, v.policies, k, r) {
      var x :| x in v.policies[r].excluded && if k.UserKey? || k.GroupKey? then x in o.knowledgeSubjects(k) else x == k;
      assert x in common;
    }
  }

  /** What the status endpoint calls bound, for every kind of subject: external sync granted the
      resource to the subject or to a row that reaches it; or the policy does not exclude it, and the
      resource is selected for everybody and the subject belongs to the agent, or was granted, by hand
      or by sync, to the subject or to a row that reaches it. */
  lemma BoundMeaning(v: View, o: Organisation, t: Tables, agent: AgentId, keys: set<SubjectKey>, k: SubjectKey, r: ResourceId)
    requires Reflects(v, o, t, agent, keys) && k in keys
    ensures Bound(v, k, r) <==>
            || Reached(o, t, agent, ExternalSync, k, r)
            || (!ExcludedByPolicy(o, v.policies, k, r)
                && ((ForEverybody(v.policies, v.legacyAll, r) && Belongs(o, t, k)) || Reached(o, t, agent, Manual, k, r)))
  {
    ReachedMeaning(v, o, t, agent, keys, k, r);
    DirectMeaning(v, o, t, agent, keys, k, r);
    MemberMeaning(v, o, t, keys, k);
    ExcludedMeaning(v, o, t, keys, k, r);
  }

  /** Where a bound resource is said to come from. */
  lemma OriginMeaning(v: View, o: Organisation, t: Tables, agent: AgentId, keys: set<SubjectKey>, k: SubjectKey, r: ResourceId)
    requires Reflects(v, o, t, agent, keys) && k in keys
    ensures HeldDirectly(v, k, r) <==>
            OwnGrant(t, agent, Manual, k, r) || (ForEverybody(v.policies, v.legacyAll, r) && Belongs(o, t, k))
    ensures HeldThroughOthers(v, k, r) <==>
            && !ExcludedByPolicy(o, v.policies, k, r)
            && (|| (ForEverybody(v.policies, v.legacyAll, r) && Belongs(o, t, k))
                || Reached(o, t, agent, ExternalSync, k, r)
                || GrantFromAbove(o, t, agent, Manual, k, r))
  {
    ReachedMeaning(v, o, t, agent, keys, k, r);
    DirectMeaning(v, o, t, agent, keys, k, r);
    MemberMeaning(v, o, t, keys, k);
    ExcludedMeaning(v, o, t, keys, k, r);
  }

  /** A subject has a resource in part exactly when it has it as everybody does, is not excluded, and
      something excluded lies below it or shares a member with it. */
  lemma PartialMeaning(v: View, o: Organisation, t: Tables, agent: AgentId, keys: set<SubjectKey>, k: SubjectKey, r: ResourceId)
    requires Reflects(v, o, t, agent, keys) && k in keys
    ensures Partial(v, k, r) <==>
            && !ExcludedByPolicy(o, v.policies, k, r) && ForEverybody(v.policies, v.legacyAll, r) && Belongs(o, t, k)
            && r in v.policies
            && exists x :: x in v.policies[r].excluded
                           && (|| ((x.UserKey? || x.GroupKey?) && k in o.knowledgeSubjects(x))
                               || exists u :: u in o.members(k) && u in o.members(x))
  {
    MemberMeaning(v, o, t, keys, k);
    ExcludedMeaning(v, o, t, keys, k, r);
    forall x | r in v.policies && x in v.policies[r].excluded && !ExcludedByPolicy(o, v.policies, k, r)
      ensures Overlap(v.directory, k, x) <==>
              || ((x.UserKey? || x.GroupKey?) && k in o.knowledgeSubjects(x))
              || exists u :: u in o.members(k) && u in o.members(x)
    {
      OverlapMeaning(v, o, t, keys, k, x);
    }
  }

  lemma OverlapMeaning(v: View, o: Organisation, t: Tables, keys: set<SubjectKey>, k: SubjectKey, x: SubjectKey)
    requires Enrols(v, o, t, keys)
    ensures Overlap(v.directory, k, x) <==>
            || (if x.UserKey? || x.GroupKey? then k in o.knowledgeSubjects(x) else k == x)
            || exists u :: u in o.members(k) && u in o.members(x)
  {
    var common := v.directory.members(k) * v.directory.members(x);
    if u :| u in o.members(k) && u in o.members(x) {
      assert u in common;
    }
    if u :| u in common {
      assert u in o.members(k) && u in o.members(x);
    }
  }

  /** What a user of the agent can read, from the tables to the knowledge base: its instance is bound, no
      visibility exclusion names it, an explicit list of its type holds it, and the user was granted it
      by sync, or is not excluded and has it as everybody does or by hand, directly or through a group.
      Only a stale grant of the resource could make a difference. */
  lemma UserReads(v: View, o: Organisation, t: Tables, agent: AgentId, keys: set<SubjectKey>, user: string,
                  rows: InstanceRows, table: set<KnowledgeBase>, stale: Grant -> bool, scope: ReadScope, kb: KnowledgeBase)
    requires Reflects(v, o, t, agent, keys) && UserKey(user) in keys && Belongs(o, t, UserKey(user))
    requires kb in table && forall other :: other in table && other.id == kb.id ==> other == kb
    requires scope.bindings == map i | i in rows :: rows[i].publicIds
    requires scope.personal == map i | i in rows :: rows[i].personalIds
    requires scope.excluded == HiddenResources(rows, table)
    requires forall r :: r in scope.allowed <==> r in InstanceResources(rows, table) && Enforced(Usable(v, stale), user, r)
    requires forall g :: g in v.grants && g.origin.ExternalSync? && Reaches(v, g.ref, user) && kb.id in g.resources ==> !stale(g)
    ensures Allows(scope, kb) <==>
            && kb.instance in rows
            && (kb.kbType == Some(Visibility.PUBLIC) ==>
                  && kb.id !in rows[kb.instance].publicExcluded
                  && (rows[kb.instance].publicIds.None? || kb.id in rows[kb.instance].publicIds.value))
            && (kb.kbType == Some(Visibility.PERSONAL) ==>
                  && kb.id !in rows[kb.instance].personalExcluded
                  && (rows[kb.instance].personalIds.None? || kb.id in rows[kb.instance].personalIds.value))
            && (|| Reached(o, t, agent, ExternalSync, UserKey(user), kb.id)
                || (!ExcludedByPolicy(o, v.policies, UserKey(user), kb.id)
                    && (ForEverybody(v.policies, v.legacyAll, kb.id) || Reached(o, t, agent, Manual, UserKey(user), kb.id))))
  {
    OwnRowIsRef(v, o, t, keys, UserKey(user), "");
    MemberMeaning(v, o, t, keys, UserKey(user));
    ReadIffBoundAndVisible(v, user, rows, table, stale, scope, kb);
    FreshStatusIsStatus(v, user, stale, kb.id);
    BoundMeaning(v, o, t, agent, keys, UserKey(user), kb.id);
  }

  lemma GroupExclusion(o: Organisation, policies: Policies, k: SubjectKey, r: ResourceId)
    requires k.GroupKey?
    ensures ExcludedByPolicy(o, policies, k, r) <==> r in policies && policies[r].excluded * o.knowledgeSubjects(k) != {}
  {
    if r in policies {
      var common := policies[r].excluded * o.knowledgeSubjects(k);
      if x :| x in common {
        assert x in policies[r].excluded && x in o.knowledgeSubjects(k);
      }
      if x :| x in policies[r].excluded && x in o.knowledgeSubjects(k) {
        assert x in common;
      }
    }
  }

  /** A directory group has what was granted to its own row, to its source as a whole, and to every
      group that contains it. */
  lemma GroupHasWhatContainsIt(v: View, o: Organisation, t: Tables, agent: AgentId, keys: set<SubjectKey>,
                               source: string, group: string, id: string, origin: Origin, r: ResourceId)
    requires Reflects(v, o, t, agent, keys) && GroupKey(source, group) in keys
    requires id in t.groups && Grants(t.scopes, t.bindings, agent, origin, GroupRef(id), r)
    requires || t.groups[id] == GroupAssignment(SourceGroup, source, group)
             || (t.groups[id].kind.SourceAll? && t.groups[id].source == source)
             || (t.groups[id].kind.SourceGroup?
                 && GroupKey(t.groups[id].source, t.groups[id].principal) in o.knowledgeSubjects(GroupKey(source, group)))
    requires origin.ExternalSync? || r !in v.policies || v.policies[r].excluded * o.knowledgeSubjects(GroupKey(source, group)) == {}
    ensures Bound(v, GroupKey(source, group), r)
  {
    var k := GroupKey(source, group);
    BoundMeaning(v, o, t, agent, keys, k, r);
    assert RowReaches(o, t.groups[id], k);
    if IsOwnRow(t.groups[id], k) {
      assert OwnGrant(t, agent, origin, k, r);
    } else {
      assert GrantFromAbove(o, t, agent, origin, k, r);
    }
    GroupExclusion(o, v.policies, k, r);
  }

  /** And a directory group that is bound to a resource nobody selected for everybody was granted it
      that way: nothing else binds it. */
  lemma GroupHasNothingElse(v: View, o: Organisation, t: Tables, agent: AgentId, keys: set<SubjectKey>,
                            source: string, group: string, r: ResourceId)
    returns (id: string, origin: Origin)
    requires Reflects(v, o, t, agent, keys) && GroupKey(source, group) in keys
    requires Bound(v, GroupKey(source, group), r)
    requires if r in v.policies then !v.policies[r].selectAll else !v.legacyAll
    ensures id in t.groups && Grants(t.scopes, t.bindings, agent, origin, GroupRef(id), r)
    ensures || t.groups[id] == GroupAssignment(SourceGroup, source, group)
            || (t.groups[id].kind.SourceAll? && t.groups[id].source == source)
            || (t.groups[id].kind.SourceGroup?
                && GroupKey(t.groups[id].source, t.groups[id].principal) in o.knowledgeSubjects(GroupKey(source, group)))
    ensures origin.ExternalSync? || r !in v.policies || v.policies[r].excluded * o.knowledgeSubjects(GroupKey(source, group)) == {}
  {
    var k := GroupKey(source, group);
    BoundMeaning(v, o, t, agent, keys, k, r);
    origin := if Reached(o, t, agent, ExternalSync, k, r) then ExternalSync else Manual;
    assert Reached(o, t, agent, origin, k, r);
    if OwnGrant(t, agent, origin, k, r) {
      id :| id in t.groups && IsOwnRow(t.groups[id], k) && Grants(t.scopes, t.bindings, agent, origin, GroupRef(id), r);
    } else {
      id :| id in t.groups && RowReaches(o, t.groups[id], k) && !IsOwnRow(t.groups[id], k)
            && Grants(t.scopes, t.bindings, agent, origin, GroupRef(id), r);
    }
    GroupExclusion(o, v.policies, k, r);
  }
}
