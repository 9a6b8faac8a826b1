/**
 How the subjects of a request become users and group assignments of the agent
 (server/api/agent_knowledge_scopes.py, _resolve_subjects).

 A user always resolves; a department, directory group or identity source resolves to the row that
 assigns it to the agent.  A batch first assigns every subject that one of its operations binds.
 */
module KnowledgeSubjects {
  import opened KnowledgeBatch

  datatype GroupKind = Department | Enterprise | SourceGroup | SourceAll

  // A group the agent is assigned to.  Rows of the agent have different values, the unique group key.
  datatype GroupAssignment = GroupAssignment(kind: GroupKind, source: string, principal: string)

  type Groups = map<string, GroupAssignment>

  function AssignmentFor(k: SubjectKey): GroupAssignment
    requires !k.UserKey?
  {
    match k
    case DepartmentKey(d) => GroupAssignment(Department, "", d)
    case GroupKey(source, group) => GroupAssignment(SourceGroup, source, group)
    case SourceKey(source) => GroupAssignment(SourceAll, source, "")
  }

  predicate HasRow(groups: Groups, a: GroupAssignment) {
    exists id :: id in groups && groups[id] == a
  }

  ghost predicate OneRowEach(groups: Groups) {
    forall i, j :: i in groups && j in groups && groups[i] == groups[j] ==> i == j
  }

  // The user or group assignment that stands for the key.
  ghost predicate StandsFor(groups: Groups, k: SubjectKey, ref: SubjectRef) {
    if k.UserKey? then ref == UserRef(k.user)
    else ref.GroupRef? && ref.id in groups && groups[ref.id] == AssignmentFor(k)
  }

  ghost predicate Resolves(groups: Groups, k: SubjectKey) {
    k.UserKey? || HasRow(groups, AssignmentFor(k))
  }

  ghost predicate IsResolution(resolved: Resolved, keys: set<SubjectKey>, groups: Groups) {
    && (forall k :: k in resolved <==> k in keys && Resolves(groups, k))
    && (forall k :: k in resolved ==> StandsFor(groups, k, resolved[k]))
  }

  function KeysOf(ops: seq<Operation>): set<SubjectKey> {
    set op, k | op in ops && k in op.subjects :: k
  }

  // The subjects some operation binds.
  function BoundKeys(ops: seq<Operation>): set<SubjectKey> {
    set op, k | op in ops && op.kind.Bind? && k in op.subjects :: k
  }

  // The rows after every key of `created` was assigned: nothing is lost, nothing else is added.
  ghost predicate Grown(groups0: Groups, groups1: Groups, created: set<SubjectKey>) {
    && OneRowEach(groups1)
    && (forall id :: id in groups0 ==> id in groups1 && groups1[id] == groups0[id])
    && (forall id :: id in groups1 && id !in groups0 ==>
          exists k :: k in created && !k.UserKey? && groups1[id] == AssignmentFor(k))
    && (forall k :: k in created && !k.UserKey? ==> HasRow(groups1, AssignmentFor(k)))
  }

  ghost predicate GrownUsers(direct0: set<string>, direct1: set<string>, created: set<SubjectKey>) {
    forall u :: u in direct1 <==> u in direct0 || UserKey(u) in created
  }

  // Ids for rows that may be added: distinct, and not those of rows there are.
  ghost predicate FreshIds(newIds: map<SubjectKey, string>, keys: set<SubjectKey>, groups: Groups) {
    && keys <= newIds.Keys
    && (forall k :: k in newIds ==> newIds[k] !in groups)
    && (forall k, x :: k in newIds && x in newIds && newIds[k] == newIds[x] ==> k == x)
  }

  // As Grown, with only the keys in `done` looked at.
  ghost predicate PartlyGrown(groups0: Groups, groups1: Groups, created: set<SubjectKey>, done: set<SubjectKey>) {
    && (forall id :: id in groups0 ==> id in groups1 && groups1[id] == groups0[id])
    && (forall id :: id in groups1 && id !in groups0 ==>
          exists k :: k in created && !k.UserKey? && groups1[id] == AssignmentFor(k))
    && (forall k :: k in created && k in done && !k.UserKey? ==> HasRow(groups1, AssignmentFor(k)))
  }

  lemma AddRow(groups0: Groups, groups1: Groups, created: set<SubjectKey>, done: set<SubjectKey>, k: SubjectKey, id: string)
    requires OneRowEach(groups1) && PartlyGrown(groups0, groups1, created, done - {k})
    requires k in created && !k.UserKey? && !HasRow(groups1, AssignmentFor(k)) && id !in groups1
    ensures OneRowEach(groups1[id := AssignmentFor(k)])
    ensures PartlyGrown(groups0, groups1[id := AssignmentFor(k)], created, done)
    ensures forall a :: HasRow(groups1[id := AssignmentFor(k)], a) <==> HasRow(groups1, a) || a == AssignmentFor(k)
  {
    var groups2 := groups1[id := AssignmentFor(k)];
    assert id in groups2 && groups2[id] == AssignmentFor(k);
    forall a | HasRow(groups1, a)
      ensures HasRow(groups2, a)
    {
      var i :| i in groups1 && groups1[i] == a;
      assert i in groups2 && groups2[i] == a;
    }
  }

  // The answer, from the rows found by their group key.
  function Resolution(keys: set<SubjectKey>, existing: map<GroupAssignment, string>): Resolved {
    map k | k in keys && (k.UserKey? || AssignmentFor(k) in existing) ::
      if k.UserKey? then UserRef(k.user) else GroupRef(existing[AssignmentFor(k)])
  }

  lemma ResolutionMeaning(groups: Groups, keys: set<SubjectKey>, existing: map<GroupAssignment, string>)
    requires forall a :: a in existing ==> existing[a] in groups && groups[existing[a]] == a
    requires forall k :: k in keys && !k.UserKey? ==> (AssignmentFor(k) in existing <==> HasRow(groups, AssignmentFor(k)))
    ensures IsResolution(Resolution(keys, existing), keys, groups)
  {
  }

  /** Keys name rows one to one, so the resolution of a request is determined. */
  lemma StandsForOne(groups: Groups, k: SubjectKey, x: SubjectKey, ref: SubjectRef, other: SubjectRef)
    requires OneRowEach(groups) && StandsFor(groups, k, ref)
    ensures StandsFor(groups, x, ref) ==> x == k
    ensures StandsFor(groups, k, other) ==> other == ref
  {
  }
}
