/**
 Who is bound to a knowledge resource (server/api/agent_knowledge_scopes.py,
 get_knowledge_binding_status), and what the server enforces
 (server/core/agent_knowledge_scope.py).

 `Bound` and `Partial` are the eager definitions, one subject and one resource at a time.  The class
 `StatusResolver` is the lazy, memoising code; it is proved to compute them.
 */
module KnowledgeStatus {
  import opened Common
  import opened KnowledgeBatch
  import opened KnowledgeStore
  import opened KnowledgeSubjects

  // A scope joined with one of its bindings.
  datatype Grant = Grant(origin: Origin, resources: set<ResourceId>, ref: SubjectRef)

  // What the directory and the membership tables answer.
  datatype Directory = Directory(
    knowledgeSubjects: SubjectKey -> set<SubjectKey>,  // of a user or a directory group: itself and what contains it
    members: SubjectKey -> set<string>,
    hasAccess: string -> bool,
    matchingGroups: string -> set<string>,             // the group assignments a user falls under
    assignments: Groups)

  datatype View = View(
    directory: Directory,
    resolved: Resolved,
    grants: seq<Grant>,
    policies: Policies,
    legacyAll: bool)

  datatype Status = BOUND | PARTIAL | UNBOUND

  // Indexes of the subjects that are bound, partly excluded, excluded, bound by themselves, and bound
  // through something else.
  datatype StatusItem = StatusItem(resource: ResourceId, status: Status, bound: seq<nat>, partial: set<nat>, excluded: set<nat>,
                                   direct: set<nat>, inherits: set<nat>)

  // ----- eager definitions -----

  function MatchingKeys(d: Directory, k: SubjectKey): set<SubjectKey> {
    if k.UserKey? || k.GroupKey? then d.knowledgeSubjects(k) else {k}
  }

  function Ref(v: View, k: SubjectKey): Option<SubjectRef> {
    if k in v.resolved then Some(v.resolved[k]) else None
  }

  function AssignmentOf(d: Directory, ref: SubjectRef): Option<GroupAssignment> {
    if ref.GroupRef? && ref.id in d.assignments then Some(d.assignments[ref.id]) else None
  }

  predicate HasKind(d: Directory, ref: SubjectRef, kind: GroupKind) {
    AssignmentOf(d, ref).Some? && AssignmentOf(d, ref).value.kind == kind
  }

  // The directory group a group assignment stands for.
  function GroupOf(d: Directory, ref: SubjectRef): SubjectKey
    requires AssignmentOf(d, ref).Some?
  {
    GroupKey(AssignmentOf(d, ref).value.source, AssignmentOf(d, ref).value.principal)
  }

  // A grant of this origin to `ref` reaches the subject other than as its own manual grant.
  predicate Covers(v: View, origin: Origin, ref: SubjectRef, k: SubjectKey) {
    || (Ref(v, k) == Some(ref) && !origin.Manual?)
    || (k.UserKey? && ref.GroupRef? && ref.id in v.directory.matchingGroups(k.user))
    || (k.GroupKey? && HasKind(v.directory, ref, SourceAll) && AssignmentOf(v.directory, ref).value.source == k.source)
    || (k.GroupKey? && HasKind(v.directory, ref, SourceGroup) && Ref(v, k) != Some(ref)
        && GroupOf(v.directory, ref) in MatchingKeys(v.directory, k))
  }

  ghost predicate Granted(v: View, origin: Origin, ref: SubjectRef, r: ResourceId) {
    exists g :: g in v.grants && g.origin == origin && g.ref == ref && r in g.resources
  }

  ghost predicate Direct(v: View, k: SubjectKey, r: ResourceId) {
    Ref(v, k).Some? && Granted(v, Manual, Ref(v, k).value, r)
  }

  ghost predicate Inherited(v: View, k: SubjectKey, r: ResourceId) {
    exists origin, ref :: Granted(v, origin, ref, r) && Covers(v, origin, ref, k)
  }

  ghost predicate External(v: View, k: SubjectKey, r: ResourceId) {
    exists ref :: Granted(v, ExternalSync, ref, r) && Covers(v, ExternalSync, ref, k)
  }

  predicate AllSelected(v: View, r: ResourceId) {
    if r in v.policies then v.policies[r].selectAll else v.legacyAll
  }

  function Exclusions(v: View, r: ResourceId): set<SubjectKey> {
    if r in v.policies then v.policies[r].excluded else {}
  }

  predicate Excluded(v: View, k: SubjectKey, r: ResourceId) {
    MatchingKeys(v.directory, k) * Exclusions(v, r) != {}
  }

  // Some identity source is assigned to the agent as a whole / some directory group is.
  predicate SourceAssigned(d: Directory, source: string) {
    exists a :: a in d.assignments && d.assignments[a].kind.SourceAll? && d.assignments[a].source == source
  }

  function AssignedGroups(d: Directory): set<SubjectKey> {
    set a | a in d.assignments && d.assignments[a].kind.SourceGroup? ::
      GroupKey(d.assignments[a].source, d.assignments[a].principal)
  }

  // The subject belongs to the agent, so it has whatever everybody has.
  predicate Member(v: View, k: SubjectKey) {
    if k.UserKey? then v.directory.hasAccess(k.user)
    else
      || Ref(v, k).Some?
      || (k.GroupKey? && SourceAssigned(v.directory, k.source))
      || (k.GroupKey? && MatchingKeys(v.directory, k) * AssignedGroups(v.directory) != {})
  }

  ghost predicate Bound(v: View, k: SubjectKey, r: ResourceId) {
    || External(v, k, r)
    || (!Excluded(v, k, r) && ((AllSelected(v, r) && Member(v, k)) || Direct(v, k, r) || Inherited(v, k, r)))
  }

  // Granted by hand to the subject itself, or had because everybody has it; excluded or not.
  ghost predicate HeldDirectly(v: View, k: SubjectKey, r: ResourceId) {
    Direct(v, k, r) || (AllSelected(v, r) && Member(v, k))
  }

  // Had because everybody has it, or through a group or external sync, by a subject not excluded.
  ghost predicate HeldThroughOthers(v: View, k: SubjectKey, r: ResourceId) {
    !Excluded(v, k, r) && ((AllSelected(v, r) && Member(v, k)) || Inherited(v, k, r))
  }

  predicate Overlap(d: Directory, k: SubjectKey, x: SubjectKey) {
    k in MatchingKeys(d, x) || d.members(k) * d.members(x) != {}
  }

  // Bound by select-all, although some part of the subject is excluded.
  predicate Partial(v: View, k: SubjectKey, r: ResourceId) {
    && !Excluded(v, k, r) && AllSelected(v, r) && Member(v, k)
    && exists x :: x in Exclusions(v, r) && Overlap(v.directory, k, x)
  }

  // ----- the lazy code -----

  class StatusResolver {
    const v: View
    var keyCache: map<SubjectKey, set<SubjectKey>>
    var memberQueries: map<SubjectKey, set<string>>
    var overlapCache: map<set<SubjectKey>, bool>     // keyed by the unordered pair

    ghost predicate Valid()
      reads this
    {
      && (forall k :: k in keyCache ==> keyCache[k] == MatchingKeys(v.directory, k))
      && (forall k :: k in memberQueries ==> memberQueries[k] == v.directory.members(k))
      && (forall left, right :: {left, right} in overlapCache ==>
            overlapCache[{left, right}] == (v.directory.members(left) * v.directory.members(right) != {}))
    }

    constructor (v: View)
      ensures Valid() && this.v == v
    {
      this.v := v;
      keyCache, memberQueries, overlapCache := map[], map[], map[];
    }

    method CachedKeys(k: SubjectKey) returns (keys: set<SubjectKey>)
      requires Valid()
      modifies this`keyCache
      ensures Valid() && keys == MatchingKeys(v.directory, k)
    {
      if k !in keyCache {
        if k.UserKey? || k.GroupKey? {
          keyCache := keyCache[k := v.directory.knowledgeSubjects(k)];
        } else {
          keyCache := keyCache[k := {k}];
        }
      }
      keys := keyCache[k];
    }

    method CachedMembers(k: SubjectKey) returns (members: set<string>)
      requires Valid()
      modifies this`memberQueries
      ensures Valid() && members == v.directory.members(k)
    {
      if k !in memberQueries {
        memberQueries := memberQueries[k := v.directory.members(k)];
      }
      members := memberQueries[k];
    }

    method CachedOverlaps(left: SubjectKey, right: SubjectKey) returns (overlap: bool)
      requires Valid()
      modifies this`memberQueries, this`overlapCache
      ensures Valid() && overlap == (v.directory.members(left) * v.directory.members(right) != {})
    {
      var pair := {left, right};
      if pair !in overlapCache {
        var leftMembers := CachedMembers(left);
        var rightMembers := CachedMembers(right);
        overlapCache := overlapCache[pair := leftMembers * rightMembers != {}];
        forall l, r | {l, r} == pair
          ensures (v.directory.members(l) * v.directory.members(r) != {}) == (leftMembers * rightMembers != {})
        {
          assert l in pair && r in pair && left in {l, r} && right in {l, r};
          assert v.directory.members(l) * v.directory.members(r) == v.directory.members(r) * v.directory.members(l);
        }
      }
      overlap := overlapCache[pair];
    }

    // The batched reads that fill the cache before it is needed.
    method Prefetch(keys: set<SubjectKey>)
      requires Valid()
      modifies this`keyCache
      ensures Valid()
    {
      var rest := keys;
      while rest != {}
        invariant Valid()
      {
        var k :| k in rest;
        rest := rest - {k};
        var _ := CachedKeys(k);
      }
    }

    // Computed only when some resource is selected for everybody.
    method DefaultIndexes(subjects: seq<SubjectKey>) returns (indexes: set<nat>)
      requires Valid()
      modifies this`keyCache
      ensures Valid()
      ensures forall i: nat :: i in indexes <==> i < |subjects| && Member(v, subjects[i])
    {
      indexes := {};
      var assignedGroups := AssignedGroups(v.directory);
      for i := 0 to |subjects|
        invariant Valid()
        invariant forall j: nat :: j in indexes <==> j < i && Member(v, subjects[j])
      {
        var k := subjects[i];
        var isMember: bool;
        if k.UserKey? {
          isMember := v.directory.hasAccess(k.user);
        } else {
          isMember := Ref(v, k).Some? || (k.GroupKey? && SourceAssigned(v.directory, k.source));
          if !isMember && k.GroupKey? && assignedGroups != {} {
            var keys := CachedKeys(k);
            isMember := keys * assignedGroups != {};
          }
        }
        if isMember {
          indexes := indexes + {i};
        }
      }
    }

    // The rows that hold one of the requested resources.
    method RelevantGrants(resources: set<ResourceId>) returns (rows: seq<Grant>)
      ensures forall g :: g in rows <==> g in v.grants && resources * g.resources != {}
    {
      rows := [];
      for i := 0 to |v.grants|
        invariant forall g :: g in rows <==> g in v.grants[..i] && resources * g.resources != {}
      {
        assert v.grants[..i + 1] == v.grants[..i] + [v.grants[i]];
        if resources * v.grants[i].resources != {} {
          rows := rows + [v.grants[i]];
        }
      }
      assert v.grants[..|v.grants|] == v.grants;
    }

    // What one subject inherits through the rows, and the part of it that external sync owns.
    method Coverage(k: SubjectKey, rows: seq<Grant>) returns (inherited: set<ResourceId>, external: set<ResourceId>)
      requires Valid()
      modifies this`keyCache
      ensures Valid()
      ensures forall r :: r in inherited <==> exists g :: g in rows && Covers(v, g.origin, g.ref, k) && r in g.resources
      ensures forall r :: r in external <==>
                exists g :: g in rows && Covers(v, g.origin, g.ref, k) && g.origin.ExternalSync? && r in g.resources
    {
      var groupKeys: set<SubjectKey> := {};
      if k.GroupKey? && exists g :: g in rows && HasKind(v.directory, g.ref, SourceGroup) {
        groupKeys := CachedKeys(k);
      }
      var matchingGroups: set<string> := {};
      if k.UserKey? && exists g :: g in rows && g.ref.GroupRef? {
        matchingGroups := v.directory.matchingGroups(k.user);
      }
      inherited, external := {}, {};
      for i := 0 to |rows|
        invariant Valid()
        invariant forall r :: r in inherited <==>
                    exists g :: g in rows[..i] && Covers(v, g.origin, g.ref, k) && r in g.resources
        invariant forall r :: r in external <==>
                    exists g :: g in rows[..i] && Covers(v, g.origin, g.ref, k) && g.origin.ExternalSync? && r in g.resources
      {
        var row := rows[i];
        var covered :=
          || (Ref(v, k) == Some(row.ref) && !row.origin.Manual?)
          || (row.ref.GroupRef? && row.ref.id in matchingGroups)
          || (k.GroupKey? && HasKind(v.directory, row.ref, SourceAll)
              && AssignmentOf(v.directory, row.ref).value.source == k.source)
          || (k.GroupKey? && HasKind(v.directory, row.ref, SourceGroup) && Ref(v, k) != Some(row.ref)
              && GroupOf(v.directory, row.ref) in groupKeys);
        assert covered == Covers(v, row.origin, row.ref, k);
        assert rows[..i + 1] == rows[..i] + [row];
        if covered {
          inherited := inherited + row.resources;
          if row.origin.ExternalSync? {
            external := external + row.resources;
          }
        }
      }
      assert rows[..|rows|] == rows;
    }

    // Which subjects are excluded from the resource, and which are bound with a part excluded.
    method ExclusionIndexes(subjects: seq<SubjectKey>, r: ResourceId, defaults: set<nat>)
      returns (excluded: set<nat>, partial: set<nat>)
      requires Valid()
      requires AllSelected(v, r) ==> forall i: nat :: i in defaults <==> i < |subjects| && Member(v, subjects[i])
      modifies this
      ensures Valid()
      ensures forall i: nat :: i in excluded <==> i < |subjects| && Excluded(v, subjects[i], r)
      ensures forall i: nat :: i in partial <==> i < |subjects| && Partial(v, subjects[i], r)
    {
      excluded, partial := {}, {};
      var exclusions := Exclusions(v, r);
      for i := 0 to |subjects|
        invariant Valid()
        invariant forall j: nat :: j in excluded <==> j < i && Excluded(v, subjects[j], r)
        invariant forall j: nat :: j in partial <==> j < i && Partial(v, subjects[j], r)
      {
        var keys := {subjects[i]};
        if exclusions != {} {
          keys := CachedKeys(subjects[i]);
        }
        if keys * exclusions != {} {
          excluded := excluded + {i};
        } else if AllSelected(v, r) && i in defaults && exclusions != {} {
          var touched := AnyOverlap(subjects[i], exclusions);
          if touched {
            partial := partial + {i};
          }
        }
      }
    }

    method AnyOverlap(k: SubjectKey, exclusions: set<SubjectKey>) returns (found: bool)
      requires Valid()
      modifies this
      ensures Valid()
      ensures found <==> exists x :: x in exclusions && Overlap(v.directory, k, x)
    {
      found := false;
      var rest := exclusions;
      while rest != {}
        invariant Valid() && rest <= exclusions && !found
        invariant forall x :: x in exclusions && x !in rest ==> !Overlap(v.directory, k, x)
      {
        var x :| x in rest;
        rest := rest - {x};
        var keys := CachedKeys(x);
        if k in keys {
          return true;
        }
        var overlap := CachedOverlaps(k, x);
        if overlap {
          return true;
        }
      }
    }

    method BoundIndexes(subjects: seq<SubjectKey>, r: ResourceId, current: Desired, defaults: set<nat>, excluded: set<nat>,
                        resources: set<ResourceId>, inherited: seq<set<ResourceId>>, external: seq<set<ResourceId>>)
      returns (bound: seq<nat>)
      requires |inherited| == |external| == |subjects|
      requires CurrentOk(v, subjects, current)
      requires AllSelected(v, r) ==> forall i: nat :: i in defaults <==> i < |subjects| && Member(v, subjects[i])
      requires forall i: nat :: i in excluded <==> i < |subjects| && Excluded(v, subjects[i], r)
      requires r in resources
      requires forall i: nat :: i < |subjects| ==> CoverageIs(v, subjects[i], resources, inherited[i], external[i])
      ensures forall i: nat :: i in bound <==> i < |subjects| && Bound(v, subjects[i], r)
      ensures forall i, j :: 0 <= i < j < |bound| ==> bound[i] < bound[j]
      ensures |bound| <= |subjects|
      ensures |bound| == |subjects| <==> forall i: nat :: i < |subjects| ==> Bound(v, subjects[i], r)
    {
      bound := [];
      for i := 0 to |subjects|
        invariant forall j: nat :: j in bound <==> j < i && Bound(v, subjects[j], r)
        invariant forall a, b :: 0 <= a < b < |bound| ==> bound[a] < bound[b]
        invariant forall a :: 0 <= a < |bound| ==> bound[a] < i
        invariant |bound| <= i
        invariant |bound| == i <==> forall j: nat :: j < i ==> Bound(v, subjects[j], r)
      {
        var ref := Ref(v, subjects[i]);
        var direct := ref.Some? && ref.value in current && r in current[ref.value];
        if r in external[i] || (i !in excluded && ((AllSelected(v, r) && i in defaults) || direct || r in inherited[i])) {
          bound := bound + [i];
        }
      }
    }

    // Which subjects have the resource themselves, or through select-all or a group they belong to.
    method SourceIndexes(subjects: seq<SubjectKey>, r: ResourceId, current: Desired, defaults: set<nat>, excluded: set<nat>,
                         resources: set<ResourceId>, inherited: seq<set<ResourceId>>, external: seq<set<ResourceId>>)
      returns (direct: set<nat>, inherits: set<nat>)
      requires |inherited| == |external| == |subjects| && r in resources
      requires CurrentOk(v, subjects, current)
      requires AllSelected(v, r) ==> forall i: nat :: i in defaults <==> i < |subjects| && Member(v, subjects[i])
      requires forall i: nat :: i in excluded <==> i < |subjects| && Excluded(v, subjects[i], r)
      requires forall i: nat :: i < |subjects| ==> CoverageIs(v, subjects[i], resources, inherited[i], external[i])
      ensures forall i: nat :: i in direct <==> i < |subjects| && HeldDirectly(v, subjects[i], r)
      ensures forall i: nat :: i in inherits <==> i < |subjects| && HeldThroughOthers(v, subjects[i], r)
    {
      direct, inherits := {}, {};
      for i := 0 to |subjects|
        invariant forall j: nat :: j in direct <==> j < i && HeldDirectly(v, subjects[j], r)
        invariant forall j: nat :: j in inherits <==> j < i && HeldThroughOthers(v, subjects[j], r)
      {
        var ref := Ref(v, subjects[i]);
        var everybody := AllSelected(v, r) && i in defaults;
        if (ref.Some? && ref.value in current && r in current[ref.value]) || everybody {
          direct := direct + {i};
        }
        if i !in excluded && (everybody || r in inherited[i]) {
          inherits := inherits + {i};
        }
      }
    }

    method ResourceStatus(subjects: seq<SubjectKey>, r: ResourceId, current: Desired, defaults: set<nat>,
                          resources: set<ResourceId>, inherited: seq<set<ResourceId>>, external: seq<set<ResourceId>>)
      returns (item: StatusItem)
      requires Valid() && |inherited| == |external| == |subjects|
      requires CurrentOk(v, subjects, current)
      requires AllSelected(v, r) ==> forall i: nat :: i in defaults <==> i < |subjects| && Member(v, subjects[i])
      requires r in resources
      requires forall i: nat :: i < |subjects| ==> CoverageIs(v, subjects[i], resources, inherited[i], external[i])
      modifies this
      ensures Valid() && item.resource == r && ItemOk(v, subjects, item)
    {
      var excluded, partial := ExclusionIndexes(subjects, r, defaults);
      var bound := BoundIndexes(subjects, r, current, defaults, excluded, resources, inherited, external);
      var status;
      if bound == [] {
        status := UNBOUND;
      } else if |bound| == |subjects| && partial == {} {
        status := BOUND;
      } else {
        status := PARTIAL;
      }
      var direct, inherits := SourceIndexes(subjects, r, current, defaults, excluded, resources, inherited, external);
      item := StatusItem(r, status, bound, partial, excluded, direct, inherits);
      if bound != [] {
        assert bound[0] in bound;
      }
    }

    /** The status endpoint.  Its answers are the eager definitions, subject by subject, whatever the
        caches held and whoever else is in the request. */
    method BindingStatus(subjects: seq<SubjectKey>, targets: seq<ResourceId>, current: Desired)
      returns (items: seq<StatusItem>)
      requires Valid() && CurrentOk(v, subjects, current)
      modifies this
      ensures Valid() && |items| == |targets|
      ensures forall n :: 0 <= n < |targets| ==> items[n].resource == targets[n] && ItemOk(v, subjects, items[n])
    {
      var resources := set r | r in targets;
      var rows := RelevantGrants(resources);
      var defaults := PrepareDefaults(subjects, resources, rows);
      var inherited, external := CoverageOfAll(subjects, rows, resources);
      items := [];
      for n := 0 to |targets|
        invariant Valid() && |items| == n
        invariant forall m :: 0 <= m < n ==> items[m].resource == targets[m] && ItemOk(v, subjects, items[m])
      {
        assert targets[n] in resources;
        var item := ResourceStatus(subjects, targets[n], current, defaults, resources, inherited, external);
        items := items + [item];
      }
    }

    // Fills the caches the request will need, and finds the subjects that have whatever everybody has.
    method PrepareDefaults(subjects: seq<SubjectKey>, resources: set<ResourceId>, rows: seq<Grant>)
      returns (defaults: set<nat>)
      requires Valid()
      modifies this`keyCache
      ensures Valid()
      ensures forall r :: r in resources && AllSelected(v, r) ==>
                forall i: nat :: i in defaults <==> i < |subjects| && Member(v, subjects[i])
    {
      var exclusions := set r, x | r in resources && x in Exclusions(v, r) :: x;
      if exclusions != {} {
        Prefetch((set k | k in subjects && k.UserKey?) + (set k | k in exclusions && k.UserKey?));
      }
      var anySelected := v.legacyAll || exists r :: r in resources && r in v.policies && v.policies[r].selectAll;
      if anySelected || exclusions != {} || exists g :: g in rows && HasKind(v.directory, g.ref, SourceGroup) {
        Prefetch((set k | k in subjects && k.GroupKey?) + (set k | k in exclusions && k.GroupKey?));
      }
      defaults := {};
      if anySelected {
        defaults := DefaultIndexes(subjects);
      }
    }

    method CoverageOfAll(subjects: seq<SubjectKey>, rows: seq<Grant>, resources: set<ResourceId>)
      returns (inherited: seq<set<ResourceId>>, external: seq<set<ResourceId>>)
      requires Valid()
      requires forall g :: g in rows <==> g in v.grants && resources * g.resources != {}
      modifies this`keyCache
      ensures Valid() && |inherited| == |external| == |subjects|
      ensures forall i: nat :: i < |subjects| ==> CoverageIs(v, subjects[i], resources, inherited[i], external[i])
    {
      inherited, external := [], [];
      for n := 0 to |subjects|
        invariant Valid() && |inherited| == |external| == n
        invariant forall i: nat :: i < n ==> CoverageIs(v, subjects[i], resources, inherited[i], external[i])
      {
        var some, owned := RelevantCoverage(subjects[n], rows, resources);
        inherited := inherited + [some];
        external := external + [owned];
      }
    }

    method RelevantCoverage(k: SubjectKey, rows: seq<Grant>, resources: set<ResourceId>)
      returns (inherited: set<ResourceId>, external: set<ResourceId>)
      requires Valid()
      requires forall g :: g in rows <==> g in v.grants && resources * g.resources != {}
      modifies this`keyCache
      ensures Valid() && CoverageIs(v, k, resources, inherited, external)
    {
      inherited, external := Coverage(k, rows);
      forall r | r in resources
        ensures r in inherited <==> Inherited(v, k, r)
        ensures r in external <==> External(v, k, r)
      {
        CoverageMeaning(v, rows, resources, k, r);
      }
    }
  }

  ghost predicate CoverageIs(v: View, k: SubjectKey, resources: set<ResourceId>,
                             inherited: set<ResourceId>, external: set<ResourceId>) {
    forall r :: r in resources ==> (r in inherited <==> Inherited(v, k, r)) && (r in external <==> External(v, k, r))
  }

  // `current` holds the manual grants of every subject that resolved, as SelectedManualResources
  // returns them.
  ghost predicate CurrentOk(v: View, subjects: seq<SubjectKey>, current: Desired) {
    && (forall s, r :: s in current ==> (r in current[s] <==> Granted(v, Manual, s, r)))
    && (forall i :: 0 <= i < |subjects| && Ref(v, subjects[i]).Some? ==> Ref(v, subjects[i]).value in current)
  }

  // The answer for one resource is the eager one.
  ghost predicate ItemOk(v: View, subjects: seq<SubjectKey>, item: StatusItem) {
    && (forall i: nat :: i in item.bound <==> i < |subjects| && Bound(v, subjects[i], item.resource))
    && (forall i, j :: 0 <= i < j < |item.bound| ==> item.bound[i] < item.bound[j])
    && (forall i: nat :: i in item.partial <==> i < |subjects| && Partial(v, subjects[i], item.resource))
    && (forall i: nat :: i in item.excluded <==> i < |subjects| && Excluded(v, subjects[i], item.resource))
    && (forall i: nat :: i in item.direct <==> i < |subjects| && HeldDirectly(v, subjects[i], item.resource))
    && (forall i: nat :: i in item.inherits <==> i < |subjects| && HeldThroughOthers(v, subjects[i], item.resource))
    && (item.status.UNBOUND? <==> forall i: nat :: i < |subjects| ==> !Bound(v, subjects[i], item.resource))
    && (item.status.BOUND? <==> subjects != [] && forall i: nat :: i < |subjects| ==>
          Bound(v, subjects[i], item.resource) && !Partial(v, subjects[i], item.resource))
    && (forall i :: i in item.partial ==> i in item.bound && i !in item.excluded)
  }

  lemma CoverageMeaning(v: View, rows: seq<Grant>, resources: set<ResourceId>, k: SubjectKey, r: ResourceId)
    requires forall g :: g in rows <==> g in v.grants && resources * g.resources != {}
    requires r in resources
    ensures Inherited(v, k, r) <==> exists g :: g in rows && Covers(v, g.origin, g.ref, k) && r in g.resources
    ensures External(v, k, r) <==>
            exists g :: g in rows && Covers(v, g.origin, g.ref, k) && g.origin.ExternalSync? && r in g.resources
  {
    forall g | g in v.grants && r in g.resources
      ensures g in rows && Granted(v, g.origin, g.ref, r)
    {
      assert r in resources * g.resources;
    }
    if External(v, k, r) {
      var ref :| Granted(v, ExternalSync, ref, r) && Covers(v, ExternalSync, ref, k);
      var g :| g in v.grants && g.origin == ExternalSync && g.ref == ref && r in g.resources;
      assert g in rows && Covers(v, g.origin, g.ref, k) && g.origin.ExternalSync? && r in g.resources;
    }
    if Inherited(v, k, r) {
      var origin, ref :| Granted(v, origin, ref, r) && Covers(v, origin, ref, k);
      var g :| g in v.grants && g.origin == origin && g.ref == ref && r in g.resources;
      assert g in rows && Covers(v, g.origin, g.ref, k) && r in g.resources;
    }
  }
}
