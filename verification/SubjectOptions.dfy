/**
 Which groups, departments and identity sources the subject list offers
 (server/api/agent_knowledge_scopes.py, list_knowledge_subject_options).

 The scan is that of SubjectScan; what it filters by is the status of KnowledgeStatus.
 */
module SubjectOptions {
  import opened Common
  import opened KnowledgeBatch
  import opened KnowledgeStatus
  import opened KnowledgeStore
  import opened SubjectScan

  datatype Filter = Available | BoundOnly

  // A row of the group list, with the subject it stands for when it is a candidate.
  datatype OptionRow = OptionRow(subject: Option<SubjectKey>, title: string)

  // ----- the rule -----

  // Bound, told from the list of grants.
  predicate ShowsBound(v: View, k: SubjectKey, r: ResourceId) {
    || (exists g :: g in v.grants && g.origin.ExternalSync? && r in g.resources && Covers(v, g.origin, g.ref, k))
    || (!Excluded(v, k, r)
        && ((AllSelected(v, r) && Member(v, k))
            || exists g :: g in v.grants && r in g.resources
                           && (Covers(v, g.origin, g.ref, k) || (g.origin.Manual? && Ref(v, k) == Some(g.ref)))))
  }

  lemma ShowsBoundIsBound(v: View, k: SubjectKey, r: ResourceId)
    ensures ShowsBound(v, k, r) <==> Bound(v, k, r)
  {
    forall g | g in v.grants && r in g.resources
      ensures Granted(v, g.origin, g.ref, r)
    {
    }
    if origin, ref :| Granted(v, origin, ref, r) && Covers(v, origin, ref, k) {
      var g :| g in v.grants && g.origin == origin && g.ref == ref && r in g.resources;
      assert Covers(v, g.origin, g.ref, k);
    }
    if External(v, k, r) {
      var ref :| Granted(v, ExternalSync, ref, r) && Covers(v, ExternalSync, ref, k);
      var g :| g in v.grants && g.origin == ExternalSync && g.ref == ref && r in g.resources;
      assert Covers(v, g.origin, g.ref, k);
    }
  }

  // "Bound" subjects have some target; "available" ones lack a target, or a part of one.
  predicate Wanted(v: View, targets: set<ResourceId>, filter: Filter, k: SubjectKey) {
    match filter
    case BoundOnly => exists r :: r in targets && ShowsBound(v, k, r)
    case Available => (exists r :: r in targets && !ShowsBound(v, k, r)) || (exists r :: r in targets && Partial(v, k, r))
  }

  function OptionRows(v: View, list: seq<OptionRow>, targets: set<ResourceId>, filter: Filter): Rows<OptionRow> {
    Rows(list, (row: OptionRow) => row.subject.Some?,
         (row: OptionRow) => row.subject.Some? && Wanted(v, targets, filter, row.subject.value))
  }

  // ----- the rule, as the code takes it from a status response -----

  function BoundCount(items: seq<StatusItem>, i: nat): nat {
    if items == [] then 0 else BoundCount(items[..|items| - 1], i) + if i in items[|items| - 1].bound then 1 else 0
  }

  predicate AnyPartial(items: seq<StatusItem>, i: nat) {
    exists n :: 0 <= n < |items| && i in items[n].partial
  }

  // The row of subject i is not passed over.
  predicate KeepsRow(filter: Filter, items: seq<StatusItem>, i: nat) {
    match filter
    case Available => !(BoundCount(items, i) == |items| && !AnyPartial(items, i))
    case BoundOnly => BoundCount(items, i) != 0
  }

  lemma {:induction false} BoundCountMeaning(items: seq<StatusItem>, i: nat)
    ensures BoundCount(items, i) <= |items|
    ensures BoundCount(items, i) == |items| <==> forall n :: 0 <= n < |items| ==> i in items[n].bound
    ensures BoundCount(items, i) == 0 <==> forall n :: 0 <= n < |items| ==> i !in items[n].bound
  {
    if items != [] {
      var last := |items| - 1;
      BoundCountMeaning(items[..last], i);
      forall n | 0 <= n < last
        ensures items[..last][n] == items[n]
      {
      }
    }
  }

  lemma CountsDecide(items: seq<StatusItem>, targets: seq<ResourceId>, i: nat, bound: set<ResourceId>, partial: set<ResourceId>)
    requires |items| == |targets|
    requires forall r :: r in bound || r in partial ==> r in targets
    requires forall n :: 0 <= n < |targets| ==>
               (i in items[n].bound <==> targets[n] in bound) && (i in items[n].partial <==> targets[n] in partial)
    ensures KeepsRow(BoundOnly, items, i) <==> bound != {}
    ensures KeepsRow(Available, items, i) <==> (exists r :: r in targets && r !in bound) || partial != {}
  {
    BoundCountMeaning(items, i);
    if r :| r in bound {
      var n :| 0 <= n < |targets| && targets[n] == r;
      assert i in items[n].bound;
    }
    if r :| r in partial {
      var n :| 0 <= n < |targets| && targets[n] == r;
      assert i in items[n].partial;
    }
    if r :| r in targets && r !in bound {
      var n :| 0 <= n < |targets| && targets[n] == r;
      assert i !in items[n].bound;
    }
  }

  lemma ItemDecides(v: View, subjects: seq<SubjectKey>, item: StatusItem, i: nat)
    requires ItemOk(v, subjects, item) && i < |subjects|
    ensures i in item.bound <==> ShowsBound(v, subjects[i], item.resource)
    ensures i in item.partial <==> Partial(v, subjects[i], item.resource)
  {
    ShowsBoundIsBound(v, subjects[i], item.resource);
  }

  function BoundTargets(v: View, targets: set<ResourceId>, k: SubjectKey): set<ResourceId> {
    set r | r in targets && ShowsBound(v, k, r)
  }

  function PartialTargets(v: View, targets: set<ResourceId>, k: SubjectKey): set<ResourceId> {
    set r | r in targets && Partial(v, k, r)
  }

  // The items answer the targets, one by one.
  ghost predicate IsStatus(v: View, subjects: seq<SubjectKey>, targets: seq<ResourceId>, items: seq<StatusItem>) {
    && |items| == |targets|
    && forall n :: 0 <= n < |targets| ==> items[n].resource == targets[n] && ItemOk(v, subjects, items[n])
  }

  lemma StatusDecides(v: View, subjects: seq<SubjectKey>, targets: seq<ResourceId>, items: seq<StatusItem>, i: nat, n: nat)
    requires IsStatus(v, subjects, targets, items) && i < |subjects| && n < |targets|
    ensures var all := set r | r in targets;
            && (i in items[n].bound <==> targets[n] in BoundTargets(v, all, subjects[i]))
            && (i in items[n].partial <==> targets[n] in PartialTargets(v, all, subjects[i]))
  {
    assert ItemOk(v, subjects, items[n]) && targets[n] in targets;
    ItemDecides(v, subjects, items[n], i);
  }

  /** What the code counts in the status response of a page decides the same rows, whichever other
      subjects the page holds. */
  lemma KeepsRowIsWanted(v: View, subjects: seq<SubjectKey>, targets: seq<ResourceId>, items: seq<StatusItem>, filter: Filter,
                         i: nat)
    requires IsStatus(v, subjects, targets, items) && i < |subjects|
    ensures KeepsRow(filter, items, i) <==> Wanted(v, (set r | r in targets), filter, subjects[i])
  {
    var all := set r | r in targets;
    var bound, partial := BoundTargets(v, all, subjects[i]), PartialTargets(v, all, subjects[i]);
    forall n | 0 <= n < |targets|
      ensures i in items[n].bound <==> targets[n] in bound
      ensures i in items[n].partial <==> targets[n] in partial
    {
      StatusDecides(v, subjects, targets, items, i, n);
    }
    CountsDecide(items, targets, i, bound, partial);
    WantedBySets(v, all, filter, subjects[i]);
  }

  lemma WantedBySets(v: View, targets: set<ResourceId>, filter: Filter, k: SubjectKey)
    ensures Wanted(v, targets, filter, k) <==>
            match filter
            case BoundOnly => BoundTargets(v, targets, k) != {}
            case Available => (exists r :: r in targets && r !in BoundTargets(v, targets, k)) || PartialTargets(v, targets, k) != {}
  {
    if r :| r in targets && Partial(v, k, r) {
      assert r in PartialTargets(v, targets, k);
    }
    if r :| r in targets && ShowsBound(v, k, r) {
      assert r in BoundTargets(v, targets, k);
    }
    if r :| r in targets && !ShowsBound(v, k, r) {
      assert r !in BoundTargets(v, targets, k);
    }
  }

  // ----- the endpoint -----

  // No group can be bound: no target is selected for everybody, and no group grant holds one.
  predicate NothingBound(v: View, targets: set<ResourceId>) {
    && (forall r :: r in targets ==> !AllSelected(v, r))
    && (forall g :: g in v.grants && g.ref.GroupRef? ==> g.resources !! targets)
  }

  // The list offers groups, which resolve to group assignments.
  predicate OffersGroups(v: View, list: seq<OptionRow>) {
    forall row :: row in list && row.subject.Some? ==>
      !row.subject.value.UserKey? && (Ref(v, row.subject.value).Some? ==> Ref(v, row.subject.value).value.GroupRef?)
  }

  lemma NothingBoundMeaning(v: View, targets: set<ResourceId>, k: SubjectKey, r: ResourceId)
    requires NothingBound(v, targets) && r in targets
    requires !k.UserKey? && (Ref(v, k).Some? ==> Ref(v, k).value.GroupRef?)
    ensures !ShowsBound(v, k, r)
  {
    forall g | g in v.grants && r in g.resources
      ensures g.ref.UserRef?
    {
    }
  }

  lemma {:induction false} SelectNothing(rows: Rows<OptionRow>, list: seq<OptionRow>)
    requires forall row :: row in list ==> !Shown(rows, row)
    ensures Select(rows, list) == []
  {
    if list != [] {
      var last := list[|list| - 1];
      assert last in list;
      forall row | row in list[..|list| - 1]
        ensures row in list
      {
      }
      SelectNothing(rows, list[..|list| - 1]);
    }
  }

  /** When the guard of the early return holds, the scan finds nothing from any offset on. */
  lemma EarlyReturnAgrees(v: View, list: seq<OptionRow>, targets: set<ResourceId>, start: nat, to: nat)
    requires NothingBound(v, targets) && OffersGroups(v, list)
    ensures Between(OptionRows(v, list, targets, BoundOnly), start, to) == []
    ensures forall row :: row in list ==> !Shown(OptionRows(v, list, targets, BoundOnly), row)
  {
    var rows := OptionRows(v, list, targets, BoundOnly);
    forall row | row in list
      ensures !Shown(rows, row)
    {
      if row.subject.Some? {
        forall r | r in targets
          ensures !ShowsBound(v, row.subject.value, r)
        {
          NothingBoundMeaning(v, targets, row.subject.value, r);
        }
      }
    }
    if start <= to <= |list| {
      forall row | row in list[start..to]
        ensures row in list
      {
      }
      SelectNothing(rows, list[start..to]);
    }
  }

  /** One request for groups or sources.  With or without the early return it answers with exactly
      the candidates the filter wants, from the offset on, in order and at most `limit` of them, and
      with the position of the first one left out. */
  method ListSubjectOptions(v: View, list: seq<OptionRow>, targets: set<ResourceId>, filter: Filter, start: nat, limit: nat)
    returns (items: seq<OptionRow>, next: Option<nat>)
    requires 1 <= limit && OffersGroups(v, list)
    ensures var rows := OptionRows(v, list, targets, filter);
            && |items| <= limit
            && (next.None? ==> items == Between(rows, start, |list|))
            && (next.Some? ==>
                  && start < next.value < |list|
                  && items == Between(rows, start, next.value) && |items| == limit
                  && Shown(rows, list[next.value]))
    ensures filter.BoundOnly? && NothingBound(v, targets) ==> items == [] && next == None
  {
    if filter.BoundOnly? && NothingBound(v, targets) {
      EarlyReturnAgrees(v, list, targets, start, |list|);
      return [], None;
    }
    items, next := ListOptions(OptionRows(v, list, targets, filter), start, limit);
  }

  /** Following the cursor of such requests shows exactly the wanted candidates. */
  lemma WantedAreShown(v: View, list: seq<OptionRow>, targets: set<ResourceId>, filter: Filter, row: OptionRow)
    requires row in list && row.subject.Some?
    ensures row in Select(OptionRows(v, list, targets, filter), list) <==>
            match filter
            case BoundOnly => exists r :: r in targets && Bound(v, row.subject.value, r)
            case Available => exists r :: r in targets && (!Bound(v, row.subject.value, r) || Partial(v, row.subject.value, r))
  {
    SelectMembers(OptionRows(v, list, targets, filter), list, row);
    forall r
      ensures ShowsBound(v, row.subject.value, r) <==> Bound(v, row.subject.value, r)
    {
      ShowsBoundIsBound(v, row.subject.value, r);
    }
  }
}
