/**
 Which knowledge bases of a bound instance an agent may see
 (server/api/agent_knowledge_scopes.py, _update_selected_knowledge_visibility;
 server/core/agent_knowledge_scope.py and server/polarrag/access.py for what "visible" means).

 A binding row keeps, per type of knowledge base, either no list (the dynamic default: everything)
 or an explicit list, and a set of exclusions.  Encoded lists are equal exactly when the sets are,
 and a missing exclusion list is the empty one.
 */
module Visibility {
  import opened Common

  type ResourceId = string

  datatype KbType = PUBLIC | PERSONAL

  datatype Resource = Resource(id: ResourceId, kbType: KbType)

  datatype Row = Row(
    publicIds: Option<set<ResourceId>>,
    personalIds: Option<set<ResourceId>>,
    publicExcluded: set<ResourceId>,
    personalExcluded: set<ResourceId>)

  datatype Status = BOUND | PARTIAL | UNBOUND

  function Selected(row: Row, t: KbType): Option<set<ResourceId>> {
    if t.PUBLIC? then row.publicIds else row.personalIds
  }

  function Exclusions(row: Row, t: KbType): set<ResourceId> {
    if t.PUBLIC? then row.publicExcluded else row.personalExcluded
  }

  function OtherType(t: KbType): KbType {
    if t.PUBLIC? then PERSONAL else PUBLIC
  }

  // What resolving the agent's scope decides for a knowledge base of the row's instance.
  predicate Visible(row: Row, resource: Resource) {
    && resource.id !in Exclusions(row, resource.kbType)
    && (Selected(row, resource.kbType).None? || resource.id in Selected(row, resource.kbType).value)
  }

  function SetSelected(row: Row, t: KbType, ids: Option<set<ResourceId>>): Row {
    if t.PUBLIC? then row.(publicIds := ids) else row.(personalIds := ids)
  }

  function SetExclusions(row: Row, t: KbType, ids: set<ResourceId>): Row {
    if t.PUBLIC? then row.(publicExcluded := ids) else row.(personalExcluded := ids)
  }

  // One knowledge base is bound or unbound.
  function Edit(row: Row, resource: Resource, bind: bool): Row {
    var t, id, raw := resource.kbType, resource.id, Selected(row, resource.kbType);
    if bind then
      var cleared := SetExclusions(SetExclusions(row, OtherType(t), Exclusions(row, OtherType(t)) - {id}),
                                   t, Exclusions(row, t) - {id});
      if raw.Some? then SetSelected(cleared, t, Some(raw.value + {id})) else cleared
    else if raw.None? then SetExclusions(row, t, Exclusions(row, t) + {id})
    else SetSelected(row, t, Some(raw.value - {id}))
  }

  function EditAll(row: Row, resources: seq<Resource>, bind: bool): Row {
    if resources == [] then row
    else Edit(EditAll(row, resources[..|resources| - 1], bind), resources[|resources| - 1], bind)
  }

  /** A binding row of the database. */
  class InstanceBinding {
    var publicIds: Option<set<ResourceId>>
    var personalIds: Option<set<ResourceId>>
    var publicExcluded: set<ResourceId>
    var personalExcluded: set<ResourceId>

    function State(): Row
      reads this
    {
      Row(publicIds, personalIds, publicExcluded, personalExcluded)
    }

    method SetField(t: KbType, ids: Option<set<ResourceId>>)
      modifies this
      ensures State() == SetSelected(old(State()), t, ids)
    {
      if t.PUBLIC? {
        publicIds := ids;
      } else {
        personalIds := ids;
      }
    }

    method SetExclusionField(t: KbType, ids: set<ResourceId>)
      modifies this
      ensures State() == SetExclusions(old(State()), t, ids)
    {
      if t.PUBLIC? {
        publicExcluded := ids;
      } else {
        personalExcluded := ids;
      }
    }

    method EditOne(resource: Resource, bind: bool)
      modifies this
      ensures State() == Edit(old(State()), resource, bind)
    {
      var t := resource.kbType;
      var raw := Selected(State(), t);
      var exclusions := Exclusions(State(), t);
      if bind {
        exclusions := exclusions - {resource.id};
        var other := Exclusions(State(), OtherType(t));
        if resource.id in other {
          SetExclusionField(OtherType(t), other - {resource.id});
        } else {
          assert other - {resource.id} == other;
        }
        if raw.Some? {
          SetField(t, Some(raw.value + {resource.id}));
        }
      } else if raw.None? {
        exclusions := exclusions + {resource.id};
      } else {
        SetField(t, Some(raw.value - {resource.id}));
      }
      SetExclusionField(t, exclusions);
    }
  }

  // The resources paired with one binding row, in order.
  ghost function ResourcesOf(rows: seq<(Resource, InstanceBinding)>, b: InstanceBinding): seq<Resource> {
    if rows == [] then []
    else
      var last := rows[|rows| - 1];
      ResourcesOf(rows[..|rows| - 1], b) + if last.1 == b then [last.0] else []
  }

  /** The selective endpoint.  A row may hold several of the resources; each row ends as if only its
      own resources had been edited, one after the other. */
  method UpdateSelected(rows: seq<(Resource, InstanceBinding)>, bind: bool)
    modifies set i | 0 <= i < |rows| :: rows[i].1
    ensures forall i :: 0 <= i < |rows| ==>
              rows[i].1.State() == EditAll(old(rows[i].1.State()), ResourcesOf(rows, rows[i].1), bind)
  {
    for n := 0 to |rows|
      invariant forall i :: 0 <= i < |rows| ==>
                  rows[i].1.State() == EditAll(old(rows[i].1.State()), ResourcesOf(rows[..n], rows[i].1), bind)
    {
      label before:
      var (resource, binding) := rows[n];
      binding.EditOne(resource, bind);
      forall i | 0 <= i < |rows|
        ensures rows[i].1.State() == EditAll(old(rows[i].1.State()), ResourcesOf(rows[..n + 1], rows[i].1), bind)
      {
        assert rows[..n + 1][..n] == rows[..n];
        var b := rows[i].1;
        if b == binding {
          EditAllStep(old(b.State()), ResourcesOf(rows[..n], b), resource, bind);
        } else {
          assert b.State() == old@before(b.State());
          assert ResourcesOf(rows[..n + 1], b) == ResourcesOf(rows[..n], b);
        }
      }
    }
    assert rows[..|rows|] == rows;
  }

  lemma EditAllStep(row: Row, resources: seq<Resource>, resource: Resource, bind: bool)
    ensures EditAll(row, resources + [resource], bind) == Edit(EditAll(row, resources, bind), resource, bind)
  {
    assert (resources + [resource])[..|resources|] == resources;
  }

  // Ids are unique: a knowledge base does not occur with two types.
  ghost predicate SameId(resources: seq<Resource>, q: Resource) {
    forall r :: r in resources && r.id == q.id ==> r == q
  }

  /** Binding makes exactly the named knowledge bases visible, unbinding makes exactly them
      invisible, and every other one, of either type, stays as it was. */
  lemma {:induction false} EditAllVisible(row: Row, resources: seq<Resource>, bind: bool, q: Resource)
    requires SameId(resources, q)
    ensures Visible(EditAll(row, resources, bind), q) <==> if q in resources then bind else Visible(row, q)
  {
    if resources != [] {
      var n := |resources| - 1;
      EditAllVisible(row, resources[..n], bind, q);
      assert resources == resources[..n] + [resources[n]];
    }
  }

  /** A dynamic default stays dynamic and an explicit list stays explicit, so a knowledge base that
      appears later is visible exactly when it would have been before the edit. */
  lemma {:induction false} DefaultStaysDynamic(row: Row, resources: seq<Resource>, bind: bool, t: KbType)
    ensures Selected(EditAll(row, resources, bind), t).None? <==> Selected(row, t).None?
  {
    if resources != [] {
      DefaultStaysDynamic(row, resources[..|resources| - 1], bind, t);
    }
  }

  function Ids(resources: set<Resource>): set<ResourceId> {
    set r | r in resources :: r.id
  }

  function IdsOfType(resources: set<Resource>, t: KbType): set<ResourceId> {
    set r | r in resources && r.kbType == t :: r.id
  }

  // All edits at once, for one of the two lists and its exclusions.
  function EditList(list: Option<set<ResourceId>>, named: set<ResourceId>, bind: bool): Option<set<ResourceId>> {
    if list.None? then None else if bind then Some(list.value + named) else Some(list.value - named)
  }

  function EditExcluded(list: Option<set<ResourceId>>, excluded: set<ResourceId>, named: set<ResourceId>,
                        all: set<ResourceId>, bind: bool): set<ResourceId> {
    if bind then excluded - all else if list.None? then excluded + named else excluded
  }

  function EditSet(row: Row, resources: set<Resource>, bind: bool): Row {
    var shared, owned, all := IdsOfType(resources, PUBLIC), IdsOfType(resources, PERSONAL), Ids(resources);
    Row(EditList(row.publicIds, shared, bind), EditList(row.personalIds, owned, bind),
        EditExcluded(row.publicIds, row.publicExcluded, shared, all, bind),
        EditExcluded(row.personalIds, row.personalExcluded, owned, all, bind))
  }

  /** The order in which the database lists the knowledge bases does not matter, nor does a repeated
      request: the result depends on the set of knowledge bases named. */
  lemma {:induction false} EditAllIsEditSet(row: Row, resources: seq<Resource>, bind: bool)
    ensures EditAll(row, resources, bind) == EditSet(row, (set r | r in resources), bind)
  {
    if resources == [] {
      EditSetNone(row, bind);
      assert (set r | r in resources) == {};
    } else {
      var n := |resources| - 1;
      EditAllIsEditSet(row, resources[..n], bind);
      assert resources == resources[..n] + [resources[n]];
      EditSetStep(row, (set r | r in resources[..n]), resources[n], bind);
      assert (set r | r in resources) == (set r | r in resources[..n]) + {resources[n]};
    }
  }

  lemma EditSetNone(row: Row, bind: bool)
    ensures EditSet(row, {}, bind) == row
  {
    assert Ids({}) == {} && IdsOfType({}, PUBLIC) == {} && IdsOfType({}, PERSONAL) == {};
    assert row.publicIds.Some? ==> row.publicIds.value + {} == row.publicIds.value - {} == row.publicIds.value;
    assert row.personalIds.Some? ==> row.personalIds.value + {} == row.personalIds.value - {} == row.personalIds.value;
    assert row.publicExcluded + {} == row.publicExcluded - {} == row.publicExcluded;
    assert row.personalExcluded + {} == row.personalExcluded - {} == row.personalExcluded;
  }

  lemma IdsStep(resources: set<Resource>, q: Resource, t: KbType)
    ensures Ids(resources + {q}) == Ids(resources) + {q.id}
    ensures IdsOfType(resources + {q}, t) == IdsOfType(resources, t) + if q.kbType == t then {q.id} else {}
  {
  }

  lemma SetSteps(s: set<ResourceId>, named: set<ResourceId>, id: ResourceId)
    ensures s + (named + {id}) == s + named + {id}
    ensures s - (named + {id}) == s - named - {id}
    ensures named + {} == named
  {
  }

  lemma EditSetStep(row: Row, resources: set<Resource>, q: Resource, bind: bool)
    ensures Edit(EditSet(row, resources, bind), q, bind) == EditSet(row, resources + {q}, bind)
  {
    IdsStep(resources, q, PUBLIC);
    IdsStep(resources, q, PERSONAL);
    var shared, owned := IdsOfType(resources, PUBLIC), IdsOfType(resources, PERSONAL);
    SetSteps(row.publicExcluded, Ids(resources), q.id);
    SetSteps(row.personalExcluded, Ids(resources), q.id);
    SetSteps(row.publicExcluded, shared, q.id);
    SetSteps(row.personalExcluded, owned, q.id);
    if row.publicIds.Some? {
      SetSteps(row.publicIds.value, shared, q.id);
    }
    if row.personalIds.Some? {
      SetSteps(row.personalIds.value, owned, q.id);
    }
  }

  datatype Request = Request(resources: seq<Resource>, bind: bool)

  function RunRequests(row: Row, requests: seq<Request>): Row {
    if requests == [] then row
    else
      var last := requests[|requests| - 1];
      EditAll(RunRequests(row, requests[..|requests| - 1]), last.resources, last.bind)
  }

  // Request n is the last one that names the knowledge base.
  ghost predicate LastNaming(requests: seq<Request>, q: Resource, n: nat) {
    && n < |requests| && q in requests[n].resources
    && forall m :: n < m < |requests| ==> q !in requests[m].resources
  }

  /** Over any sequence of edits the last one that names a knowledge base decides whether it is
      visible. */
  lemma {:induction false} LastRequestDecides(row: Row, requests: seq<Request>, q: Resource)
    requires forall n :: 0 <= n < |requests| ==> SameId(requests[n].resources, q)
    ensures forall n: nat :: LastNaming(requests, q, n) ==> (Visible(RunRequests(row, requests), q) <==> requests[n].bind)
    ensures (forall n :: 0 <= n < |requests| ==> q !in requests[n].resources) ==>
              (Visible(RunRequests(row, requests), q) <==> Visible(row, q))
  {
    if requests != [] {
      var last := |requests| - 1;
      var shorter := requests[..last];
      LastRequestDecides(row, shorter, q);
      EditAllVisible(RunRequests(row, shorter), requests[last].resources, requests[last].bind, q);
      if q !in requests[last].resources {
        forall n: nat | LastNaming(requests, q, n)
          ensures LastNaming(shorter, q, n)
        {
        }
      }
    }
  }

  /** Unbinding a visible knowledge base and binding it again gives the row back exactly when the
      other type held no stale exclusion of it. */
  lemma UnbindBindRestores(row: Row, q: Resource)
    requires Visible(row, q)
    ensures Edit(Edit(row, q, false), q, true) == row <==> q.id !in Exclusions(row, OtherType(q.kbType))
  {
    var t := q.kbType;
    var back := Edit(Edit(row, q, false), q, true);
    assert Exclusions(back, t) == Exclusions(row, t);
    if Selected(row, t).Some? {
      assert Selected(row, t).value - {q.id} + {q.id} == Selected(row, t).value;
    }
    if q.id !in Exclusions(row, OtherType(t)) {
      assert Exclusions(row, OtherType(t)) - {q.id} == Exclusions(row, OtherType(t));
    } else {
      assert q.id !in Exclusions(back, OtherType(t));
    }
  }

  // ----- the whole-type endpoint and the summary -----

  function SetType(row: Row, t: KbType, bind: bool): Row {
    SetExclusions(SetSelected(row, t, if bind then None else Some({})), t, {})
  }

  // An explicit list has no exclusions beside it.
  predicate WellKept(row: Row) {
    && (row.publicIds.Some? ==> row.publicExcluded == {})
    && (row.personalIds.Some? ==> row.personalExcluded == {})
  }

  lemma {:induction false} WellKeptStays(row: Row, resources: seq<Resource>, bind: bool, t: KbType)
    requires WellKept(row)
    ensures WellKept(EditAll(row, resources, bind)) && WellKept(SetType(row, t, bind))
  {
    if resources != [] {
      WellKeptStays(row, resources[..|resources| - 1], bind, t);
    }
  }

  function TypeStatus(rows: seq<Row>, t: KbType): Status {
    if rows != [] && (forall row :: row in rows ==> Selected(row, t).None?) && (forall row :: row in rows ==> Exclusions(row, t) == {})
    then BOUND
    else if forall row :: row in rows ==> Selected(row, t) == Some({})
    then UNBOUND
    else PARTIAL
  }

  lemma {:induction false} LongerThanAll(ids: set<ResourceId>) returns (n: nat)
    ensures forall id :: id in ids ==> |id| < n
  {
    if ids == {} {
      n := 0;
    } else {
      var id :| id in ids;
      var m := LongerThanAll(ids - {id});
      n := if m <= |id| then |id| + 1 else m;
    }
  }

  lemma NewId(ids: set<ResourceId>) returns (id: ResourceId)
    ensures id !in ids
  {
    var n := LongerThanAll(ids);
    id := seq(n, _ => 'x');
  }

  /** The summary is about all knowledge bases a row may ever hold: BOUND means that everything of the
      type is visible in every row, UNBOUND that nothing is. */
  lemma TypeStatusMeaning(rows: seq<Row>, t: KbType)
    requires forall row :: row in rows ==> WellKept(row)
    ensures TypeStatus(rows, t).BOUND? <==> rows != [] && forall row, id :: row in rows ==> Visible(row, Resource(id, t))
    ensures TypeStatus(rows, t).UNBOUND? <==> forall row, id :: row in rows ==> !Visible(row, Resource(id, t))
  {
    forall row | row in rows
      ensures (forall id :: Visible(row, Resource(id, t))) <==> Selected(row, t).None? && Exclusions(row, t) == {}
      ensures (forall id :: !Visible(row, Resource(id, t))) <==> Selected(row, t) == Some({})
    {
      RowMeaning(row, t);
    }
    if rows != [] {
      assert rows[0] in rows;
    }
  }

  lemma RowMeaning(row: Row, t: KbType)
    requires WellKept(row)
    ensures (forall id :: Visible(row, Resource(id, t))) <==> Selected(row, t).None? && Exclusions(row, t) == {}
    ensures (forall id :: !Visible(row, Resource(id, t))) <==> Selected(row, t) == Some({})
  {
    if Selected(row, t).Some? {
      var ids := Selected(row, t).value;
      var id := NewId(ids);
      assert !Visible(row, Resource(id, t));
      if ids != {} {
        var shown :| shown in ids;
        assert Visible(row, Resource(shown, t));
      }
    } else {
      var id := NewId(Exclusions(row, t));
      assert Visible(row, Resource(id, t));
      if Exclusions(row, t) != {} {
        var hidden :| hidden in Exclusions(row, t);
        assert !Visible(row, Resource(hidden, t));
      }
    }
  }

  /** The whole-type endpoint makes everything of its type visible, or nothing, and does not touch the
      other type. */
  lemma SetTypeMeaning(row: Row, t: KbType, bind: bool, q: Resource)
    ensures Visible(SetType(row, t, bind), q) <==> if q.kbType == t then bind else Visible(row, q)
    ensures Selected(SetType(row, t, bind), t).None? <==> bind
  {
  }
}
