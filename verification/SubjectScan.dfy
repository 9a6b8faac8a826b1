/**
 Paging through groups, departments and identity sources that match a binding status
 (server/api/agent_knowledge_scopes.py, list_knowledge_subject_options).

 The underlying list is read in pages of 100; rows that are no candidates or do not match are
 skipped, so the cursor counts rows of the list, not rows returned.
 */
module SubjectScan {
  import opened Common

  const SCAN_PAGE: nat := 100

  // What the server shows: candidates are rows a subject can be made of; the status of a subject
  // depends on that subject alone.
  datatype Rows<!T(!new)> = Rows(list: seq<T>, candidate: T -> bool, matches: T -> bool)

  predicate Shown<T(!new)>(rows: Rows<T>, row: T) {
    rows.candidate(row) && rows.matches(row)
  }

  // The rows to show among the given ones, in order.
  function Select<T(!new)>(rows: Rows<T>, list: seq<T>): seq<T> {
    if list == [] then []
    else
      var last := list[|list| - 1];
      Select(rows, list[..|list| - 1]) + if Shown(rows, last) then [last] else []
  }

  lemma {:induction false} SelectConcat<T(!new)>(rows: Rows<T>, a: seq<T>, b: seq<T>)
    ensures Select(rows, a + b) == Select(rows, a) + Select(rows, b)
  {
    if b == [] {
      assert a + b == a;
    } else {
      SelectConcat(rows, a, b[..|b| - 1]);
      assert (a + b)[..|a + b| - 1] == a + b[..|b| - 1];
    }
  }

  lemma {:induction false} SelectMembers<T(!new)>(rows: Rows<T>, list: seq<T>, row: T)
    ensures row in Select(rows, list) <==> row in list && Shown(rows, row)
  {
    if list != [] {
      var n := |list| - 1;
      SelectMembers(rows, list[..n], row);
      assert list == list[..n] + [list[n]];
    }
  }

  // The rows to show between two positions of the list; nothing past its end.
  function Between<T(!new)>(rows: Rows<T>, from: nat, to: nat): seq<T> {
    if from <= to <= |rows.list| then Select(rows, rows.list[from..to]) else []
  }

  lemma BetweenSplit<T(!new)>(rows: Rows<T>, from: nat, mid: nat, to: nat)
    requires from <= mid <= to <= |rows.list|
    ensures Between(rows, from, to) == Between(rows, from, mid) + Between(rows, mid, to)
  {
    assert rows.list[from..mid] + rows.list[mid..to] == rows.list[from..to];
    SelectConcat(rows, rows.list[from..mid], rows.list[mid..to]);
  }

  lemma BetweenStep<T(!new)>(rows: Rows<T>, from: nat, i: nat)
    requires from <= i < |rows.list|
    ensures Between(rows, from, i + 1) == Between(rows, from, i) + if Shown(rows, rows.list[i]) then [rows.list[i]] else []
  {
    assert rows.list[from..i + 1][..i - from] == rows.list[from..i];
  }

  lemma BetweenAll<T(!new)>(rows: Rows<T>, from: nat)
    requires from <= |rows.list|
    ensures Between(rows, from, from) == []
    ensures Between(rows, from, |rows.list|) == Select(rows, rows.list[from..])
    ensures Between(rows, 0, |rows.list|) == Select(rows, rows.list)
  {
    assert rows.list[from..|rows.list|] == rows.list[from..];
    assert rows.list[0..|rows.list|] == rows.list;
  }

  function Min(a: nat, b: nat): nat {
    if a <= b then a else b
  }

  // The rows of the list from an offset on, at most 100 of them.
  function ListPage<T(!new)>(rows: Rows<T>, offset: nat): seq<T> {
    if |rows.list| <= offset then [] else rows.list[offset..Min(|rows.list|, offset + SCAN_PAGE)]
  }

  // Walks one page; `stop` is the position of the first row that no longer fits.
  method ScanPage<T(!new)>(rows: Rows<T>, start: nat, offset: nat, limit: nat, items0: seq<T>)
    returns (items: seq<T>, stop: Option<nat>)
    requires start <= offset
    requires items0 == Between(rows, start, offset) && |items0| <= limit
    ensures |items| <= limit
    ensures stop.None? ==> items == Between(rows, start, offset + |ListPage(rows, offset)|)
    ensures stop.Some? ==> offset <= stop.value < |rows.list| && items == Between(rows, start, stop.value)
                           && |items| == limit && Shown(rows, rows.list[stop.value])
  {
    items := items0;
    var page := ListPage(rows, offset);
    for index := 0 to |page|
      invariant items == Between(rows, start, offset + index) && |items| <= limit
    {
      var row := page[index];
      BetweenStep(rows, start, offset + index);
      if !rows.candidate(row) {
        continue;
      }
      if !rows.matches(row) {
        continue;
      }
      if |items| == limit {
        return items, Some(offset + index);
      }
      items := items + [row];
    }
    stop := None;
  }

  /** One request.  It returns the matching rows from the offset on, in order and at most `limit` of
      them, with the position of the first matching row it left out, if there is one. */
  method ListOptions<T(!new)>(rows: Rows<T>, start: nat, limit: nat) returns (items: seq<T>, next: Option<nat>)
    requires 1 <= limit
    ensures |items| <= limit
    ensures next.None? ==> items == Between(rows, start, |rows.list|)
    ensures next.Some? ==>
              && start < next.value < |rows.list|
              && items == Between(rows, start, next.value) && |items| == limit
              && Shown(rows, rows.list[next.value])
  {
    items := [];
    var offset := start;
    while true
      invariant offset == start || start < offset <= |rows.list|
      invariant items == Between(rows, start, offset) && |items| <= limit
      decreases |rows.list| - offset
    {
      items, next := ScanPage(rows, start, offset, limit, items);
      if next.Some? {
        return;
      }
      var page := ListPage(rows, offset);
      offset := offset + |page|;
      if |page| == 0 || |rows.list| <= offset {
        return items, None;
      }
    }
  }

  function Flatten<T>(pages: seq<seq<T>>): seq<T> {
    if pages == [] then [] else Flatten(pages[..|pages| - 1]) + pages[|pages| - 1]
  }

  /** Following the cursor until there is none returns every matching row exactly once and in order.
      Every page but the last has exactly `limit` rows, and the cursors strictly increase. */
  method FollowCursor<T(!new)>(rows: Rows<T>, limit: nat) returns (pages: seq<seq<T>>, cursors: seq<nat>)
    requires 1 <= limit
    ensures Flatten(pages) == Select(rows, rows.list)
    ensures |pages| == |cursors| + 1
    ensures forall i :: 0 <= i < |cursors| ==> |pages[i]| == limit
    ensures |pages[|cursors|]| <= limit
    ensures forall i, j :: 0 <= i < j < |cursors| ==> cursors[i] < cursors[j]
  {
    pages, cursors := [], [];
    var offset := 0;
    BetweenAll(rows, 0);
    while true
      invariant offset <= |rows.list|
      invariant Flatten(pages) == Between(rows, 0, offset)
      invariant |pages| == |cursors|
      invariant forall i :: 0 <= i < |pages| ==> |pages[i]| == limit
      invariant forall i :: 0 <= i < |cursors| ==> cursors[i] <= offset
      invariant forall i, j :: 0 <= i < j < |cursors| ==> cursors[i] < cursors[j]
      decreases |rows.list| - offset
    {
      var items, next := ListOptions(rows, offset, limit);
      assert (pages + [items])[..|pages|] == pages;
      pages := pages + [items];
      var to := if next.None? then |rows.list| else next.value;
      BetweenSplit(rows, 0, offset, to);
      if next.None? {
        return;
      }
      cursors := cursors + [to];
      offset := to;
    }
  }

  /** A client may stop and resume at a cursor: the rows before it and the page it names make up the
      whole answer, and that page starts with the row the cursor points at. */
  lemma ResumeIsExact<T(!new)>(rows: Rows<T>, cursor: nat)
    requires cursor < |rows.list| && Shown(rows, rows.list[cursor])
    ensures Select(rows, rows.list) == Between(rows, 0, cursor) + Between(rows, cursor, |rows.list|)
    ensures Between(rows, cursor, |rows.list|) != [] && Between(rows, cursor, |rows.list|)[0] == rows.list[cursor]
  {
    BetweenAll(rows, cursor);
    BetweenSplit(rows, 0, cursor, |rows.list|);
    BetweenSplit(rows, cursor, cursor + 1, |rows.list|);
    BetweenStep(rows, cursor, cursor);
  }
}
