/** The sidebar's mutable lists: insertion by time, reordering, and the projection pass, in place. */
module SidebarLists {
  import opened Text
  import opened SidebarOrder
  import opened SidebarProjection

  function IndexOf(s: seq<Node>, node: Node): (p: nat)
    requires node in s
    ensures p < |s| && s[p] == node
    ensures forall i :: 0 <= i < p ==> s[i] != node
  {
    if s[0] == node then 0 else 1 + IndexOf(s[1..], node)
  }

  /** The list with the node in front of the reference, or last. */
  function PutBefore(s: seq<Node>, node: Node, ref: Option<Node>): seq<Node>
    requires ref.Some? ==> ref.value in s
  {
    var p := if ref.Some? then IndexOf(s, ref.value) else |s|;
    s[..p] + [node] + s[p..]
  }

  /** The nodes of the list that are not threads with one of these ids. */
  function Without(s: seq<Node>, ids: set<nat>): seq<Node> {
    if s == [] then []
    else if s[0].Thread? && s[0].row.id in ids then Without(s[1..], ids)
    else [s[0]] + Without(s[1..], ids)
  }

  /** The row's node is right in front of the reference, or last without one. */
  ghost predicate StandsBefore(s: seq<Node>, row: Row, ref: Option<Node>) {
    exists p :: 0 <= p < |s| && s[p] == Thread(row) && (s[p + 1..] != [] <==> ref.Some?)
      && (ref.Some? ==> s[p + 1..][0] == ref.value)
  }

  class ThreadList {
    var children: seq<Node>

    /**
      `list.insertBefore(item, ref)`, or `appendChild` without a reference node: the
      item moves if it is there, the others keep their order, and it ends right in
      front of the reference, or last.
    */
    method InsertBefore(row: Row, ref: Option<Node>)
      requires ref.Some? ==> ref.value in Drop(children, row.id)
      modifies this
      ensures children == PutBefore(Drop(old(children), row.id), Thread(row), ref)
      ensures Drop(children, row.id) == Drop(old(children), row.id)
      ensures StandsBefore(children, row, ref)
    {
      var s := Drop(children, row.id);
      var p := if ref.Some? then IndexOf(s, ref.value) else |s|;
      children := s[..p] + [Thread(row)] + s[p..];
      DropTwice(old(children), row.id);
      DropInserted(s, row, p);
      InsertedStands(s, row, ref, p);
    }

    /**
      The child that the row goes in front of, if any: the first row that it must
      stand above, else the first other node.
    */
    method ReferenceFor(existing: seq<Node>, row: Row) returns (reference: Option<Node>)
      requires DistinctIds(existing)
      ensures var p := InsertionPoint(existing, row);
        if p == |existing| then reference == None
        else reference == Some(existing[p]) && IndexOf(existing, existing[p]) == p
    {
      var firstNonThread: Option<Node> := None;
      ghost var firstAt := 0;
      for i := 0 to |existing|
        invariant forall j :: 0 <= j < i && existing[j].Thread? ==> !Before(row, existing[j].row)
        invariant firstNonThread.None? ==> firstAt == i
        invariant firstNonThread.Some? ==> firstAt < i && firstNonThread.value == existing[firstAt] && existing[firstAt].Other?
        invariant forall j :: 0 <= j < firstAt ==> existing[j].Thread?
      {
        var child := existing[i];
        if child.Other? {
          if firstNonThread.None? {
            firstNonThread := Some(child);
          }
          continue;
        }
        if firstNonThread.None? {
          firstAt := i + 1;
        }
        if child.row.pinned && !row.pinned {
          continue;
        }
        if (!child.row.pinned && row.pinned) || row.sortMs > child.row.sortMs
           || (row.sortMs == child.row.sortMs && KeyGreater(row.key, child.row.key)) {
          InsertsBelow(existing, row, i);
          return Some(child);
        }
      }
      InsertsAtOther(existing, row, firstAt);
      return firstNonThread;
    }

    method InsertRowItemByTime(row: Row)
      requires DistinctIds(children)
      modifies this
      ensures children == Placed(Drop(old(children), row.id), row)
    {
      var existing := Drop(children, row.id);
      DropSpec(children, row.id);
      var reference := ReferenceFor(existing, row);
      InsertBefore(row, reference);
    }

    /** Below two rows there is nothing to reorder. */
    method ReorderChatsRows()
      requires DistinctIds(children)
      modifies this
      ensures children == if |Rows(old(children))| < 2 then old(children) else Reordered(old(children))
    {
      var rows := Rows(children);
      if |rows| < 2 {
        return;
      }
      var s, p := children, FirstOther(children);
      var firstNonThread := if p < |s| then Some(s[p]) else None;
      var ordered := SortRows(rows);
      ghost var a, b := s[..p], s[p..];
      ReorderStart(s, p);
      for k := 0 to |ordered|
        invariant children == Without(a, RowIds(ordered[..k])) + Threads(ordered[..k]) + Without(b, RowIds(ordered[..k]))
      {
        ReorderStep(a, b, ordered, k, firstNonThread);
        InsertBefore(ordered[k], firstNonThread);
      }
      ReorderDone(s, p, ordered);
    }

    /** After a correction the rows pass the check, and the correction is the identity when they already did. */
    method ApplyChatsSortCorrection()
      requires DistinctIds(children)
      modifies this
      ensures Sorted(Rows(children)) && multiset(Rows(children)) == multiset(Rows(old(children)))
      ensures Sorted(Rows(old(children))) ==> children == old(children)
    {
      ghost var some := Row(0, "", false, 0, false);
      OrderingsAgree(children, some);
      var needed := ChatsSortNeedsCorrection(Rows(children));
      if needed {
        ReorderChatsRows();
      }
    }
  }

  lemma InsertsBelow(s: seq<Node>, row: Row, i: nat)
    requires DistinctIds(s) && i < |s| && s[i].Thread? && Before(row, s[i].row)
    requires forall j :: 0 <= j < i && s[j].Thread? ==> !Before(row, s[j].row)
    ensures IndexOf(s, s[i]) == i && InsertionPoint(s, row) == i
  {
  }

  lemma InsertsAtOther(s: seq<Node>, row: Row, p: nat)
    requires forall j :: 0 <= j < |s| && s[j].Thread? ==> !Before(row, s[j].row)
    requires p <= |s| && forall j :: 0 <= j < p ==> s[j].Thread?
    requires p < |s| ==> s[p].Other?
    ensures InsertionPoint(s, row) == p
    ensures p < |s| ==> IndexOf(s, s[p]) == p
  {
  }

  // ---------------------------------------------------------- reordering

  function RowIds(rows: seq<Row>): set<nat> {
    set i | 0 <= i < |rows| :: rows[i].id
  }

  lemma {:induction false} RowsDistinct(s: seq<Node>)
    requires DistinctIds(s)
    ensures DistinctRows(Rows(s)) && RowIds(Rows(s)) == Ids(s)
  {
    if s != [] {
      DistinctTail(s);
      RowsDistinct(s[1..]);
      var rest := Rows(s[1..]);
      if s[0].Thread? {
        var rows := [s[0].row] + rest;
        forall j | 0 <= j < |rest|
          ensures rest[j].id != s[0].row.id
        {
          assert rest[j].id in RowIds(rest);
        }
        assert rows[0] == s[0].row && forall j :: 0 < j < |rows| ==> rows[j] == rest[j - 1];
        assert forall j :: 0 <= j < |rest| ==> rest[j] == rows[j + 1];
      }
    }
  }

  lemma {:induction false} DistinctCount(rows: seq<Row>, row: Row)
    requires DistinctRows(rows)
    ensures multiset(rows)[row] <= 1
  {
    if rows != [] {
      assert rows == [rows[0]] + rows[1..];
      DistinctCount(rows[1..], row);
      if row == rows[0] {
        assert row !in rows[1..] by {
          forall i | 0 <= i < |rows[1..]|
            ensures rows[1..][i] != row
          {
            assert rows[1..][i] == rows[i + 1];
          }
        }
      }
    }
  }

  lemma Twice(s: seq<Row>, i: nat, j: nat)
    requires i < j < |s| && s[i] == s[j]
    ensures multiset(s)[s[i]] >= 2
  {
    var head, tail := s[..j], s[j..];
    assert s == head + tail && head[i] == s[i] && tail[0] == s[i];
    assert multiset(s) == multiset(head) + multiset(tail);
    assert s[i] in multiset(head) && s[i] in multiset(tail);
  }

  lemma SameMembers(rows: seq<Row>, ordered: seq<Row>)
    requires multiset(rows) == multiset(ordered)
    ensures forall row :: row in ordered <==> row in rows
  {
    forall row
      ensures row in ordered <==> row in rows
    {
      assert row in ordered <==> row in multiset(ordered);
      assert row in rows <==> row in multiset(rows);
    }
  }

  lemma PermutationDistinct(rows: seq<Row>, ordered: seq<Row>)
    requires DistinctRows(rows) && multiset(rows) == multiset(ordered)
    ensures DistinctRows(ordered) && RowIds(ordered) == RowIds(rows)
  {
    SameMembers(rows, ordered);
    forall i | 0 <= i < |ordered|
      ensures ordered[i] in rows
    {
      assert ordered[i] in ordered;
    }
    forall i | 0 <= i < |rows|
      ensures rows[i] in ordered
    {
      assert rows[i] in rows;
    }
    forall i, j | 0 <= i < j < |ordered|
      ensures ordered[i].id != ordered[j].id
    {
      if ordered[i] == ordered[j] {
        DistinctCount(rows, ordered[i]);
        Twice(ordered, i, j);
      }
      if ordered[i].id == ordered[j].id {
        SameIdSameRow(rows, ordered[i], ordered[j]);
      }
    }
  }

  lemma SameIdSameRow(rows: seq<Row>, a: Row, b: Row)
    requires DistinctRows(rows) && a in rows && b in rows && a.id == b.id
    ensures a == b
  {
  }

  lemma {:induction false} WithoutNothing(s: seq<Node>)
    ensures Without(s, {}) == s
  {
    if s != [] {
      WithoutNothing(s[1..]);
    }
  }

  lemma {:induction false} DropConcat(s: seq<Node>, t: seq<Node>, id: nat)
    ensures Drop(s + t, id) == Drop(s, id) + Drop(t, id)
  {
    if s == [] {
      assert s + t == t;
    } else {
      assert (s + t)[0] == s[0] && (s + t)[1..] == s[1..] + t;
      DropConcat(s[1..], t, id);
    }
  }

  lemma {:induction false} DropTwice(s: seq<Node>, id: nat)
    ensures Drop(Drop(s, id), id) == Drop(s, id)
  {
    if s != [] {
      DropTwice(s[1..], id);
      var rest := Drop(s[1..], id);
      assert ([s[0]] + rest)[1..] == rest;
    }
  }

  lemma DropAround(a: seq<Node>, row: Row, b: seq<Node>)
    ensures Drop(a + [Thread(row)] + b, row.id) == Drop(a, row.id) + Drop(b, row.id)
  {
    var one := [Thread(row)];
    DropConcat(a + one, b, row.id);
    DropConcat(a, one, row.id);
    assert one[1..] == [] && Drop(one, row.id) == [];
  }

  lemma DropInserted(s: seq<Node>, row: Row, p: nat)
    requires p <= |s| && Drop(s, row.id) == s
    ensures Drop(s[..p] + [Thread(row)] + s[p..], row.id) == s
  {
    DropAround(s[..p], row, s[p..]);
    DropConcat(s[..p], s[p..], row.id);
    assert s[..p] + s[p..] == s;
  }

  lemma InsertedStands(s: seq<Node>, row: Row, ref: Option<Node>, p: nat)
    requires p <= |s| && if ref.Some? then p < |s| && s[p] == ref.value else p == |s|
    ensures StandsBefore(s[..p] + [Thread(row)] + s[p..], row, ref)
  {
    var t := s[..p] + [Thread(row)] + s[p..];
    assert t[p] == Thread(row) && t[p + 1..] == s[p..];
  }

  lemma {:induction false} DropWithout(s: seq<Node>, ids: set<nat>, id: nat)
    ensures Drop(Without(s, ids), id) == Without(s, ids + {id})
  {
    if s != [] {
      DropWithout(s[1..], ids, id);
      var rest := Without(s[1..], ids);
      assert ([s[0]] + rest)[1..] == rest;
    }
  }

  lemma {:induction false} DropThreads(rows: seq<Row>, id: nat)
    requires id !in RowIds(rows)
    ensures Drop(Threads(rows), id) == Threads(rows)
  {
    if rows != [] {
      assert rows[0].id in RowIds(rows);
      assert Threads(rows)[1..] == Threads(rows[1..]);
      forall x | x in RowIds(rows[1..])
        ensures x in RowIds(rows)
      {
        var i :| 0 <= i < |rows[1..]| && rows[1..][i].id == x;
        assert rows[i + 1].id == x;
      }
      DropThreads(rows[1..], id);
    }
  }

  lemma {:induction false} WithoutKinds(s: seq<Node>, ids: set<nat>)
    ensures forall node :: node in Without(s, ids) ==> node in s
    ensures s != [] && s[0].Other? ==> Without(s, ids) != [] && Without(s, ids)[0] == s[0]
  {
    if s != [] {
      WithoutKinds(s[1..], ids);
      assert s == [s[0]] + s[1..];
    }
  }

  lemma RowIdsNext(rows: seq<Row>, k: nat)
    requires k < |rows|
    ensures RowIds(rows[..k + 1]) == RowIds(rows[..k]) + {rows[k].id}
    ensures DistinctRows(rows) ==> rows[k].id !in RowIds(rows[..k])
  {
  }

  lemma DropFromBlock(a: seq<Node>, b: seq<Node>, block: seq<Row>, ids: set<nat>, id: nat)
    requires id !in RowIds(block)
    ensures Drop(Without(a, ids) + Threads(block) + Without(b, ids), id)
         == Without(a, ids + {id}) + Threads(block) + Without(b, ids + {id})
  {
    DropConcat(Without(a, ids) + Threads(block), Without(b, ids), id);
    DropConcat(Without(a, ids), Threads(block), id);
    DropWithout(a, ids, id);
    DropWithout(b, ids, id);
    DropThreads(block, id);
  }

  predicate AllThreads(s: seq<Node>) {
    forall i :: 0 <= i < |s| ==> s[i].Thread?
  }

  lemma InsertBeforeTail(front: seq<Node>, tail: seq<Node>, ref: Option<Node>, node: Node)
    requires AllThreads(front)
    requires if tail == [] then ref == None else tail[0].Other? && ref == Some(tail[0])
    ensures ref.Some? ==> ref.value in front + tail
    ensures PutBefore(front + tail, node, ref) == front + [node] + tail
  {
    if ref.Some? {
      assert (front + tail)[|front|] == ref.value;
      assert IndexOf(front + tail, ref.value) == |front|;
    }
  }

  lemma ThreadsNext(front: seq<Node>, ordered: seq<Row>, k: nat)
    requires k < |ordered|
    ensures front + Threads(ordered[..k]) + [Thread(ordered[k])] == front + Threads(ordered[..k + 1])
  {
    assert Threads(ordered[..k + 1]) == Threads(ordered[..k]) + [Thread(ordered[k])];
  }

  /** Moving the next row in front of the first other node extends the sorted block by it. */
  lemma ReorderStep(a: seq<Node>, b: seq<Node>, ordered: seq<Row>, k: nat, firstNonThread: Option<Node>)
    requires k < |ordered| && DistinctRows(ordered)
    requires forall node :: node in a ==> node.Thread?
    requires if b == [] then firstNonThread == None else b[0].Other? && firstNonThread == Some(b[0])
    ensures var done, next := RowIds(ordered[..k]), RowIds(ordered[..k + 1]);
      var s := Drop(Without(a, done) + Threads(ordered[..k]) + Without(b, done), ordered[k].id);
      && (firstNonThread.Some? ==> firstNonThread.value in s)
      && PutBefore(s, Thread(ordered[k]), firstNonThread) == Without(a, next) + Threads(ordered[..k + 1]) + Without(b, next)
  {
    var next := RowIds(ordered[..k + 1]);
    RowIdsNext(ordered, k);
    DropFromBlock(a, b, ordered[..k], RowIds(ordered[..k]), ordered[k].id);
    ReorderInsert(a, b, ordered, k, firstNonThread, next);
  }

  lemma ReorderInsert(a: seq<Node>, b: seq<Node>, ordered: seq<Row>, k: nat, ref: Option<Node>, ids: set<nat>)
    requires k < |ordered| && forall node :: node in a ==> node.Thread?
    requires if b == [] then ref == None else b[0].Other? && ref == Some(b[0])
    ensures var s := Without(a, ids) + Threads(ordered[..k]) + Without(b, ids);
      && (ref.Some? ==> ref.value in s)
      && PutBefore(s, Thread(ordered[k]), ref) == Without(a, ids) + Threads(ordered[..k + 1]) + Without(b, ids)
  {
    FrontIsThreads(a, ids, ordered[..k]);
    TailStays(b, ids, ref);
    ThreadsNext(Without(a, ids), ordered, k);
    InsertBeforeTail(Without(a, ids) + Threads(ordered[..k]), Without(b, ids), ref, Thread(ordered[k]));
  }

  lemma TailStays(b: seq<Node>, ids: set<nat>, ref: Option<Node>)
    requires if b == [] then ref == None else b[0].Other? && ref == Some(b[0])
    ensures var tail := Without(b, ids);
      if tail == [] then ref == None else tail[0].Other? && ref == Some(tail[0])
  {
    WithoutKinds(b, ids);
  }

  lemma FrontIsThreads(a: seq<Node>, ids: set<nat>, block: seq<Row>)
    requires forall node :: node in a ==> node.Thread?
    ensures AllThreads(Without(a, ids) + Threads(block))
  {
    WithoutKinds(a, ids);
    var front := Without(a, ids) + Threads(block);
    forall i | 0 <= i < |front|
      ensures front[i].Thread?
    {
      assert i < |Without(a, ids)| ==> front[i] in Without(a, ids);
    }
  }

  lemma {:induction false} WithoutAll(s: seq<Node>, ids: set<nat>)
    requires Ids(s) <= ids
    ensures Without(s, ids) == Others(s)
  {
    if s != [] {
      WithoutAll(s[1..], ids);
    }
  }

  lemma {:induction false} OthersConcat(s: seq<Node>, t: seq<Node>)
    ensures Others(s + t) == Others(s) + Others(t)
  {
    if s == [] {
      assert s + t == t;
    } else {
      assert (s + t)[0] == s[0] && (s + t)[1..] == s[1..] + t;
      OthersConcat(s[1..], t);
    }
  }

  lemma {:induction false} NoOthers(s: seq<Node>)
    requires forall i :: 0 <= i < |s| ==> s[i].Thread?
    ensures Others(s) == []
  {
    if s != [] {
      NoOthers(s[1..]);
    }
  }

  lemma ReorderStart(s: seq<Node>, p: nat)
    requires DistinctIds(s) && p == FirstOther(s)
    ensures var ordered := SortRows(Rows(s));
      && DistinctRows(ordered) && RowIds(ordered) == Ids(s)
      && s == Without(s[..p], RowIds(ordered[..0])) + Threads(ordered[..0]) + Without(s[p..], RowIds(ordered[..0]))
    ensures forall node :: node in s[..p] ==> node.Thread?
  {
    var ordered := SortRows(Rows(s));
    RowsDistinct(s);
    SortRowsSpec(Rows(s));
    PermutationDistinct(Rows(s), ordered);
    NothingMoved(s, p, ordered);
  }

  lemma NothingMoved(s: seq<Node>, p: nat, ordered: seq<Row>)
    requires p <= |s|
    ensures s == Without(s[..p], RowIds(ordered[..0])) + Threads(ordered[..0]) + Without(s[p..], RowIds(ordered[..0]))
  {
    WithoutNothing(s[..p]);
    WithoutNothing(s[p..]);
    assert RowIds(ordered[..0]) == {} && Threads(ordered[..0]) == [];
  }

  lemma ReorderDone(s: seq<Node>, p: nat, ordered: seq<Row>)
    requires p == FirstOther(s) && ordered == SortRows(Rows(s)) && RowIds(ordered) == Ids(s)
    ensures var ids := RowIds(ordered[..|ordered|]);
      Without(s[..p], ids) + Threads(ordered[..|ordered|]) + Without(s[p..], ids) == Reordered(s)
  {
    assert ordered[..|ordered|] == ordered;
    assert s == s[..p] + s[p..];
    IdsConcat(s[..p], s[p..]);
    WithoutAll(s[..p], Ids(s));
    WithoutAll(s[p..], Ids(s));
    NoOthers(s[..p]);
    OthersConcat(s[..p], s[p..]);
  }

  // ----------------------------------------------------- the projection pass

  class Sidebar {
    var lists: Lists

    /** `rows` is the snapshot in document order; the result names the sessions whose projection has settled. */
    method ApplyProjectMoveProjection(rows: seq<Row>, projection: Projection) returns (settled: set<string>)
      modifies this
      ensures lists == Projected(old(lists), rows, projection).lists
      ensures settled == Projected(old(lists), rows, projection).settled
      ensures Placement(old(lists)) && Snapshot(rows, old(lists)) ==>
        forall j :: 0 <= j < |rows| && Movable(rows[j].key, old(lists), projection) ==>
          ExactlyUnderTarget(lists, rows[j].key, projection[rows[j].key])
    {
      ghost var start := Work(lists, map[], {});
      var targetRowsById: map<string, Row> := map[];
      settled := {};
      for i := 0 to |rows|
        invariant Work(lists, targetRowsById, settled) == FirstPass(start, rows[..i], projection)
      {
        assert rows[..i + 1][..i] == rows[..i];
        var row := rows[i];
        if row.key !in projection || !Has(lists, projection[row.key].list, row.id) {
          continue;
        }
        var target := projection[row.key];
        if row.key in targetRowsById && targetRowsById[row.key].id != row.id {
          var existing := targetRowsById[row.key];
          if existing.marked && !row.marked {
            lists := RemoveRow(lists, existing.id);
          } else {
            lists := RemoveRow(lists, row.id);
            continue;
          }
        }
        if !row.marked && target.aged {
          settled := settled + {row.key};
        }
        lists := MoveRow(lists, row, target);
        targetRowsById := targetRowsById[row.key := Moved(row, target)];
      }
      assert rows[..|rows|] == rows;
      ghost var first := FirstPass(start, rows, projection);
      for i := 0 to |rows|
        invariant Work(lists, targetRowsById, settled) == SecondPass(first, rows[..i], projection)
      {
        assert rows[..i + 1][..i] == rows[..i];
        var row := rows[i];
        if row.key !in projection {
          lists := UnmarkRow(lists, row.id);
          continue;
        }
        var target := projection[row.key];
        if Has(lists, target.list, row.id) {
          continue;
        }
        if row.key in targetRowsById {
          lists := RemoveRow(lists, row.id);
        } else if target.list in lists {
          lists := MoveRow(lists, row, target);
          targetRowsById := targetRowsById[row.key := Moved(row, target)];
        }
      }
      if Placement(old(lists)) && Snapshot(rows, old(lists)) {
        forall j | 0 <= j < |rows| && Movable(rows[j].key, old(lists), projection)
          ensures ExactlyUnderTarget(lists, rows[j].key, projection[rows[j].key])
        {
          ProjectionPlacesSessions(old(lists), rows, projection, j);
        }
      }
    }
  }
}
