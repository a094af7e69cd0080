/**
  What the projection pass leaves alone, and why running it again changes
  nothing: bystanders keep their order, tidy lists stay tidy, and a row that is
  already in place is put back where it was.
*/
module SidebarProjectionRerun {
  import opened SidebarOrder
  import opened SidebarProjection

  predicate Bystander(node: Node, listIds: set<ListId>, projection: Projection) {
    node.Thread? ==> node.row.key !in projection || projection[node.row.key].list !in listIds
  }

  /** The nodes that the pass has no business moving, without their projection marks. */
  function Bystanders(s: seq<Node>, listIds: set<ListId>, projection: Projection): seq<Node> {
    if s == [] then []
    else if Bystander(s[0], listIds, projection) then
      [if s[0].Thread? then Thread(s[0].row.(marked := false)) else s[0]] + Bystanders(s[1..], listIds, projection)
    else Bystanders(s[1..], listIds, projection)
  }

  ghost predicate SameBystanders(a: Lists, b: Lists, projection: Projection) {
    a.Keys == b.Keys &&
    forall l :: l in a ==> Bystanders(a[l], a.Keys, projection) == Bystanders(b[l], a.Keys, projection)
  }

  ghost predicate AllTidy(lists: Lists) {
    forall l :: l in lists ==> Tidy(lists[l])
  }

  lemma {:induction false} DropBystanders(s: seq<Node>, id: nat, listIds: set<ListId>, projection: Projection)
    requires forall r :: Thread(r) in s && r.id == id ==> !Bystander(Thread(r), listIds, projection)
    ensures Bystanders(Drop(s, id), listIds, projection) == Bystanders(s, listIds, projection)
  {
    if s != [] {
      assert s[0] in s;
      DropBystanders(s[1..], id, listIds, projection);
    }
  }

  lemma {:induction false} InsertBystanders(s: seq<Node>, p: nat, node: Node, listIds: set<ListId>, projection: Projection)
    requires p <= |s| && !Bystander(node, listIds, projection)
    ensures Bystanders(s[..p] + [node] + s[p..], listIds, projection) == Bystanders(s, listIds, projection)
  {
    var r := s[..p] + [node] + s[p..];
    if p == 0 {
      assert r[1..] == s;
    } else {
      assert r[1..] == s[1..][..p - 1] + [node] + s[1..][p - 1..];
      InsertBystanders(s[1..], p - 1, node, listIds, projection);
    }
  }

  lemma {:induction false} UnmarkBystanders(s: seq<Node>, id: nat, listIds: set<ListId>, projection: Projection)
    ensures Bystanders(Unmark(s, id), listIds, projection) == Bystanders(s, listIds, projection)
  {
    if s != [] {
      assert Unmark(s, id)[1..] == Unmark(s[1..], id);
      UnmarkBystanders(s[1..], id, listIds, projection);
    }
  }

  lemma TidyTail(s: seq<Node>)
    requires Tidy(s) && s != []
    ensures Tidy(s[1..])
    ensures forall node :: node in s[1..] && node.Thread? ==> s[0].Thread? && !Before(node.row, s[0].row)
  {
  }

  lemma TidyCons(first: Node, rest: seq<Node>)
    requires Tidy(rest)
    requires forall node :: node in rest && node.Thread? ==> first.Thread? && !Before(node.row, first.row)
    ensures Tidy([first] + rest)
  {
  }

  lemma {:induction false} DropTidy(s: seq<Node>, id: nat)
    requires Tidy(s)
    ensures Tidy(Drop(s, id))
  {
    if s != [] {
      TidyTail(s);
      DropTidy(s[1..], id);
      DropSpec(s[1..], id);
      if !(s[0].Thread? && s[0].row.id == id) {
        TidyCons(s[0], Drop(s[1..], id));
      }
    }
  }

  lemma UnmarkTidy(s: seq<Node>, id: nat)
    requires Tidy(s)
    ensures Tidy(Unmark(s, id))
  {
  }

  /** What every elementary change of the pass leaves alone. */
  ghost predicate Harmless(before: Lists, after: Lists, rows: seq<Row>, projection: Projection) {
    && KeysKept(after, rows)
    && SameBystanders(after, before, projection)
    && (AllTidy(before) ==> AllTidy(after))
  }

  lemma RemoveHarmless(lists: Lists, rows: seq<Row>, projection: Projection, row: Row)
    requires Placement(lists) && KeysKept(lists, rows) && DistinctRows(rows) && Movable(row.key, lists, projection)
    requires exists j :: 0 <= j < |rows| && rows[j].id == row.id && rows[j].key == row.key
    ensures Harmless(lists, RemoveRow(lists, row.id), rows, projection)
  {
    KeyOfRow(lists, rows, row);
    RemoveRowSpec(lists, row.id);
    forall l | l in lists
      ensures Bystanders(Drop(lists[l], row.id), lists.Keys, projection) == Bystanders(lists[l], lists.Keys, projection)
      ensures Tidy(lists[l]) ==> Tidy(Drop(lists[l], row.id))
    {
      DropBystanders(lists[l], row.id, lists.Keys, projection);
      if Tidy(lists[l]) {
        DropTidy(lists[l], row.id);
      }
    }
  }

  lemma MoveHarmless(lists: Lists, rows: seq<Row>, projection: Projection, row: Row)
    requires Placement(lists) && KeysKept(lists, rows) && DistinctRows(rows) && row in rows
    requires Movable(row.key, lists, projection)
    ensures Harmless(lists, MoveRow(lists, row, projection[row.key]), rows, projection)
  {
    var target := projection[row.key];
    var removed, next := RemoveRow(lists, row.id), MoveRow(lists, row, target);
    RemoveHarmless(lists, rows, projection, row);
    MoveRowSpec(lists, row, target);
    forall l | l in lists
      ensures Bystanders(next[l], lists.Keys, projection) == Bystanders(removed[l], lists.Keys, projection)
      ensures Tidy(removed[l]) ==> Tidy(next[l])
    {
      if l == target.list {
        PlacedHarmless(removed[l], Moved(row, target), lists.Keys, projection);
      }
    }
  }

  lemma PlacedHarmless(s: seq<Node>, row: Row, listIds: set<ListId>, projection: Projection)
    requires !Bystander(Thread(row), listIds, projection)
    ensures Bystanders(Placed(s, row), listIds, projection) == Bystanders(s, listIds, projection)
    ensures Tidy(s) ==> Tidy(Placed(s, row))
  {
    InsertBystanders(s, InsertionPoint(s, row), Thread(row), listIds, projection);
    if Tidy(s) {
      PlacedTidy(s, row);
    }
  }

  lemma UnmarkHarmless(lists: Lists, rows: seq<Row>, projection: Projection, id: nat)
    requires Placement(lists) && KeysKept(lists, rows)
    ensures Harmless(lists, UnmarkRow(lists, id), rows, projection)
  {
    UnmarkRowSpec(lists, id);
    forall l | l in lists
      ensures Bystanders(Unmark(lists[l], id), lists.Keys, projection) == Bystanders(lists[l], lists.Keys, projection)
      ensures Tidy(lists[l]) ==> Tidy(Unmark(lists[l], id))
    {
      UnmarkBystanders(lists[l], id, lists.Keys, projection);
      if Tidy(lists[l]) {
        UnmarkTidy(lists[l], id);
      }
    }
  }

  /** The kept duplicate goes, and the row takes its place. */
  lemma ReplaceHarmless(lists: Lists, rows: seq<Row>, projection: Projection, row: Row, kept: Row)
    requires Sound(lists, rows) && DistinctRows(rows) && row in rows && kept.key == row.key
    requires exists j :: 0 <= j < |rows| && rows[j].id == kept.id && rows[j].key == kept.key
    requires Movable(row.key, lists, projection)
    ensures Harmless(lists, MoveRow(RemoveRow(lists, kept.id), row, projection[row.key]), rows, projection)
  {
    var removed := RemoveRow(lists, kept.id);
    RemoveHarmless(lists, rows, projection, kept);
    RemoveSound(lists, rows, kept.id);
    MoveHarmless(removed, rows, projection, row);
    HarmlessTransitive(lists, removed, MoveRow(removed, row, projection[row.key]), rows, projection);
  }

  lemma FirstStepHarmless(w: Work, rows: seq<Row>, projection: Projection, n: nat)
    requires n < |rows| && DistinctRows(rows) && Sound(w.lists, rows) && KeptIsPlaced(w, rows, projection, n)
    ensures Harmless(w.lists, FirstStep(w, rows[n], projection).lists, rows, projection)
  {
    var row := rows[n];
    if row.key !in projection || !Has(w.lists, projection[row.key].list, row.id) {
      HarmlessToItself(w.lists, rows, projection);
    } else if row.id in Dropped(w, row) {
      RemoveHarmless(w.lists, rows, projection, row);
    } else if Dropped(w, row) == {} {
      MoveHarmless(w.lists, rows, projection, row);
    } else {
      ReplaceHarmless(w.lists, rows, projection, row, w.kept[row.key]);
    }
  }

  lemma SecondStepHarmless(w: Work, rows: seq<Row>, projection: Projection, n: nat)
    requires n < |rows| && DistinctRows(rows) && Sound(w.lists, rows) && KeptIsPlaced(w, rows, projection, |rows|)
    ensures Harmless(w.lists, SecondStep(w, rows[n], projection).lists, rows, projection)
  {
    var row := rows[n];
    if row.key !in projection {
      UnmarkHarmless(w.lists, rows, projection, row.id);
    } else if MovesNow(w, row, projection) {
      MoveHarmless(w.lists, rows, projection, row);
    } else if row.key in w.kept {
      RemoveHarmless(w.lists, rows, projection, row);
    }
  }

  lemma HarmlessTransitive(a: Lists, b: Lists, c: Lists, rows: seq<Row>, projection: Projection)
    requires Harmless(a, b, rows, projection) && Harmless(b, c, rows, projection)
    ensures Harmless(a, c, rows, projection)
  {
  }

  lemma FirstPassStepHarmless(lists: Lists, rows: seq<Row>, projection: Projection, n: nat)
    requires n < |rows| && DistinctRows(rows) && Sound(lists, rows)
    ensures var start := Work(lists, map[], {});
      Harmless(FirstPass(start, rows[..n], projection).lists, FirstPass(start, rows[..n + 1], projection).lists, rows, projection)
  {
    FirstPassInvariant(lists, rows, projection, n);
    PassesSound(Work(lists, map[], {}), rows, projection, rows[..n]);
    assert rows[..n + 1][..n] == rows[..n];
    FirstStepHarmless(FirstPass(Work(lists, map[], {}), rows[..n], projection), rows, projection, n);
  }

  lemma HarmlessToItself(lists: Lists, rows: seq<Row>, projection: Projection)
    requires KeysKept(lists, rows)
    ensures Harmless(lists, lists, rows, projection)
  {
  }

  /** Harmless changes one after the other are a harmless change. */
  lemma {:induction false} HarmlessChain(chain: seq<Lists>, n: nat, rows: seq<Row>, projection: Projection)
    requires n < |chain| && KeysKept(chain[0], rows)
    requires forall i :: 0 <= i < n ==> Harmless(chain[i], chain[i + 1], rows, projection)
    ensures Harmless(chain[0], chain[n], rows, projection)
  {
    if n == 0 {
      HarmlessToItself(chain[0], rows, projection);
    } else {
      HarmlessChain(chain, n - 1, rows, projection);
      assert Harmless(chain[n - 1], chain[n - 1 + 1], rows, projection);
      HarmlessTransitive(chain[0], chain[n - 1], chain[n], rows, projection);
    }
  }

  lemma FirstPassHarmless(lists: Lists, rows: seq<Row>, projection: Projection)
    requires DistinctRows(rows) && Sound(lists, rows)
    ensures Harmless(lists, FirstPass(Work(lists, map[], {}), rows, projection).lists, rows, projection)
  {
    var start := Work(lists, map[], {});
    var chain := seq(|rows| + 1, i requires 0 <= i <= |rows| => FirstPass(start, rows[..i], projection).lists);
    forall i | 0 <= i < |rows|
      ensures Harmless(chain[i], chain[i + 1], rows, projection)
    {
      FirstPassStepHarmless(lists, rows, projection, i);
    }
    assert chain[0] == lists && rows[..|rows|] == rows;
    HarmlessChain(chain, |rows|, rows, projection);
  }

  lemma SecondPassReady(first: Work, rows: seq<Row>, projection: Projection, n: nat)
    requires n <= |rows| && DistinctRows(rows) && Sound(first.lists, rows)
    requires KeptIsPlaced(first, rows, projection, |rows|) && InPlaceIsKept(first, rows, projection, |rows|)
    ensures var w := SecondPass(first, rows[..n], projection);
      Sound(w.lists, rows) && KeptIsPlaced(w, rows, projection, |rows|)
  {
    SecondPassInvariant(first, rows, projection, n);
    PassesSound(first, rows, projection, rows[..n]);
  }

  lemma SecondPassStepHarmless(first: Work, rows: seq<Row>, projection: Projection, n: nat)
    requires n < |rows| && DistinctRows(rows) && Sound(first.lists, rows)
    requires KeptIsPlaced(first, rows, projection, |rows|) && InPlaceIsKept(first, rows, projection, |rows|)
    ensures Harmless(SecondPass(first, rows[..n], projection).lists, SecondPass(first, rows[..n + 1], projection).lists,
                     rows, projection)
  {
    SecondPassReady(first, rows, projection, n);
    assert rows[..n + 1][..n] == rows[..n];
    SecondStepHarmless(SecondPass(first, rows[..n], projection), rows, projection, n);
  }

  lemma SecondPassHarmless(first: Work, rows: seq<Row>, projection: Projection)
    requires DistinctRows(rows) && Sound(first.lists, rows)
    requires KeptIsPlaced(first, rows, projection, |rows|) && InPlaceIsKept(first, rows, projection, |rows|)
    ensures Harmless(first.lists, SecondPass(first, rows, projection).lists, rows, projection)
  {
    var chain := seq(|rows| + 1, i requires 0 <= i <= |rows| => SecondPass(first, rows[..i], projection).lists);
    forall i | 0 <= i < |rows|
      ensures Harmless(chain[i], chain[i + 1], rows, projection)
    {
      SecondPassStepHarmless(first, rows, projection, i);
    }
    assert chain[0] == first.lists && rows[..|rows|] == rows;
    HarmlessChain(chain, |rows|, rows, projection);
  }

  /**
    In every list, the nodes that the projection does not name keep their order,
    and tidy lists stay tidy.
  */
  lemma ProjectionKeepsBystanders(lists: Lists, rows: seq<Row>, projection: Projection)
    requires Placement(lists) && Snapshot(rows, lists)
    ensures var after := Projected(lists, rows, projection).lists;
      SameBystanders(after, lists, projection) && (AllTidy(lists) ==> AllTidy(after))
  {
    SnapshotSound(lists, rows);
    ProjectedInvariant(lists, rows, projection);
    assert rows[..|rows|] == rows;
    FirstPassHarmless(lists, rows, projection);
    PassesSound(Work(lists, map[], {}), rows, projection, rows);
    SecondPassHarmless(FirstPass(Work(lists, map[], {}), rows, projection), rows, projection);
  }

  // ------------------------------------------------------------ running again

  /** Every row that the projection names is the only one of its session, in place, as a move would leave it. */
  ghost predicate AllInPlace(lists: Lists, rows: seq<Row>, projection: Projection) {
    forall row :: row in rows && Movable(row.key, lists, projection) ==>
      && Thread(row) in lists[projection[row.key].list]
      && Moved(row, projection[row.key]) == row
      && forall other :: other in rows && other.key == row.key ==> other == row
  }

  lemma {:induction false} DropAbsent(s: seq<Node>, id: nat)
    requires id !in Ids(s)
    ensures Drop(s, id) == s
  {
    if s != [] {
      DropAbsent(s[1..], id);
    }
  }

  lemma {:induction false} DropAt(s: seq<Node>, k: nat)
    requires DistinctIds(s) && k < |s| && s[k].Thread?
    ensures Drop(s, s[k].row.id) == s[..k] + s[k + 1..]
  {
    DistinctTail(s);
    if k == 0 {
      DropAbsent(s[1..], s[0].row.id);
    } else {
      assert s[1..][k - 1] == s[k];
      DropAt(s[1..], k - 1);
      assert s[..k] + s[k + 1..] == [s[0]] + (s[1..][..k - 1] + s[1..][k..]);
    }
  }

  lemma NoTies(s: seq<Node>, k: nat, row: Row)
    requires DistinctIds(s) && k < |s| && s[k] == Thread(row)
    requires forall r :: Thread(r) in s && r.key == row.key ==> r == row
    ensures forall j :: 0 <= j < |s| && j != k && s[j].Thread? ==> Before(row, s[j].row) || Before(s[j].row, row)
  {
    forall j | 0 <= j < |s| && j != k && s[j].Thread?
      ensures Before(row, s[j].row) || Before(s[j].row, row)
    {
      assert s[j] == Thread(s[j].row) && s[j] in s;
      KeyTotal(row.key, s[j].row.key);
    }
  }

  lemma PlacedInPlace(s: seq<Node>, row: Row)
    requires DistinctIds(s) && Tidy(s) && Thread(row) in s
    requires forall r :: Thread(r) in s && r.key == row.key ==> r == row
    ensures Placed(Drop(s, row.id), row) == s
  {
    var k :| 0 <= k < |s| && s[k] == Thread(row);
    DropAt(s, k);
    NoTies(s, k, row);
    PlacedBack(s, k, row);
  }

  lemma MoveOneInPlace(lists: Lists, row: Row, target: Target, l: ListId)
    requires Placement(lists) && AllTidy(lists) && target.list in lists && l in lists
    requires Thread(row) in lists[target.list] && Moved(row, target) == row
    requires forall r :: Thread(r) in lists[target.list] && r.key == row.key ==> r == row
    ensures MoveRow(lists, row, target)[l] == lists[l]
  {
    if l == target.list {
      PlacedInPlace(lists[l], row);
    } else {
      InThread(lists[target.list], row);
      assert Ids(lists[l]) !! Ids(lists[target.list]);
      DropAbsent(lists[l], row.id);
    }
  }

  /** A move of a row that is in place, in a tidy list without a tie, changes no list. */
  lemma MoveInPlace(lists: Lists, row: Row, target: Target)
    requires Placement(lists) && AllTidy(lists) && target.list in lists
    requires Thread(row) in lists[target.list] && Moved(row, target) == row
    requires forall r :: Thread(r) in lists[target.list] && r.key == row.key ==> r == row
    ensures MoveRow(lists, row, target) == lists
  {
    var next := MoveRow(lists, row, target);
    forall l | l in lists
      ensures next[l] == lists[l]
    {
      MoveOneInPlace(lists, row, target, l);
    }
  }

  /** Only rows of movable sessions have been kept, and under their own key. */
  ghost predicate KeptFrom(kept: map<string, Row>, lists: Lists, rows: seq<Row>, projection: Projection) {
    forall k :: k in kept ==> Movable(k, lists, projection) && kept[k] in rows && kept[k].key == k
  }

  lemma FirstStepInPlace(w: Work, lists: Lists, rows: seq<Row>, projection: Projection, row: Row)
    requires Placement(lists) && AllTidy(lists) && Snapshot(rows, lists) && row in rows
    requires AllInPlace(lists, rows, projection)
    requires w.lists == lists && KeptFrom(w.kept, lists, rows, projection)
    ensures var next := FirstStep(w, row, projection);
      next.lists == lists && KeptFrom(next.kept, lists, rows, projection)
  {
    if row.key in projection && Has(lists, projection[row.key].list, row.id) {
      assert Movable(row.key, lists, projection);
      assert row.key in w.kept ==> w.kept[row.key] == row;
      MoveInPlace(lists, row, projection[row.key]);
    }
  }

  lemma {:induction false} FirstPassInPlace(lists: Lists, rows: seq<Row>, projection: Projection, n: nat)
    requires n <= |rows| && Placement(lists) && AllTidy(lists) && Snapshot(rows, lists)
    requires AllInPlace(lists, rows, projection)
    ensures var w := FirstPass(Work(lists, map[], {}), rows[..n], projection);
      w.lists == lists && KeptFrom(w.kept, lists, rows, projection)
  {
    if n > 0 {
      FirstPassInPlace(lists, rows, projection, n - 1);
      assert rows[..n][..n - 1] == rows[..n - 1];
      FirstStepInPlace(FirstPass(Work(lists, map[], {}), rows[..n - 1], projection), lists, rows, projection, rows[n - 1]);
    }
  }

  /** The same nodes in the same order, except for the marks of rows that the projection does not name. */
  ghost predicate SameButMarks(a: Lists, b: Lists, projection: Projection) {
    && a.Keys == b.Keys
    && forall l :: l in a ==> |a[l]| == |b[l]| && forall i :: 0 <= i < |a[l]| ==>
         a[l][i] == b[l][i] ||
         (b[l][i].Thread? && b[l][i].row.key !in projection && a[l][i] == Thread(b[l][i].row.(marked := false)))
  }

  lemma UnmarkSameButMarks(a: Lists, lists: Lists, rows: seq<Row>, projection: Projection, row: Row)
    requires SameButMarks(a, lists, projection) && Snapshot(rows, lists)
    requires row in rows && row.key !in projection
    ensures SameButMarks(UnmarkRow(a, row.id), lists, projection)
  {
  }

  lemma SameButMarksIds(a: Lists, b: Lists, projection: Projection, l: ListId)
    requires SameButMarks(a, b, projection) && l in a
    ensures Ids(a[l]) == Ids(b[l])
  {
    IdsIndexed(a[l]);
    IdsIndexed(b[l]);
  }

  lemma {:induction false} SecondPassInPlace(first: Work, rows: seq<Row>, projection: Projection, n: nat)
    requires n <= |rows| && Snapshot(rows, first.lists) && AllInPlace(first.lists, rows, projection)
    requires forall k :: k in first.kept ==> Movable(k, first.lists, projection)
    ensures var w := SecondPass(first, rows[..n], projection);
      SameButMarks(w.lists, first.lists, projection) && w.kept == first.kept
  {
    if n > 0 {
      SecondPassInPlace(first, rows, projection, n - 1);
      assert rows[..n][..n - 1] == rows[..n - 1];
      var row := rows[n - 1];
      var w := SecondPass(first, rows[..n - 1], projection);
      assert row in rows;
      if row.key !in projection {
        UnmarkSameButMarks(w.lists, first.lists, rows, projection, row);
      } else if Movable(row.key, first.lists, projection) {
        InThread(first.lists[projection[row.key].list], row);
        SameButMarksIds(w.lists, first.lists, projection, projection[row.key].list);
      }
    }
  }

  /** The projection that is left once the settled sessions have been dropped from it. */
  function Remaining(projection: Projection, settled: set<string>): Projection {
    projection - settled
  }

  lemma ProjectedAllInPlace(lists: Lists, rows: seq<Row>, projection: Projection, again: seq<Row>, settled: set<string>)
    requires Placement(lists) && Snapshot(rows, lists)
    requires Snapshot(again, Projected(lists, rows, projection).lists)
    ensures AllInPlace(Projected(lists, rows, projection).lists, again, Remaining(projection, settled))
  {
    var after := Projected(lists, rows, projection).lists;
    ProjectionKeepsOtherRows(lists, rows, projection);
    forall row | row in again && Movable(row.key, after, Remaining(projection, settled))
      ensures Thread(row) in after[projection[row.key].list] && Moved(row, projection[row.key]) == row
      ensures forall other :: other in again && other.key == row.key ==> other == row
    {
      var l :| l in after && Thread(row) in after[l];
      var r0 :| r0 in rows && r0.id == row.id && r0.key == row.key;
      var j :| 0 <= j < |rows| && rows[j] == r0;
      ProjectionPlacesSessions(lists, rows, projection, j);
      forall other | other in again && other.key == row.key
        ensures other == row
      {
        var m :| m in after && Thread(other) in after[m];
      }
    }
  }

  /**
    A second run changes no list: when the lists were tidy, the pass with the
    remaining projection, over any enumeration of the rows that are now attached,
    leaves every node of every list where it is and only clears projection marks
    of rows that are no longer projected.
  */
  lemma SecondRunChangesNothing(lists: Lists, rows: seq<Row>, projection: Projection, again: seq<Row>)
    requires Placement(lists) && AllTidy(lists) && Snapshot(rows, lists)
    requires Snapshot(again, Projected(lists, rows, projection).lists)
    ensures var w := Projected(lists, rows, projection);
      var left := Remaining(projection, w.settled);
      SameButMarks(Projected(w.lists, again, left).lists, w.lists, left)
  {
    var w := Projected(lists, rows, projection);
    var left := Remaining(projection, w.settled);
    ProjectionKeepsOtherRows(lists, rows, projection);
    ProjectionKeepsBystanders(lists, rows, projection);
    ProjectedAllInPlace(lists, rows, projection, again, w.settled);
    assert again[..|again|] == again;
    FirstPassInPlace(w.lists, again, left, |again|);
    SecondPassInPlace(FirstPass(Work(w.lists, map[], {}), again, left), again, left, |again|);
  }
}
