/**
  The pass that makes the sidebar show moved sessions under their new project:
  it removes duplicate rows, moves rows between the lists and inserts them by
  time. A list is named by the project (or the chats section) that owns it.
*/
module SidebarProjection {
  import opened SidebarOrder

  type ListId = nat

  type Lists = map<ListId, seq<Node>>

  /** Where a session belongs. `sortMs` 0 means unknown; `aged` says the move happened long enough ago to settle. */
  datatype Target = Target(list: ListId, sortMs: nat, aged: bool)

  type Projection = map<string, Target>

  /** `kept` is `targetRowsById`, `settled` the sessions whose projection is dropped afterwards. */
  datatype Work = Work(lists: Lists, kept: map<string, Row>, settled: set<string>)

  function Ids(s: seq<Node>): set<nat> {
    if s == [] then {}
    else (if s[0].Thread? then {s[0].row.id} else {}) + Ids(s[1..])
  }

  predicate Has(lists: Lists, l: ListId, id: nat) {
    l in lists && id in Ids(lists[l])
  }

  function Drop(s: seq<Node>, id: nat): seq<Node> {
    if s == [] then []
    else if s[0].Thread? && s[0].row.id == id then Drop(s[1..], id)
    else [s[0]] + Drop(s[1..], id)
  }

  function RemoveRow(lists: Lists, id: nat): Lists {
    map l | l in lists :: Drop(lists[l], id)
  }

  /** The row as the move leaves it: its time recorded, its projection mark set. */
  function Moved(row: Row, target: Target): Row {
    row.(sortMs := if target.sortMs > 0 then target.sortMs else row.sortMs, marked := true)
  }

  function MoveRow(lists: Lists, row: Row, target: Target): Lists {
    map l | l in lists ::
      if l == target.list then Placed(Drop(lists[l], row.id), Moved(row, target)) else Drop(lists[l], row.id)
  }

  function UnmarkNode(node: Node, id: nat): Node {
    if node.Thread? && node.row.id == id then Thread(node.row.(marked := false)) else node
  }

  function Unmark(s: seq<Node>, id: nat): seq<Node> {
    seq(|s|, i requires 0 <= i < |s| => UnmarkNode(s[i], id))
  }

  function UnmarkRow(lists: Lists, id: nat): Lists {
    map l | l in lists :: Unmark(lists[l], id)
  }

  /** First pass: among the rows already in place keep one per session and put it at its time. */
  function FirstStep(w: Work, row: Row, projection: Projection): Work {
    if row.key !in projection || !Has(w.lists, projection[row.key].list, row.id) then w
    else
      var target := projection[row.key];
      if row.key in w.kept && w.kept[row.key].id != row.id && !(w.kept[row.key].marked && !row.marked) then
        w.(lists := RemoveRow(w.lists, row.id))
      else
        var lists := if row.key in w.kept && w.kept[row.key].id != row.id
                     then RemoveRow(w.lists, w.kept[row.key].id) else w.lists;
        Work(MoveRow(lists, row, target), w.kept[row.key := Moved(row, target)],
             if !row.marked && target.aged then w.settled + {row.key} else w.settled)
  }

  /** Second pass: rows elsewhere are duplicates of a kept row, or are moved. */
  function SecondStep(w: Work, row: Row, projection: Projection): Work {
    if row.key !in projection then w.(lists := UnmarkRow(w.lists, row.id))
    else
      var target := projection[row.key];
      if Has(w.lists, target.list, row.id) then w
      else if row.key in w.kept then w.(lists := RemoveRow(w.lists, row.id))
      else if target.list in w.lists then
        w.(lists := MoveRow(w.lists, row, target), kept := w.kept[row.key := Moved(row, target)])
      else w
  }

  function FirstPass(w: Work, rows: seq<Row>, projection: Projection): Work {
    if rows == [] then w else FirstStep(FirstPass(w, rows[..|rows| - 1], projection), rows[|rows| - 1], projection)
  }

  function SecondPass(w: Work, rows: seq<Row>, projection: Projection): Work {
    if rows == [] then w else SecondStep(SecondPass(w, rows[..|rows| - 1], projection), rows[|rows| - 1], projection)
  }

  /** `applyProjectMoveProjection` for a snapshot of the rows in document order. */
  function Projected(lists: Lists, rows: seq<Row>, projection: Projection): Work {
    SecondPass(FirstPass(Work(lists, map[], {}), rows, projection), rows, projection)
  }

  // ------------------------------------------------------------- worlds

  predicate DistinctIds(s: seq<Node>) {
    forall i, j :: 0 <= i < j < |s| && s[i].Thread? && s[j].Thread? ==> s[i].row.id != s[j].row.id
  }

  /** Every row element hangs in at most one place. */
  ghost predicate Placement(lists: Lists) {
    && (forall l :: l in lists ==> DistinctIds(lists[l]))
    && forall l, m :: l in lists && m in lists && l != m ==> Ids(lists[l]) !! Ids(lists[m])
  }

  predicate DistinctRows(rows: seq<Row>) {
    forall i, j :: 0 <= i < j < |rows| ==> rows[i].id != rows[j].id
  }

  ghost predicate Attached(lists: Lists, id: nat) {
    exists l :: Has(lists, l, id)
  }

  /** `rows` lists the attached rows, each once, in any order. */
  ghost predicate Snapshot(rows: seq<Row>, lists: Lists) {
    && DistinctRows(rows)
    && (forall row :: row in rows ==> exists l :: l in lists && Thread(row) in lists[l])
    && forall l, row :: l in lists && Thread(row) in lists[l] ==> row in rows
  }

  /** Attached elements still belong to the session they belonged to in the snapshot. */
  ghost predicate KeysKept(lists: Lists, rows: seq<Row>) {
    forall l, row :: l in lists && Thread(row) in lists[l] ==>
      exists r :: r in rows && r.id == row.id && r.key == row.key
  }

  predicate Movable(key: string, lists: Lists, projection: Projection) {
    key in projection && projection[key].list in lists
  }

  // --------------------------------------------------- single list lemmas

  lemma {:induction false} DropIds(s: seq<Node>, id: nat)
    ensures Ids(Drop(s, id)) == Ids(s) - {id}
  {
    if s != [] {
      DropIds(s[1..], id);
      IdsCons(s[0], Drop(s[1..], id));
    }
  }

  lemma {:induction false} DropMembers(s: seq<Node>, id: nat)
    ensures forall node :: node in Drop(s, id) <==> node in s && !(node.Thread? && node.row.id == id)
  {
    if s != [] {
      DropMembers(s[1..], id);
      assert s == [s[0]] + s[1..];
    }
  }

  lemma {:induction false} DropDistinct(s: seq<Node>, id: nat)
    requires DistinctIds(s)
    ensures DistinctIds(Drop(s, id))
  {
    if s != [] {
      DistinctTail(s);
      DropDistinct(s[1..], id);
      DropIds(s[1..], id);
      DistinctCons(s[0], Drop(s[1..], id));
    }
  }

  lemma DropSpec(s: seq<Node>, id: nat)
    ensures Ids(Drop(s, id)) == Ids(s) - {id}
    ensures forall node :: node in Drop(s, id) <==> node in s && !(node.Thread? && node.row.id == id)
    ensures DistinctIds(s) ==> DistinctIds(Drop(s, id))
  {
    DropIds(s, id);
    DropMembers(s, id);
    if DistinctIds(s) {
      DropDistinct(s, id);
    }
  }

  lemma IdsCons(node: Node, s: seq<Node>)
    ensures Ids([node] + s) == Ids(s) + (if node.Thread? then {node.row.id} else {})
  {
  }

  lemma {:induction false} IdsIndexed(s: seq<Node>)
    ensures forall i :: 0 <= i < |s| && s[i].Thread? ==> s[i].row.id in Ids(s)
    ensures forall x :: x in Ids(s) ==> exists i :: 0 <= i < |s| && s[i].Thread? && s[i].row.id == x
  {
    if s != [] {
      IdsIndexed(s[1..]);
      forall x | x in Ids(s)
        ensures exists i :: 0 <= i < |s| && s[i].Thread? && s[i].row.id == x
      {
        if s[0].Thread? && s[0].row.id == x {
          assert s[0].row.id == x;
        } else {
          assert x in Ids(s[1..]);
          var i :| 0 <= i < |s[1..]| && s[1..][i].Thread? && s[1..][i].row.id == x;
          assert s[i + 1].row.id == x;
        }
      }
      forall i | 0 <= i < |s| && s[i].Thread?
        ensures s[i].row.id in Ids(s)
      {
        assert i > 0 ==> s[1..][i - 1] == s[i];
      }
    }
  }

  lemma DistinctTail(s: seq<Node>)
    requires s != [] && DistinctIds(s)
    ensures DistinctIds(s[1..]) && (s[0].Thread? ==> s[0].row.id !in Ids(s[1..]))
  {
    IdsIndexed(s[1..]);
  }

  lemma DistinctCons(node: Node, s: seq<Node>)
    requires DistinctIds(s) && (node.Thread? ==> node.row.id !in Ids(s))
    ensures DistinctIds([node] + s)
  {
    var t := [node] + s;
    IdsIndexed(s);
    forall i, j | 0 <= i < j < |t| && t[i].Thread? && t[j].Thread?
      ensures t[i].row.id != t[j].row.id
    {
      assert t[j] == s[j - 1];
      if i > 0 {
        assert t[i] == s[i - 1];
      }
    }
  }

  lemma InThread(s: seq<Node>, row: Row)
    requires Thread(row) in s
    ensures row.id in Ids(s)
  {
  }

  lemma {:induction false} IdsConcat(s: seq<Node>, t: seq<Node>)
    ensures Ids(s + t) == Ids(s) + Ids(t)
  {
    if s == [] {
      assert s + t == t;
    } else {
      assert s + t == [s[0]] + (s[1..] + t) && s == [s[0]] + s[1..];
      IdsConcat(s[1..], t);
      IdsCons(s[0], s[1..] + t);
      IdsCons(s[0], s[1..]);
    }
  }

  lemma InsertDistinct(s: seq<Node>, p: nat, row: Row)
    requires p <= |s| && DistinctIds(s) && row.id !in Ids(s)
    ensures DistinctIds(s[..p] + [Thread(row)] + s[p..])
  {
    var r := s[..p] + [Thread(row)] + s[p..];
    IdsIndexed(s);
    assert forall j :: 0 <= j < p ==> r[j] == s[j];
    assert forall j :: p < j < |r| ==> r[j] == s[j - 1];
    forall i, j | 0 <= i < j < |r| && r[i].Thread? && r[j].Thread?
      ensures r[i].row.id != r[j].row.id
    {
      if i == p {
        assert s[j - 1].row.id in Ids(s);
      } else if j == p {
        assert s[i].row.id in Ids(s);
      }
    }
  }

  lemma PlacedSpec(s: seq<Node>, row: Row)
    requires row.id !in Ids(s)
    ensures Ids(Placed(s, row)) == Ids(s) + {row.id}
    ensures forall node :: node in Placed(s, row) <==> node in s || node == Thread(row)
    ensures DistinctIds(s) ==> DistinctIds(Placed(s, row))
  {
    var p := InsertionPoint(s, row);
    assert s == s[..p] + s[p..];
    IdsConcat(s[..p], s[p..]);
    IdsConcat(s[..p] + [Thread(row)], s[p..]);
    IdsConcat(s[..p], [Thread(row)]);
    IdsCons(Thread(row), []);
    assert [Thread(row)] + [] == [Thread(row)];
    if DistinctIds(s) {
      InsertDistinct(s, p, row);
    }
  }

  // ------------------------------------------------------ whole sidebar lemmas

  lemma RemoveRowSpec(lists: Lists, id: nat)
    requires Placement(lists)
    ensures var next := RemoveRow(lists, id);
      && next.Keys == lists.Keys && Placement(next)
      && (forall l, x :: Has(next, l, x) <==> Has(lists, l, x) && x != id)
      && forall l, row :: l in next ==> (Thread(row) in next[l] <==> Thread(row) in lists[l] && row.id != id)
  {
    var next := RemoveRow(lists, id);
    forall l | l in lists
      ensures DistinctIds(next[l]) && Ids(next[l]) == Ids(lists[l]) - {id}
      ensures forall node :: node in next[l] <==> node in lists[l] && !(node.Thread? && node.row.id == id)
    {
      DropSpec(lists[l], id);
    }
  }

  /** What moving a row to (or away from) a list makes of that list. */
  ghost predicate MovedRight(s: seq<Node>, next: seq<Node>, row: Row, moved: Row, here: bool) {
    && DistinctIds(next)
    && Ids(next) == Ids(s) - {row.id} + (if here then {row.id} else {})
    && forall r :: Thread(r) in next <==> (Thread(r) in s && r.id != row.id) || (here && r == moved)
  }

  lemma MoveOneList(s: seq<Node>, row: Row, moved: Row, here: bool)
    requires DistinctIds(s) && moved.id == row.id
    ensures MovedRight(s, if here then Placed(Drop(s, row.id), moved) else Drop(s, row.id), row, moved, here)
  {
    DropSpec(s, row.id);
    if here {
      PlacedSpec(Drop(s, row.id), moved);
    }
  }

  lemma MoveRowSpec(lists: Lists, row: Row, target: Target)
    requires Placement(lists) && target.list in lists
    ensures var next := MoveRow(lists, row, target);
      && next.Keys == lists.Keys && Placement(next)
      && (forall l, x :: Has(next, l, x) <==> (if x == row.id then l == target.list else Has(lists, l, x)))
      && forall l, r :: l in next ==>
           (Thread(r) in next[l] <==>
              (Thread(r) in lists[l] && r.id != row.id) || (l == target.list && r == Moved(row, target)))
  {
    var next, moved := MoveRow(lists, row, target), Moved(row, target);
    forall l | l in lists
      ensures MovedRight(lists[l], next[l], row, moved, l == target.list)
    {
      MoveOneList(lists[l], row, moved, l == target.list);
    }
    MovedPlacement(lists, next, row, moved, target.list);
  }

  lemma MovedPlacement(lists: Lists, next: Lists, row: Row, moved: Row, target: ListId)
    requires Placement(lists) && target in lists && next.Keys == lists.Keys
    requires forall l :: l in lists ==> MovedRight(lists[l], next[l], row, moved, l == target)
    ensures Placement(next)
    ensures forall l, x :: Has(next, l, x) <==> (if x == row.id then l == target else Has(lists, l, x))
    ensures forall l, r :: l in next ==>
      (Thread(r) in next[l] <==> (Thread(r) in lists[l] && r.id != row.id) || (l == target && r == moved))
  {
    forall l, m | l in next && m in next && l != m
      ensures Ids(next[l]) !! Ids(next[m])
    {
      assert Ids(lists[l]) !! Ids(lists[m]);
      assert MovedRight(lists[l], next[l], row, moved, l == target);
      assert MovedRight(lists[m], next[m], row, moved, m == target);
    }
  }

  lemma UnmarkRowSpec(lists: Lists, id: nat)
    requires Placement(lists)
    ensures var next := UnmarkRow(lists, id);
      && next.Keys == lists.Keys && Placement(next)
      && (forall l, x :: Has(next, l, x) <==> Has(lists, l, x))
      && (forall l, r :: l in next && Thread(r) in next[l] ==>
            exists before :: Thread(before) in lists[l] && before.id == r.id && before.key == r.key)
      && forall l, r: Row :: l in next && r.id != id ==> (Thread(r) in next[l] <==> Thread(r) in lists[l])
  {
    var next := UnmarkRow(lists, id);
    forall l | l in lists
      ensures DistinctIds(next[l]) && Ids(next[l]) == Ids(lists[l])
      ensures forall r :: Thread(r) in next[l] ==>
        exists before :: Thread(before) in lists[l] && before.id == r.id && before.key == r.key
      ensures forall r: Row :: r.id != id ==> (Thread(r) in next[l] <==> Thread(r) in lists[l])
    {
      UnmarkIds(lists[l], id);
      UnmarkSpec(lists[l], id);
    }
  }

  lemma UnmarkIds(s: seq<Node>, id: nat)
    ensures Ids(Unmark(s, id)) == Ids(s)
    ensures DistinctIds(s) ==> DistinctIds(Unmark(s, id))
  {
    var u := Unmark(s, id);
    IdsIndexed(s);
    IdsIndexed(u);
    assert forall i :: 0 <= i < |s| && s[i].Thread? ==> u[i].Thread? && u[i].row.id == s[i].row.id;
    assert forall i :: 0 <= i < |s| && u[i].Thread? ==> s[i].Thread? && s[i].row.id == u[i].row.id;
  }

  lemma UnmarkSpec(s: seq<Node>, id: nat)
    ensures forall r :: Thread(r) in Unmark(s, id) ==>
      exists before :: Thread(before) in s && before.id == r.id && before.key == r.key
    ensures forall r: Row :: r.id != id ==> (Thread(r) in Unmark(s, id) <==> Thread(r) in s)
  {
    var u := Unmark(s, id);
    forall r | Thread(r) in u
      ensures exists before :: Thread(before) in s && before.id == r.id && before.key == r.key
      ensures r.id != id ==> Thread(r) in s
    {
      var i :| 0 <= i < |u| && u[i] == Thread(r);
      assert s[i] in s && s[i] == Thread(s[i].row);
    }
    forall r: Row | r.id != id && Thread(r) in s
      ensures Thread(r) in u
    {
      var i :| 0 <= i < |s| && s[i] == Thread(r);
      assert u[i] == s[i];
    }
  }

  // ------------------------------------------------------- the first pass

  /** A kept row is attached under its target, marked, at the target's time. */
  ghost predicate KeptIsPlaced(w: Work, rows: seq<Row>, projection: Projection, upTo: nat)
    requires upTo <= |rows|
  {
    forall k :: k in w.kept ==>
      && Movable(k, w.lists, projection)
      && w.kept[k].key == k && w.kept[k].marked
      && (projection[k].sortMs > 0 ==> w.kept[k].sortMs == projection[k].sortMs)
      && Thread(w.kept[k]) in w.lists[projection[k].list]
      && exists j :: 0 <= j < upTo && rows[j].id == w.kept[k].id && rows[j].key == k
  }

  /** The row element that the first pass removes when it meets `row`, if any. */
  function Dropped(w: Work, row: Row): set<nat> {
    if row.key in w.kept && w.kept[row.key].id != row.id then
      if w.kept[row.key].marked && !row.marked then {w.kept[row.key].id} else {row.id}
    else {}
  }

  /** What the first pass does to the sidebar when it meets a row in place. */
  ghost predicate FirstEffect(w: Work, next: Work, row: Row, target: Target) {
      && next.lists.Keys == w.lists.Keys && Placement(next.lists)
      && (forall l, x :: Has(next.lists, l, x) <==> Has(w.lists, l, x) && x !in Dropped(w, row))
      && (forall l, r: Row :: l in next.lists && r.id != row.id && r.id !in Dropped(w, row) ==>
            (Thread(r) in next.lists[l] <==> Thread(r) in w.lists[l]))
      && (if row.id in Dropped(w, row) then next.kept == w.kept
          else next.kept == w.kept[row.key := Moved(row, target)]
               && target.list in next.lists && Thread(Moved(row, target)) in next.lists[target.list])
  }

  lemma FirstStepEffect(w: Work, row: Row, projection: Projection)
    requires Placement(w.lists) && row.key in projection && Has(w.lists, projection[row.key].list, row.id)
    ensures FirstEffect(w, FirstStep(w, row, projection), row, projection[row.key])
  {
    var target := projection[row.key];
    if row.id in Dropped(w, row) {
      RemoveRowSpec(w.lists, row.id);
    } else if Dropped(w, row) == {} {
      MoveRowSpec(w.lists, row, target);
    } else {
      RemoveRowSpec(w.lists, w.kept[row.key].id);
      MoveRowSpec(RemoveRow(w.lists, w.kept[row.key].id), row, target);
    }
  }

  /** Rows disappear in the first pass only in favour of the kept row of their session. */
  ghost predicate LostToKept(w: Work, lists: Lists, rows: seq<Row>, projection: Projection, n: nat)
    requires n <= |rows|
  {
    forall l, j :: 0 <= j < |rows| && Has(lists, l, rows[j].id) && !Has(w.lists, l, rows[j].id) ==>
      && j < n && Movable(rows[j].key, lists, projection)
      && rows[j].key in w.kept && w.kept[rows[j].key].id != rows[j].id
  }

  /** Every row met in place that is still there is the kept one. */
  ghost predicate InPlaceIsKept(w: Work, rows: seq<Row>, projection: Projection, n: nat)
    requires n <= |rows|
  {
    forall j :: 0 <= j < n && rows[j].key in projection && Has(w.lists, projection[rows[j].key].list, rows[j].id) ==>
      rows[j].key in w.kept && w.kept[rows[j].key].id == rows[j].id
  }

  ghost predicate FirstInvariant(w: Work, lists: Lists, rows: seq<Row>, projection: Projection, n: nat)
    requires n <= |rows|
  {
    && w.lists.Keys == lists.Keys && Placement(w.lists)
    && (forall l, x :: Has(w.lists, l, x) ==> Has(lists, l, x))
    && KeptIsPlaced(w, rows, projection, n)
    && LostToKept(w, lists, rows, projection, n)
    && InPlaceIsKept(w, rows, projection, n)
  }

  lemma KeptRowSurvives(w: Work, rows: seq<Row>, projection: Projection, n: nat, k: string)
    requires n < |rows| && DistinctRows(rows) && KeptIsPlaced(w, rows, projection, n)
    requires k in w.kept && (k != rows[n].key || rows[n].id in Dropped(w, rows[n]))
    ensures w.kept[k].id != rows[n].id && w.kept[k].id !in Dropped(w, rows[n])
    ensures exists j :: 0 <= j < n && rows[j].id == w.kept[k].id && rows[j].key == k
  {
  }

  lemma FirstEffectKeepsKept(w: Work, next: Work, rows: seq<Row>, projection: Projection, n: nat)
    requires n < |rows| && DistinctRows(rows) && KeptIsPlaced(w, rows, projection, n)
    requires rows[n].key in projection && FirstEffect(w, next, rows[n], projection[rows[n].key])
    ensures KeptIsPlaced(next, rows, projection, n + 1)
  {
    var row := rows[n];
    forall k | k in next.kept
      ensures Movable(k, next.lists, projection) && next.kept[k].key == k && next.kept[k].marked
      ensures projection[k].sortMs > 0 ==> next.kept[k].sortMs == projection[k].sortMs
      ensures Thread(next.kept[k]) in next.lists[projection[k].list]
      ensures exists j :: 0 <= j < n + 1 && rows[j].id == next.kept[k].id && rows[j].key == k
    {
      if k == row.key && row.id !in Dropped(w, row) {
        assert rows[n].id == next.kept[k].id;
      } else {
        KeptRowSurvives(w, rows, projection, n, k);
      }
    }
  }

  lemma FirstEffectLoses(w: Work, next: Work, lists: Lists, rows: seq<Row>, projection: Projection, n: nat)
    requires n < |rows| && DistinctRows(rows) && FirstInvariant(w, lists, rows, projection, n)
    requires rows[n].key in projection && FirstEffect(w, next, rows[n], projection[rows[n].key])
    requires projection[rows[n].key].list in lists
    ensures LostToKept(next, lists, rows, projection, n + 1)
  {
    var row := rows[n];
    forall l, j | 0 <= j < |rows| && Has(lists, l, rows[j].id) && !Has(next.lists, l, rows[j].id)
      ensures j < n + 1 && Movable(rows[j].key, lists, projection)
      ensures rows[j].key in next.kept && next.kept[rows[j].key].id != rows[j].id
    {
      if Has(w.lists, l, rows[j].id) {
        assert rows[j].id in Dropped(w, row);
        var i :| 0 <= i < n && rows[i].id == w.kept[row.key].id && rows[i].key == row.key;
        assert j == n || j == i;
      } else {
        assert j < n;
      }
    }
  }

  lemma FirstEffectKeeps(w: Work, next: Work, rows: seq<Row>, projection: Projection, n: nat)
    requires n < |rows| && DistinctRows(rows) && InPlaceIsKept(w, rows, projection, n)
    requires rows[n].key in projection && FirstEffect(w, next, rows[n], projection[rows[n].key])
    ensures InPlaceIsKept(next, rows, projection, n + 1)
  {
  }

  lemma FirstStepInvariant(w: Work, lists: Lists, rows: seq<Row>, projection: Projection, n: nat)
    requires n < |rows| && DistinctRows(rows) && FirstInvariant(w, lists, rows, projection, n)
    ensures FirstInvariant(FirstStep(w, rows[n], projection), lists, rows, projection, n + 1)
  {
    var row := rows[n];
    if row.key in projection && Has(w.lists, projection[row.key].list, row.id) {
      FirstStepEffect(w, row, projection);
      FirstEffectKeepsKept(w, FirstStep(w, row, projection), rows, projection, n);
      FirstEffectLoses(w, FirstStep(w, row, projection), lists, rows, projection, n);
      FirstEffectKeeps(w, FirstStep(w, row, projection), rows, projection, n);
    }
  }

  lemma {:induction false} FirstPassInvariant(lists: Lists, rows: seq<Row>, projection: Projection, n: nat)
    requires n <= |rows| && DistinctRows(rows) && Placement(lists)
    ensures FirstInvariant(FirstPass(Work(lists, map[], {}), rows[..n], projection), lists, rows, projection, n)
  {
    if n > 0 {
      FirstPassInvariant(lists, rows, projection, n - 1);
      assert rows[..n][..n - 1] == rows[..n - 1];
      FirstStepInvariant(FirstPass(Work(lists, map[], {}), rows[..n - 1], projection), lists, rows, projection, n - 1);
    }
  }

  // ------------------------------------------------------ the second pass

  predicate MovesNow(w: Work, row: Row, projection: Projection) {
    row.key in projection && row.key !in w.kept && projection[row.key].list in w.lists
    && !Has(w.lists, projection[row.key].list, row.id)
  }

  /** What the second pass does to the sidebar when it meets a row. */
  ghost predicate SecondEffect(w: Work, next: Work, row: Row, projection: Projection) {
    && next.lists.Keys == w.lists.Keys && Placement(next.lists)
    && (forall l, x :: x != row.id ==> (Has(next.lists, l, x) <==> Has(w.lists, l, x)))
    && (forall l, r: Row :: l in next.lists && r.id != row.id ==>
          (Thread(r) in next.lists[l] <==> Thread(r) in w.lists[l]))
    && (if MovesNow(w, row, projection) then
          var target := projection[row.key];
          && next.kept == w.kept[row.key := Moved(row, target)]
          && Thread(Moved(row, target)) in next.lists[target.list]
          && forall l :: Has(next.lists, l, row.id) <==> l == target.list
        else
          && next.kept == w.kept
          && (forall l :: Has(next.lists, l, row.id) <==>
                Has(w.lists, l, row.id) && (row.key in projection && row.key in w.kept ==>
                  Has(w.lists, projection[row.key].list, row.id)))
          && (row.key in projection && Has(w.lists, projection[row.key].list, row.id) ==> next == w))
  }

  lemma SecondStepEffect(w: Work, row: Row, projection: Projection)
    requires Placement(w.lists)
    ensures SecondEffect(w, SecondStep(w, row, projection), row, projection)
  {
    if row.key !in projection {
      UnmarkRowSpec(w.lists, row.id);
    } else if MovesNow(w, row, projection) {
      MoveRowSpec(w.lists, row, projection[row.key]);
      InThread(MoveRow(w.lists, row, projection[row.key])[projection[row.key].list], Moved(row, projection[row.key]));
    } else if row.key in w.kept {
      RemoveRowSpec(w.lists, row.id);
    }
  }

  /** Every row met so far that is movable is the kept one, under the target, or gone. */
  ghost predicate MetIsKept(w: Work, rows: seq<Row>, projection: Projection, n: nat)
    requires n <= |rows|
  {
    forall j :: 0 <= j < n && Movable(rows[j].key, w.lists, projection) ==>
      && rows[j].key in w.kept
      && forall l :: Has(w.lists, l, rows[j].id) ==>
           rows[j].id == w.kept[rows[j].key].id && l == projection[rows[j].key].list
  }

  ghost predicate SecondInvariant(w: Work, first: Work, rows: seq<Row>, projection: Projection, n: nat)
    requires n <= |rows|
  {
    && w.lists.Keys == first.lists.Keys && Placement(w.lists)
    && KeptIsPlaced(w, rows, projection, |rows|)
    && (forall k :: k in first.kept ==> k in w.kept && w.kept[k] == first.kept[k])
    && MetIsKept(w, rows, projection, n)
    && (forall l, j :: n <= j < |rows| ==> (Has(w.lists, l, rows[j].id) <==> Has(first.lists, l, rows[j].id)))
    && forall l, j :: 0 <= j < |rows| && !Movable(rows[j].key, first.lists, projection) ==>
         (Has(w.lists, l, rows[j].id) <==> Has(first.lists, l, rows[j].id))
  }

  lemma SecondEffectKeepsKept(w: Work, next: Work, rows: seq<Row>, projection: Projection, n: nat)
    requires n < |rows| && DistinctRows(rows) && KeptIsPlaced(w, rows, projection, |rows|)
    requires SecondEffect(w, next, rows[n], projection)
    ensures KeptIsPlaced(next, rows, projection, |rows|)
  {
    var row := rows[n];
    forall k | k in next.kept
      ensures Movable(k, next.lists, projection) && next.kept[k].key == k && next.kept[k].marked
      ensures projection[k].sortMs > 0 ==> next.kept[k].sortMs == projection[k].sortMs
      ensures Thread(next.kept[k]) in next.lists[projection[k].list]
      ensures exists j :: 0 <= j < |rows| && rows[j].id == next.kept[k].id && rows[j].key == k
    {
      if k == row.key && MovesNow(w, row, projection) {
        assert rows[n].id == next.kept[k].id;
      } else {
        var j :| 0 <= j < |rows| && rows[j].id == w.kept[k].id && rows[j].key == k;
        InThread(w.lists[projection[k].list], w.kept[k]);
        assert j == n ==> next == w;
      }
    }
  }

  lemma SecondEffectMeets(w: Work, next: Work, first: Work, rows: seq<Row>, projection: Projection, n: nat)
    requires n < |rows| && DistinctRows(rows) && SecondInvariant(w, first, rows, projection, n)
    requires InPlaceIsKept(first, rows, projection, |rows|)
    requires SecondEffect(w, next, rows[n], projection)
    ensures MetIsKept(next, rows, projection, n + 1)
  {
    var row := rows[n];
    forall j | 0 <= j < n + 1 && Movable(rows[j].key, next.lists, projection)
      ensures rows[j].key in next.kept
      ensures forall l :: Has(next.lists, l, rows[j].id) ==>
        rows[j].id == next.kept[rows[j].key].id && l == projection[rows[j].key].list
    {
      if j == n {
        if Has(w.lists, projection[row.key].list, row.id) {
          assert first.kept[row.key].id == row.id;
        }
      } else {
        assert rows[j].key in w.kept && rows[j].id != row.id;
      }
    }
  }

  lemma SecondStepInvariant(w: Work, first: Work, rows: seq<Row>, projection: Projection, n: nat)
    requires n < |rows| && DistinctRows(rows) && SecondInvariant(w, first, rows, projection, n)
    requires InPlaceIsKept(first, rows, projection, |rows|)
    ensures SecondInvariant(SecondStep(w, rows[n], projection), first, rows, projection, n + 1)
  {
    var next := SecondStep(w, rows[n], projection);
    SecondStepEffect(w, rows[n], projection);
    SecondEffectKeepsKept(w, next, rows, projection, n);
    SecondEffectMeets(w, next, first, rows, projection, n);
    SecondEffectFrames(w, next, first, rows, projection, n);
  }

  lemma SecondEffectFrames(w: Work, next: Work, first: Work, rows: seq<Row>, projection: Projection, n: nat)
    requires n < |rows| && DistinctRows(rows) && SecondInvariant(w, first, rows, projection, n)
    requires SecondEffect(w, next, rows[n], projection)
    ensures forall k :: k in first.kept ==> k in next.kept && next.kept[k] == first.kept[k]
    ensures forall l, j :: n + 1 <= j < |rows| ==> (Has(next.lists, l, rows[j].id) <==> Has(first.lists, l, rows[j].id))
    ensures forall l, j :: 0 <= j < |rows| && !Movable(rows[j].key, first.lists, projection) ==>
      (Has(next.lists, l, rows[j].id) <==> Has(first.lists, l, rows[j].id))
  {
  }

  lemma {:induction false} SecondPassInvariant(first: Work, rows: seq<Row>, projection: Projection, n: nat)
    requires n <= |rows| && DistinctRows(rows) && Placement(first.lists)
    requires KeptIsPlaced(first, rows, projection, |rows|) && InPlaceIsKept(first, rows, projection, |rows|)
    ensures SecondInvariant(SecondPass(first, rows[..n], projection), first, rows, projection, n)
  {
    if n > 0 {
      SecondPassInvariant(first, rows, projection, n - 1);
      assert rows[..n][..n - 1] == rows[..n - 1];
      SecondStepInvariant(SecondPass(first, rows[..n - 1], projection), first, rows, projection, n - 1);
    }
  }

  // ------------------------------------------------------ keys of elements

  /** Rows with the element id of a snapshot row belong to that row's session. */
  lemma KeyOfRow(lists: Lists, rows: seq<Row>, row: Row)
    requires KeysKept(lists, rows) && DistinctRows(rows)
    requires exists j :: 0 <= j < |rows| && rows[j].id == row.id && rows[j].key == row.key
    ensures forall l, r :: l in lists && Thread(r) in lists[l] && r.id == row.id ==> r.key == row.key
  {
  }

  /** Every element hangs in one place and belongs to its session. */
  ghost predicate Sound(lists: Lists, rows: seq<Row>) {
    Placement(lists) && KeysKept(lists, rows)
  }

  lemma RemoveSound(lists: Lists, rows: seq<Row>, id: nat)
    requires Sound(lists, rows)
    ensures Sound(RemoveRow(lists, id), rows)
  {
    RemoveRowSpec(lists, id);
  }

  lemma MoveSound(lists: Lists, rows: seq<Row>, row: Row, target: Target)
    requires Sound(lists, rows) && row in rows && target.list in lists
    ensures Sound(MoveRow(lists, row, target), rows)
  {
    MoveRowSpec(lists, row, target);
  }

  lemma UnmarkSound(lists: Lists, rows: seq<Row>, id: nat)
    requires Sound(lists, rows)
    ensures Sound(UnmarkRow(lists, id), rows)
  {
    UnmarkRowSpec(lists, id);
  }

  lemma FirstStepSound(w: Work, rows: seq<Row>, row: Row, projection: Projection)
    requires Sound(w.lists, rows) && row in rows
    ensures Sound(FirstStep(w, row, projection).lists, rows)
  {
    if row.key in projection && Has(w.lists, projection[row.key].list, row.id) {
      if row.id in Dropped(w, row) {
        RemoveSound(w.lists, rows, row.id);
      } else if Dropped(w, row) == {} {
        MoveSound(w.lists, rows, row, projection[row.key]);
      } else {
        RemoveSound(w.lists, rows, w.kept[row.key].id);
        MoveSound(RemoveRow(w.lists, w.kept[row.key].id), rows, row, projection[row.key]);
      }
    }
  }

  lemma SecondStepSound(w: Work, rows: seq<Row>, row: Row, projection: Projection)
    requires Sound(w.lists, rows) && row in rows
    ensures Sound(SecondStep(w, row, projection).lists, rows)
  {
    if row.key !in projection {
      UnmarkSound(w.lists, rows, row.id);
    } else if MovesNow(w, row, projection) {
      MoveSound(w.lists, rows, row, projection[row.key]);
    } else {
      RemoveSound(w.lists, rows, row.id);
    }
  }

  lemma {:induction false} PassesSound(w: Work, rows: seq<Row>, projection: Projection, done: seq<Row>)
    requires Sound(w.lists, rows) && forall row :: row in done ==> row in rows
    ensures Sound(FirstPass(w, done, projection).lists, rows)
    ensures Sound(SecondPass(w, done, projection).lists, rows)
  {
    if done != [] {
      var before, row := done[..|done| - 1], done[|done| - 1];
      assert row in done && forall r :: r in before ==> r in done;
      PassesSound(w, rows, projection, before);
      FirstStepSound(FirstPass(w, before, projection), rows, row, projection);
      SecondStepSound(SecondPass(w, before, projection), rows, row, projection);
    }
  }

  // -------------------------------------------------------- main theorem

  /** The session has exactly one row, and it is in the list that the projection names. */
  ghost predicate ExactlyUnderTarget(lists: Lists, key: string, target: Target) {
    target.list in lists &&
    exists row ::
      && Thread(row) in lists[target.list] && row.key == key && row.marked
      && (target.sortMs > 0 ==> row.sortMs == target.sortMs)
      && forall l, r :: l in lists && Thread(r) in lists[l] && r.key == key ==> l == target.list && r == row
  }

  lemma SnapshotSound(lists: Lists, rows: seq<Row>)
    requires Placement(lists) && Snapshot(rows, lists)
    ensures Sound(lists, rows)
  {
  }

  lemma ProjectedInvariant(lists: Lists, rows: seq<Row>, projection: Projection)
    requires Sound(lists, rows) && DistinctRows(rows)
    ensures var first, w := FirstPass(Work(lists, map[], {}), rows, projection), Projected(lists, rows, projection);
      && FirstInvariant(first, lists, rows, projection, |rows|)
      && SecondInvariant(w, first, rows, projection, |rows|)
      && Sound(w.lists, rows)
  {
    var first := FirstPass(Work(lists, map[], {}), rows, projection);
    assert rows[..|rows|] == rows;
    FirstPassInvariant(lists, rows, projection, |rows|);
    SecondPassInvariant(first, rows, projection, |rows|);
    PassesSound(Work(lists, map[], {}), rows, projection, rows);
    PassesSound(first, rows, projection, rows);
  }

  /** Rows that are not movable are attached after both passes exactly where they were. */
  lemma OthersStay(w: Work, first: Work, lists: Lists, rows: seq<Row>, projection: Projection, l: ListId, j: nat)
    requires j < |rows| && !Movable(rows[j].key, lists, projection)
    requires FirstInvariant(first, lists, rows, projection, |rows|)
    requires SecondInvariant(w, first, rows, projection, |rows|)
    ensures Has(w.lists, l, rows[j].id) <==> Has(lists, l, rows[j].id)
  {
  }

  lemma MetRowIsExact(w: Work, rows: seq<Row>, projection: Projection, j: nat)
    requires Sound(w.lists, rows) && j < |rows|
    requires KeptIsPlaced(w, rows, projection, |rows|) && MetIsKept(w, rows, projection, |rows|)
    requires Movable(rows[j].key, w.lists, projection)
    ensures ExactlyUnderTarget(w.lists, rows[j].key, projection[rows[j].key])
  {
    var key := rows[j].key;
    var row, target := w.kept[key], projection[key];
    forall l, r | l in w.lists && Thread(r) in w.lists[l] && r.key == key
      ensures l == target.list && r == row
    {
      var r0 :| r0 in rows && r0.id == r.id && r0.key == r.key;
      var i :| 0 <= i < |rows| && rows[i] == r0;
      InThread(w.lists[l], r);
      assert Has(w.lists, l, rows[i].id);
      SameElement(w.lists[l], r, row);
    }
  }

  lemma SameElement(s: seq<Node>, a: Row, b: Row)
    requires DistinctIds(s) && Thread(a) in s && Thread(b) in s && a.id == b.id
    ensures a == b
  {
  }

  /**
    After the pass every projected session that has a row and whose target list
    exists has exactly one row, marked, at the target's time and under the target.
  */
  lemma ProjectionPlacesSessions(lists: Lists, rows: seq<Row>, projection: Projection, j: nat)
    requires Placement(lists) && Snapshot(rows, lists) && j < |rows|
    requires Movable(rows[j].key, lists, projection)
    ensures ExactlyUnderTarget(Projected(lists, rows, projection).lists, rows[j].key, projection[rows[j].key])
  {
    SnapshotSound(lists, rows);
    ProjectedInvariant(lists, rows, projection);
    MetRowIsExact(Projected(lists, rows, projection), rows, projection, j);
  }

  /**
    The pass adds and removes no list, keeps every element in at most one place,
    and leaves the rows of all other sessions attached to the list they were in:
    no session loses its last row.
  */
  lemma ProjectionKeepsOtherRows(lists: Lists, rows: seq<Row>, projection: Projection)
    requires Placement(lists) && Snapshot(rows, lists)
    ensures var after := Projected(lists, rows, projection).lists;
      && after.Keys == lists.Keys && Placement(after) && KeysKept(after, rows)
      && forall l, j :: 0 <= j < |rows| && !Movable(rows[j].key, lists, projection) ==>
           (Has(after, l, rows[j].id) <==> Has(lists, l, rows[j].id))
  {
    SnapshotSound(lists, rows);
    ProjectedInvariant(lists, rows, projection);
    var first, w := FirstPass(Work(lists, map[], {}), rows, projection), Projected(lists, rows, projection);
    forall l, j | 0 <= j < |rows| && !Movable(rows[j].key, lists, projection)
      ensures Has(w.lists, l, rows[j].id) <==> Has(lists, l, rows[j].id)
    {
      OthersStay(w, first, lists, rows, projection, l, j);
    }
  }
}
