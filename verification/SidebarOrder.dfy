/**
  Ordering of the sidebar's thread lists: pinned rows first, then newest first,
  then by descending key; nodes that are not threads come after the threads.
*/
module SidebarOrder {

  /** `marked` says that the row carries a projection mark. */
  datatype Row = Row(id: nat, key: string, pinned: bool, sortMs: int, marked: bool)

  datatype Node = Thread(row: Row) | Other(id: nat)

  // ------------------------------------------------------------- one order

  /** `a > b` on strings, code unit by code unit. */
  predicate KeyGreater(a: string, b: string) {
    if a == "" then false
    else if b == "" then true
    else if a[0] != b[0] then a[0] > b[0]
    else KeyGreater(a[1..], b[1..])
  }

  lemma {:induction false} KeyTotal(a: string, b: string)
    ensures !(KeyGreater(a, b) && KeyGreater(b, a))
    ensures a != b ==> KeyGreater(a, b) || KeyGreater(b, a)
  {
    if a != "" && b != "" && a[0] == b[0] {
      KeyTotal(a[1..], b[1..]);
      assert a == [a[0]] + a[1..] && b == [b[0]] + b[1..];
    }
  }

  lemma {:induction false} KeyTransitive(a: string, b: string, c: string)
    requires KeyGreater(a, b) && KeyGreater(b, c)
    ensures KeyGreater(a, c)
  {
    if c != "" && a[0] == b[0] == c[0] {
      KeyTransitive(a[1..], b[1..], c[1..]);
    }
  }

  /** `a` has to stand above `b`. */
  predicate Before(a: Row, b: Row) {
    if a.pinned != b.pinned then a.pinned
    else if a.sortMs != b.sortMs then a.sortMs > b.sortMs
    else KeyGreater(a.key, b.key)
  }

  lemma NotBeforeTransitive(a: Row, b: Row, c: Row)
    requires !Before(b, a) && !Before(c, b)
    ensures !Before(c, a)
  {
    KeyTotal(a.key, b.key);
    KeyTotal(b.key, c.key);
    if Before(c, a) && KeyGreater(c.key, a.key) && b.key != c.key && a.key != b.key {
      KeyTransitive(c.key, a.key, b.key);
    }
  }

  lemma BeforeAsymmetric(a: Row, b: Row)
    requires Before(a, b)
    ensures !Before(b, a)
  {
    KeyTotal(a.key, b.key);
  }

  predicate Sorted(rows: seq<Row>) {
    forall i, j :: 0 <= i < j < |rows| ==> !Before(rows[j], rows[i])
  }

  /** Sorted threads, then everything else. */
  predicate Tidy(s: seq<Node>) {
    && (forall i, j :: 0 <= i < j < |s| && s[j].Thread? ==> s[i].Thread?)
    && forall i, j :: 0 <= i < j < |s| && s[i].Thread? && s[j].Thread? ==> !Before(s[j].row, s[i].row)
  }

  function Rows(s: seq<Node>): seq<Row> {
    if s == [] then []
    else if s[0].Thread? then [s[0].row] + Rows(s[1..])
    else Rows(s[1..])
  }

  function Others(s: seq<Node>): seq<Node> {
    if s == [] then []
    else if s[0].Thread? then Others(s[1..])
    else [s[0]] + Others(s[1..])
  }

  function Threads(rows: seq<Row>): seq<Node> {
    seq(|rows|, i requires 0 <= i < |rows| => Thread(rows[i]))
  }

  // ------------------------------------------------------------ the checker

  datatype Millis = Infinity | At(ms: int)

  predicate Exceeds(sortMs: int, previous: Millis) {
    previous.At? && sortMs > previous.ms
  }

  /** The single pass over adjacent rows answers for all pairs. */
  method ChatsSortNeedsCorrection(rows: seq<Row>) returns (needed: bool)
    ensures !needed <==> Sorted(rows)
  {
    var previousPinned, previousSortMs, previousKey := true, Infinity, "\U{FFFF}";
    for i := 0 to |rows|
      invariant Sorted(rows[..i])
      invariant i == 0 ==> previousPinned && previousSortMs == Infinity
      invariant i > 0 ==> previousPinned == rows[i - 1].pinned && previousSortMs == At(rows[i - 1].sortMs)
                          && previousKey == rows[i - 1].key
    {
      var row := rows[i];
      assert i > 0 && Before(row, rows[i - 1]) ==> !Sorted(rows);
      if previousPinned && !row.pinned {
        SortedExtends(rows, i);
        previousPinned, previousSortMs, previousKey := false, At(row.sortMs), row.key;
        continue;
      }
      if !previousPinned && row.pinned {
        return true;
      }
      if Exceeds(row.sortMs, previousSortMs) || (At(row.sortMs) == previousSortMs && KeyGreater(row.key, previousKey)) {
        return true;
      }
      SortedExtends(rows, i);
      previousSortMs, previousKey := At(row.sortMs), row.key;
    }
    assert rows[..|rows|] == rows;
    return false;
  }

  lemma SortedExtends(rows: seq<Row>, n: nat)
    requires n < |rows| && Sorted(rows[..n])
    requires n > 0 ==> !Before(rows[n], rows[n - 1])
    ensures Sorted(rows[..n + 1])
  {
    forall i | 0 <= i < n
      ensures !Before(rows[n], rows[i])
    {
      if i < n - 1 {
        assert !Before(rows[..n][n - 1], rows[..n][i]);
        NotBeforeTransitive(rows[i], rows[n - 1], rows[n]);
      }
    }
    forall i, j | 0 <= i < j < n
      ensures !Before(rows[j], rows[i])
    {
      assert !Before(rows[..n][j], rows[..n][i]);
    }
  }

  // ------------------------------------------------------------ the sorter

  /** Stable: `x` came before every row of `t`, so it passes only rows that must stand above it. */
  function InsertRow(x: Row, t: seq<Row>): seq<Row> {
    if t == [] || !Before(t[0], x) then [x] + t else [t[0]] + InsertRow(x, t[1..])
  }

  function SortRows(t: seq<Row>): seq<Row> {
    if t == [] then [] else InsertRow(t[0], SortRows(t[1..]))
  }

  lemma {:induction false} InsertRowSpec(x: Row, t: seq<Row>)
    requires Sorted(t)
    ensures Sorted(InsertRow(x, t))
    ensures multiset(InsertRow(x, t)) == multiset{x} + multiset(t)
  {
    if t == [] {
    } else if !Before(t[0], x) {
      forall j | 0 <= j < |t|
        ensures !Before(t[j], x)
      {
        if j > 0 {
          NotBeforeTransitive(x, t[0], t[j]);
        }
      }
    } else {
      assert t == [t[0]] + t[1..];
      InsertRowSpec(x, t[1..]);
      var rest := InsertRow(x, t[1..]);
      BeforeAsymmetric(t[0], x);
      forall j | 0 <= j < |rest|
        ensures !Before(rest[j], t[0])
      {
        assert rest[j] in multiset(rest);
      }
    }
  }

  lemma {:induction false} SortRowsSpec(t: seq<Row>)
    ensures Sorted(SortRows(t)) && multiset(SortRows(t)) == multiset(t)
  {
    if t != [] {
      SortRowsSpec(t[1..]);
      InsertRowSpec(t[0], SortRows(t[1..]));
      assert t == [t[0]] + t[1..];
    }
  }

  lemma {:induction false} SortRowsIdle(t: seq<Row>)
    requires Sorted(t)
    ensures SortRows(t) == t
  {
    if t != [] {
      SortRowsIdle(t[1..]);
      assert t == [t[0]] + t[1..];
      if |t| > 1 {
        assert !Before(t[1], t[0]);
      }
    }
  }

  // ---------------------------------------------------------- the insertion

  /** The first thread that the row must stand above, else the first other node, else the end. */
  function InsertionPoint(s: seq<Node>, row: Row): (p: nat)
    ensures p <= |s|
  {
    if exists i :: 0 <= i < |s| && s[i].Thread? && Before(row, s[i].row) then FirstBelow(s, row) else FirstOther(s)
  }

  function FirstBelow(s: seq<Node>, row: Row): (p: nat)
    ensures p <= |s|
    ensures p < |s| ==> s[p].Thread? && Before(row, s[p].row)
    ensures forall i :: 0 <= i < p && s[i].Thread? ==> !Before(row, s[i].row)
  {
    if s == [] then 0
    else if s[0].Thread? && Before(row, s[0].row) then 0
    else 1 + FirstBelow(s[1..], row)
  }

  function FirstOther(s: seq<Node>): (p: nat)
    ensures p <= |s|
    ensures p < |s| ==> s[p].Other?
    ensures forall i :: 0 <= i < p ==> s[i].Thread?
  {
    if s == [] || s[0].Other? then 0 else 1 + FirstOther(s[1..])
  }

  /** The list with the row's item put where its time says. */
  function Placed(s: seq<Node>, row: Row): seq<Node> {
    var p := InsertionPoint(s, row);
    s[..p] + [Thread(row)] + s[p..]
  }

  lemma InsertTidy(s: seq<Node>, p: nat, row: Row)
    requires Tidy(s) && p <= |s|
    requires forall i :: 0 <= i < p ==> s[i].Thread? && !Before(row, s[i].row)
    requires forall j :: p <= j < |s| && s[j].Thread? ==> !Before(s[j].row, row)
    ensures Tidy(s[..p] + [Thread(row)] + s[p..])
  {
  }

  /** Inserting into a tidy list leaves it tidy. */
  lemma PlacedTidy(s: seq<Node>, row: Row)
    requires Tidy(s)
    ensures Tidy(Placed(s, row))
  {
    var p := InsertionPoint(s, row);
    forall j | p <= j < |s| && s[j].Thread?
      ensures !Before(s[j].row, row)
    {
      assert s[p].Thread? && Before(row, s[p].row);
      BeforeAsymmetric(row, s[p].row);
      if j > p {
        NotBeforeTransitive(row, s[p].row, s[j].row);
      }
    }
    InsertTidy(s, p, row);
  }

  /** Where the row was: in front of a row that it must stand above, or of the other nodes. */
  lemma PointBack(s: seq<Node>, k: nat, row: Row, rest: seq<Node>)
    requires Tidy(s) && k < |s| && s[k] == Thread(row)
    requires forall j :: 0 <= j < |s| && j != k && s[j].Thread? ==> Before(row, s[j].row) || Before(s[j].row, row)
    requires |rest| == |s| - 1 && forall j :: 0 <= j < k ==> rest[j] == s[j]
    requires forall j :: k <= j < |rest| ==> rest[j] == s[j + 1]
    ensures InsertionPoint(rest, row) == k
  {
    assert forall j :: 0 <= j < k ==> rest[j].Thread? && !Before(row, rest[j].row);
    if k + 1 < |s| && s[k + 1].Thread? {
      assert !Before(s[k + 1].row, s[k].row);
      assert rest[k].Thread? && Before(row, rest[k].row);
      assert FirstBelow(rest, row) == k;
    } else {
      OthersFollow(s, k, rest);
      assert k < |rest| ==> rest[k].Other?;
      assert FirstOther(rest) == k;
    }
  }

  /** Behind the last thread there are only other nodes. */
  lemma OthersFollow(s: seq<Node>, k: nat, rest: seq<Node>)
    requires Tidy(s) && k < |s| && (k + 1 < |s| ==> s[k + 1].Other?) && |rest| == |s| - 1
    requires forall j :: k <= j < |rest| ==> rest[j] == s[j + 1]
    ensures forall j :: k <= j < |rest| ==> rest[j].Other?
  {
    forall j | k <= j < |rest|
      ensures rest[j].Other?
    {
      assert rest[j] == s[j + 1];
      assert s[k + 1].Other?;
    }
  }

  /** Taking an item out of a tidy list and inserting it again puts it back, if no other row ties with it. */
  lemma PlacedBack(s: seq<Node>, k: nat, row: Row)
    requires Tidy(s) && k < |s| && s[k] == Thread(row)
    requires forall j :: 0 <= j < |s| && j != k && s[j].Thread? ==> Before(row, s[j].row) || Before(s[j].row, row)
    ensures Placed(s[..k] + s[k + 1..], row) == s
  {
    var rest := s[..k] + s[k + 1..];
    assert forall j :: 0 <= j < k ==> rest[j] == s[j];
    assert forall j :: k <= j < |rest| ==> rest[j] == s[j + 1];
    PointBack(s, k, row, rest);
    TakenOut(s, k, rest);
  }

  lemma TakenOut(s: seq<Node>, k: nat, rest: seq<Node>)
    requires k < |s| && rest == s[..k] + s[k + 1..]
    ensures rest[..k] + [s[k]] + rest[k..] == s
  {
    assert rest[..k] == s[..k] && rest[k..] == s[k + 1..];
  }

  // ---------------------------------------------------------- tidy lists

  lemma {:induction false} NoThreads(s: seq<Node>)
    requires forall i :: 0 <= i < |s| ==> s[i].Other?
    ensures Rows(s) == [] && Others(s) == s
  {
    if s != [] {
      NoThreads(s[1..]);
      assert s == [s[0]] + s[1..];
    }
  }

  lemma {:induction false} TidySplit(s: seq<Node>)
    requires Tidy(s)
    ensures s == Threads(Rows(s)) + Others(s) && Sorted(Rows(s))
  {
    if s != [] {
      var t := s[1..];
      assert Tidy(t) by {
        forall i, j | 0 <= i < j < |t| && t[j].Thread?
          ensures t[i].Thread? && !Before(t[j].row, t[i].row)
        {
          assert t[i] == s[i + 1] && t[j] == s[j + 1];
        }
      }
      TidySplit(t);
      assert s == [s[0]] + t;
      if s[0].Thread? {
        forall j | 0 <= j < |Rows(t)|
          ensures !Before(Rows(t)[j], s[0].row)
        {
          assert t[j] == Threads(Rows(t))[j] == s[j + 1];
        }
      } else {
        NoThreads(t);
      }
    }
  }

  lemma {:induction false} RowsOfThreads(rows: seq<Row>, others: seq<Node>)
    requires forall o :: o in others ==> o.Other?
    ensures Rows(Threads(rows) + others) == rows
    ensures Others(Threads(rows) + others) == others
    decreases |rows|, |others|
  {
    var s := Threads(rows) + others;
    if rows != [] {
      assert s[1..] == Threads(rows[1..]) + others;
      RowsOfThreads(rows[1..], others);
      assert rows == [rows[0]] + rows[1..];
    } else if others != [] {
      assert s == others && s[0] in others;
      assert s[1..] == Threads([]) + others[1..];
      RowsOfThreads([], others[1..]);
      assert others == [others[0]] + others[1..];
    }
  }

  lemma {:induction false} OthersAreOther(s: seq<Node>)
    ensures forall o :: o in Others(s) ==> o.Other? && o in s
  {
    if s != [] {
      OthersAreOther(s[1..]);
      assert s == [s[0]] + s[1..];
    }
  }

  /** What `reorderChatsRows` makes of a list. */
  function Reordered(s: seq<Node>): seq<Node> {
    Threads(SortRows(Rows(s))) + Others(s)
  }

  lemma ThreadsThenOthersTidy(rows: seq<Row>, others: seq<Node>)
    requires Sorted(rows) && forall o :: o in others ==> o.Other?
    ensures Tidy(Threads(rows) + others)
  {
    var r := Threads(rows) + others;
    forall j | |rows| <= j < |r|
      ensures r[j].Other?
    {
      assert r[j] == others[j - |rows|] && others[j - |rows|] in others;
    }
    assert forall i :: 0 <= i < |rows| ==> r[i] == Thread(rows[i]);
  }

  /**
    Checker, sorter and insertion agree: the reordered list is tidy, holds the
    same rows and other nodes, and passes the check; reordering leaves a list
    alone exactly when it is tidy; an insertion into a tidy list passes too.
  */
  lemma OrderingsAgree(s: seq<Node>, row: Row)
    ensures Tidy(Reordered(s)) && Sorted(Rows(Reordered(s)))
    ensures multiset(Rows(Reordered(s))) == multiset(Rows(s)) && Others(Reordered(s)) == Others(s)
    ensures Reordered(s) == s <==> Tidy(s)
    ensures Tidy(s) ==> Tidy(Placed(s, row)) && Sorted(Rows(Placed(s, row)))
  {
    SortRowsSpec(Rows(s));
    OthersAreOther(s);
    RowsOfThreads(SortRows(Rows(s)), Others(s));
    ThreadsThenOthersTidy(SortRows(Rows(s)), Others(s));
    if Tidy(s) {
      TidySplit(s);
      SortRowsIdle(Rows(s));
      PlacedTidy(s, row);
      TidySplit(Placed(s, row));
    }
  }
}
