/**
  Eager loading of an account query's edges: rows of a second query are spread
  over the accounts through indexes built on the fly.
*/
module AccountEagerLoad {
  import opened Text

  datatype Group = Group(id: int, name: string)
  datatype Proxy = Proxy(id: int, name: string)
  datatype UsageLog = UsageLog(id: int, accountId: int)

  /** One row of the join table with the group it selects. */
  datatype JoinRow = JoinRow(accountId: int, group: Group)

  datatype Outcome = Loaded | Unexpected(id: int) | Rejected

  class Account {
    const id: int
    const proxyId: Option<int>
    var groups: seq<Group>
    var proxy: Option<Proxy>
    var usageLogs: seq<UsageLog>

    constructor (id: int, proxyId: Option<int>)
      ensures this.id == id && this.proxyId == proxyId
      ensures groups == [] && proxy == None && usageLogs == []
    {
      this.id, this.proxyId := id, proxyId;
      groups, proxy, usageLogs := [], None, [];
    }
  }

  predicate DistinctIds(nodes: seq<Account>) {
    forall i, j :: 0 <= i < j < |nodes| ==> nodes[i].id != nodes[j].id
  }

  /** The account that a map from ids to accounts ends up with: the last one that has the id. */
  function Keeper(nodes: seq<Account>, id: int): (r: Option<Account>)
    ensures r.Some? ==> r.value in nodes && r.value.id == id
    ensures r.None? ==> forall node :: node in nodes ==> node.id != id
  {
    if nodes == [] then None
    else
      var last := nodes[|nodes| - 1];
      if last.id == id then Some(last) else Keeper(nodes[..|nodes| - 1], id)
  }

  /** No later account of the query has the same id. */
  predicate Keeps(nodes: seq<Account>, node: Account) {
    Keeper(nodes, node.id) == Some(node)
  }

  lemma KeeperNext(nodes: seq<Account>, i: nat, id: int)
    requires i < |nodes|
    ensures Keeper(nodes[..i + 1], id) == if nodes[i].id == id then Some(nodes[i]) else Keeper(nodes[..i], id)
  {
    assert nodes[..i + 1][..i] == nodes[..i];
  }

  /** Accounts with distinct ids all keep their own. */
  lemma DistinctKeep(nodes: seq<Account>, node: Account)
    requires DistinctIds(nodes) && node in nodes
    ensures Keeps(nodes, node)
  {
    SameAccount(nodes, node, Keeper(nodes, node.id).value);
  }

  // ------------------------------------------------- many to many: groups

  predicate Joined(rows: seq<JoinRow>, accountId: int, groupId: int) {
    exists i :: 0 <= i < |rows| && rows[i].accountId == accountId && rows[i].group.id == groupId
  }

  predicate Selected(rows: seq<JoinRow>, groupId: int) {
    exists i :: 0 <= i < |rows| && rows[i].group.id == groupId
  }

  /** The groups in the order in which the join rows first mention them. */
  function FirstSeen(rows: seq<JoinRow>): seq<Group> {
    if rows == [] then []
    else
      var before, last := rows[..|rows| - 1], rows[|rows| - 1].group;
      if Selected(before, last.id) then FirstSeen(before) else FirstSeen(before) + [last]
  }

  /** The neighbours that are joined to the account, in neighbour order. */
  function GroupsOf(neighbors: seq<Group>, rows: seq<JoinRow>, accountId: int): seq<Group> {
    if neighbors == [] then []
    else
      var before, last := GroupsOf(neighbors[..|neighbors| - 1], rows, accountId), neighbors[|neighbors| - 1];
      if Joined(rows, accountId, last.id) then before + [last] else before
  }

  /** The first neighbour that no join row selected, or the number of neighbours. */
  function FirstUnselected(neighbors: seq<Group>, rows: seq<JoinRow>): (k: nat)
    ensures k <= |neighbors|
    ensures forall i :: 0 <= i < k ==> Selected(rows, neighbors[i].id)
    ensures k < |neighbors| ==> !Selected(rows, neighbors[k].id)
  {
    if neighbors == [] || !Selected(rows, neighbors[0].id) then 0 else 1 + FirstUnselected(neighbors[1..], rows)
  }

  function Members(nodes: seq<Account>, rows: seq<JoinRow>, groupId: int): set<Account> {
    set node | node in nodes && Keeps(nodes, node) && Joined(rows, node.id, groupId)
  }

  ghost predicate IndexedRows(nids: map<int, set<Account>>, nodes: seq<Account>, rows: seq<JoinRow>) {
    && (forall g :: g in nids <==> Selected(rows, g))
    && forall g :: g in nids ==> nids[g] == Members(nodes, rows, g)
  }

  lemma JoinedStep(rows: seq<JoinRow>, row: JoinRow, a: int, g: int)
    ensures Joined(rows + [row], a, g) <==> Joined(rows, a, g) || (a == row.accountId && g == row.group.id)
    ensures Selected(rows + [row], g) <==> Selected(rows, g) || g == row.group.id
  {
    var all := rows + [row];
    assert all[|rows|] == row;
    assert forall i :: 0 <= i < |rows| ==> all[i] == rows[i];
  }

  lemma SameAccount(nodes: seq<Account>, a: Account, b: Account)
    requires DistinctIds(nodes) && a in nodes && b in nodes && a.id == b.id
    ensures a == b
  {
  }

  lemma IndexStep(nids: map<int, set<Account>>, nodes: seq<Account>, rows: seq<JoinRow>, row: JoinRow, node: Account)
    requires IndexedRows(nids, nodes, rows) && Keeper(nodes, row.accountId) == Some(node)
    ensures var known := if row.group.id in nids then nids[row.group.id] else {};
      IndexedRows(nids[row.group.id := known + {node}], nodes, rows + [row])
  {
    var known := if row.group.id in nids then nids[row.group.id] else {};
    var next := nids[row.group.id := known + {node}];
    forall g
      ensures g in next <==> Selected(rows + [row], g)
    {
      JoinedStep(rows, row, 0, g);
    }
    forall g | g in next
      ensures next[g] == Members(nodes, rows + [row], g)
    {
      forall a | a in nodes
        ensures a in next[g] <==> Keeps(nodes, a) && Joined(rows + [row], a.id, g)
      {
        JoinedStep(rows, row, a.id, g);
      }
    }
  }

  ghost predicate GroupsLoaded(nodes: seq<Account>, neighbors: seq<Group>, rows: seq<JoinRow>)
    reads nodes
  {
    forall node :: node in nodes ==>
      node.groups == if Keeps(nodes, node) then GroupsOf(neighbors, rows, node.id) else []
  }

  /** `append` for every account that the group is joined to, in whatever order the map is ranged over. */
  method AssignGroup(nodes: seq<Account>, members: set<Account>, group: Group)
    requires forall node :: node in members ==> node in nodes
    modifies nodes`groups
    ensures forall node :: node in nodes ==>
      node.groups == if node in members then old(node.groups) + [group] else old(node.groups)
  {
    var todo := members;
    while todo != {}
      invariant todo <= members
      invariant forall node :: node in nodes ==>
        node.groups == if node in members && node !in todo then old(node.groups) + [group] else old(node.groups)
      decreases |todo|
    {
      var node :| node in todo;
      todo := todo - {node};
      node.groups := node.groups + [group];
    }
  }

  ghost predicate IndexedAccounts(byID: map<int, Account>, nodes: seq<Account>) {
    forall id :: (if id in byID then Some(byID[id]) else None) == Keeper(nodes, id)
  }

  method IndexAccounts(nodes: seq<Account>) returns (byID: map<int, Account>)
    modifies nodes`groups
    ensures IndexedAccounts(byID, nodes)
    ensures forall node :: node in nodes ==> node.groups == []
  {
    byID := map[];
    for i := 0 to |nodes|
      invariant IndexedAccounts(byID, nodes[..i])
      invariant forall j :: 0 <= j < i ==> nodes[j].groups == []
    {
      forall id
        ensures Keeper(nodes[..i + 1], id) == if nodes[i].id == id then Some(nodes[i]) else Keeper(nodes[..i], id)
      {
        KeeperNext(nodes, i, id);
      }
      byID := byID[nodes[i].id := nodes[i]];
      nodes[i].groups := [];
    }
    assert nodes[..|nodes|] == nodes;
  }

  /** Scanning the join rows: only the first row of a group yields a group, every row extends the index. */
  method ScanJoinRows(nodes: seq<Account>, byID: map<int, Account>, rows: seq<JoinRow>)
    returns (nids: map<int, set<Account>>, fetched: seq<Group>)
    requires IndexedAccounts(byID, nodes) && RowsOver(nodes, rows)
    ensures IndexedRows(nids, nodes, rows) && fetched == FirstSeen(rows)
  {
    nids, fetched := map[], [];
    for i := 0 to |rows|
      invariant IndexedRows(nids, nodes, rows[..i])
      invariant fetched == FirstSeen(rows[..i])
    {
      assert rows[..i + 1] == rows[..i] + [rows[i]] && rows[..i + 1][..i] == rows[..i];
      ghost var j :| 0 <= j < |nodes| && nodes[j].id == rows[i].accountId;
      assert nodes[j] in nodes && Keeper(nodes, rows[i].accountId).Some?;
      var group, node := rows[i].group, byID[rows[i].accountId];
      IndexStep(nids, nodes, rows[..i], rows[i], node);
      if group.id !in nids {
        nids := nids[group.id := {node}];
        fetched := fetched + [group];
      } else {
        nids := nids[group.id := nids[group.id] + {node}];
      }
    }
    assert rows[..|rows|] == rows;
  }

  predicate RowsOver(nodes: seq<Account>, rows: seq<JoinRow>) {
    forall i :: 0 <= i < |rows| ==> exists j :: 0 <= j < |nodes| && nodes[j].id == rows[i].accountId
  }

  lemma GroupsOfNext(neighbors: seq<Group>, i: nat, rows: seq<JoinRow>, accountId: int)
    requires i < |neighbors|
    ensures GroupsOf(neighbors[..i + 1], rows, accountId)
         == GroupsOf(neighbors[..i], rows, accountId) + if Joined(rows, accountId, neighbors[i].id) then [neighbors[i]] else []
  {
    assert neighbors[..i + 1][..i] == neighbors[..i];
  }

  /** Handing out one neighbour extends what every account has by it, if it is joined to it. */
  method AssignNeighbor(nodes: seq<Account>, members: set<Account>, neighbors: seq<Group>, i: nat, rows: seq<JoinRow>)
    requires i < |neighbors| && members == Members(nodes, rows, neighbors[i].id)
    requires GroupsLoaded(nodes, neighbors[..i], rows)
    modifies nodes`groups
    ensures GroupsLoaded(nodes, neighbors[..i + 1], rows)
  {
    AssignGroup(nodes, members, neighbors[i]);
    forall node | node in nodes
      ensures node.groups == if Keeps(nodes, node) then GroupsOf(neighbors[..i + 1], rows, node.id) else []
    {
      GroupsOfNext(neighbors, i, rows, node.id);
    }
  }

  method AssignNeighbors(nodes: seq<Account>, nids: map<int, set<Account>>, neighbors: seq<Group>, rows: seq<JoinRow>)
    returns (outcome: Outcome)
    requires IndexedRows(nids, nodes, rows) && GroupsLoaded(nodes, [], rows)
    modifies nodes`groups
    ensures var k := FirstUnselected(neighbors, rows);
      && outcome == (if k < |neighbors| then Unexpected(neighbors[k].id) else Loaded)
      && GroupsLoaded(nodes, neighbors[..k], rows)
  {
    assert neighbors[..0] == [];
    for i := 0 to |neighbors|
      invariant i <= FirstUnselected(neighbors, rows)
      invariant GroupsLoaded(nodes, neighbors[..i], rows)
    {
      var n := neighbors[i];
      if n.id !in nids {
        return Unexpected(n.id);
      }
      AssignNeighbor(nodes, nids[n.id], neighbors, i, rows);
    }
    return Loaded;
  }

  /**
    `intercept` stands for the interceptors of the group query: it may drop, add
    or reorder groups, or fail. The join query returns rows of the given accounts
    only. Of accounts with the same id the last one gets the groups.
  */
  method LoadGroups(nodes: seq<Account>, rows: seq<JoinRow>, intercept: seq<Group> -> Option<seq<Group>>)
    returns (outcome: Outcome)
    requires RowsOver(nodes, rows)
    modifies nodes`groups
    ensures var returned := intercept(FirstSeen(rows));
      if returned.None? then outcome == Rejected && GroupsLoaded(nodes, [], rows)
      else
        var k := FirstUnselected(returned.value, rows);
        && outcome == (if k < |returned.value| then Unexpected(returned.value[k].id) else Loaded)
        && GroupsLoaded(nodes, returned.value[..k], rows)
  {
    var byID := IndexAccounts(nodes);
    var nids, fetched := ScanJoinRows(nodes, byID, rows);
    var returned := intercept(fetched);
    if returned.None? {
      return Rejected;
    }
    outcome := AssignNeighbors(nodes, nids, returned.value, rows);
  }

  // ------------------------------------------ what the relational join says

  lemma {:induction false} FirstSeenSpec(rows: seq<JoinRow>)
    ensures forall i, j :: 0 <= i < j < |FirstSeen(rows)| ==> FirstSeen(rows)[i].id != FirstSeen(rows)[j].id
    ensures forall i :: 0 <= i < |FirstSeen(rows)| ==> Selected(rows, FirstSeen(rows)[i].id)
    ensures forall i :: 0 <= i < |rows| ==> exists j :: 0 <= j < |FirstSeen(rows)| && FirstSeen(rows)[j].id == rows[i].group.id
  {
    if rows != [] {
      var before, last := rows[..|rows| - 1], rows[|rows| - 1];
      FirstSeenSpec(before);
      assert rows == before + [last];
      forall g
        ensures Selected(rows, g) <==> Selected(before, g) || g == last.group.id
      {
        JoinedStep(before, last, 0, g);
      }
      forall i | 0 <= i < |rows|
        ensures exists j :: 0 <= j < |FirstSeen(rows)| && FirstSeen(rows)[j].id == rows[i].group.id
      {
        if i < |before| {
          var j :| 0 <= j < |FirstSeen(before)| && FirstSeen(before)[j].id == before[i].group.id;
          assert FirstSeen(rows)[j].id == rows[i].group.id;
        } else if Selected(before, last.group.id) {
          var k :| 0 <= k < |before| && before[k].group.id == last.group.id;
          var j :| 0 <= j < |FirstSeen(before)| && FirstSeen(before)[j].id == before[k].group.id;
          assert FirstSeen(rows)[j].id == rows[i].group.id;
        } else {
          assert FirstSeen(rows)[|FirstSeen(before)|].id == rows[i].group.id;
        }
      }
    }
  }

  predicate HasGroup(groups: seq<Group>, id: int) {
    exists i :: 0 <= i < |groups| && groups[i].id == id
  }

  lemma {:induction false} GroupsOfSpec(neighbors: seq<Group>, rows: seq<JoinRow>, accountId: int)
    requires forall i, j :: 0 <= i < j < |neighbors| ==> neighbors[i].id != neighbors[j].id
    ensures var groups := GroupsOf(neighbors, rows, accountId);
      && (forall i, j :: 0 <= i < j < |groups| ==> groups[i].id != groups[j].id)
      && (forall g :: HasGroup(groups, g) <==> HasGroup(neighbors, g) && Joined(rows, accountId, g))
  {
    if neighbors != [] {
      var init, last := neighbors[..|neighbors| - 1], neighbors[|neighbors| - 1];
      GroupsOfSpec(init, rows, accountId);
      var before, groups := GroupsOf(init, rows, accountId), GroupsOf(neighbors, rows, accountId);
      forall g
        ensures HasGroup(neighbors, g) <==> HasGroup(init, g) || g == last.id
        ensures HasGroup(before + [last], g) <==> HasGroup(before, g) || g == last.id
      {
        HasGroupStep(init, last, g);
        HasGroupStep(before, last, g);
        assert init + [last] == neighbors;
      }
      assert !HasGroup(init, last.id);
      forall i | 0 <= i < |before|
        ensures before[i].id != last.id
      {
        assert HasGroup(before, before[i].id);
      }
    }
  }

  lemma HasGroupStep(groups: seq<Group>, last: Group, g: int)
    ensures HasGroup(groups + [last], g) <==> HasGroup(groups, g) || g == last.id
  {
    var all := groups + [last];
    assert all[|groups|] == last;
    assert forall i :: 0 <= i < |groups| ==> all[i] == groups[i];
  }

  /**
    Without interceptors the indexed load is the relational join: it never meets
    an unexpected group, and every account ends with exactly the groups joined
    to it, each once and in first-seen order, however often the join rows repeat.
  */
  lemma GroupsAreTheJoin(rows: seq<JoinRow>, accountId: int)
    ensures FirstUnselected(FirstSeen(rows), rows) == |FirstSeen(rows)|
    ensures var groups := GroupsOf(FirstSeen(rows), rows, accountId);
      && (forall i, j :: 0 <= i < j < |groups| ==> groups[i].id != groups[j].id)
      && (forall g :: HasGroup(groups, g) <==> Joined(rows, accountId, g))
      && InMentionOrder(groups, rows)
  {
    FirstSeenSpec(rows);
    GroupsOfSpec(FirstSeen(rows), rows, accountId);
    FirstSeenOrdered(rows);
    GroupsInFirstSeenOrder(FirstSeen(rows), rows, accountId);
    forall g | Joined(rows, accountId, g)
      ensures HasGroup(FirstSeen(rows), g)
    {
      var i :| 0 <= i < |rows| && rows[i].accountId == accountId && rows[i].group.id == g;
    }
  }

  /** Position of the first join row that mentions the group. */
  function FirstMention(rows: seq<JoinRow>, groupId: int): (p: nat)
    ensures p <= |rows|
    ensures forall i :: 0 <= i < p ==> rows[i].group.id != groupId
    ensures p < |rows| ==> rows[p].group.id == groupId
  {
    if rows == [] || rows[0].group.id == groupId then 0 else 1 + FirstMention(rows[1..], groupId)
  }

  ghost predicate InMentionOrder(groups: seq<Group>, rows: seq<JoinRow>) {
    && (forall i :: 0 <= i < |groups| ==> FirstMention(rows, groups[i].id) < |rows|)
    && forall i, j :: 0 <= i < j < |groups| ==> FirstMention(rows, groups[i].id) < FirstMention(rows, groups[j].id)
  }

  lemma {:induction false} FirstSeenOrdered(rows: seq<JoinRow>)
    ensures InMentionOrder(FirstSeen(rows), rows)
  {
    if rows != [] {
      var before, last := rows[..|rows| - 1], rows[|rows| - 1];
      var seen := FirstSeen(before);
      FirstSeenOrdered(before);
      assert rows == before + [last];
      forall i | 0 <= i < |seen|
        ensures FirstMention(rows, seen[i].id) == FirstMention(before, seen[i].id)
      {
        assert before[FirstMention(before, seen[i].id)].group.id == seen[i].id;
        MentionStays(before, last, seen[i].id);
      }
      if !Selected(before, last.group.id) {
        MentionLast(before, last);
      }
    }
  }

  /** Every account lists its groups in the order in which the join rows first mention them. */
  lemma {:induction false} GroupsInFirstSeenOrder(neighbors: seq<Group>, rows: seq<JoinRow>, accountId: int)
    requires InMentionOrder(neighbors, rows)
    ensures InMentionOrder(GroupsOf(neighbors, rows, accountId), rows)
    ensures forall g :: g in GroupsOf(neighbors, rows, accountId) ==> g in neighbors
  {
    if neighbors != [] {
      var init, last := neighbors[..|neighbors| - 1], neighbors[|neighbors| - 1];
      assert neighbors == init + [last];
      assert forall i :: 0 <= i < |init| ==> init[i] == neighbors[i];
      GroupsInFirstSeenOrder(init, rows, accountId);
      var before := GroupsOf(init, rows, accountId);
      forall i | 0 <= i < |before|
        ensures FirstMention(rows, before[i].id) < FirstMention(rows, last.id)
      {
        assert before[i] in init;
        var j :| 0 <= j < |init| && init[j] == before[i];
        assert neighbors[j] == before[i];
      }
    }
  }

  lemma MentionStays(before: seq<JoinRow>, last: JoinRow, groupId: int)
    requires Selected(before, groupId)
    ensures FirstMention(before + [last], groupId) == FirstMention(before, groupId) < |before|
    ensures Selected(before + [last], groupId)
  {
    var all := before + [last];
    assert forall i :: 0 <= i < |before| ==> all[i] == before[i];
    var i :| 0 <= i < |before| && before[i].group.id == groupId;
    assert all[i].group.id == groupId;
  }

  lemma MentionLast(before: seq<JoinRow>, last: JoinRow)
    requires !Selected(before, last.group.id)
    ensures FirstMention(before + [last], last.group.id) == |before|
    ensures Selected(before + [last], last.group.id)
  {
    var all := before + [last];
    assert forall i :: 0 <= i < |before| ==> all[i] == before[i];
    assert all[|before|] == last;
  }

  // --------------------------------------------------- many to one: proxy

  predicate References(nodes: seq<Account>, fk: int) {
    exists i :: 0 <= i < |nodes| && nodes[i].proxyId == Some(fk)
  }

  /** The accounts that carry the foreign key, repeats included. */
  function Holders(nodes: seq<Account>, fk: int): seq<Account> {
    if nodes == [] then []
    else
      var before, last := Holders(nodes[..|nodes| - 1], fk), nodes[|nodes| - 1];
      if last.proxyId == Some(fk) then before + [last] else before
  }

  lemma {:induction false} HoldersSpec(nodes: seq<Account>, fk: int)
    ensures forall node :: node in Holders(nodes, fk) <==> node in nodes && node.proxyId == Some(fk)
  {
    if nodes != [] {
      HoldersSpec(nodes[..|nodes| - 1], fk);
      assert nodes == nodes[..|nodes| - 1] + [nodes[|nodes| - 1]];
    }
  }

  /** The last neighbour with the id, as repeated assignment leaves it. */
  function LastProxy(neighbors: seq<Proxy>, id: int): Option<Proxy> {
    if neighbors == [] then None
    else if neighbors[|neighbors| - 1].id == id then Some(neighbors[|neighbors| - 1])
    else LastProxy(neighbors[..|neighbors| - 1], id)
  }

  function ProxyAfter(before: Option<Proxy>, proxyId: Option<int>, neighbors: seq<Proxy>): Option<Proxy> {
    if proxyId.Some? && LastProxy(neighbors, proxyId.value).Some? then LastProxy(neighbors, proxyId.value) else before
  }

  function FirstUnreferenced(neighbors: seq<Proxy>, nodes: seq<Account>): (k: nat)
    ensures k <= |neighbors|
    ensures forall i :: 0 <= i < k ==> References(nodes, neighbors[i].id)
    ensures k < |neighbors| ==> !References(nodes, neighbors[k].id)
  {
    if neighbors == [] || !References(nodes, neighbors[0].id) then 0 else 1 + FirstUnreferenced(neighbors[1..], nodes)
  }

  ghost predicate IndexedProxies(nodeids: map<int, seq<Account>>, nodes: seq<Account>) {
    && (forall fk :: fk in nodeids <==> References(nodes, fk))
    && forall fk :: fk in nodeids ==> nodeids[fk] == Holders(nodes, fk)
  }

  lemma ReferencesNext(nodes: seq<Account>, i: nat, fk: int)
    requires i < |nodes|
    ensures References(nodes[..i + 1], fk) <==> References(nodes[..i], fk) || nodes[i].proxyId == Some(fk)
    ensures nodes[..i + 1][..i] == nodes[..i] && nodes[..i + 1][i] == nodes[i]
  {
  }

  lemma {:induction false} NoHolders(nodes: seq<Account>, fk: int)
    requires !References(nodes, fk)
    ensures Holders(nodes, fk) == []
  {
    if nodes != [] {
      var init := nodes[..|nodes| - 1];
      assert forall j :: 0 <= j < |init| ==> init[j] == nodes[j];
      NoHolders(init, fk);
    }
  }

  method IndexProxies(nodes: seq<Account>) returns (ids: seq<int>, nodeids: map<int, seq<Account>>)
    ensures IndexedProxies(nodeids, nodes)
    ensures ids == [] <==> forall node :: node in nodes ==> node.proxyId == None
  {
    ids, nodeids := [], map[];
    for i := 0 to |nodes|
      invariant IndexedProxies(nodeids, nodes[..i])
      invariant ids == [] <==> forall j :: 0 <= j < i ==> nodes[j].proxyId == None
    {
      forall fk
        ensures References(nodes[..i + 1], fk) <==> References(nodes[..i], fk) || nodes[i].proxyId == Some(fk)
      {
        ReferencesNext(nodes, i, fk);
      }
      assert nodes[..i + 1][..i] == nodes[..i];
      if nodes[i].proxyId.None? {
        continue;
      }
      var fk := nodes[i].proxyId.value;
      if fk !in nodeids {
        NoHolders(nodes[..i], fk);
        ids := ids + [fk];
      }
      nodeids := nodeids[fk := (if fk in nodeids then nodeids[fk] else []) + [nodes[i]]];
    }
    assert nodes[..|nodes|] == nodes;
  }

  method AssignProxy(nodes: seq<Account>, holders: seq<Account>, n: Proxy)
    requires forall node :: node in holders ==> node in nodes
    modifies nodes`proxy
    ensures forall node :: node in nodes ==> node.proxy == if node in holders then Some(n) else old(node.proxy)
  {
    for i := 0 to |holders|
      invariant forall node :: node in nodes ==> node.proxy == if node in holders[..i] then Some(n) else old(node.proxy)
    {
      assert holders[i] in holders;
      holders[i].proxy := Some(n);
      assert holders[..i + 1] == holders[..i] + [holders[i]];
    }
    assert holders[..|holders|] == holders;
  }

  /**
    `neighbors` is what the proxy query returns; with no foreign key at all the
    query is not made. Accounts without a key are never touched.
  */
  method LoadProxy(nodes: seq<Account>, neighbors: seq<Proxy>) returns (outcome: Outcome)
    modifies nodes`proxy
    ensures var asked := exists node :: node in nodes && node.proxyId.Some?;
      var k := FirstUnreferenced(neighbors, nodes);
      && outcome == (if asked && k < |neighbors| then Unexpected(neighbors[k].id) else Loaded)
      && forall node :: node in nodes ==>
           node.proxy == if asked then ProxyAfter(old(node.proxy), node.proxyId, neighbors[..k]) else old(node.proxy)
  {
    var ids, nodeids := IndexProxies(nodes);
    if ids == [] {
      return Loaded;
    }
    for i := 0 to |neighbors|
      invariant i <= FirstUnreferenced(neighbors, nodes)
      invariant forall node :: node in nodes ==>
        node.proxy == ProxyAfter(old(node.proxy), node.proxyId, neighbors[..i])
    {
      var n := neighbors[i];
      if n.id !in nodeids {
        return Unexpected(n.id);
      }
      HoldersSpec(nodes, n.id);
      AssignProxy(nodes, nodeids[n.id], n);
      assert neighbors[..i + 1][..i] == neighbors[..i];
    }
    assert neighbors[..|neighbors|] == neighbors;
    return Loaded;
  }

  /** When the query returns each proxy once, an account with a key gets the proxy whose id is its key. */
  lemma {:induction false} LastProxyIsThe(neighbors: seq<Proxy>, id: int, i: nat)
    requires forall i, j :: 0 <= i < j < |neighbors| ==> neighbors[i].id != neighbors[j].id
    requires i < |neighbors| && neighbors[i].id == id
    ensures LastProxy(neighbors, id) == Some(neighbors[i])
  {
    if i < |neighbors| - 1 {
      LastProxyIsThe(neighbors[..|neighbors| - 1], id, i);
    }
  }

  // ---------------------------------------------- one to many: usage logs

  function LogsOf(neighbors: seq<UsageLog>, accountId: int): seq<UsageLog> {
    if neighbors == [] then []
    else
      var before, last := LogsOf(neighbors[..|neighbors| - 1], accountId), neighbors[|neighbors| - 1];
      if last.accountId == accountId then before + [last] else before
  }

  predicate Owned(ids: seq<int>, accountId: int) {
    exists i :: 0 <= i < |ids| && ids[i] == accountId
  }

  function AccountIds(nodes: seq<Account>): seq<int> {
    seq(|nodes|, i requires 0 <= i < |nodes| => nodes[i].id)
  }

  function FirstOrphan(neighbors: seq<UsageLog>, ids: seq<int>): (k: nat)
    ensures k <= |neighbors|
    ensures forall i :: 0 <= i < k ==> Owned(ids, neighbors[i].accountId)
    ensures k < |neighbors| ==> !Owned(ids, neighbors[k].accountId)
  {
    if neighbors == [] || !Owned(ids, neighbors[0].accountId) then 0 else 1 + FirstOrphan(neighbors[1..], ids)
  }

  method IndexOwners(nodes: seq<Account>) returns (nodeids: map<int, Account>)
    modifies nodes`usageLogs
    ensures IndexedAccounts(nodeids, nodes)
    ensures forall node :: node in nodes ==> node.usageLogs == []
  {
    nodeids := map[];
    for i := 0 to |nodes|
      invariant IndexedAccounts(nodeids, nodes[..i])
      invariant forall j :: 0 <= j < i ==> nodes[j].usageLogs == []
    {
      forall id
        ensures Keeper(nodes[..i + 1], id) == if nodes[i].id == id then Some(nodes[i]) else Keeper(nodes[..i], id)
      {
        KeeperNext(nodes, i, id);
      }
      nodeids := nodeids[nodes[i].id := nodes[i]];
      nodes[i].usageLogs := [];
    }
    assert nodes[..|nodes|] == nodes;
  }

  ghost predicate LogsLoaded(nodes: seq<Account>, neighbors: seq<UsageLog>)
    reads nodes
  {
    forall node :: node in nodes ==>
      node.usageLogs == if Keeps(nodes, node) then LogsOf(neighbors, node.id) else []
  }

  method AssignLog(nodes: seq<Account>, node: Account, neighbors: seq<UsageLog>, i: nat)
    requires i < |neighbors| && Keeper(nodes, neighbors[i].accountId) == Some(node)
    requires LogsLoaded(nodes, neighbors[..i])
    modifies node`usageLogs
    ensures LogsLoaded(nodes, neighbors[..i + 1])
  {
    node.usageLogs := node.usageLogs + [neighbors[i]];
    forall other | other in nodes
      ensures other.usageLogs == if Keeps(nodes, other) then LogsOf(neighbors[..i + 1], other.id) else []
    {
      assert neighbors[..i + 1] == neighbors[..i] + [neighbors[i]];
      LogsOfNext(neighbors[..i], neighbors[i], other.id);
    }
  }

  lemma LogsOfNext(before: seq<UsageLog>, last: UsageLog, accountId: int)
    ensures LogsOf(before + [last], accountId)
         == LogsOf(before, accountId) + if last.accountId == accountId then [last] else []
  {
  }

  lemma KeptIsOwned(nodes: seq<Account>, id: int)
    ensures Keeper(nodes, id).Some? <==> Owned(AccountIds(nodes), id)
  {
    if Keeper(nodes, id).Some? {
      var i :| 0 <= i < |nodes| && nodes[i] == Keeper(nodes, id).value;
      assert AccountIds(nodes)[i] == id;
    }
  }

  method AssignLogs(nodes: seq<Account>, nodeids: map<int, Account>, ghost ids: seq<int>, neighbors: seq<UsageLog>)
    returns (outcome: Outcome)
    requires LogsLoaded(nodes, []) && IndexedAccounts(nodeids, nodes)
    requires forall fk :: fk in nodeids <==> Owned(ids, fk)
    modifies nodes`usageLogs
    ensures var k := FirstOrphan(neighbors, ids);
      && outcome == (if k < |neighbors| then Unexpected(neighbors[k].accountId) else Loaded)
      && LogsLoaded(nodes, neighbors[..k])
  {
    assert neighbors[..0] == [];
    for i := 0 to |neighbors|
      invariant i <= FirstOrphan(neighbors, ids)
      invariant LogsLoaded(nodes, neighbors[..i])
    {
      var n := neighbors[i];
      if n.accountId !in nodeids {
        return Unexpected(n.accountId);
      }
      AssignLog(nodes, nodeids[n.accountId], neighbors, i);
    }
    return Loaded;
  }

  /** The log query of `loadUsageLogs`; `loadAccountGroups` is the same code over another edge. */
  method LoadUsageLogs(nodes: seq<Account>, neighbors: seq<UsageLog>) returns (outcome: Outcome)
    modifies nodes`usageLogs
    ensures var k := FirstOrphan(neighbors, AccountIds(nodes));
      && outcome == (if k < |neighbors| then Unexpected(neighbors[k].accountId) else Loaded)
      && LogsLoaded(nodes, neighbors[..k])
  {
    var nodeids := IndexOwners(nodes);
    forall fk
      ensures fk in nodeids <==> Owned(AccountIds(nodes), fk)
    {
      KeptIsOwned(nodes, fk);
    }
    outcome := AssignLogs(nodes, nodeids, AccountIds(nodes), neighbors);
  }

  /** What all accounts hold together, account by account. */
  function AllLogs(neighbors: seq<UsageLog>, ids: seq<int>): seq<UsageLog> {
    if ids == [] then [] else LogsOf(neighbors, ids[0]) + AllLogs(neighbors, ids[1..])
  }

  function Held(ids: seq<int>, log: UsageLog): multiset<UsageLog> {
    if Owned(ids, log.accountId) then multiset{log} else multiset{}
  }

  lemma {:induction false} AllLogsNext(before: seq<UsageLog>, last: UsageLog, ids: seq<int>)
    requires forall i, j :: 0 <= i < j < |ids| ==> ids[i] != ids[j]
    ensures multiset(AllLogs(before + [last], ids)) == multiset(AllLogs(before, ids)) + Held(ids, last)
  {
    if ids != [] {
      AllLogsNext(before, last, ids[1..]);
      LogsOfNext(before, last, ids[0]);
      HeldNext(ids, last);
      assert multiset(LogsOf(before + [last], ids[0]))
          == multiset(LogsOf(before, ids[0])) + if ids[0] == last.accountId then multiset{last} else multiset{};
    }
  }

  lemma HeldNext(ids: seq<int>, last: UsageLog)
    requires ids != [] && forall i, j :: 0 <= i < j < |ids| ==> ids[i] != ids[j]
    ensures Held(ids, last)
         == (if ids[0] == last.accountId then multiset{last} else multiset{}) + Held(ids[1..], last)
  {
  }

  /**
    Conservation: when every log belongs to one of the accounts, the accounts
    together hold every log exactly as often as the query returned it.
  */
  lemma {:induction false} LogsArePartitioned(neighbors: seq<UsageLog>, ids: seq<int>)
    requires forall i, j :: 0 <= i < j < |ids| ==> ids[i] != ids[j]
    requires forall i :: 0 <= i < |neighbors| ==> Owned(ids, neighbors[i].accountId)
    ensures multiset(AllLogs(neighbors, ids)) == multiset(neighbors)
  {
    if neighbors == [] {
      NoLogs(ids);
    } else {
      var before, last := neighbors[..|neighbors| - 1], neighbors[|neighbors| - 1];
      assert neighbors == before + [last];
      LogsArePartitioned(before, ids);
      AllLogsNext(before, last, ids);
    }
  }

  lemma {:induction false} NoLogs(ids: seq<int>)
    ensures AllLogs([], ids) == []
  {
    if ids != [] {
      NoLogs(ids[1..]);
    }
  }
}
