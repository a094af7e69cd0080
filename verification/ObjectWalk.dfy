/**
  A bounded depth-first walk over objects that may refer to one another in
  cycles: at most so many objects, at most so deep, each visited once.
 */
module ObjectWalk {

  import opened Text

  /** Objects are numbered; `children` lists, in key order, those that the walk may go on to. */
  datatype Graph = Graph(children: nat -> seq<nat>, stops: nat -> bool)

  /** An object and the length of the way by which it was come upon. */
  datatype Stop = Stop(node: nat, depth: nat)

  datatype Limits = Limits(maxDepth: nat, maxNodes: nat)

  predicate Visited(visits: seq<Stop>, node: nat) {
    exists i :: 0 <= i < |visits| && visits[i].node == node
  }

  function Expanded(g: Graph, stop: Stop): seq<Stop> {
    if g.stops(stop.node) then []
    else
      var children := g.children(stop.node);
      seq(|children|, i requires 0 <= i < |children| => Stop(children[i], stop.depth + 1))
  }

  /**
    The walk from a stack (its top is the last element) and the visits so far: the
    object for which the visitor had a result, and all visits.
  */
  function Walked(g: Graph, hit: nat -> bool, limits: Limits, stack: seq<Stop>, visits: seq<Stop>): (Option<nat>, seq<Stop>)
    decreases limits.maxNodes - |visits|, |stack|
  {
    if |stack| == 0 || |visits| >= limits.maxNodes then (None, visits)
    else
      var rest, top := stack[..|stack| - 1], stack[|stack| - 1];
      if Visited(visits, top.node) || top.depth > limits.maxDepth then Walked(g, hit, limits, rest, visits)
      else if hit(top.node) then (Some(top.node), visits + [top])
      else Walked(g, hit, limits, rest + Expanded(g, top), visits + [top])
  }

  method WalkObject(g: Graph, hit: nat -> bool, root: nat, limits: Limits) returns (found: Option<nat>, visits: seq<Stop>)
    ensures (found, visits) == Walked(g, hit, limits, [Stop(root, 0)], [])
  {
    var stack := [Stop(root, 0)];
    var visited: set<nat> := {};
    visits := [];
    while |stack| != 0 && |visits| < limits.maxNodes
      invariant Walked(g, hit, limits, stack, visits) == Walked(g, hit, limits, [Stop(root, 0)], [])
      invariant forall node :: node in visited <==> Visited(visits, node)
      decreases limits.maxNodes - |visits|, |stack|
    {
      var top := stack[|stack| - 1];
      stack := stack[..|stack| - 1];
      if top.node in visited || top.depth > limits.maxDepth {
        continue;
      }
      VisitedStep(visits, top);
      visited := visited + {top.node};
      visits := visits + [top];
      if hit(top.node) {
        return Some(top.node), visits;
      }
      if g.stops(top.node) {
        assert stack + [] == stack;
        continue;
      }
      stack := stack + Expanded(g, top);
    }
    found := None;
  }

  lemma VisitedStep(visits: seq<Stop>, top: Stop)
    ensures forall node :: Visited(visits + [top], node) <==> Visited(visits, node) || node == top.node
  {
    var more := visits + [top];
    assert more[|visits|] == top && forall i :: 0 <= i < |visits| ==> more[i] == visits[i];
    forall node
      ensures Visited(more, node) <==> Visited(visits, node) || node == top.node
    {
      if Visited(visits, node) {
        var i :| 0 <= i < |visits| && visits[i].node == node;
        assert more[i].node == node;
      }
    }
  }

  // --------------------------------------------------------------- soundness

  /** There is a way of `length` steps from `root`, through objects that do not stop the walk. */
  ghost predicate Way(g: Graph, root: nat, node: nat, length: nat)
    decreases length
  {
    if length == 0 then node == root
    else exists before: nat :: Way(g, root, before, length - 1) && !g.stops(before) && node in g.children(before)
  }

  ghost predicate Distinct(visits: seq<Stop>) {
    forall i, j :: 0 <= i < j < |visits| ==> visits[i].node != visits[j].node
  }

  ghost predicate Sound(g: Graph, hit: nat -> bool, root: nat, limits: Limits, visits: seq<Stop>) {
    && Distinct(visits) && |visits| <= limits.maxNodes
    && forall i :: 0 <= i < |visits| ==> visits[i].depth <= limits.maxDepth && Way(g, root, visits[i].node, visits[i].depth)
  }

  ghost predicate AllWays(g: Graph, root: nat, stack: seq<Stop>) {
    forall i :: 0 <= i < |stack| ==> Way(g, root, stack[i].node, stack[i].depth)
  }

  lemma ExpandedWays(g: Graph, root: nat, rest: seq<Stop>, top: Stop)
    requires AllWays(g, root, rest) && Way(g, root, top.node, top.depth)
    ensures AllWays(g, root, rest + Expanded(g, top))
  {
  }

  lemma SoundStep(g: Graph, hit: nat -> bool, root: nat, limits: Limits, visits: seq<Stop>, top: Stop)
    requires Sound(g, hit, root, limits, visits) && |visits| < limits.maxNodes && !Visited(visits, top.node)
    requires top.depth <= limits.maxDepth && Way(g, root, top.node, top.depth)
    ensures Sound(g, hit, root, limits, visits + [top])
  {
  }

  /**
    No object is visited twice, none beyond the depth limit or the node budget; the
    result is that of the last visit, and the visitor had none before.
  */
  lemma {:induction false} WalkIsSound(g: Graph, hit: nat -> bool, root: nat, limits: Limits, stack: seq<Stop>, visits: seq<Stop>)
    requires Sound(g, hit, root, limits, visits) && AllWays(g, root, stack)
    requires forall i :: 0 <= i < |visits| ==> !hit(visits[i].node)
    ensures var (found, all) := Walked(g, hit, limits, stack, visits);
      && Sound(g, hit, root, limits, all)
      && (found.None? ==> forall i :: 0 <= i < |all| ==> !hit(all[i].node))
      && (found.Some? ==> |all| > 0 && all[|all| - 1].node == found.value && hit(found.value)
                          && forall i :: 0 <= i < |all| - 1 ==> !hit(all[i].node))
    decreases limits.maxNodes - |visits|, |stack|
  {
    if |stack| != 0 && |visits| < limits.maxNodes {
      var rest, top := stack[..|stack| - 1], stack[|stack| - 1];
      if Visited(visits, top.node) || top.depth > limits.maxDepth {
        WalkIsSound(g, hit, root, limits, rest, visits);
      } else {
        SoundStep(g, hit, root, limits, visits, top);
        if !hit(top.node) {
          ExpandedWays(g, root, rest, top);
          WalkIsSound(g, hit, root, limits, rest + Expanded(g, top), visits + [top]);
        }
      }
    }
  }

  // ------------------------------------------------------------ completeness

  ghost predicate Stacked(stack: seq<Stop>, stop: Stop) {
    exists i :: 0 <= i < |stack| && stack[i] == stop
  }

  /** Each child of a visit above the depth limit has been visited, or is on the stack. */
  ghost predicate Tracked(g: Graph, limits: Limits, stack: seq<Stop>, visits: seq<Stop>) {
    forall i, child: nat ::
      (0 <= i < |visits| && !g.stops(visits[i].node) && visits[i].depth < limits.maxDepth
       && child in g.children(visits[i].node)) ==>
      Visited(visits, child) || Stacked(stack, Stop(child, visits[i].depth + 1))
  }

  ghost predicate Closed(g: Graph, limits: Limits, visits: seq<Stop>) {
    Tracked(g, limits, [], visits)
  }

  lemma DropKeeps(g: Graph, limits: Limits, stack: seq<Stop>, visits: seq<Stop>)
    requires Tracked(g, limits, stack, visits) && stack != []
    requires var top := stack[|stack| - 1]; Visited(visits, top.node) || top.depth > limits.maxDepth
    ensures Tracked(g, limits, stack[..|stack| - 1], visits)
  {
  }

  lemma VisitKeeps(g: Graph, limits: Limits, stack: seq<Stop>, visits: seq<Stop>)
    requires Tracked(g, limits, stack, visits) && stack != []
    ensures var top := stack[|stack| - 1];
      Tracked(g, limits, stack[..|stack| - 1] + Expanded(g, top), visits + [top])
  {
    var rest, top := stack[..|stack| - 1], stack[|stack| - 1];
    var next, more := rest + Expanded(g, top), visits + [top];
    VisitedStep(visits, top);
    forall i, child: nat | 0 <= i < |more| && !g.stops(more[i].node) && more[i].depth < limits.maxDepth
        && child in g.children(more[i].node)
      ensures Visited(more, child) || Stacked(next, Stop(child, more[i].depth + 1))
    {
      if i == |visits| {
        var children := g.children(top.node);
        var c :| 0 <= c < |children| && children[c] == child;
        assert next[|rest| + c] == Stop(child, top.depth + 1);
      } else if !Visited(more, child) {
        assert more[i] == visits[i];
        var k :| 0 <= k < |stack| && stack[k] == Stop(child, visits[i].depth + 1);
        assert next[k] == stack[k];
      }
    }
  }

  /**
    A walk that ends with nothing, and not because of its node budget, has visited
    every child of the objects above the depth limit.
  */
  lemma {:induction false} WalkCloses(g: Graph, hit: nat -> bool, limits: Limits, stack: seq<Stop>, visits: seq<Stop>)
    requires Tracked(g, limits, stack, visits)
    ensures var (found, all) := Walked(g, hit, limits, stack, visits);
      && (found.None? && |all| < limits.maxNodes ==> Closed(g, limits, all))
      && |visits| <= |all| && all[..|visits|] == visits
    decreases limits.maxNodes - |visits|, |stack|
  {
    if |stack| != 0 && |visits| < limits.maxNodes {
      var rest, top := stack[..|stack| - 1], stack[|stack| - 1];
      if Visited(visits, top.node) || top.depth > limits.maxDepth {
        DropKeeps(g, limits, stack, visits);
        WalkCloses(g, hit, limits, rest, visits);
      } else if !hit(top.node) {
        VisitKeeps(g, limits, stack, visits);
        WalkCloses(g, hit, limits, rest + Expanded(g, top), visits + [top]);
        var all := Walked(g, hit, limits, rest + Expanded(g, top), visits + [top]).1;
        assert all[..|visits|] == all[..|visits| + 1][..|visits|] == visits;
      }
    } else {
      assert visits[..|visits|] == visits;
      assert |stack| == 0 ==> stack == [];
    }
  }

  /** The walk was cut short by neither limit: every visited object's children were visited. */
  ghost predicate NothingCut(g: Graph, visits: seq<Stop>) {
    forall i, child: nat :: 0 <= i < |visits| && !g.stops(visits[i].node) && child in g.children(visits[i].node) ==>
      Visited(visits, child)
  }

  lemma {:induction false} AllReached(g: Graph, root: nat, visits: seq<Stop>, node: nat, length: nat)
    requires Visited(visits, root) && NothingCut(g, visits) && Way(g, root, node, length)
    ensures Visited(visits, node)
    decreases length
  {
    if length > 0 {
      var before: nat :| Way(g, root, before, length - 1) && !g.stops(before) && node in g.children(before);
      AllReached(g, root, visits, before, length - 1);
    }
  }

  /**
    Completeness: if the walk ends with nothing although there are both budget and
    depth to spare (no visit is at the depth limit), the visitor has no result for
    any object that can be reached at all, however far.
  */
  lemma NothingMeansNowhere(g: Graph, hit: nat -> bool, root: nat, limits: Limits)
    requires limits.maxNodes > 0
    ensures var (found, all) := Walked(g, hit, limits, [Stop(root, 0)], []);
      (found.None? && |all| < limits.maxNodes && forall i :: 0 <= i < |all| ==> all[i].depth < limits.maxDepth) ==>
        forall node, length: nat :: Way(g, root, node, length) ==> !hit(node)
  {
    var start := [Stop(root, 0)];
    var (found, all) := Walked(g, hit, limits, start, []);
    WalkIsSound(g, hit, root, limits, start, []);
    WalkCloses(g, hit, limits, start, []);
    if found.None? && |all| < limits.maxNodes && forall i :: 0 <= i < |all| ==> all[i].depth < limits.maxDepth {
      RootIsVisited(g, hit, root, limits);
      assert NothingCut(g, all);
      forall node, length: nat | Way(g, root, node, length)
        ensures !hit(node)
      {
        AllReached(g, root, all, node, length);
      }
    }
  }

  lemma RootIsVisited(g: Graph, hit: nat -> bool, root: nat, limits: Limits)
    requires limits.maxNodes > 0
    ensures Visited(Walked(g, hit, limits, [Stop(root, 0)], []).1, root)
  {
    var start := [Stop(root, 0)];
    var rest := start[..0];
    assert !Visited([], root);
    if !hit(root) {
      var next := rest + Expanded(g, start[0]);
      assert Tracked(g, limits, start, []);
      VisitKeeps(g, limits, start, []);
      assert [] + [start[0]] == [start[0]];
      WalkCloses(g, hit, limits, next, [start[0]]);
      var all := Walked(g, hit, limits, next, [start[0]]).1;
      assert all[0] == all[..1][0] == start[0];
    } else {
      assert Walked(g, hit, limits, start, []).1[0].node == root;
    }
  }

  // --------------------------------------------- completeness, from the graph

  /** A way written out: its objects, each a child of the one before, which does not stop the walk. */
  ghost predicate Trail(g: Graph, root: nat, p: seq<nat>) {
    && p != [] && p[0] == root
    && forall i :: 0 <= i < |p| - 1 ==> !g.stops(p[i]) && p[i + 1] in g.children(p[i])
  }

  ghost predicate Simple(p: seq<nat>) {
    forall i, j :: 0 <= i < j < |p| ==> p[i] != p[j]
  }

  /** No way without a repeated object is longer than the depth limit. */
  ghost predicate Shallow(g: Graph, root: nat, limits: Limits) {
    forall p :: Trail(g, root, p) && Simple(p) ==> |p| - 1 <= limits.maxDepth
  }

  ghost predicate Reachable(g: Graph, root: nat, node: nat) {
    exists length: nat :: Way(g, root, node, length)
  }

  /** At most as many objects as the budget allows can be reached. */
  ghost predicate Small(g: Graph, root: nat, limits: Limits) {
    exists nodes: set<nat> :: |nodes| <= limits.maxNodes && Covers(g, root, nodes)
  }

  ghost predicate Covers(g: Graph, root: nat, nodes: set<nat>) {
    forall node :: Reachable(g, root, node) ==> node in nodes
  }

  /** A way through visited objects only, none of them twice, of the recorded length. */
  ghost predicate Traced(g: Graph, root: nat, visits: seq<Stop>, stop: Stop, p: seq<nat>) {
    && Trail(g, root, p) && Simple(p) && |p| == stop.depth + 1 && p[stop.depth] == stop.node
    && forall i :: 0 <= i < |p| ==> Visited(visits, p[i])
  }

  ghost predicate HasTrace(g: Graph, root: nat, visits: seq<Stop>, stop: Stop) {
    exists p :: Traced(g, root, visits, stop, p)
  }

  ghost predicate VisitsTraced(g: Graph, root: nat, visits: seq<Stop>) {
    forall i :: 0 <= i < |visits| ==> HasTrace(g, root, visits, visits[i])
  }

  /** The stop is the root, or a child of a visit. */
  ghost predicate Offered(g: Graph, root: nat, visits: seq<Stop>, stop: Stop) {
    || stop == Stop(root, 0)
    || exists i :: 0 <= i < |visits| && stop.depth == visits[i].depth + 1
                   && !g.stops(visits[i].node) && stop.node in g.children(visits[i].node)
  }

  ghost predicate StackOffered(g: Graph, root: nat, visits: seq<Stop>, stack: seq<Stop>) {
    forall i :: 0 <= i < |stack| ==> Offered(g, root, visits, stack[i])
  }

  lemma TrailGrows(g: Graph, root: nat, p: seq<nat>, node: nat)
    requires Trail(g, root, p) && !g.stops(p[|p| - 1]) && node in g.children(p[|p| - 1])
    ensures Trail(g, root, p + [node])
    ensures Simple(p) && node !in p ==> Simple(p + [node])
  {
    var q := p + [node];
    assert forall i :: 0 <= i < |p| ==> q[i] == p[i];
  }

  lemma TracedStays(g: Graph, root: nat, visits: seq<Stop>, more: seq<Stop>, stop: Stop, p: seq<nat>)
    requires Traced(g, root, visits, stop, p) && forall node :: Visited(visits, node) ==> Visited(more, node)
    ensures Traced(g, root, more, stop, p)
  {
  }

  lemma TraceGrows(g: Graph, root: nat, visits: seq<Stop>, parent: Stop, p: seq<nat>, top: Stop)
    requires Traced(g, root, visits, parent, p) && !Visited(visits, top.node)
    requires top.depth == parent.depth + 1 && !g.stops(parent.node) && top.node in g.children(parent.node)
    ensures Traced(g, root, visits + [top], top, p + [top.node])
  {
    var q := p + [top.node];
    VisitedStep(visits, top);
    TrailGrows(g, root, p, top.node);
    assert forall i :: 0 <= i < |p| ==> q[i] == p[i];
  }

  /** A stop that is visited for the first time extends the way of the visit that offered it. */
  lemma NewVisitTraced(g: Graph, root: nat, visits: seq<Stop>, top: Stop)
    requires VisitsTraced(g, root, visits) && Offered(g, root, visits, top) && !Visited(visits, top.node)
    ensures HasTrace(g, root, visits + [top], top)
  {
    var more := visits + [top];
    VisitedStep(visits, top);
    if top == Stop(root, 0) {
      assert Traced(g, root, more, top, [root]);
    } else {
      var i :| 0 <= i < |visits| && top.depth == visits[i].depth + 1
        && !g.stops(visits[i].node) && top.node in g.children(visits[i].node);
      assert HasTrace(g, root, visits, visits[i]);
      var p :| Traced(g, root, visits, visits[i], p);
      TraceGrows(g, root, visits, visits[i], p, top);
    }
  }

  lemma VisitTraced(g: Graph, root: nat, visits: seq<Stop>, top: Stop)
    requires VisitsTraced(g, root, visits) && Offered(g, root, visits, top) && !Visited(visits, top.node)
    ensures VisitsTraced(g, root, visits + [top])
  {
    var more := visits + [top];
    NewVisitTraced(g, root, visits, top);
    VisitedStep(visits, top);
    forall i | 0 <= i < |more|
      ensures HasTrace(g, root, more, more[i])
    {
      if i < |visits| {
        assert more[i] == visits[i] && HasTrace(g, root, visits, visits[i]);
        var p :| Traced(g, root, visits, visits[i], p);
        TracedStays(g, root, visits, more, visits[i], p);
      }
    }
  }

  lemma OffersStay(g: Graph, root: nat, visits: seq<Stop>, top: Stop, rest: seq<Stop>)
    requires StackOffered(g, root, visits, rest)
    ensures StackOffered(g, root, visits + [top], rest + Expanded(g, top))
  {
    var more, stack := visits + [top], rest + Expanded(g, top);
    assert more[|visits|] == top && forall i :: 0 <= i < |visits| ==> more[i] == visits[i];
    forall i | 0 <= i < |stack|
      ensures Offered(g, root, more, stack[i])
    {
      if i < |rest| {
        assert stack[i] == rest[i] && Offered(g, root, visits, rest[i]);
      } else {
        var c := i - |rest|;
        assert stack[i] == Expanded(g, top)[c];
        assert g.children(top.node)[c] in g.children(top.node);
      }
    }
  }

  /** Every visit's depth is the length of a way without a repeated object. */
  lemma {:induction false} WalkIsTraced(g: Graph, hit: nat -> bool, root: nat, limits: Limits, stack: seq<Stop>, visits: seq<Stop>)
    requires VisitsTraced(g, root, visits) && StackOffered(g, root, visits, stack)
    ensures VisitsTraced(g, root, Walked(g, hit, limits, stack, visits).1)
    decreases limits.maxNodes - |visits|, |stack|
  {
    if |stack| != 0 && |visits| < limits.maxNodes {
      var rest, top := stack[..|stack| - 1], stack[|stack| - 1];
      assert Offered(g, root, visits, stack[|stack| - 1]);
      assert StackOffered(g, root, visits, rest) by { assert forall i :: 0 <= i < |rest| ==> rest[i] == stack[i]; }
      if Visited(visits, top.node) || top.depth > limits.maxDepth {
        WalkIsTraced(g, hit, root, limits, rest, visits);
      } else {
        VisitTraced(g, root, visits, top);
        if !hit(top.node) {
          OffersStay(g, root, visits, top, rest);
          WalkIsTraced(g, hit, root, limits, rest + Expanded(g, top), visits + [top]);
        }
      }
    }
  }

  /** In a shallow graph the depth limit cuts nothing: a visit at the limit has visited children only. */
  lemma ShallowCutsNothing(g: Graph, root: nat, limits: Limits, visits: seq<Stop>)
    requires Shallow(g, root, limits) && VisitsTraced(g, root, visits) && Closed(g, limits, visits)
    requires forall i :: 0 <= i < |visits| ==> visits[i].depth <= limits.maxDepth
    ensures NothingCut(g, visits)
  {
    forall i, child: nat | 0 <= i < |visits| && !g.stops(visits[i].node) && child in g.children(visits[i].node)
      ensures Visited(visits, child)
    {
      if visits[i].depth == limits.maxDepth {
        assert HasTrace(g, root, visits, visits[i]);
        var p :| Traced(g, root, visits, visits[i], p);
        TrailGrows(g, root, p, child);
        assert Trail(g, root, p + [child]) && |p + [child]| - 1 > limits.maxDepth;
        assert child in p;
      }
    }
  }

  function Nodes(visits: seq<Stop>): set<nat> {
    set i | 0 <= i < |visits| :: visits[i].node
  }

  lemma {:induction false} DistinctNodes(visits: seq<Stop>)
    requires Distinct(visits)
    ensures |Nodes(visits)| == |visits|
    decreases |visits|
  {
    if |visits| != 0 {
      var init, last := visits[..|visits| - 1], visits[|visits| - 1];
      DistinctNodes(init);
      assert Nodes(visits) == Nodes(init) + {last.node};
    }
  }

  lemma FullSubset(a: set<nat>, b: set<nat>)
    requires a <= b && |b| <= |a|
    ensures a == b
  {
    var rest := b - a;
    assert b == a + rest && |b| == |a| + |rest|;
  }

  /** In a small graph an exhausted budget means that everything reachable was visited. */
  lemma SmallIsVisited(g: Graph, hit: nat -> bool, root: nat, limits: Limits, visits: seq<Stop>, node: nat)
    requires Small(g, root, limits) && Sound(g, hit, root, limits, visits) && |visits| == limits.maxNodes
    requires Reachable(g, root, node)
    ensures Visited(visits, node)
  {
    var nodes: set<nat> :| |nodes| <= limits.maxNodes && Covers(g, root, nodes);
    DistinctNodes(visits);
    forall other | other in Nodes(visits)
      ensures other in nodes
    {
      var i :| 0 <= i < |visits| && visits[i].node == other;
      assert Reachable(g, root, visits[i].node);
    }
    FullSubset(Nodes(visits), nodes);
  }

  /**
    Completeness, as far as the graph and the limits decide it: if no way without a
    repeated object is longer than the depth limit, and no more objects can be
    reached than the budget allows, the walk finds something exactly if some
    reachable object has a result.
  */
  lemma FindsIffReachable(g: Graph, hit: nat -> bool, root: nat, limits: Limits)
    requires Shallow(g, root, limits) && Small(g, root, limits)
    ensures Walked(g, hit, limits, [Stop(root, 0)], []).0.Some? <==> exists node :: Reachable(g, root, node) && hit(node)
  {
    var start := [Stop(root, 0)];
    var (found, all) := Walked(g, hit, limits, start, []);
    assert Way(g, root, root, 0);
    WalkIsSound(g, hit, root, limits, start, []);
    if found.Some? {
      assert Reachable(g, root, all[|all| - 1].node);
    } else {
      SmallHasRoot(g, root, limits);
      forall node | Reachable(g, root, node)
        ensures !hit(node)
      {
        ReachableIsVisited(g, hit, root, limits, node);
      }
    }
  }

  lemma SmallHasRoot(g: Graph, root: nat, limits: Limits)
    requires Small(g, root, limits)
    ensures limits.maxNodes > 0
  {
    var nodes: set<nat> :| |nodes| <= limits.maxNodes && Covers(g, root, nodes);
    assert Way(g, root, root, 0) && Reachable(g, root, root);
    assert root in nodes;
  }

  lemma ReachableIsVisited(g: Graph, hit: nat -> bool, root: nat, limits: Limits, node: nat)
    requires Shallow(g, root, limits) && Small(g, root, limits) && limits.maxNodes > 0 && Reachable(g, root, node)
    requires Walked(g, hit, limits, [Stop(root, 0)], []).0.None?
    ensures Visited(Walked(g, hit, limits, [Stop(root, 0)], []).1, node)
  {
    var start := [Stop(root, 0)];
    var all := Walked(g, hit, limits, start, []).1;
    assert Way(g, root, root, 0);
    WalkIsSound(g, hit, root, limits, start, []);
    if |all| == limits.maxNodes {
      SmallIsVisited(g, hit, root, limits, all, node);
    } else {
      WalkCloses(g, hit, limits, start, []);
      WalkIsTraced(g, hit, root, limits, start, []);
      ShallowCutsNothing(g, root, limits, all);
      RootIsVisited(g, hit, root, limits);
      var length: nat :| Way(g, root, node, length);
      AllReached(g, root, all, node, length);
    }
  }

  // ------------------------------------------------- what the depth limit hides

  /** Objects 0 to d in a chain, d also a child of 0, and beyond d one object more. */
  function Detour(d: nat): Graph {
    Graph(node => if node == 0 then [d, 1] else if node <= d then [node + 1] else [], _ => false)
  }

  lemma DetourIsShort(g: Graph, d: nat, length: nat)
    requires g == Detour(d) && d > 0 && length == 2
    ensures Way(g, 0, d + 1, length)
  {
    var one := length - 1;
    assert Way(g, 0, 0, one - 1);
    assert Way(g, 0, d, one) by { assert d in g.children(0); }
    assert d + 1 in g.children(d);
  }

  function Chain(i: nat): seq<Stop> {
    seq(i, k requires 0 <= k < i => Stop(k, k))
  }

  lemma OneVisit(g: Graph, hit: nat -> bool, limits: Limits, rest: seq<Stop>, top: Stop, visits: seq<Stop>)
    requires |visits| < limits.maxNodes && !Visited(visits, top.node) && top.depth <= limits.maxDepth && !hit(top.node)
    ensures Walked(g, hit, limits, rest + [top], visits) == Walked(g, hit, limits, rest + Expanded(g, top), visits + [top])
  {
  }

  lemma OneSkip(g: Graph, hit: nat -> bool, limits: Limits, rest: seq<Stop>, top: Stop, visits: seq<Stop>)
    requires Visited(visits, top.node) || top.depth > limits.maxDepth
    requires Walked(g, hit, limits, rest, visits).0 == None
    ensures Walked(g, hit, limits, rest + [top], visits).0 == None
  {
    assert (rest + [top])[..|rest|] == rest;
  }

  /** Down the chain: the direct way to d stays at the bottom of the stack. */
  lemma {:induction false} DownTheChain(d: nat, i: nat, hit: nat -> bool, limits: Limits)
    requires 2 <= d == limits.maxDepth < limits.maxNodes && 1 <= i <= d
    requires forall node :: hit(node) <==> node == d + 1
    ensures Walked(Detour(d), hit, limits, [Stop(d, 1)] + [Stop(i, i)], Chain(i)).0 == None
    decreases d - i
  {
    var g, direct, top := Detour(d), Stop(d, 1), Stop(i, i);
    assert !Visited(Chain(i), i);
    OneVisit(g, hit, limits, [direct], top, Chain(i));
    assert Chain(i) + [top] == Chain(i + 1);
    assert Expanded(g, top) == [Stop(i + 1, i + 1)];
    if i < d {
      DownTheChain(d, i + 1, hit, limits);
    } else {
      assert Chain(d + 1)[d].node == d;
      assert Walked(g, hit, limits, [], Chain(d + 1)).0 == None;
      OneSkip(g, hit, limits, [], direct, Chain(d + 1));
      assert [] + [direct] == [direct];
      OneSkip(g, hit, limits, [direct], Stop(d + 1, d + 1), Chain(d + 1));
    }
  }

  lemma DetourStart(g: Graph, d: nat, rest: seq<Stop>, start: Stop, visits: seq<Stop>)
    requires d > 0 && g == Detour(d) && start == Stop(0, 0) && rest == [] && visits == []
    ensures rest + Expanded(g, start) == [Stop(d, 1)] + [Stop(1, 1)] && visits + [start] == Chain(1)
    ensures !Visited(visits, 0)
  {
    assert Expanded(g, start) == [Stop(d, 1), Stop(1, 1)];
  }

  lemma DetourIsMissed(g: Graph, hit: nat -> bool, limits: Limits, rest: seq<Stop>, start: Stop, visits: seq<Stop>)
    requires 2 <= limits.maxDepth < limits.maxNodes && g == Detour(limits.maxDepth)
    requires start == Stop(0, 0) && rest == [] && visits == []
    requires forall node :: hit(node) <==> node == limits.maxDepth + 1
    ensures Walked(g, hit, limits, rest + [start], visits).0 == None
  {
    DetourStart(g, limits.maxDepth, rest, start, visits);
    OneVisit(g, hit, limits, rest, start, visits);
    DownTheChain(limits.maxDepth, 1, hit, limits);
  }

  /**
    The condition on the ways is needed, at every limit from two on and so at each
    that the program uses: the object two steps from the root is not found, because
    the one before it was first come upon at the depth limit, by a longer way.
  */
  lemma DepthLimitMisses(hit: nat -> bool, limits: Limits, length: nat)
    requires 2 == length <= limits.maxDepth < limits.maxNodes
    requires forall node :: hit(node) <==> node == limits.maxDepth + 1
    ensures var g, target := Detour(limits.maxDepth), limits.maxDepth + 1;
      Way(g, 0, target, length) && hit(target) && Walked(g, hit, limits, [Stop(0, 0)], []).0 == None
  {
    var g := Detour(limits.maxDepth);
    DetourIsShort(g, limits.maxDepth, length);
    DetourIsMissed(g, hit, limits, [], Stop(0, 0), []);
    assert [] + [Stop(0, 0)] == [Stop(0, 0)];
  }
}
