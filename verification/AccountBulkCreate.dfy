/**
  Creating accounts in bulk: the chain of mutators in which every builder's
  innermost step runs the whole chain of the next builder, and the last one
  hands all specs to the database.
 */
module AccountBulkCreate {

  import opened Text
  import Codec = AccountCodec

  /**
    A hook that passes the call on, possibly editing the mutation, or one that
    refuses before or after passing it on.
  */
  datatype Hook = Pass(edit: Codec.Mutation -> Codec.Mutation) | RejectBefore | RejectAfter

  /** A builder's mutation: its fields, and what saving it records in it. */
  datatype Pending = Pending(fields: Codec.Mutation, id: Option<int>, done: bool)

  type Specs = seq<Option<Codec.Spec>>
  type Nodes = seq<Option<Codec.Node>>

  /** What the database makes of a batch: whether it accepts it, and the id it records in each spec, if any. */
  datatype Database = Database(accepts: Specs -> bool, idOf: (Specs, nat) -> Option<int>)

  /** What a save does not change: each builder's hooks (the first is the outermost), the schema and the database. */
  datatype Setup = Setup(hooks: seq<seq<Hook>>, schema: Codec.Schema, database: Database)

  /** What the chain updates; `calls` logs the batches handed to the database. */
  datatype State = State(mutations: seq<Pending>, specs: Specs, nodes: Nodes, calls: seq<Specs>)

  ghost predicate Shaped(setup: Setup, s: State) {
    |s.mutations| == |s.specs| == |s.nodes| == |setup.hooks|
  }

  function Edit(p: Pending, edit: Codec.Mutation -> Codec.Mutation): Pending {
    p.(fields := edit(p.fields))
  }

  /** `createSpec` of builder `i`. */
  function Built(s: State, i: nat): State
    requires i < |s.mutations| == |s.specs| == |s.nodes|
  {
    s.(nodes := s.nodes[i := Some(Codec.NodeOf(s.mutations[i].fields))],
       specs := s.specs[i := Some(Codec.SpecOf(s.mutations[i].fields))])
  }

  /** The node with the id found in its spec, if there is one. */
  function Identified(node: Codec.Node, id: Option<int>): Codec.Node {
    if id.Some? then node.(id := id.value) else node
  }

  /** The steps after a successful batch, for builder `i`. */
  function Marked(database: Database, s: State, i: nat): State
    requires i < |s.mutations| == |s.specs| == |s.nodes| && s.nodes[i].Some?
  {
    var node := Identified(s.nodes[i].value, database.idOf(s.specs, i));
    s.(nodes := s.nodes[i := Some(node)],
       mutations := s.mutations[i := s.mutations[i].(id := Some(node.id), done := true)])
  }

  /** Runs builder `i` from its `h`-th hook on, and with it all later builders; the flag is false for an error. */
  function Chain(setup: Setup, s: State, i: nat, h: nat): (r: (State, bool))
    requires Shaped(setup, s) && i < |setup.hooks| && h <= |setup.hooks[i]|
    ensures Shaped(setup, r.0)
    ensures forall k :: 0 <= k < i ==> r.0.nodes[k] == s.nodes[k]
    ensures r.1 ==> forall k :: i <= k < |r.0.nodes| ==> r.0.nodes[k].Some?
    decreases |setup.hooks| - i, |setup.hooks[i]| - h
  {
    var n := |setup.hooks|;
    if h < |setup.hooks[i]| then
      match setup.hooks[i][h]
      case RejectBefore => (s, false)
      case Pass(edit) => Chain(setup, s.(mutations := s.mutations[i := Edit(s.mutations[i], edit)]), i, h + 1)
      case RejectAfter => (Chain(setup, s, i, h + 1).0, false)
    else if Codec.Check(s.mutations[i].fields, setup.schema).Some? then (s, false)
    else
      var built := Built(s, i);
      var next :=
        if i < n - 1 then Chain(setup, built, i + 1, 0)
        else (built.(calls := built.calls + [built.specs]), setup.database.accepts(built.specs));
      if next.1 then (Marked(setup.database, next.0, i), true) else next
  }

  function Defaulted(p: Pending, schema: Codec.Schema): Pending {
    p.(fields := Codec.Defaults(p.fields, schema).0)
  }

  /** The state in which the chain starts. */
  function Start(setup: Setup, mutations: seq<Pending>, calls: seq<Specs>): State
    requires |mutations| == |setup.hooks|
  {
    State(seq(|mutations|, i requires 0 <= i < |mutations| => Defaulted(mutations[i], setup.schema)),
          seq(|mutations|, _ => None), seq(|mutations|, _ => None), calls)
  }

  /** `Save` of a bulk that recorded no error when it was put together. */
  function Saved(setup: Setup, mutations: seq<Pending>, calls: seq<Specs>): (r: (State, bool))
    requires |mutations| == |setup.hooks|
    ensures Shaped(setup, r.0)
  {
    var start := Start(setup, mutations, calls);
    if mutations == [] then (start, true) else Chain(setup, start, 0, 0)
  }

  // ------------------------------------------------------------ the program

  class Bulk {
    const setup: Setup
    var failed: bool
    var mutations: seq<Pending>
    var calls: seq<Specs>

    ghost predicate Valid()
      reads this
    {
      |mutations| == |setup.hooks|
    }

    constructor (setup: Setup, fields: seq<Codec.Mutation>)
      requires |fields| == |setup.hooks|
      ensures Valid() && this.setup == setup && !failed && calls == []
      ensures forall i :: 0 <= i < |fields| ==> mutations[i] == Pending(fields[i], None, false)
    {
      this.setup := setup;
      failed := false;
      mutations := seq(|fields|, i requires 0 <= i < |fields| => Pending(fields[i], None, false));
      calls := [];
    }

    method Mutate(specs: array<Option<Codec.Spec>>, nodes: array<Option<Codec.Node>>, i: nat, h: nat)
      returns (ok: bool)
      requires Valid() && specs.Length == nodes.Length == |mutations| && i < |mutations| && h <= |setup.hooks[i]|
      modifies this, specs, nodes
      ensures Valid() && failed == old(failed)
      ensures (State(mutations, specs[..], nodes[..], calls), ok)
           == Chain(setup, old(State(mutations, specs[..], nodes[..], calls)), i, h)
      decreases |setup.hooks| - i, |setup.hooks[i]| - h
    {
      if h < |setup.hooks[i]| {
        match setup.hooks[i][h] {
          case RejectBefore =>
            ok := false;
          case Pass(edit) =>
            mutations := mutations[i := Edit(mutations[i], edit)];
            ok := Mutate(specs, nodes, i, h + 1);
          case RejectAfter =>
            var _ := Mutate(specs, nodes, i, h + 1);
            ok := false;
        }
        return;
      }
      if Codec.Check(mutations[i].fields, setup.schema).Some? {
        return false;
      }
      ghost var before := State(mutations, specs[..], nodes[..], calls);
      var node, spec := Codec.CreateSpec(mutations[i].fields);
      nodes[i], specs[i] := Some(node), Some(spec);
      assert State(mutations, specs[..], nodes[..], calls) == Built(before, i);
      if i < |setup.hooks| - 1 {
        ok := Mutate(specs, nodes, i + 1, 0);
      } else {
        calls := calls + [specs[..]];
        ok := setup.database.accepts(specs[..]);
      }
      if ok {
        ghost var next := State(mutations, specs[..], nodes[..], calls);
        assert next.nodes[i] == Some(Codec.NodeOf(before.mutations[i].fields));
        var saved := Identified(nodes[i].value, setup.database.idOf(specs[..], i));
        nodes[i] := Some(saved);
        mutations := mutations[i := mutations[i].(id := Some(saved.id), done := true)];
        assert State(mutations, specs[..], nodes[..], calls) == Marked(setup.database, next, i);
      }
    }

    /** `Save`: None for an error, otherwise the nodes. */
    method Save() returns (result: Option<Nodes>)
      requires Valid()
      modifies this
      ensures Valid() && failed == old(failed)
      ensures failed ==> result == None && mutations == old(mutations) && calls == old(calls)
      ensures !failed ==>
        var (after, ok) := Saved(setup, old(mutations), old(calls));
        && mutations == after.mutations && calls == after.calls
        && result == if ok then Some(after.nodes) else None
    {
      if failed {
        return None;
      }
      var n := |mutations|;
      var specs := new Option<Codec.Spec>[n](_ => None);
      var nodes := new Option<Codec.Node>[n](_ => None);
      for i := 0 to n
        invariant specs[..] == seq(n, _ => None) && nodes[..] == seq(n, _ => None)
        invariant |mutations| == n && calls == old(calls) && failed == old(failed)
        invariant forall k :: 0 <= k < i ==> mutations[k] == Defaulted(old(mutations)[k], setup.schema)
        invariant forall k :: i <= k < n ==> mutations[k] == old(mutations)[k]
      {
        mutations := mutations[i := Defaulted(mutations[i], setup.schema)];
      }
      ghost var start := Start(setup, old(mutations), old(calls));
      assert mutations == start.mutations && specs[..] == start.specs && nodes[..] == start.nodes;
      if n > 0 {
        var ok := Mutate(specs, nodes, 0, 0);
        if !ok {
          return None;
        }
      }
      return Some(nodes[..]);
    }
  }

  // ------------------------------------------------- what the chain amounts to

  /** The mutation after all hooks had their turn. */
  function Edited(m: Codec.Mutation, hooks: seq<Hook>): Codec.Mutation
    decreases |hooks|
  {
    if |hooks| == 0 then m else Edited(if hooks[0].Pass? then hooks[0].edit(m) else m, hooks[1..])
  }

  ghost predicate Refuses(hooks: seq<Hook>) {
    exists h :: 0 <= h < |hooks| && hooks[h].RejectBefore?
  }

  ghost predicate Objects(hooks: seq<Hook>) {
    exists h :: 0 <= h < |hooks| && hooks[h].RejectAfter?
  }

  /** The builder's mutation passes its own check once its hooks, none of which refuses it, have edited it. */
  ghost predicate Admitted(schema: Codec.Schema, m: Codec.Mutation, hooks: seq<Hook>) {
    !Refuses(hooks) && Codec.Check(Edited(m, hooks), schema).None?
  }

  /** The hooks that builder `k` has yet to run when builder `i` is at hook `h`. */
  function Rest(hooks: seq<seq<Hook>>, i: nat, h: nat, k: nat): seq<Hook>
    requires i <= k < |hooks| && h <= |hooks[i]|
  {
    if k == i then hooks[i][h..] else hooks[k]
  }

  ghost predicate Reaches(setup: Setup, s: State, i: nat, h: nat)
    requires Shaped(setup, s) && i < |setup.hooks| && h <= |setup.hooks[i]|
  {
    forall k :: i <= k < |setup.hooks| ==> Admitted(setup.schema, s.mutations[k].fields, Rest(setup.hooks, i, h, k))
  }

  function Final(setup: Setup, s: State, i: nat, h: nat): Specs
    requires |s.mutations| == |s.specs| == |setup.hooks| && i < |setup.hooks| && h <= |setup.hooks[i]|
  {
    seq(|s.specs|, k requires 0 <= k < |s.specs| =>
      if k < i then s.specs[k]
      else Some(Codec.SpecOf(Edited(s.mutations[k].fields, Rest(setup.hooks, i, h, k)))))
  }

  ghost predicate NoneObjects(hooks: seq<seq<Hook>>, i: nat, h: nat)
    requires i < |hooks| && h <= |hooks[i]|
  {
    forall k :: i <= k < |hooks| ==> !Objects(Rest(hooks, i, h, k))
  }

  lemma HookStep(setup: Setup, s: State, i: nat, h: nat, next: State)
    requires Shaped(setup, s) && i < |setup.hooks| && h < |setup.hooks[i]| && !setup.hooks[i][h].RejectBefore?
    requires var hook := setup.hooks[i][h];
      next == if hook.Pass? then s.(mutations := s.mutations[i := Edit(s.mutations[i], hook.edit)]) else s
    ensures Reaches(setup, s, i, h) <==> Reaches(setup, next, i, h + 1)
    ensures Final(setup, s, i, h) == Final(setup, next, i, h + 1)
    ensures NoneObjects(setup.hooks, i, h)
      <==> !setup.hooks[i][h].RejectAfter? && NoneObjects(setup.hooks, i, h + 1)
  {
    var hook, now, later := setup.hooks[i][h], setup.hooks[i][h..], setup.hooks[i][h + 1..];
    assert now == [hook] + later;
    assert Edited(s.mutations[i].fields, now) == Edited(next.mutations[i].fields, later);
    OneHook(hook, later);
    assert Rest(setup.hooks, i, h, i) == now && Rest(setup.hooks, i, h + 1, i) == later;
    assert forall k :: i < k < |setup.hooks| ==> Rest(setup.hooks, i, h, k) == Rest(setup.hooks, i, h + 1, k);
  }

  lemma OneHook(hook: Hook, later: seq<Hook>)
    ensures Objects([hook] + later) <==> hook.RejectAfter? || Objects(later)
    ensures Refuses([hook] + later) <==> hook.RejectBefore? || Refuses(later)
  {
    assert forall h :: 0 <= h < |later| ==> later[h] == ([hook] + later)[h + 1];
    assert ([hook] + later)[0] == hook;
  }

  lemma InnerStep(setup: Setup, s: State, i: nat)
    requires Shaped(setup, s) && i < |setup.hooks|
    ensures var h := |setup.hooks[i]|; var last := i == |setup.hooks| - 1;
      && (Reaches(setup, s, i, h)
          <==> (Codec.Check(s.mutations[i].fields, setup.schema).None?
                && (last || Reaches(setup, Built(s, i), i + 1, 0))))
      && Final(setup, s, i, h) == (if last then Built(s, i).specs else Final(setup, Built(s, i), i + 1, 0))
      && (NoneObjects(setup.hooks, i, h) <==> last || NoneObjects(setup.hooks, i + 1, 0))
  {
    var hooks, h := setup.hooks, |setup.hooks[i]|;
    assert Rest(hooks, i, h, i) == [];
    assert forall k :: i < k < |hooks| ==> Rest(hooks, i, h, k) == Rest(hooks, i + 1, 0, k) == hooks[k];
    assert Admitted(setup.schema, s.mutations[i].fields, []) <==> Codec.Check(s.mutations[i].fields, setup.schema).None?;
  }

  /**
    The batch is handed over, once and whole, iff nothing on the way refuses; the
    chain succeeds iff moreover the database accepts it and no hook objects afterwards.
  */
  ghost predicate RunsRight(setup: Setup, s: State, i: nat, h: nat, r: (State, bool))
    requires Shaped(setup, s) && i < |setup.hooks| && h <= |setup.hooks[i]|
  {
    var final := Final(setup, s, i, h);
    && r.0.calls == (if Reaches(setup, s, i, h) then s.calls + [final] else s.calls)
    && (Reaches(setup, s, i, h) ==> r.0.specs == final)
    && (r.1 <==> Reaches(setup, s, i, h) && setup.database.accepts(final) && NoneObjects(setup.hooks, i, h))
  }

  lemma {:induction false} ChainRuns(setup: Setup, s: State, i: nat, h: nat)
    requires Shaped(setup, s) && i < |setup.hooks| && h <= |setup.hooks[i]|
    ensures RunsRight(setup, s, i, h, Chain(setup, s, i, h))
    decreases |setup.hooks| - i, |setup.hooks[i]| - h
  {
    var hooks := setup.hooks[i];
    if h < |hooks| && hooks[h].RejectBefore? {
      assert hooks[h..][0] == hooks[h] && Refuses(Rest(setup.hooks, i, h, i));
    } else if h < |hooks| {
      var next := if hooks[h].Pass? then s.(mutations := s.mutations[i := Edit(s.mutations[i], hooks[h].edit)]) else s;
      HookStep(setup, s, i, h, next);
      ChainRuns(setup, next, i, h + 1);
    } else {
      if i < |setup.hooks| - 1 {
        ChainRuns(setup, Built(s, i), i + 1, 0);
      }
      InnerRuns(setup, s, i);
    }
  }

  lemma InnerRuns(setup: Setup, s: State, i: nat)
    requires Shaped(setup, s) && i < |setup.hooks|
    requires i < |setup.hooks| - 1 ==> RunsRight(setup, Built(s, i), i + 1, 0, Chain(setup, Built(s, i), i + 1, 0))
    ensures RunsRight(setup, s, i, |setup.hooks[i]|, Chain(setup, s, i, |setup.hooks[i]|))
  {
    InnerStep(setup, s, i);
  }

  /** Whether the chain, started at hook `h` of builder `i`, newly marks builder `k` done. */
  ghost predicate Marks(setup: Setup, s: State, i: nat, h: nat, k: nat)
    requires Shaped(setup, s) && i < |setup.hooks| && h <= |setup.hooks[i]|
  {
    && i <= k < |setup.hooks|
    && Reaches(setup, s, i, h) && setup.database.accepts(Final(setup, s, i, h))
    && forall j :: k < j < |setup.hooks| ==> !Objects(setup.hooks[j])
  }

  /** What the chain, started at hook `h` of builder `i`, leaves of builder `k`. */
  ghost predicate MarkedRight(setup: Setup, s: State, i: nat, h: nat, k: nat, after: State)
    requires Shaped(setup, s) && Shaped(setup, after)
    requires i < |setup.hooks| && h <= |setup.hooks[i]| && k < |setup.hooks|
  {
    if Marks(setup, s, i, h, k) then
      var node := FinalNode(setup, s, i, h, k);
      after.nodes[k] == Some(node) && after.mutations[k].done && after.mutations[k].id == Some(node.id)
    else after.mutations[k].done == s.mutations[k].done && after.mutations[k].id == s.mutations[k].id
  }

  function FinalNode(setup: Setup, s: State, i: nat, h: nat, k: nat): Codec.Node
    requires Shaped(setup, s) && i < |setup.hooks| && h <= |setup.hooks[i]| && i <= k < |setup.hooks|
  {
    Identified(Codec.NodeOf(Edited(s.mutations[k].fields, Rest(setup.hooks, i, h, k))),
               setup.database.idOf(Final(setup, s, i, h), k))
  }

  lemma {:induction false} ChainMarks(setup: Setup, s: State, i: nat, h: nat, k: nat)
    requires Shaped(setup, s) && i < |setup.hooks| && h <= |setup.hooks[i]| && k < |setup.hooks|
    ensures MarkedRight(setup, s, i, h, k, Chain(setup, s, i, h).0)
    decreases |setup.hooks| - i, |setup.hooks[i]| - h
  {
    var hooks := setup.hooks[i];
    if h < |hooks| && hooks[h].RejectBefore? {
      assert hooks[h..][0] == hooks[h] && Refuses(Rest(setup.hooks, i, h, i));
    } else if h < |hooks| {
      var next := if hooks[h].Pass? then s.(mutations := s.mutations[i := Edit(s.mutations[i], hooks[h].edit)]) else s;
      ChainMarks(setup, next, i, h + 1, k);
      HookMarks(setup, s, i, h, next, k, Chain(setup, next, i, h + 1).0);
    } else if i < |setup.hooks| - 1 {
      ChainMarks(setup, Built(s, i), i + 1, 0, k);
      InnerMarks(setup, s, i, k);
    } else {
      InnerStep(setup, s, i);
    }
  }

  lemma HookMarks(setup: Setup, s: State, i: nat, h: nat, next: State, k: nat, after: State)
    requires Shaped(setup, s) && Shaped(setup, next) && Shaped(setup, after) && i < |setup.hooks|
    requires h < |setup.hooks[i]| && !setup.hooks[i][h].RejectBefore? && k < |setup.hooks|
    requires var hook := setup.hooks[i][h];
      next == if hook.Pass? then s.(mutations := s.mutations[i := Edit(s.mutations[i], hook.edit)]) else s
    requires MarkedRight(setup, next, i, h + 1, k, after)
    ensures MarkedRight(setup, s, i, h, k, after)
  {
    HookStep(setup, s, i, h, next);
    var hooks := setup.hooks[i];
    assert hooks[h..] == [hooks[h]] + hooks[h + 1..];
    assert i <= k ==> FinalNode(setup, s, i, h, k) == FinalNode(setup, next, i, h + 1, k);
  }

  /** The innermost step of a builder that is not the last: its check, then the later builders, then its own mark. */
  lemma InnerUnfolds(setup: Setup, s: State, i: nat, next: (State, bool))
    requires Shaped(setup, s) && i < |setup.hooks| - 1 && next == Chain(setup, Built(s, i), i + 1, 0)
    ensures Chain(setup, s, i, |setup.hooks[i]|).0
         == if Codec.Check(s.mutations[i].fields, setup.schema).Some? then s
            else if next.1 then Marked(setup.database, next.0, i) else next.0
    ensures next.0.nodes[i] == Built(s, i).nodes[i]
  {
  }

  lemma InnerMarks(setup: Setup, s: State, i: nat, k: nat)
    requires Shaped(setup, s) && i < |setup.hooks| - 1 && k < |setup.hooks|
    requires MarkedRight(setup, Built(s, i), i + 1, 0, k, Chain(setup, Built(s, i), i + 1, 0).0)
    ensures MarkedRight(setup, s, i, |setup.hooks[i]|, k, Chain(setup, s, i, |setup.hooks[i]|).0)
  {
    var built := Built(s, i);
    var next := Chain(setup, built, i + 1, 0);
    InnerUnfolds(setup, s, i, next);
    InnerStep(setup, s, i);
    if Codec.Check(s.mutations[i].fields, setup.schema).None? {
      ChainRuns(setup, built, i + 1, 0);
      LaterObjections(setup.hooks, i);
      InnerMarksFrom(setup, s, i, k, built, next.0, next.1, Chain(setup, s, i, |setup.hooks[i]|).0);
    }
  }

  /** The steps of builder `i` after those of the later builders. */
  lemma InnerMarksFrom(setup: Setup, s: State, i: nat, k: nat, built: State, next: State, ok: bool, after: State)
    requires Shaped(setup, s) && i < |setup.hooks| - 1 && k < |setup.hooks| && built == Built(s, i)
    requires Shaped(setup, next) && Shaped(setup, after) && next.nodes[i] == built.nodes[i]
    requires MarkedRight(setup, built, i + 1, 0, k, next) && RunsRight(setup, built, i + 1, 0, (next, ok))
    requires var h := |setup.hooks[i]|;
      && (Reaches(setup, s, i, h) <==> Reaches(setup, built, i + 1, 0))
      && Final(setup, s, i, h) == Final(setup, built, i + 1, 0)
    requires NoneObjects(setup.hooks, i + 1, 0) <==> forall j :: i < j < |setup.hooks| ==> !Objects(setup.hooks[j])
    requires after == if ok then Marked(setup.database, next, i) else next
    ensures MarkedRight(setup, s, i, |setup.hooks[i]|, k, after)
  {
    if k == i {
      OwnMark(setup, s, i, built, next, ok, after);
    } else {
      MarksAgree(setup, s, i, k, built);
      if k > i {
        NodesAgree(setup, s, i, k, built);
      }
      assert after.mutations[k] == next.mutations[k] && after.nodes[k] == next.nodes[k];
    }
  }

  lemma MarksAgree(setup: Setup, s: State, i: nat, k: nat, built: State)
    requires Shaped(setup, s) && i < |setup.hooks| - 1 && k < |setup.hooks| && k != i && built == Built(s, i)
    requires var h := |setup.hooks[i]|;
      && (Reaches(setup, s, i, h) <==> Reaches(setup, built, i + 1, 0))
      && Final(setup, s, i, h) == Final(setup, built, i + 1, 0)
    ensures Marks(setup, s, i, |setup.hooks[i]|, k) <==> Marks(setup, built, i + 1, 0, k)
  {
  }

  lemma NodesAgree(setup: Setup, s: State, i: nat, k: nat, built: State)
    requires Shaped(setup, s) && i < k < |setup.hooks| && built == Built(s, i)
    requires Final(setup, s, i, |setup.hooks[i]|) == Final(setup, built, i + 1, 0)
    ensures FinalNode(setup, s, i, |setup.hooks[i]|, k) == FinalNode(setup, built, i + 1, 0, k)
  {
    assert Rest(setup.hooks, i, |setup.hooks[i]|, k) == Rest(setup.hooks, i + 1, 0, k) == setup.hooks[k];
  }

  lemma OwnMark(setup: Setup, s: State, i: nat, built: State, next: State, ok: bool, after: State)
    requires Shaped(setup, s) && i < |setup.hooks| - 1 && built == Built(s, i)
    requires Shaped(setup, next) && Shaped(setup, after) && next.nodes[i] == built.nodes[i]
    requires MarkedRight(setup, built, i + 1, 0, i, next) && RunsRight(setup, built, i + 1, 0, (next, ok))
    requires var h := |setup.hooks[i]|;
      && (Reaches(setup, s, i, h) <==> Reaches(setup, built, i + 1, 0))
      && Final(setup, s, i, h) == Final(setup, built, i + 1, 0)
    requires NoneObjects(setup.hooks, i + 1, 0) <==> forall j :: i < j < |setup.hooks| ==> !Objects(setup.hooks[j])
    requires after == if ok then Marked(setup.database, next, i) else next
    ensures MarkedRight(setup, s, i, |setup.hooks[i]|, i, after)
  {
    var h := |setup.hooks[i]|;
    assert Rest(setup.hooks, i, h, i) == [];
    assert Marks(setup, s, i, h, i) <==> ok;
    assert FinalNode(setup, s, i, h, i)
        == Identified(Codec.NodeOf(s.mutations[i].fields), setup.database.idOf(Final(setup, s, i, h), i));
  }

  lemma LaterObjections(hooks: seq<seq<Hook>>, i: nat)
    requires i < |hooks| - 1
    ensures NoneObjects(hooks, i + 1, 0) <==> forall j :: i < j < |hooks| ==> !Objects(hooks[j])
  {
    assert forall k :: i + 1 <= k < |hooks| ==> Rest(hooks, i + 1, 0, k) == hooks[k];
  }

  // ---------------------------------------------------------- whole saves

  /** Every builder's mutation, with its defaults filled in, survives its hooks and its check. */
  ghost predicate AllAdmitted(setup: Setup, mutations: seq<Pending>)
    requires |mutations| == |setup.hooks|
  {
    forall k :: 0 <= k < |mutations| ==>
      Admitted(setup.schema, Defaulted(mutations[k], setup.schema).fields, setup.hooks[k])
  }

  /** What builder `k` asks the database to store. */
  function Wanted(setup: Setup, mutations: seq<Pending>, k: nat): Codec.Mutation
    requires k < |mutations| == |setup.hooks|
  {
    Edited(Defaulted(mutations[k], setup.schema).fields, setup.hooks[k])
  }

  /** All specs, in builder order. */
  function Batch(setup: Setup, mutations: seq<Pending>): Specs
    requires |mutations| == |setup.hooks|
  {
    seq(|mutations|, k requires 0 <= k < |mutations| => Some(Codec.SpecOf(Wanted(setup, mutations, k))))
  }

  /** The database received the batch and stored it. */
  ghost predicate Stored(setup: Setup, mutations: seq<Pending>)
    requires |mutations| == |setup.hooks|
  {
    mutations != [] && AllAdmitted(setup, mutations) && setup.database.accepts(Batch(setup, mutations))
  }

  lemma FromStart(setup: Setup, mutations: seq<Pending>, calls: seq<Specs>)
    requires 0 < |mutations| == |setup.hooks|
    ensures var start := Start(setup, mutations, calls);
      && (Reaches(setup, start, 0, 0) <==> AllAdmitted(setup, mutations))
      && Final(setup, start, 0, 0) == Batch(setup, mutations)
      && (NoneObjects(setup.hooks, 0, 0) <==> forall k :: 0 <= k < |mutations| ==> !Objects(setup.hooks[k]))
  {
    assert forall k :: 0 <= k < |mutations| ==> Rest(setup.hooks, 0, 0, k) == setup.hooks[k];
  }

  /**
    The database gets all specs in builder order in one call iff there is a
    builder and every check and every earlier hook passes; otherwise it gets none.
  */
  lemma OneBatchOrNone(setup: Setup, mutations: seq<Pending>, calls: seq<Specs>)
    requires |mutations| == |setup.hooks|
    ensures Saved(setup, mutations, calls).0.calls
         == if mutations != [] && AllAdmitted(setup, mutations) then calls + [Batch(setup, mutations)] else calls
  {
    if mutations != [] {
      FromStart(setup, mutations, calls);
      ChainRuns(setup, Start(setup, mutations, calls), 0, 0);
    }
  }

  /** The save succeeds iff there was nothing to do, or the batch was stored and no hook objects. */
  lemma SucceedsIff(setup: Setup, mutations: seq<Pending>, calls: seq<Specs>)
    requires |mutations| == |setup.hooks|
    ensures Saved(setup, mutations, calls).1
       <==> (mutations == []
             || (Stored(setup, mutations) && forall k :: 0 <= k < |mutations| ==> !Objects(setup.hooks[k])))
  {
    if mutations != [] {
      FromStart(setup, mutations, calls);
      ChainRuns(setup, Start(setup, mutations, calls), 0, 0);
    }
  }

  /** Builder `k` is newly marked done iff the batch was stored and no later builder's hook objects. */
  lemma DoneIff(setup: Setup, mutations: seq<Pending>, calls: seq<Specs>, k: nat)
    requires k < |mutations| == |setup.hooks|
    ensures Saved(setup, mutations, calls).0.mutations[k].done
       <==> (mutations[k].done
             || (Stored(setup, mutations) && forall j :: k < j < |mutations| ==> !Objects(setup.hooks[j])))
  {
    FromStart(setup, mutations, calls);
    ChainMarks(setup, Start(setup, mutations, calls), 0, 0, k);
  }

  /** A successful save marks every mutation done, and each node carries the id of its own spec. */
  lemma SuccessIsComplete(setup: Setup, mutations: seq<Pending>, calls: seq<Specs>, k: nat)
    requires k < |mutations| == |setup.hooks| && Saved(setup, mutations, calls).1
    ensures var after, id := Saved(setup, mutations, calls).0, setup.database.idOf(Batch(setup, mutations), k);
      && after.mutations[k].done
      && after.nodes[k] == Some(Codec.NodeOf(Wanted(setup, mutations, k)).(id := if id.Some? then id.value else 0))
      && after.mutations[k].id == Some(after.nodes[k].value.id)
  {
    var start := Start(setup, mutations, calls);
    FromStart(setup, mutations, calls);
    ChainRuns(setup, start, 0, 0);
    ChainMarks(setup, start, 0, 0, k);
    assert forall j :: 0 <= j < |mutations| ==> Rest(setup.hooks, 0, 0, j) == setup.hooks[j];
    assert Marks(setup, start, 0, 0, k);
  }

  /**
    All or nothing, and exactly when it fails to hold: an error leaves every
    mutation that was not done still not done, unless the database had stored the
    batch by then, so that only a hook that objects afterwards can break it.
  */
  lemma ErrorMarksNothingIff(setup: Setup, mutations: seq<Pending>, calls: seq<Specs>)
    requires |mutations| == |setup.hooks| && !Saved(setup, mutations, calls).1
    requires forall k :: 0 <= k < |mutations| ==> !mutations[k].done
    ensures (forall k :: 0 <= k < |mutations| ==> !Saved(setup, mutations, calls).0.mutations[k].done)
       <==> !Stored(setup, mutations)
    ensures (forall k :: 0 <= k < |mutations| ==> !Objects(setup.hooks[k])) ==> !Stored(setup, mutations)
  {
    SucceedsIff(setup, mutations, calls);
    forall k | 0 <= k < |mutations|
      ensures Saved(setup, mutations, calls).0.mutations[k].done
         <==> (Stored(setup, mutations) && forall j :: k < j < |mutations| ==> !Objects(setup.hooks[j]))
    {
      DoneIff(setup, mutations, calls, k);
    }
    if Stored(setup, mutations) {
      assert Saved(setup, mutations, calls).0.mutations[|mutations| - 1].done;
    }
  }

  /**
    One builder whose hook objects after the save: the caller gets an error, but the
    account is stored and the mutation done.
  */
  lemma LateObjection()
    ensures exists setup: Setup, m: Pending ::
      && |setup.hooks| == 1 && !m.done
      && var (after, ok) := Saved(setup, [m], []);
         !ok && |after.calls| == 1 && setup.database.accepts(after.calls[0]) && after.mutations[0].done
  {
    var schema := Codec.Schema(
      Some(1), Some(1), Some(Codec.ZERO_NODE.settings.credentials), Some(Codec.ZERO_NODE.settings.extra), 3, 50, 1.0,
      "active", true, true, _ => true, _ => true, _ => true, _ => true, _ => true);
    var setup := Setup([[RejectAfter]], schema, Database(_ => true, (_, _) => Some(7)));
    var m := Pending(Account("a"), None, false);
    assert Defaulted(m, schema).fields == Edited(Defaulted(m, schema).fields, []);
    assert Edited(Defaulted(m, schema).fields, [RejectAfter]) == Edited(Defaulted(m, schema).fields, [RejectAfter][1..]);
    Codec.DefaultsThenCheck(m.fields, schema);
    assert AllAdmitted(setup, [m]);
    OneBatchOrNone(setup, [m], []);
    SucceedsIff(setup, [m], []);
    DoneIff(setup, [m], [], 0);
    assert Objects(setup.hooks[0]) by { assert setup.hooks[0][0].RejectAfter?; }
    var (after, ok) := Saved(setup, [m], []);
    assert !ok && |after.calls| == 1 && setup.database.accepts(after.calls[0]) && after.mutations[0].done;
  }

  /** A create call that sets a name, a platform and a type only. */
  function Account(name: string): Codec.Mutation {
    Codec.Mutation(
      None, None, None, Some(name), None, Some("openai"), Some("oauth"), None, None, None, None, None, None, None,
      None, None, None, None, None, None, None, None, None, None, None, None, None, None, [], [], [])
  }

  /**
    The bulk drops the error of `defaults`, but nothing is stored because of it: the
    mutation that `defaults` gave up on lacks a required field, unless a hook adds it.
  */
  lemma DroppedDefaultsErrorIsCaught(setup: Setup, mutations: seq<Pending>, calls: seq<Specs>, k: nat)
    requires k < |mutations| == |setup.hooks| && !Codec.Defaults(mutations[k].fields, setup.schema).1
    requires forall m, h :: 0 <= h < |setup.hooks[k]| && setup.hooks[k][h].Pass? ==> setup.hooks[k][h].edit(m) == m
    ensures !Saved(setup, mutations, calls).1 && Saved(setup, mutations, calls).0.calls == calls
  {
    var m := Defaulted(mutations[k], setup.schema).fields;
    assert Codec.Check(m, setup.schema).Some?;
    UneditedIsSame(m, setup.hooks[k]);
    assert !Admitted(setup.schema, m, setup.hooks[k]);
    OneBatchOrNone(setup, mutations, calls);
    SucceedsIff(setup, mutations, calls);
  }

  lemma {:induction false} UneditedIsSame(m: Codec.Mutation, hooks: seq<Hook>)
    requires forall other, h :: 0 <= h < |hooks| && hooks[h].Pass? ==> hooks[h].edit(other) == other
    ensures Edited(m, hooks) == m
    decreases |hooks|
  {
    if |hooks| != 0 {
      UneditedIsSame(m, hooks[1..]);
    }
  }
}
