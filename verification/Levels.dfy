/** Graph levels: the dependency order and levels of the run chart (workflow_flow.go) and
    the columns of the canvas layout (workflow_dag.go). Two separate computations of the
    depth of a step, both equal to its longest dependency chain. */
module Levels {
  import opened Graph
  import opened Validation
  import opened Collections

  function Max(a: int, b: int): int {
    if a > b then a else b
  }

  // ---------- Depth ----------

  /** The longest dependency chain into a step. */
  ghost function Depth(def: Definition, x: Id): nat
    requires Acyclic(def)
    decreases |AncestorSet(def, x)|, |def.edges| + 1
  {
    UpstreamCount(def.edges, x);
    Deepest(def, UpstreamIn(def.edges, x), x)
  }

  ghost function Deepest(def: Definition, deps: seq<Id>, x: Id): nat
    requires Acyclic(def) && forall d :: d in deps ==> Dep(def, d, x)
    decreases |AncestorSet(def, x)|, |deps|
  {
    if deps == [] then 0 else
      var d := deps[|deps| - 1];
      assert d in deps;
      AncestorsShrink(def, d, x);
      Max(Deepest(def, deps[..|deps| - 1], x), Depth(def, d) + 1)
  }

  lemma DeepestFirst(def: Definition, x: Id)
    requires Acyclic(def)
    ensures Deepest(def, [], x) == 0 && Depth(def, x) == Deepest(def, UpstreamIn(def.edges, x), x)
  {
  }

  lemma DeepestNext(def: Definition, deps: seq<Id>, i: nat, x: Id)
    requires Acyclic(def) && i < |deps| && forall d :: d in deps ==> Dep(def, d, x)
    ensures Deepest(def, deps[..i + 1], x) == Max(Deepest(def, deps[..i], x), Depth(def, deps[i]) + 1)
  {
    assert deps[..i + 1][..i] == deps[..i];
  }

  lemma {:induction false} UpstreamCount(edges: seq<Edge>, x: Id)
    ensures |UpstreamIn(edges, x)| <= |edges|
  {
    if |edges| > 0 { UpstreamCount(edges[..|edges| - 1], x); }
  }

  lemma {:induction false} DeepestBound(def: Definition, deps: seq<Id>, x: Id, d: Id)
    requires Acyclic(def) && (forall y :: y in deps ==> Dep(def, y, x)) && d in deps
    ensures Depth(def, d) + 1 <= Deepest(def, deps, x)
  {
    var n := |deps| - 1;
    assert deps == deps[..n] + [deps[n]];
    if d != deps[n] { DeepestBound(def, deps[..n], x, d); }
  }

  lemma {:induction false} DeepestAttained(def: Definition, deps: seq<Id>, x: Id)
    requires Acyclic(def) && (forall y :: y in deps ==> Dep(def, y, x)) && deps != []
    ensures exists d :: d in deps && Depth(def, d) + 1 == Deepest(def, deps, x)
  {
    var n := |deps| - 1;
    assert deps[n] in deps;
    if n > 0 {
      DeepestAttained(def, deps[..n], x);
      var d :| d in deps[..n] && Depth(def, d) + 1 == Deepest(def, deps[..n], x);
      assert d in deps;
    }
  }

  ghost predicate ChainInto(def: Definition, p: seq<Id>, x: Id) {
    |p| >= 1 && IsPath(def, p) && p[|p| - 1] == x
  }

  /** No chain of dependencies into `x` has more edges than its depth ... */
  lemma {:induction false} ChainsBounded(def: Definition, p: seq<Id>, x: Id)
    requires Acyclic(def) && ChainInto(def, p, x)
    ensures |p| - 1 <= Depth(def, x)
    decreases |p|
  {
    if |p| > 1 {
      var d := p[|p| - 2];
      assert Dep(def, d, p[|p| - 1]);
      ChainsBounded(def, p[..|p| - 1], d);
      assert d in UpstreamIn(def.edges, x);
      DeepestBound(def, UpstreamIn(def.edges, x), x, d);
    }
  }

  /** ... and one chain has exactly that many. */
  lemma {:induction false} LongestChain(def: Definition, x: Id) returns (p: seq<Id>)
    requires Acyclic(def)
    ensures ChainInto(def, p, x) && |p| - 1 == Depth(def, x)
    decreases |AncestorSet(def, x)|
  {
    var ups := UpstreamIn(def.edges, x);
    if ups == [] { return [x]; }
    DeepestAttained(def, ups, x);
    var d :| d in ups && Depth(def, d) + 1 == Deepest(def, ups, x);
    AncestorsShrink(def, d, x);
    var q := LongestChain(def, d);
    p := q + [x];
    ChainExtends(def, q, d, x);
  }

  lemma ChainExtends(def: Definition, q: seq<Id>, d: Id, x: Id)
    requires ChainInto(def, q, d) && Dep(def, d, x)
    ensures ChainInto(def, q + [x], x)
  {
    var p := q + [x];
    forall i | 0 <= i < |p| - 1 ensures Dep(def, p[i], p[i + 1]) {
      if i < |q| - 1 { assert Dep(def, q[i], q[i + 1]); }
    }
  }

  /** A step lies strictly deeper than each of its dependencies, so columns run forward. */
  lemma DeeperThanDependencies(def: Definition, d: Id, x: Id)
    requires Acyclic(def) && Dep(def, d, x)
    ensures Depth(def, d) < Depth(def, x)
  {
    assert d in UpstreamIn(def.edges, x);
    DeepestBound(def, UpstreamIn(def.edges, x), x, d);
  }

  // ---------- The dependency order of the run chart ----------

  ghost function Universe(def: Definition): set<Id> {
    StepIds(def) + Ends(def)
  }

  lemma UpstreamInUniverse(def: Definition, x: Id)
    ensures forall d :: d in UpstreamIn(def.edges, x) ==> d in Universe(def)
  {
    forall d | d in UpstreamIn(def.edges, x) ensures d in Universe(def) {
      DepReaches(def, d, x);
    }
  }

  /** The variables captured by the visiting closure. */
  class LevelOrder {
    const def: Definition
    var seen: set<Id>
    var order: seq<Id>

    constructor (d: Definition)
      ensures def == d && seen == {} && order == []
    {
      def, seen, order := d, {}, [];
    }

    /** Everything seen is listed once, except the steps still being visited. */
    ghost predicate Consistent(open: set<Id>)
      reads this
    {
      NoRepeats(order) && Elements(order) == seen - open && open <= seen && seen <= Universe(def)
    }

    /** Lists `id` after everything it depends on; on a cyclic graph the visit still ends. */
    method Visit(id: Id, ghost open: set<Id>)
      requires Consistent(open) && id in Universe(def) && Sorted(open, id)
      modifies this
      ensures Consistent(open) && id in seen && old(seen) <= seen && SortedOrder()
      decreases |Universe(def) - seen|
    {
      hide Acyclic, Topological, Universe, NoRepeats, Pending;
      if id in seen { return; }
      Opening(Universe(def), seen, id);
      seen := seen + {id};
      var deps := Upstream(def, id);
      UpstreamInUniverse(def, id);
      ghost var start, inner := seen, open + {id};
      assert Elements(order) == seen - inner;
      for i := 0 to |deps|
        invariant Consistent(inner) && start <= seen && SortedOrder()
        invariant forall j :: 0 <= j < i ==> deps[j] in seen
      {
        assert deps[i] in deps;
        StillOpen(def, open, id, deps[i]);
        SubsetCard(Universe(def) - seen, Universe(def) - start);
        Visit(deps[i], inner);
      }
      Closing(def, order, seen, open, deps, id);
      order := order + [id];
    }

    ghost predicate SortedOrder()
      reads this
    {
      Acyclic(def) ==> Topological(def, order)
    }

    /** The list respects dependencies, and what is open depends on what comes next. */
    ghost predicate Sorted(open: set<Id>, id: Id)
      reads this
    {
      SortedOrder() && Pending(def, open, id)
    }

    static ghost predicate Pending(def: Definition, open: set<Id>, id: Id) {
      Acyclic(def) ==> forall s :: s in open ==> Reaches(def, id, s)
    }

    static lemma Opening(all: set<Id>, seen: set<Id>, id: Id)
      requires id in all && id !in seen
      ensures |all - (seen + {id})| < |all - seen|
    {
      SubsetSmaller(all - (seen + {id}), all - seen);
    }

    /** Closing `id`: it was listed nowhere yet, and everything it depends on is listed. */
    static lemma Closing(def: Definition, order: seq<Id>, seen: set<Id>, open: set<Id>, deps: seq<Id>, id: Id)
      requires NoRepeats(order) && Elements(order) == seen - (open + {id}) && id in seen && id !in open
      requires Acyclic(def) ==> Topological(def, order)
      requires Pending(def, open, id) && forall d :: d in deps <==> Dep(def, d, id)
      requires forall j :: 0 <= j < |deps| ==> deps[j] in seen
      ensures NoRepeats(order + [id]) && Elements(order + [id]) == seen - open
      ensures Acyclic(def) ==> Topological(def, order + [id])
    {
      assert id !in Elements(order);
      assert Elements(order + [id]) == Elements(order) + {id};
      if Acyclic(def) { Listed(def, order, seen, open + {id}, deps, id); }
    }

    static lemma NotOpen(def: Definition, open: set<Id>, id: Id)
      requires Pending(def, open, id)
      ensures Acyclic(def) ==> id !in open
    {
    }

    /** Everything the recursion is still inside of depends on what it visits next. */
    static lemma StillOpen(def: Definition, open: set<Id>, id: Id, d: Id)
      requires Dep(def, d, id) && Pending(def, open, id)
      ensures Pending(def, open + {id}, d)
    {
      if Acyclic(def) {
        forall s | s in open + {id} ensures Reaches(def, d, s) { DepThenReaches(def, d, id, s); }
      }
    }

    static lemma Listed(def: Definition, order: seq<Id>, seen: set<Id>, open: set<Id>, deps: seq<Id>, id: Id)
      requires Acyclic(def) && Topological(def, order) && Elements(order) == seen - open
      requires forall d :: d in deps <==> Dep(def, d, id)
      requires forall j :: 0 <= j < |deps| ==> deps[j] in seen
      requires forall s :: s in open && s != id ==> Reaches(def, id, s)
      ensures Topological(def, order + [id])
    {
      forall d | Dep(def, d, id) ensures d in order {
        DepReaches(def, d, id);
        var j :| 0 <= j < |deps| && deps[j] == d;
        if Reaches(def, id, d) { ReachesTransitive(def, d, id, d); }
        assert d in seen - open;
        assert d in Elements(order);
      }
      forall i, d | 0 <= i < |order| + 1 && Dep(def, d, (order + [id])[i]) ensures d in (order + [id])[..i] {
        assert (order + [id])[..i] == order[..i];
        assert order[..|order|] == order;
      }
    }
  }

  /** Every step is listed once, after everything it depends on. On any graph the list has
      no repeats and holds every step. */
  method DagLevelOrder(def: Definition) returns (order: seq<Id>)
    ensures NoRepeats(order) && StepIds(def) <= Elements(order) <= Universe(def)
    ensures Acyclic(def) ==> Topological(def, order)
  {
    var v := new LevelOrder(def);
    for i := 0 to |def.steps|
      invariant v.def == def && v.Consistent({}) && v.SortedOrder()
      invariant forall j :: 0 <= j < i ==> def.steps[j].id in v.seen
    {
      assert def.steps[i] in def.steps;
      v.Visit(def.steps[i].id, {});
    }
    order := v.order;
  }

  /** When edges join steps the order is a permutation of the steps. */
  lemma OrderIsPermutation(def: Definition, order: seq<Id>)
    requires NoRepeats(order) && StepIds(def) <= Elements(order) <= Universe(def) && UniqueSteps(def)
    requires forall e :: e in def.edges ==> e.from in StepIds(def) && e.to in StepIds(def)
    ensures Elements(order) == StepIds(def) && |order| == |def.steps|
  {
    NoRepeatsCard(order);
    StepCount(def);
  }

  function LevelAt(levels: map<Id, nat>, x: Id): nat {
    if x in levels then levels[x] else 0
  }

  /** The level of a step in the run chart is its depth. */
  method FlowLevels(def: Definition) returns (levels: map<Id, nat>)
    ensures Acyclic(def) ==> forall x :: x in StepIds(def) ==> LevelAt(levels, x) == Depth(def, x)
  {
    levels := map[];
    var order := DagLevelOrder(def);
    for i := 0 to |order|
      invariant Acyclic(def) ==> forall x :: x in order[..i] ==> LevelAt(levels, x) == Depth(def, x)
      invariant forall x :: x in levels ==> x in order[..i]
    {
      assert order[i] !in order[..i];
      assert order[..i + 1] == order[..i] + [order[i]];
      if Acyclic(def) {
        forall d | Dep(def, d, order[i]) ensures d in order[..i] { assert Dep(def, d, order[i]); }
      }
      levels := FlowLevel(def, levels, order[i], order[..i]);
    }
    assert order[..|order|] == order;
  }

  /** The level of one step, once those of its dependencies are known. */
  method FlowLevel(def: Definition, levels0: map<Id, nat>, id: Id, ghost known: seq<Id>) returns (levels: map<Id, nat>)
    requires id !in levels0
    requires Acyclic(def) ==> forall d :: Dep(def, d, id) ==> d in known
    requires Acyclic(def) ==> forall x :: x in known ==> LevelAt(levels0, x) == Depth(def, x) && x != id
    ensures levels.Keys <= levels0.Keys + {id}
    ensures forall x :: x != id ==> LevelAt(levels, x) == LevelAt(levels0, x)
    ensures Acyclic(def) ==> LevelAt(levels, id) == Depth(def, id)
  {
    levels := levels0;
    var deps := Upstream(def, id);
    for j := 0 to |deps|
      invariant forall x :: x != id ==> LevelAt(levels, x) == LevelAt(levels0, x)
      invariant levels.Keys <= levels0.Keys + {id}
      invariant Acyclic(def) ==> LevelAt(levels, id) == Deepest(def, deps[..j], id)
    {
      assert deps[j] in deps && deps[..j + 1][..j] == deps[..j];
      if Acyclic(def) { assert Dep(def, deps[j], id); }
      levels := levels[id := Max(LevelAt(levels, id), LevelAt(levels, deps[j]) + 1)];
    }
    assert deps[..|deps|] == deps;
  }

  // ---------- The columns of the canvas ----------

  datatype Point = Point(x: int, y: int)

  /** The variables captured by the memoised depth closure. */
  class AutoLayout {
    const def: Definition
    var levels: map<Id, nat>
    var visiting: set<Id>

    constructor (d: Definition)
      ensures def == d && levels == map[] && visiting == {}
    {
      def, levels, visiting := d, map[], {};
    }

    ghost predicate Right()
      reads this
    {
      Acyclic(def) ==> forall x :: x in levels ==> levels[x] == Depth(def, x)
    }

    /** The depth of `id`, memoised; the guard on `visiting` ends the recursion on a cycle. */
    method LevelOf(id: Id) returns (level: nat)
      requires id in Universe(def) && visiting <= Universe(def) && Right()
      requires LevelOrder.Pending(def, visiting, id)
      modifies this
      ensures visiting == old(visiting) && Right() && old(levels.Keys) <= levels.Keys
      ensures id in levels || id in visiting
      ensures Acyclic(def) ==> level == Depth(def, id)
      decreases |Universe(def) - visiting|
    {
      hide Acyclic, Universe, Depth, Deepest, LevelOrder.Pending;
      if id in levels { return levels[id]; }
      LevelOrder.NotOpen(def, visiting, id);
      if id in visiting { return 0; }
      ghost var outer := visiting;
      SubsetSmaller(Universe(def) - (visiting + {id}), Universe(def) - visiting);
      visiting := visiting + {id};
      level := 0;
      var deps := Upstream(def, id);
      UpstreamInUniverse(def, id);
      if Acyclic(def) { DeepestFirst(def, id); }
      for i := 0 to |deps|
        invariant visiting == outer + {id} && Right() && old(levels.Keys) <= levels.Keys
        invariant Acyclic(def) ==> level == Deepest(def, deps[..i], id)
      {
        assert deps[i] in deps;
        LevelOrder.StillOpen(def, outer, id, deps[i]);
        if Acyclic(def) { DeepestNext(def, deps, i, id); }
        var below := LevelOf(deps[i]);
        level := Max(level, below + 1);
      }
      assert deps[..|deps|] == deps;
      visiting := visiting - {id};
      levels := levels[id := level];
    }
  }

  /** Every step gets a place of its own, one column further right than its deepest dependency. */
  method DagAutoLayout(def: Definition) returns (nodes: map<Id, Point>)
    ensures nodes.Keys == StepIds(def)
    ensures Acyclic(def) ==> forall x :: x in nodes ==> nodes[x].x == 60 + Depth(def, x) * 290
    ensures forall x, y :: x in nodes && y in nodes && x != y ==> nodes[x] != nodes[y]
    ensures UniqueSteps(def) ==> Stacked(def, nodes)
  {
    var v := new AutoLayout(def);
    for i := 0 to |def.steps|
      invariant v.def == def && v.visiting == {} && v.Right()
      invariant forall j :: 0 <= j < i ==> def.steps[j].id in v.levels
    {
      assert def.steps[i] in def.steps;
      var level := v.LevelOf(def.steps[i].id);
    }
    nodes := PlaceRows(def, v.levels);
  }

  /** The steps before the one at `i` that stand in one column with it. */
  function Before(def: Definition, nodes: map<Id, Point>, i: nat): set<nat>
    requires i < |def.steps|
  {
    set j: nat | j < i && def.steps[j].id in nodes && def.steps[i].id in nodes && nodes[def.steps[j].id].x == nodes[def.steps[i].id].x
  }

  /** The steps of a column stand below each other in the order of the definition. */
  ghost predicate Stacked(def: Definition, nodes: map<Id, Point>) {
    forall i: nat :: i < |def.steps| ==> def.steps[i].id in nodes && nodes[def.steps[i].id].y == 80 + |Before(def, nodes, i)| * 175
  }

  method PlaceRows(def: Definition, levels: map<Id, nat>) returns (nodes: map<Id, Point>)
    requires forall s :: s in def.steps ==> s.id in levels
    ensures nodes.Keys == StepIds(def)
    ensures forall x :: x in nodes ==> x in levels && nodes[x].x == 60 + levels[x] * 290
    ensures forall x, y :: x in nodes && y in nodes && x != y ==> nodes[x] != nodes[y]
    ensures UniqueSteps(def) ==> Stacked(def, nodes)
  {
    hide Placed, RowsAt, UniqueSteps, Counted, InRows;
    var rows: map<nat, nat> := map[];
    nodes := map[];
    PlacedApart(nodes, levels, rows);
    NothingCounted(def, nodes, levels);
    for i := 0 to |def.steps|
      invariant Counted(def, levels, rows, i) && (UniqueSteps(def) ==> InRows(def, nodes, levels, i))
      invariant forall x :: x in nodes <==> exists j :: 0 <= j < i && def.steps[j].id == x
      invariant Placed(nodes, levels, rows)
    {
      var s := def.steps[i];
      assert s in def.steps;
      var level := levels[s.id];
      var row := if level in rows then rows[level] else 0;
      PlaceOne(nodes, levels, rows, s.id);
      OneMoreCounted(def, nodes, levels, rows, i);
      rows := rows[level := row + 1];
      nodes := nodes[s.id := Point(60 + level * 290, 80 + row * 175)];
    }
    assert nodes.Keys == StepIds(def);
    PlacedApart(nodes, levels, rows);
    if UniqueSteps(def) { RowsStacked(def, nodes, levels); }
  }

  /** The first `i` steps of a level. */
  function OfLevel(def: Definition, levels: map<Id, nat>, i: nat, level: nat): set<nat>
    requires i <= |def.steps|
  {
    set j: nat | j < i && def.steps[j].id in levels && levels[def.steps[j].id] == level
  }

  ghost predicate Counted(def: Definition, levels: map<Id, nat>, rows: map<nat, nat>, i: nat) {
    i <= |def.steps| && forall level :: RowsAt(rows, level) == |OfLevel(def, levels, i, level)|
  }

  ghost predicate InRows(def: Definition, nodes: map<Id, Point>, levels: map<Id, nat>, i: nat) {
    i <= |def.steps| && forall j: nat :: j < i ==> InRow(def, nodes, levels, j)
  }

  ghost predicate InRow(def: Definition, nodes: map<Id, Point>, levels: map<Id, nat>, j: nat)
    requires j < |def.steps|
  {
    var id := def.steps[j].id;
    id in nodes && id in levels && nodes[id].y == 80 + |OfLevel(def, levels, j, levels[id])| * 175
  }

  lemma NothingCounted(def: Definition, nodes: map<Id, Point>, levels: map<Id, nat>)
    ensures Counted(def, levels, map[], 0) && InRows(def, nodes, levels, 0)
  {
    forall level: nat ensures OfLevel(def, levels, 0, level) == {} {}
  }

  lemma OneMoreCounted(def: Definition, nodes: map<Id, Point>, levels: map<Id, nat>, rows: map<nat, nat>, i: nat)
    requires i < |def.steps| && def.steps[i].id in levels && Counted(def, levels, rows, i)
    ensures var id := def.steps[i].id;
            var row := if levels[id] in rows then rows[levels[id]] else 0;
            && Counted(def, levels, rows[levels[id] := row + 1], i + 1)
            && (UniqueSteps(def) && InRows(def, nodes, levels, i) ==>
                  InRows(def, nodes[id := Point(60 + levels[id] * 290, 80 + row * 175)], levels, i + 1))
  {
    hide OfLevel, UniqueSteps, InRows;
    var id := def.steps[i].id;
    var level := levels[id];
    var row := RowsAt(rows, level);
    var more, next := rows[level := row + 1], i + 1;
    forall l: nat ensures RowsAt(more, l) == |OfLevel(def, levels, next, l)| { OneMoreOfLevel(def, levels, i, l); }
    if UniqueSteps(def) && InRows(def, nodes, levels, i) {
      RowTaken(def, nodes, levels, i, Point(60 + level * 290, 80 + row * 175));
    }
  }

  lemma OneMoreOfLevel(def: Definition, levels: map<Id, nat>, i: nat, l: nat)
    requires i < |def.steps| && def.steps[i].id in levels
    ensures |OfLevel(def, levels, i + 1, l)| == |OfLevel(def, levels, i, l)| + if levels[def.steps[i].id] == l then 1 else 0
  {
    assert OfLevel(def, levels, i + 1, l) == OfLevel(def, levels, i, l) + if levels[def.steps[i].id] == l then {i} else {};
  }

  lemma RowTaken(def: Definition, nodes: map<Id, Point>, levels: map<Id, nat>, i: nat, p: Point)
    requires i < |def.steps| && def.steps[i].id in levels && UniqueSteps(def) && InRows(def, nodes, levels, i)
    requires p.y == 80 + |OfLevel(def, levels, i, levels[def.steps[i].id])| * 175
    ensures InRows(def, nodes[def.steps[i].id := p], levels, i + 1)
  {
    hide OfLevel;
    var placed := nodes[def.steps[i].id := p];
    forall j: nat | j < i + 1 ensures InRow(def, placed, levels, j) {
      if j < i { assert InRow(def, nodes, levels, j); }
    }
  }

  lemma RowsStacked(def: Definition, nodes: map<Id, Point>, levels: map<Id, nat>)
    requires InRows(def, nodes, levels, |def.steps|) && forall x :: x in nodes ==> x in levels && nodes[x].x == 60 + levels[x] * 290
    ensures Stacked(def, nodes)
  {
    forall i: nat | i < |def.steps|
      ensures def.steps[i].id in nodes && nodes[def.steps[i].id].y == 80 + |Before(def, nodes, i)| * 175
    {
      assert InRow(def, nodes, levels, i);
      forall j: nat | j < i ensures def.steps[j].id in nodes && def.steps[j].id in levels { assert InRow(def, nodes, levels, j); }
      assert Before(def, nodes, i) == OfLevel(def, levels, i, levels[def.steps[i].id]);
    }
  }

  lemma PlacedApart(nodes: map<Id, Point>, levels: map<Id, nat>, rows: map<nat, nat>)
    ensures nodes == map[] ==> Placed(nodes, levels, rows)
    ensures Placed(nodes, levels, rows) ==> forall x :: x in nodes ==> x in levels && nodes[x].x == 60 + levels[x] * 290
    ensures Placed(nodes, levels, rows) ==> forall x, y :: x in nodes && y in nodes && x != y ==> nodes[x] != nodes[y]
  {
  }

  /** The places taken so far lie in the columns of their levels, above the rows still free. */
  ghost predicate Placed(nodes: map<Id, Point>, levels: map<Id, nat>, rows: map<nat, nat>) {
    && (forall x :: x in nodes ==> x in levels && nodes[x].x == 60 + levels[x] * 290 && nodes[x].y < 80 + RowsAt(rows, levels[x]) * 175)
    && (forall x, y :: x in nodes && y in nodes && x != y ==> nodes[x] != nodes[y])
  }

  function RowsAt(rows: map<nat, nat>, level: nat): nat {
    if level in rows then rows[level] else 0
  }

  lemma PlaceOne(nodes: map<Id, Point>, levels: map<Id, nat>, rows: map<nat, nat>, id: Id)
    requires Placed(nodes, levels, rows) && id in levels
    ensures var level := levels[id];
            var row := if level in rows then rows[level] else 0;
            Placed(nodes[id := Point(60 + level * 290, 80 + row * 175)], levels, rows[level := row + 1])
  {
    var level := levels[id];
    var more := rows[level := RowsAt(rows, level) + 1];
    assert forall l :: RowsAt(more, l) >= RowsAt(rows, l);
    forall x | x in nodes ensures nodes[x] != Point(60 + level * 290, 80 + RowsAt(rows, level) * 175) {}
  }

  /** The chart and the canvas agree on every step of an acyclic definition, and both with the
      longest dependency chain into it. */
  method ChartAndCanvasAgree(def: Definition) returns (levels: map<Id, nat>, nodes: map<Id, Point>)
    ensures nodes.Keys == StepIds(def)
    ensures Acyclic(def) ==> forall x :: x in nodes ==>
              nodes[x].x == 60 + LevelAt(levels, x) * 290 && LongestInto(def, x, LevelAt(levels, x))
  {
    levels := FlowLevels(def);
    nodes := DagAutoLayout(def);
    if Acyclic(def) {
      forall x | x in nodes ensures LongestInto(def, x, LevelAt(levels, x)) { DepthIsLongest(def, x); }
    }
  }

  /** Some dependency chain into `x` has that many edges and none has more. */
  ghost predicate LongestInto(def: Definition, x: Id, n: nat) {
    && (exists p :: ChainInto(def, p, x) && |p| - 1 == n)
    && forall p :: ChainInto(def, p, x) ==> |p| - 1 <= n
  }

  lemma DepthIsLongest(def: Definition, x: Id)
    requires Acyclic(def)
    ensures LongestInto(def, x, Depth(def, x))
  {
    var p := LongestChain(def, x);
    forall q | ChainInto(def, q, x) ensures |q| - 1 <= Depth(def, x) { ChainsBounded(def, q, x); }
  }
}
