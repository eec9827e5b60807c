/** Workflow definitions and their dependency graph (model.go, graph.go). */
module Graph {
  import opened Collections

  type Id = string

  /** An edge kind as it is stored; `Unset` is the empty string. */
  datatype EdgeKind = Unset | Next | Rework | Other(name: string)

  datatype Edge = Edge(from: Id, to: Id, kind: EdgeKind, maxRounds: int)

  datatype StepKind = Agent | Command

  datatype Step = Step(id: Id, name: string, kind: StepKind, sandbox: string)

  datatype Policy = Policy(maxReworkRounds: int, maxConsecutiveFailures: int)

  datatype Definition = Definition(
    id: string,
    name: string,
    steps: seq<Step>,
    edges: seq<Edge>,
    policy: Policy,
    loopEnabled: bool)

  predicate IsNext(e: Edge) {
    e.kind.Next? || e.kind.Unset?
  }

  function StepIds(def: Definition): set<Id> {
    set s | s in def.steps :: s.id
  }

  ghost predicate UniqueSteps(def: Definition) {
    forall i, j :: 0 <= i < j < |def.steps| ==> def.steps[i].id != def.steps[j].id
  }

  // ---------- Dependency paths: the meaning of the graph ----------

  /** `b` directly depends on `a`. */
  ghost predicate Dep(def: Definition, a: Id, b: Id) {
    exists e :: e in def.edges && IsNext(e) && e.from == a && e.to == b
  }

  ghost predicate IsPath(def: Definition, p: seq<Id>) {
    forall i :: 0 <= i < |p| - 1 ==> Dep(def, p[i], p[i + 1])
  }

  ghost predicate PathBetween(def: Definition, p: seq<Id>, a: Id, b: Id) {
    |p| >= 2 && p[0] == a && p[|p| - 1] == b && IsPath(def, p)
  }

  /** A non-empty chain of dependency edges leads from `a` to `b`. */
  ghost predicate Reaches(def: Definition, a: Id, b: Id) {
    exists p :: PathBetween(def, p, a, b)
  }

  ghost predicate Acyclic(def: Definition) {
    forall a :: !Reaches(def, a, a)
  }

  /** Edge ends, a finite set holding everything reachable. */
  ghost function Ends(def: Definition): set<Id> {
    (set e | e in def.edges :: e.to) + (set e | e in def.edges :: e.from)
  }

  ghost function DescendantSet(def: Definition, id: Id): set<Id> {
    set x | x in Ends(def) && Reaches(def, id, x)
  }

  ghost function AncestorSet(def: Definition, id: Id): set<Id> {
    set x | x in Ends(def) && Reaches(def, x, id)
  }

  lemma DepReaches(def: Definition, a: Id, b: Id)
    requires Dep(def, a, b)
    ensures Reaches(def, a, b)
    ensures a in Ends(def) && b in Ends(def)
  {
    assert PathBetween(def, [a, b], a, b);
  }

  lemma ReachesTransitive(def: Definition, a: Id, b: Id, c: Id)
    requires Reaches(def, a, b) && Reaches(def, b, c)
    ensures Reaches(def, a, c)
  {
    var p :| PathBetween(def, p, a, b);
    var q :| PathBetween(def, q, b, c);
    assert PathBetween(def, p + q[1..], a, c);
  }

  lemma ReachesFirst(def: Definition, a: Id, b: Id) returns (c: Id)
    requires Reaches(def, a, b)
    ensures Dep(def, a, c) && (c == b || Reaches(def, c, b))
  {
    var p :| PathBetween(def, p, a, b);
    c := p[1];
    if |p| > 2 {
      assert PathBetween(def, p[1..], c, b);
    }
  }

  lemma ReachesLast(def: Definition, a: Id, b: Id) returns (c: Id)
    requires Reaches(def, a, b)
    ensures Dep(def, c, b) && (c == a || Reaches(def, a, c))
  {
    var p :| PathBetween(def, p, a, b);
    c := p[|p| - 2];
    if |p| > 2 {
      assert PathBetween(def, p[..|p| - 1], a, c);
    }
  }

  lemma ReachesEnds(def: Definition, a: Id, b: Id)
    requires Reaches(def, a, b)
    ensures a in Ends(def) && b in Ends(def)
  {
    var c := ReachesFirst(def, a, b);
    var d := ReachesLast(def, a, b);
    DepReaches(def, a, c);
    DepReaches(def, d, b);
  }

  lemma DepThenReaches(def: Definition, a: Id, b: Id, c: Id)
    requires Dep(def, a, b) && (b == c || Reaches(def, b, c))
    ensures Reaches(def, a, c)
  {
    DepReaches(def, a, b);
    if b != c { ReachesTransitive(def, a, b, c); }
  }

  lemma ReachesThenDep(def: Definition, a: Id, b: Id, c: Id)
    requires (a == b || Reaches(def, a, b)) && Dep(def, b, c)
    ensures Reaches(def, a, c)
  {
    DepReaches(def, b, c);
    if a != b { ReachesTransitive(def, a, b, c); }
  }

  /** Membership in the descendant set is reachability, with no bound left over. */
  lemma InDescendants(def: Definition, id: Id, x: Id)
    ensures x in DescendantSet(def, id) <==> Reaches(def, id, x)
  {
    if Reaches(def, id, x) { ReachesEnds(def, id, x); }
  }

  lemma InAncestors(def: Definition, id: Id, x: Id)
    ensures x in AncestorSet(def, id) <==> Reaches(def, x, id)
  {
    if Reaches(def, x, id) { ReachesEnds(def, x, id); }
  }

  /** In an acyclic graph a direct dependency has strictly fewer ancestors. */
  lemma AncestorsShrink(def: Definition, a: Id, b: Id)
    requires Acyclic(def) && Dep(def, a, b)
    ensures AncestorSet(def, a) < AncestorSet(def, b)
    ensures |AncestorSet(def, a)| < |AncestorSet(def, b)|
  {
    forall x | x in AncestorSet(def, a)
      ensures x in AncestorSet(def, b)
    {
      ReachesThenDep(def, x, a, b);
    }
    DepReaches(def, a, b);
    assert a in AncestorSet(def, b) && a !in AncestorSet(def, a);
    SubsetSmaller(AncestorSet(def, a), AncestorSet(def, b));
  }

  lemma SubsetSmaller<T>(a: set<T>, b: set<T>)
    requires a < b
    ensures |a| < |b|
  {
    assert b == a + (b - a);
    assert b - a != {};
  }

  /** Every non-empty set of ids has a member none of whose dependencies is in the set. */
  lemma Minimal(def: Definition, within: set<Id>, x: Id) returns (m: Id)
    requires Acyclic(def) && x in within
    ensures m in within
    ensures forall d :: Dep(def, d, m) ==> d !in within
    ensures m == x || Reaches(def, m, x)
    decreases |AncestorSet(def, x)|
  {
    if d :| Dep(def, d, x) && d in within {
      AncestorsShrink(def, d, x);
      m := Minimal(def, within, d);
      DepReaches(def, d, x);
      if m != d { ReachesTransitive(def, m, d, x); }
    } else {
      m := x;
    }
  }

  lemma DescendantsShrink(def: Definition, a: Id, b: Id)
    requires Acyclic(def) && Dep(def, a, b)
    ensures |DescendantSet(def, b)| < |DescendantSet(def, a)|
  {
    forall x | x in DescendantSet(def, b) ensures x in DescendantSet(def, a) {
      DepThenReaches(def, a, b, x);
    }
    DepReaches(def, a, b);
    assert b in DescendantSet(def, a) && b !in DescendantSet(def, b);
    SubsetSmaller(DescendantSet(def, b), DescendantSet(def, a));
  }

  /** Every step leads to a sink. */
  lemma SinkBelow(def: Definition, x: Id) returns (m: Id)
    requires Acyclic(def)
    ensures (forall d :: !Dep(def, m, d)) && (m == x || Reaches(def, x, m))
    decreases |DescendantSet(def, x)|
  {
    m := x;
    if d :| Dep(def, x, d) {
      DescendantsShrink(def, x, d);
      m := SinkBelow(def, d);
      DepThenReaches(def, x, d, m);
    }
  }

  // ---------- Neighbour lists ----------

  function UpstreamIn(edges: seq<Edge>, id: Id): (r: seq<Id>)
    ensures forall d :: d in r <==> exists e :: e in edges && IsNext(e) && e.from == d && e.to == id
  {
    if |edges| == 0 then [] else
      var n := |edges| - 1;
      assert edges == edges[..n] + [edges[n]];
      UpstreamIn(edges[..n], id) +
      if IsNext(edges[n]) && edges[n].to == id then [edges[n].from] else []
  }

  function DownstreamIn(edges: seq<Edge>, id: Id): (r: seq<Id>)
    ensures forall d :: d in r <==> exists e :: e in edges && IsNext(e) && e.from == id && e.to == d
  {
    if |edges| == 0 then [] else
      var n := |edges| - 1;
      assert edges == edges[..n] + [edges[n]];
      DownstreamIn(edges[..n], id) +
      if IsNext(edges[n]) && edges[n].from == id then [edges[n].to] else []
  }

  function ReworkEdgesIn(edges: seq<Edge>, id: Id): (r: seq<Edge>)
    ensures forall e :: e in r <==> e in edges && e.kind.Rework? && e.from == id
  {
    if |edges| == 0 then [] else
      var n := |edges| - 1;
      assert edges == edges[..n] + [edges[n]];
      ReworkEdgesIn(edges[..n], id) +
      if edges[n].kind.Rework? && edges[n].from == id then [edges[n]] else []
  }

  function EntriesIn(def: Definition, steps: seq<Step>): (r: seq<Id>)
    ensures forall x :: x in r ==> UpstreamIn(def.edges, x) == []
  {
    if |steps| == 0 then [] else
      var n := |steps| - 1;
      EntriesIn(def, steps[..n]) +
      if UpstreamIn(def.edges, steps[n].id) == [] then [steps[n].id] else []
  }

  function SinksIn(def: Definition, steps: seq<Step>): (r: seq<Id>)
    ensures forall x :: x in r ==> DownstreamIn(def.edges, x) == []
  {
    if |steps| == 0 then [] else
      var n := |steps| - 1;
      SinksIn(def, steps[..n]) +
      if DownstreamIn(def.edges, steps[n].id) == [] then [steps[n].id] else []
  }

  function FromOf(e: Edge): Id {
    e.from
  }

  function ToOf(e: Edge): Id {
    e.to
  }

  function IdOf(s: Step): Id {
    s.id
  }

  function Same<T>(x: T): T {
    x
  }

  /** The dependencies of a step stand in the order of their edges. */
  lemma {:induction false} UpstreamOrder(edges: seq<Edge>, id: Id) returns (at: seq<nat>)
    ensures Picks(at, edges, FromOf, UpstreamIn(edges, id))
    ensures forall i: nat :: i in at <==> i < |edges| && IsNext(edges[i]) && edges[i].to == id
  {
    hide Picks, UpstreamIn;
    UpstreamLast(edges, id);
    if edges == [] {
      at := [];
      PicksNone(FromOf);
    } else {
      var n := |edges| - 1;
      var front := UpstreamOrder(edges[..n], id);
      var more: seq<nat> := if IsNext(edges[n]) && edges[n].to == id then [n] else [];
      at := front + more;
      assert edges == edges[..n] + [edges[n]];
      PicksMore(front, edges[..n], FromOf, UpstreamIn(edges[..n], id), edges[n], more);
      assert UpstreamIn(edges, id) == UpstreamIn(edges[..n], id) + if more == [] then [] else [FromOf(edges[n])];
    }
  }

  lemma UpstreamLast(edges: seq<Edge>, id: Id)
    ensures UpstreamIn(edges, id) ==
            if edges == [] then []
            else var n := |edges| - 1;
                 UpstreamIn(edges[..n], id) + if IsNext(edges[n]) && edges[n].to == id then [edges[n].from] else []
  {
  }

  /** And so do the steps that depend on it. */
  lemma {:induction false} DownstreamOrder(edges: seq<Edge>, id: Id) returns (at: seq<nat>)
    ensures Picks(at, edges, ToOf, DownstreamIn(edges, id))
    ensures forall i: nat :: i in at <==> i < |edges| && IsNext(edges[i]) && edges[i].from == id
  {
    hide Picks, DownstreamIn;
    DownstreamLast(edges, id);
    if edges == [] {
      at := [];
      PicksNone(ToOf);
    } else {
      var n := |edges| - 1;
      var front := DownstreamOrder(edges[..n], id);
      var more: seq<nat> := if IsNext(edges[n]) && edges[n].from == id then [n] else [];
      at := front + more;
      assert edges == edges[..n] + [edges[n]];
      PicksMore(front, edges[..n], ToOf, DownstreamIn(edges[..n], id), edges[n], more);
      assert DownstreamIn(edges, id) == DownstreamIn(edges[..n], id) + if more == [] then [] else [ToOf(edges[n])];
    }
  }

  lemma DownstreamLast(edges: seq<Edge>, id: Id)
    ensures DownstreamIn(edges, id) ==
            if edges == [] then []
            else var n := |edges| - 1;
                 DownstreamIn(edges[..n], id) + if IsNext(edges[n]) && edges[n].from == id then [edges[n].to] else []
  {
  }

  /** And its rework edges. */
  lemma {:induction false} ReworkOrder(edges: seq<Edge>, id: Id) returns (at: seq<nat>)
    ensures Picks(at, edges, Same, ReworkEdgesIn(edges, id))
    ensures forall i: nat :: i in at <==> i < |edges| && edges[i].kind.Rework? && edges[i].from == id
  {
    hide Picks, ReworkEdgesIn;
    ReworkLast(edges, id);
    if edges == [] {
      at := [];
      PicksNone(Same<Edge>);
    } else {
      var n := |edges| - 1;
      var front := ReworkOrder(edges[..n], id);
      var more: seq<nat> := if edges[n].kind.Rework? && edges[n].from == id then [n] else [];
      at := front + more;
      assert edges == edges[..n] + [edges[n]];
      PicksMore(front, edges[..n], Same, ReworkEdgesIn(edges[..n], id), edges[n], more);
      assert ReworkEdgesIn(edges, id) == ReworkEdgesIn(edges[..n], id) + if more == [] then [] else [Same(edges[n])];
    }
  }

  lemma ReworkLast(edges: seq<Edge>, id: Id)
    ensures ReworkEdgesIn(edges, id) ==
            if edges == [] then []
            else var n := |edges| - 1;
                 ReworkEdgesIn(edges[..n], id) + if edges[n].kind.Rework? && edges[n].from == id then [edges[n]] else []
  {
  }

  /** Entry steps stand in the order of the steps. */
  lemma {:induction false} EntriesOrder(def: Definition, steps: seq<Step>) returns (at: seq<nat>)
    ensures Picks(at, steps, IdOf, EntriesIn(def, steps))
    ensures forall i: nat :: i in at <==> i < |steps| && UpstreamIn(def.edges, steps[i].id) == []
  {
    hide Picks, EntriesIn, UpstreamIn;
    EntriesLast(def, steps);
    if steps == [] {
      at := [];
      PicksNone(IdOf);
    } else {
      var n := |steps| - 1;
      var front := EntriesOrder(def, steps[..n]);
      var more: seq<nat> := if UpstreamIn(def.edges, steps[n].id) == [] then [n] else [];
      at := front + more;
      assert steps == steps[..n] + [steps[n]];
      PicksMore(front, steps[..n], IdOf, EntriesIn(def, steps[..n]), steps[n], more);
      assert EntriesIn(def, steps) == EntriesIn(def, steps[..n]) + if more == [] then [] else [IdOf(steps[n])];
    }
  }

  lemma EntriesLast(def: Definition, steps: seq<Step>)
    ensures EntriesIn(def, steps) ==
            if steps == [] then []
            else var n := |steps| - 1;
                 EntriesIn(def, steps[..n]) + if UpstreamIn(def.edges, steps[n].id) == [] then [steps[n].id] else []
  {
  }

  /** And so do the steps nothing depends on. */
  lemma {:induction false} SinksOrder(def: Definition, steps: seq<Step>) returns (at: seq<nat>)
    ensures Picks(at, steps, IdOf, SinksIn(def, steps))
    ensures forall i: nat :: i in at <==> i < |steps| && DownstreamIn(def.edges, steps[i].id) == []
  {
    hide Picks, SinksIn, DownstreamIn;
    SinksLast(def, steps);
    if steps == [] {
      at := [];
      PicksNone(IdOf);
    } else {
      var n := |steps| - 1;
      var front := SinksOrder(def, steps[..n]);
      var more: seq<nat> := if DownstreamIn(def.edges, steps[n].id) == [] then [n] else [];
      at := front + more;
      assert steps == steps[..n] + [steps[n]];
      PicksMore(front, steps[..n], IdOf, SinksIn(def, steps[..n]), steps[n], more);
      assert SinksIn(def, steps) == SinksIn(def, steps[..n]) + if more == [] then [] else [IdOf(steps[n])];
    }
  }

  lemma SinksLast(def: Definition, steps: seq<Step>)
    ensures SinksIn(def, steps) ==
            if steps == [] then []
            else var n := |steps| - 1;
                 SinksIn(def, steps[..n]) + if DownstreamIn(def.edges, steps[n].id) == [] then [steps[n].id] else []
  {
  }

  lemma {:induction false} EntriesExactly(def: Definition, steps: seq<Step>, x: Id)
    ensures x in EntriesIn(def, steps) <==>
            (exists s :: s in steps && s.id == x) && forall d :: !Dep(def, d, x)
  {
    if |steps| > 0 {
      var n := |steps| - 1;
      assert steps == steps[..n] + [steps[n]];
      EntriesExactly(def, steps[..n], x);
      NoUpstream(def, steps[n].id);
    }
  }

  lemma NoUpstream(def: Definition, x: Id)
    ensures UpstreamIn(def.edges, x) == [] <==> forall d :: !Dep(def, d, x)
  {
    var ups := UpstreamIn(def.edges, x);
    if ups != [] {
      assert ups[0] in ups;
      assert Dep(def, ups[0], x);
    }
    if d :| Dep(def, d, x) {
      assert d in ups;
    }
  }

  lemma {:induction false} SinksExactly(def: Definition, steps: seq<Step>, x: Id)
    ensures x in SinksIn(def, steps) <==>
            (exists s :: s in steps && s.id == x) && forall d :: !Dep(def, x, d)
  {
    if |steps| > 0 {
      var n := |steps| - 1;
      assert steps == steps[..n] + [steps[n]];
      SinksExactly(def, steps[..n], x);
      NoDownstream(def, steps[n].id);
    }
  }

  lemma NoDownstream(def: Definition, x: Id)
    ensures DownstreamIn(def.edges, x) == [] <==> forall d :: !Dep(def, x, d)
  {
    var downs := DownstreamIn(def.edges, x);
    if downs != [] {
      assert downs[0] in downs;
      assert Dep(def, x, downs[0]);
    }
    if d :| Dep(def, x, d) {
      assert d in downs;
    }
  }

  method Upstream(def: Definition, id: Id) returns (out: seq<Id>)
    ensures out == UpstreamIn(def.edges, id)
    ensures forall d :: d in out <==> Dep(def, d, id)
  {
    out := [];
    for i := 0 to |def.edges|
      invariant out == UpstreamIn(def.edges[..i], id)
    {
      assert def.edges[..i + 1][..i] == def.edges[..i];
      if IsNext(def.edges[i]) && def.edges[i].to == id {
        out := out + [def.edges[i].from];
      }
    }
    assert def.edges[..|def.edges|] == def.edges;
  }

  method Downstream(def: Definition, id: Id) returns (out: seq<Id>)
    ensures out == DownstreamIn(def.edges, id)
    ensures forall d :: d in out <==> Dep(def, id, d)
  {
    out := [];
    for i := 0 to |def.edges|
      invariant out == DownstreamIn(def.edges[..i], id)
    {
      assert def.edges[..i + 1][..i] == def.edges[..i];
      if IsNext(def.edges[i]) && def.edges[i].from == id {
        out := out + [def.edges[i].to];
      }
    }
    assert def.edges[..|def.edges|] == def.edges;
  }

  method ReworkEdges(def: Definition, id: Id) returns (out: seq<Edge>)
    ensures out == ReworkEdgesIn(def.edges, id)
  {
    out := [];
    for i := 0 to |def.edges|
      invariant out == ReworkEdgesIn(def.edges[..i], id)
    {
      assert def.edges[..i + 1][..i] == def.edges[..i];
      if def.edges[i].kind.Rework? && def.edges[i].from == id {
        out := out + [def.edges[i]];
      }
    }
    assert def.edges[..|def.edges|] == def.edges;
  }

  method EntrySteps(def: Definition) returns (out: seq<Id>)
    ensures out == EntriesIn(def, def.steps)
  {
    out := [];
    for i := 0 to |def.steps|
      invariant out == EntriesIn(def, def.steps[..i])
    {
      assert def.steps[..i + 1][..i] == def.steps[..i];
      var ups := Upstream(def, def.steps[i].id);
      if |ups| == 0 {
        out := out + [def.steps[i].id];
      }
    }
    assert def.steps[..|def.steps|] == def.steps;
  }

  method SinkSteps(def: Definition) returns (out: seq<Id>)
    ensures out == SinksIn(def, def.steps)
  {
    out := [];
    for i := 0 to |def.steps|
      invariant out == SinksIn(def, def.steps[..i])
    {
      assert def.steps[..i + 1][..i] == def.steps[..i];
      var downs := Downstream(def, def.steps[i].id);
      if |downs| == 0 {
        out := out + [def.steps[i].id];
      }
    }
    assert def.steps[..|def.steps|] == def.steps;
  }

  /** A definition with a step and no cycle has an entry step, so `EntrySteps(def)[0]` is safe. */
  lemma EntryExists(def: Definition)
    requires Acyclic(def) && |def.steps| > 0
    requires forall e :: e in def.edges ==> e.from in StepIds(def)
    ensures EntriesIn(def, def.steps) != []
  {
    assert def.steps[0] in def.steps;
    var m := Minimal(def, StepIds(def), def.steps[0].id);
    assert forall d :: !Dep(def, d, m);
    EntriesExactly(def, def.steps, m);
  }

  // ---------- Searches ----------

  /** The search invariant: everything seen but no longer queued has been expanded. */
  ghost predicate Expanded(def: Definition, id: Id, seen: set<Id>, queue: seq<Id>) {
    forall x, c :: (x == id || x in seen) && x !in queue && Dep(def, x, c) ==> c in seen
  }

  /** Breadth-first search. It ends on every graph, cyclic or not. */
  method Descendants(def: Definition, id: Id) returns (seen: set<Id>)
    ensures seen == DescendantSet(def, id)
  {
    seen := {};
    var queue := [id];
    ghost var all := DescendantSet(def, id);
    while |queue| > 0
      invariant seen <= all
      invariant forall q :: q in queue ==> q == id || q in seen
      invariant Expanded(def, id, seen, queue)
      decreases |all - seen|, |queue|
    {
      var children := Downstream(def, queue[0]);
      ghost var seen0, queue0 := seen, queue;
      seen, queue := Enqueue(children, seen, queue[1..]);
      ExpandStep(def, id, children, seen0, queue0, seen, queue);
    }
    SearchComplete(def, id, seen);
  }

  lemma ExpandStep(def: Definition, id: Id, children: seq<Id>,
                   seen0: set<Id>, queue0: seq<Id>, seen: set<Id>, queue: seq<Id>)
    requires seen0 <= DescendantSet(def, id) && Expanded(def, id, seen0, queue0)
    requires queue0 != [] && (queue0[0] == id || queue0[0] in seen0)
    requires forall d :: d in children <==> Dep(def, queue0[0], d)
    requires seen == seen0 + set c | c in children
    requires forall q :: q in queue <==> q in queue0[1..] || (q in children && q !in seen0)
    ensures seen <= DescendantSet(def, id) && Expanded(def, id, seen, queue)
    ensures seen != seen0 ==> |DescendantSet(def, id) - seen| < |DescendantSet(def, id) - seen0|
  {
    forall c | c in children ensures c in DescendantSet(def, id) {
      ReachesThenDep(def, id, queue0[0], c);
      InDescendants(def, id, c);
    }
    forall x, c | (x == id || x in seen) && x !in queue && Dep(def, x, c)
      ensures c in seen
    {
      if x != queue0[0] { assert x !in queue0; }
    }
    if seen != seen0 {
      SubsetSmaller(DescendantSet(def, id) - seen, DescendantSet(def, id) - seen0);
    }
  }

  /** The body of the search: queue the children not met before. */
  method Enqueue(children: seq<Id>, seen0: set<Id>, queue0: seq<Id>) returns (seen: set<Id>, queue: seq<Id>)
    ensures seen == seen0 + set c | c in children
    ensures forall q :: q in queue <==> q in queue0 || (q in children && q !in seen0)
    ensures seen == seen0 ==> queue == queue0
  {
    seen, queue := seen0, queue0;
    for i := 0 to |children|
      invariant seen == seen0 + set c | c in children[..i]
      invariant forall q :: q in queue <==> q in queue0 || (q in children[..i] && q !in seen0)
      invariant seen == seen0 ==> queue == queue0
    {
      if children[i] !in seen {
        seen := seen + {children[i]};
        queue := queue + [children[i]];
      }
    }
    assert children[..|children|] == children;
  }

  lemma SearchComplete(def: Definition, id: Id, seen: set<Id>)
    requires seen <= DescendantSet(def, id)
    requires forall x, c :: (x == id || x in seen) && Dep(def, x, c) ==> c in seen
    ensures seen == DescendantSet(def, id)
  {
    forall x | x in DescendantSet(def, id) ensures x in seen {
      var p :| PathBetween(def, p, id, x);
      for i := 1 to |p|
        invariant p[i - 1] == id || p[i - 1] in seen
        invariant i > 1 ==> p[i - 1] in seen
      {
        assert Dep(def, p[i - 1], p[i]);
      }
    }
  }

  /** `target`, `from` and every step between them. */
  ghost function ReworkSet(def: Definition, from: Id, target: Id): set<Id> {
    {target, from} + set x | x in DescendantSet(def, target) && (x == from || Reaches(def, x, from))
  }

  method ReworkPath(def: Definition, from: Id, target: Id) returns (path: set<Id>)
    ensures path == ReworkSet(def, from, target)
  {
    var below := Descendants(def, target);
    path := {target, from};
    var rest := below;
    while rest != {}
      invariant rest <= below
      invariant path == {target, from} + set x | x in below - rest && (x == from || Reaches(def, x, from))
      decreases rest
    {
      var stepId :| stepId in rest;
      var after := Descendants(def, stepId);
      InDescendants(def, stepId, from);
      if stepId == from || from in after {
        path := path + {stepId};
      }
      rest := rest - {stepId};
    }
  }

  /** On a rework edge the reopened set is exactly the union of all dependency
      paths from the target to the source, both ends included. */
  lemma ReworkSetIsBetween(def: Definition, from: Id, target: Id, x: Id)
    requires Reaches(def, target, from)
    ensures x in ReworkSet(def, from, target) <==>
            exists p :: PathBetween(def, p, target, from) && x in p
  {
    if x in ReworkSet(def, from, target) {
      if x == target || x == from {
        var p :| PathBetween(def, p, target, from);
        assert x in p;
      } else {
        var p :| PathBetween(def, p, target, x);
        var q :| PathBetween(def, q, x, from);
        var r := p + q[1..];
        assert PathBetween(def, r, target, from) && r[|p| - 1] == x;
      }
    }
    if p :| PathBetween(def, p, target, from) && x in p {
      var i :| 0 <= i < |p| && p[i] == x;
      if x != target && x != from {
        assert PathBetween(def, p[..i + 1], target, x);
        assert PathBetween(def, p[i..], x, from);
        InDescendants(def, target, x);
      }
    }
  }

  // ---------- Keys and lookups ----------

  /** `^[a-z][a-z0-9_-]{0,63}$` */
  predicate IsIdentifier(s: string) {
    1 <= |s| <= 64 && 'a' <= s[0] <= 'z' &&
    forall i :: 0 <= i < |s| ==> 'a' <= s[i] <= 'z' || '0' <= s[i] <= '9' || s[i] == '_' || s[i] == '-'
  }

  function EdgeKey(from: Id, to: Id): string {
    from + ">" + to
  }

  /** No two edges between identifiers share a rework counter. */
  lemma EdgeKeyInjective(a: Id, b: Id, c: Id, d: Id)
    requires IsIdentifier(a) && IsIdentifier(c)
    requires EdgeKey(a, b) == EdgeKey(c, d)
    ensures a == c && b == d
  {
    var k := EdgeKey(a, b);
    assert k[|a|] == '>' && k[|c|] == '>';
    assert forall i :: 0 <= i < |a| ==> k[i] == a[i] != '>';
    assert forall i :: 0 <= i < |c| ==> k[i] == c[i] != '>';
    assert |a| == |c|;
    assert k[..|a|] == a && k[..|c|] == c;
    assert k[|a| + 1..] == b && k[|c| + 1..] == d;
  }

  method FindStep(def: Definition, id: Id) returns (found: bool, step: Step)
    ensures found <==> id in StepIds(def)
    ensures found ==> step in def.steps && step.id == id
  {
    found, step := false, Step("", "", Agent, "");
    for i := 0 to |def.steps|
      invariant !found
      invariant forall j :: 0 <= j < i ==> def.steps[j].id != id
    {
      if def.steps[i].id == id {
        return true, def.steps[i];
      }
    }
  }
}
