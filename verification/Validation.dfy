/** Normalisation and validation of definitions (validation.go). */
module Validation {
  import opened Graph
  import opened Collections
  import Text

  const DEFAULT_MAX_REWORK_ROUNDS := 3
  const DEFAULT_MAX_CONSECUTIVE_FAILURES := 3
  const MAX_REWORK_ROUNDS_LIMIT := 50
  const MAX_FAILURES_LIMIT := 100

  function NormalEdge(e: Edge): Edge {
    if e.kind.Unset? then e.(kind := Next) else e
  }

  function NormalPolicy(p: Policy): Policy {
    Policy(if p.maxReworkRounds == 0 then DEFAULT_MAX_REWORK_ROUNDS else p.maxReworkRounds,
           if p.maxConsecutiveFailures == 0 then DEFAULT_MAX_CONSECUTIVE_FAILURES else p.maxConsecutiveFailures)
  }

  function Normalized(def: Definition): Definition {
    def.(policy := NormalPolicy(def.policy),
         edges := seq(|def.edges|, i requires 0 <= i < |def.edges| => NormalEdge(def.edges[i])))
  }

  method Normalize(def: Definition) returns (out: Definition)
    ensures out == Normalized(def)
  {
    out := def;
    if out.policy.maxReworkRounds == 0 {
      out := out.(policy := out.policy.(maxReworkRounds := DEFAULT_MAX_REWORK_ROUNDS));
    }
    if out.policy.maxConsecutiveFailures == 0 {
      out := out.(policy := out.policy.(maxConsecutiveFailures := DEFAULT_MAX_CONSECUTIVE_FAILURES));
    }
    var edges := def.edges;
    for i := 0 to |edges|
      invariant |edges| == |def.edges|
      invariant forall j :: 0 <= j < i ==> edges[j] == NormalEdge(def.edges[j])
      invariant forall j :: i <= j < |edges| ==> edges[j] == def.edges[j]
    {
      if edges[i].kind.Unset? {
        edges := edges[i := edges[i].(kind := Next)];
      }
    }
    out := out.(edges := edges);
  }

  /** Normalising changes no neighbour list: the functions that read a raw
      definition and those that normalise first see one graph. */
  lemma NormalizedSameGraph(def: Definition, id: Id)
    ensures UpstreamIn(Normalized(def).edges, id) == UpstreamIn(def.edges, id)
    ensures DownstreamIn(Normalized(def).edges, id) == DownstreamIn(def.edges, id)
    ensures ReworkEdgesIn(Normalized(def).edges, id) == ReworkEdgesIn(def.edges, id)
    ensures Normalized(Normalized(def)) == Normalized(def)
  {
    NormalizedSameLists(def.edges, Normalized(def).edges, id);
  }

  lemma {:induction false} NormalizedSameLists(raw: seq<Edge>, normal: seq<Edge>, id: Id)
    requires |raw| == |normal| && forall i :: 0 <= i < |raw| ==> normal[i] == NormalEdge(raw[i])
    ensures UpstreamIn(normal, id) == UpstreamIn(raw, id)
    ensures DownstreamIn(normal, id) == DownstreamIn(raw, id)
    ensures ReworkEdgesIn(normal, id) == ReworkEdgesIn(raw, id)
  {
    if raw != [] {
      NormalizedSameLists(raw[..|raw| - 1], normal[..|raw| - 1], id);
    }
  }

  predicate StepWrites(s: Step) {
    s.kind.Command? || s.sandbox != "read-only"
  }

  predicate ValidStep(s: Step) {
    IsIdentifier(s.id) && !Text.Blank(s.name)
  }

  predicate ValidEdgeKind(e: Edge) {
    e.kind.Next? || e.kind.Rework?
  }

  ghost predicate ValidEdge(def: Definition, e: Edge) {
    ValidEdgeKind(e) && e.from in StepIds(def) && e.to in StepIds(def) && e.from != e.to &&
    0 <= e.maxRounds <= MAX_REWORK_ROUNDS_LIMIT
  }

  predicate SameConnection(a: Edge, b: Edge) {
    a.from == b.from && a.to == b.to && a.kind == b.kind
  }

  /** The field checks, made before the graph is looked at. */
  ghost predicate WellFormed(def: Definition) {
    && IsIdentifier(def.id) && !Text.Blank(def.name) && |def.steps| > 0
    && 1 <= def.policy.maxReworkRounds <= MAX_REWORK_ROUNDS_LIMIT
    && 1 <= def.policy.maxConsecutiveFailures <= MAX_FAILURES_LIMIT
    && ValidSteps(def) && UniqueSteps(def) && ValidEdges(def) && UniqueEdges(def)
  }

  ghost predicate ValidSteps(def: Definition) {
    forall s :: s in def.steps ==> ValidStep(s)
  }

  ghost predicate ValidEdges(def: Definition) {
    forall e :: e in def.edges ==> ValidEdge(def, e)
  }

  ghost predicate UniqueEdges(def: Definition) {
    forall i, j :: 0 <= i < j < |def.edges| ==> !SameConnection(def.edges[i], def.edges[j])
  }

  ghost predicate ReworkGoesUp(def: Definition) {
    forall e :: e in def.edges && e.kind.Rework? ==> Reaches(def, e.to, e.from)
  }

  /** Two steps that may write must be ordered by dependencies. */
  ghost predicate WritersOrdered(def: Definition) {
    forall a, b :: a in def.steps && b in def.steps && a.id != b.id && StepWrites(a) && StepWrites(b) ==>
      Reaches(def, a.id, b.id) || Reaches(def, b.id, a.id)
  }

  ghost predicate Valid(def: Definition) {
    WellFormed(def) && Acyclic(def) && ReworkGoesUp(def) && WritersOrdered(def)
  }

  const LOWER := "abcdefghijklmnopqrstuvwxyz"
  const IDENTIFIER := LOWER + "0123456789_-"

  /** An identifier: a lower-case letter and at most 63 letters, digits, underscores and hyphens. */
  lemma IdentifierExactly(s: string)
    ensures IsIdentifier(s) <==> s != "" && |s| < 65 && s[0] in LOWER && forall c :: c in s ==> c in IDENTIFIER
  {
    assert forall c :: c in LOWER <==> 'a' <= c <= 'z';
    assert forall c :: c in "0123456789_-" <==> '0' <= c <= '9' || c == '_' || c == '-';
    if IsIdentifier(s) {
      forall c | c in s ensures c in IDENTIFIER {}
    } else if s != "" && |s| < 65 && s[0] in LOWER {
      forall i | 0 <= i < |s| ensures s[i] in s {}
    }
  }

  /** What normalising fills in, and what it leaves alone. */
  lemma NormalizedExactly(def: Definition, i: nat)
    ensures var out := Normalized(def);
            && out.policy == Policy(if def.policy.maxReworkRounds != 0 then def.policy.maxReworkRounds else 3,
                                    if def.policy.maxConsecutiveFailures != 0 then def.policy.maxConsecutiveFailures else 3)
            && out.(policy := def.policy, edges := def.edges) == def && |out.edges| == |def.edges|
            && (i < |def.edges| ==> var e := def.edges[i];
                out.edges[i] == Edge(e.from, e.to, if e.kind == Unset then Next else e.kind, e.maxRounds))
  {
  }

  /** What the fields of a valid definition hold. */
  lemma FieldsExactly(def: Definition)
    ensures WellFormed(def) <==>
            && IsIdentifier(def.id) && (exists c :: c in def.name && !Text.IsSpace(c)) && def.steps != []
            && 1 <= def.policy.maxReworkRounds <= 50 && 1 <= def.policy.maxConsecutiveFailures <= 100
            && (forall s :: s in def.steps ==> IsIdentifier(s.id) && exists c :: c in s.name && !Text.IsSpace(c))
            && (forall i, j :: 0 <= i < j < |def.steps| ==> def.steps[i].id != def.steps[j].id)
            && (forall e :: e in def.edges ==>
                  e.kind in {Next, Rework} && e.from != e.to && e.from in StepIds(def) && e.to in StepIds(def) && 0 <= e.maxRounds <= 50)
            && (forall i, j :: 0 <= i < j < |def.edges| ==>
                  var a, b := def.edges[i], def.edges[j]; !(a.from == b.from && a.to == b.to && a.kind == b.kind))
  {
    hide IsIdentifier, Text.IsSpace;
    InkExactly(def.name);
    forall s | s in def.steps ensures Text.Blank(s.name) <==> !exists c :: c in s.name && !Text.IsSpace(c) { InkExactly(s.name); }
  }

  /** Which steps count as writers: all that are not read-only agents. */
  lemma WritersExactly(def: Definition)
    ensures WritersOrdered(def) <==>
            forall a, b :: a in def.steps && b in def.steps && a.id != b.id ==>
              (a.kind == Agent && a.sandbox == "read-only") || (b.kind == Agent && b.sandbox == "read-only") ||
              Reaches(def, a.id, b.id) || Reaches(def, b.id, a.id)
  {
    hide Reaches;
  }

  lemma InkExactly(s: string)
    ensures Text.Blank(s) <==> !exists c :: c in s && !Text.IsSpace(c)
  {
    hide Text.IsSpace;
    assert forall i :: 0 <= i < |s| ==> s[i] in s;
  }

  // ---------- Kahn's algorithm ----------

  /** Dependency edges into `x` whose source is not yet `done`. */
  function Waiting(edges: seq<Edge>, x: Id, done: set<Id>): nat {
    if |edges| == 0 then 0 else
      var n := |edges| - 1;
      Waiting(edges[..n], x, done) +
      if IsNext(edges[n]) && edges[n].to == x && edges[n].from !in done then 1 else 0
  }

  lemma {:induction false} WaitingZero(edges: seq<Edge>, x: Id, done: set<Id>)
    ensures Waiting(edges, x, done) == 0 <==>
            forall e :: e in edges && IsNext(e) && e.to == x ==> e.from in done
  {
    if |edges| > 0 {
      var n := |edges| - 1;
      assert edges == edges[..n] + [edges[n]];
      WaitingZero(edges[..n], x, done);
    }
  }

  /** Finishing `c` releases one count at `x` for every edge from `c` to `x`. */
  lemma {:induction false} WaitingRelease(edges: seq<Edge>, x: Id, done: set<Id>, c: Id)
    requires c !in done
    ensures Waiting(edges, x, done) == Waiting(edges, x, done + {c}) + multiset(DownstreamIn(edges, c))[x]
  {
    if |edges| > 0 {
      WaitingRelease(edges[..|edges| - 1], x, done, c);
    }
  }

  function At(m: map<Id, int>, x: Id): int {
    if x in m then m[x] else 0
  }

  ghost predicate Counted(def: Definition, indegree: map<Id, int>, order: seq<Id>, rest: seq<Id>) {
    forall x :: x in StepIds(def) ==>
      At(indegree, x) == Waiting(def.edges, x, Elements(order)) + multiset(rest)[x]
  }

  ghost predicate Frontier(def: Definition, indegree: map<Id, int>, order: seq<Id>, queue: seq<Id>) {
    && NoRepeats(order + queue)
    && (forall x :: x in order + queue ==> x in StepIds(def))
    && (forall x :: x in StepIds(def) ==> (x in order + queue <==> At(indegree, x) == 0))
  }

  /** Every dependency of a listed step is listed before it. */
  ghost predicate Topological(def: Definition, order: seq<Id>) {
    forall i, d :: 0 <= i < |order| && Dep(def, d, order[i]) ==> d in order[..i]
  }

  method CountEdges(def: Definition) returns (indegree: map<Id, int>)
    ensures forall x :: At(indegree, x) == Waiting(def.edges, x, {})
  {
    indegree := map[];
    for i := 0 to |def.edges|
      invariant forall x :: At(indegree, x) == Waiting(def.edges[..i], x, {})
    {
      assert def.edges[..i + 1][..i] == def.edges[..i];
      var e := def.edges[i];
      if IsNext(e) {
        indegree := indegree[e.to := At(indegree, e.to) + 1];
      }
    }
    assert def.edges[..|def.edges|] == def.edges;
  }

  method InitialQueue(def: Definition, indegree: map<Id, int>) returns (queue: seq<Id>)
    requires UniqueSteps(def)
    ensures Frontier(def, indegree, [], queue)
  {
    queue := [];
    for i := 0 to |def.steps|
      invariant NoRepeats(queue)
      invariant forall x :: x in queue <==> exists j :: 0 <= j < i && def.steps[j].id == x && At(indegree, x) == 0
    {
      if At(indegree, def.steps[i].id) == 0 {
        queue := queue + [def.steps[i].id];
      }
    }
    assert [] + queue == queue;
  }

  method Release(def: Definition, children: seq<Id>, ghost order: seq<Id>, indegree0: map<Id, int>, queue0: seq<Id>)
    returns (indegree: map<Id, int>, queue: seq<Id>)
    requires Frontier(def, indegree0, order, queue0) && Counted(def, indegree0, order, children)
    requires forall c :: c in children ==> c in StepIds(def)
    ensures Frontier(def, indegree, order, queue) && Counted(def, indegree, order, [])
  {
    indegree, queue := indegree0, queue0;
    for i := 0 to |children|
      invariant Frontier(def, indegree, order, queue) && Counted(def, indegree, order, children[i..])
    {
      var child := children[i];
      assert children[i..] == [child] + children[i + 1..];
      ReleaseOne(def, order, child, children[i + 1..], indegree, queue);
      indegree := indegree[child := At(indegree, child) - 1];
      if indegree[child] == 0 {
        queue := queue + [child];
      }
    }
  }

  lemma ReleaseOne(def: Definition, order: seq<Id>, child: Id, rest: seq<Id>, indegree: map<Id, int>, queue: seq<Id>)
    requires Frontier(def, indegree, order, queue) && Counted(def, indegree, order, [child] + rest)
    requires child in StepIds(def)
    ensures var next := indegree[child := At(indegree, child) - 1];
            && Counted(def, next, order, rest)
            && Frontier(def, next, order, if next[child] == 0 then queue + [child] else queue)
  {
    assert multiset([child] + rest) == multiset{child} + multiset(rest);
    assert At(indegree, child) > 0;
    assert order + (queue + [child]) == (order + queue) + [child];
  }

  /** The cycle check accepts a definition exactly when no step reaches itself. */
  method IsAcyclic(def: Definition) returns (ok: bool)
    requires UniqueSteps(def)
    requires forall e :: e in def.edges ==> e.from in StepIds(def) && e.to in StepIds(def)
    ensures ok <==> Acyclic(def)
  {
    var indegree := CountEdges(def);
    var queue := InitialQueue(def, indegree);
    var visited := 0;
    ghost var order: seq<Id> := [];
    assert Elements(order) == {};
    while |queue| > 0
      invariant Frontier(def, indegree, order, queue) && Counted(def, indegree, order, [])
      invariant Topological(def, order)
      invariant visited == |order|
      decreases |StepIds(def)| - |order|
    {
      var current := queue[0];
      var children := Downstream(def, current);
      NextVisit(def, indegree, order, queue, children);
      ghost var was := order;
      order := order + [current];
      indegree, queue := Release(def, children, order, indegree, queue[1..]);
      visited := visited + 1;
      OrderBounded(def, indegree, order, queue);
    }
    StepCount(def);
    OrderBounded(def, indegree, order, queue);
    assert order + [] == order;
    if visited == |def.steps| {
      SubsetCard(Elements(order), StepIds(def));
      TopologicalAcyclic(def, order);
    } else {
      NoFrontierLeft(def, indegree, order);
    }
    return visited == |def.steps|;
  }

  lemma NextVisit(def: Definition, indegree: map<Id, int>, order: seq<Id>, queue: seq<Id>, children: seq<Id>)
    requires queue != [] && Frontier(def, indegree, order, queue) && Counted(def, indegree, order, [])
    requires Topological(def, order) && children == DownstreamIn(def.edges, queue[0])
    ensures Topological(def, order + [queue[0]])
    ensures Frontier(def, indegree, order + [queue[0]], queue[1..])
    ensures Counted(def, indegree, order + [queue[0]], children)
  {
    var current := queue[0];
    assert order + queue == (order + [current]) + queue[1..];
    assert (order + queue)[|order|] == current;
    assert forall i :: 0 <= i < |order| ==> (order + queue)[i] == order[i];
    assert current !in order;
    assert Elements(order + [current]) == Elements(order) + {current};
    forall x | x in StepIds(def)
      ensures At(indegree, x) == Waiting(def.edges, x, Elements(order + [current])) + multiset(children)[x]
    {
      WaitingRelease(def.edges, x, Elements(order), current);
    }
    WaitingZero(def.edges, current, Elements(order));
    forall i, d | 0 <= i < |order| + 1 && Dep(def, d, (order + [current])[i])
      ensures d in (order + [current])[..i]
    {
      assert (order + [current])[..i] == order[..i];
      assert order[..|order|] == order;
    }
  }

  lemma OrderBounded(def: Definition, indegree: map<Id, int>, order: seq<Id>, queue: seq<Id>)
    requires Frontier(def, indegree, order, queue)
    ensures NoRepeats(order) && Elements(order) <= StepIds(def)
    ensures |order| == |Elements(order)| <= |StepIds(def)|
  {
    assert forall i :: 0 <= i < |order| ==> (order + queue)[i] == order[i];
    NoRepeatsCard(order);
    SubsetCard(Elements(order), StepIds(def));
  }

  lemma StepCount(def: Definition)
    requires UniqueSteps(def)
    ensures |StepIds(def)| == |def.steps|
  {
    var ids := seq(|def.steps|, i requires 0 <= i < |def.steps| => def.steps[i].id);
    NoRepeatsCard(ids);
    forall x | x in StepIds(def) ensures x in Elements(ids) {
      var i :| 0 <= i < |def.steps| && def.steps[i].id == x;
      assert ids[i] == x;
    }
    assert Elements(ids) == StepIds(def);
  }

  /** A listing that respects dependencies and holds every edge end leaves no room for a cycle. */
  lemma TopologicalAcyclic(def: Definition, order: seq<Id>)
    requires NoRepeats(order) && Topological(def, order)
    requires forall e :: e in def.edges ==> e.from in order && e.to in order
    ensures Acyclic(def)
  {
    forall a ensures !Reaches(def, a, a) {
      if p :| PathBetween(def, p, a, a) {
        assert Dep(def, p[0], p[1]);
        forall x | x in p ensures x in order {
          var i :| 0 <= i < |p| && p[i] == x;
          assert i < |p| - 1 ==> Dep(def, x, p[i + 1]);
        }
        PathAdvances(def, order, p, |p| - 1);
      }
    }
  }

  ghost function Place(order: seq<Id>, x: Id): nat
    requires x in order
    ensures Place(order, x) < |order| && order[Place(order, x)] == x
  {
    var i :| 0 <= i < |order| && order[i] == x;
    i
  }

  lemma {:induction false} PathAdvances(def: Definition, order: seq<Id>, p: seq<Id>, k: nat)
    requires NoRepeats(order) && Topological(def, order)
    requires IsPath(def, p) && 0 < k < |p| && forall x :: x in p ==> x in order
    ensures Place(order, p[0]) < Place(order, p[k])
  {
    if k > 1 { PathAdvances(def, order, p, k - 1); }
    assert Dep(def, p[k - 1], p[k]);
    assert p[k - 1] in order[..Place(order, p[k])];
  }

  lemma NoFrontierLeft(def: Definition, indegree: map<Id, int>, order: seq<Id>)
    requires Frontier(def, indegree, order, []) && Counted(def, indegree, order, [])
    requires forall e :: e in def.edges ==> e.from in StepIds(def)
    requires |Elements(order)| < |StepIds(def)|
    ensures !Acyclic(def)
  {
    var left := StepIds(def) - Elements(order);
    if left == {} {
      assert forall x :: x in StepIds(def) ==> x !in left;
      SubsetCard(StepIds(def), Elements(order));
    }
    var x :| x in left;
    if Acyclic(def) {
      var m := Minimal(def, left, x);
      assert order + [] == order;
      WaitingZero(def.edges, m, Elements(order));
      assert forall e :: e in def.edges && IsNext(e) && e.to == m ==> Dep(def, e.from, m);
    }
  }

  // ---------- The whole check ----------

  method StepsUnique(def: Definition) returns (ok: bool)
    ensures ok <==> UniqueSteps(def)
  {
    ok := true;
    var seen: set<Id> := {};
    for i := 0 to |def.steps|
      invariant forall j :: 0 <= j < i ==> def.steps[j].id in seen
      invariant forall x :: x in seen ==> exists j :: 0 <= j < i && def.steps[j].id == x
      invariant ok <==> forall j, k :: 0 <= j < k < i ==> def.steps[j].id != def.steps[k].id
    {
      if def.steps[i].id in seen { ok := false; }
      seen := seen + {def.steps[i].id};
    }
  }

  method EdgeFieldsValid(def: Definition) returns (ok: bool)
    ensures ok <==> ValidEdges(def) && UniqueEdges(def)
  {
    ok := true;
    var seen: set<(Id, Id, EdgeKind)> := {};
    for i := 0 to |def.edges|
      invariant ok ==> forall j :: 0 <= j < i ==> (def.edges[j].from, def.edges[j].to, def.edges[j].kind) in seen
      invariant ok ==> forall x :: x in seen ==> exists j :: 0 <= j < i && (def.edges[j].from, def.edges[j].to, def.edges[j].kind) == x
      invariant ok <==> (forall j :: 0 <= j < i ==> ValidEdge(def, def.edges[j])) &&
                        forall j, k :: 0 <= j < k < i ==> !SameConnection(def.edges[j], def.edges[k])
    {
      var e := def.edges[i];
      var key := (e.from, e.to, e.kind);
      if !ValidEdgeKind(e) || e.from !in StepIds(def) || e.to !in StepIds(def) || e.from == e.to ||
         e.maxRounds < 0 || e.maxRounds > MAX_REWORK_ROUNDS_LIMIT || key in seen {
        ok := false;
      }
      seen := seen + {key};
    }
  }

  method ReworkUpstream(def: Definition) returns (ok: bool)
    ensures ok <==> ReworkGoesUp(def)
  {
    ok := true;
    for i := 0 to |def.edges|
      invariant ok <==> forall e :: e in def.edges[..i] && e.kind.Rework? ==> Reaches(def, e.to, e.from)
    {
      var e := def.edges[i];
      assert def.edges[..i + 1] == def.edges[..i] + [e];
      if e.kind.Rework? {
        var below := Descendants(def, e.to);
        InDescendants(def, e.to, e.from);
        if e.from !in below { ok := false; }
      }
    }
    assert def.edges[..|def.edges|] == def.edges;
  }

  ghost predicate PairOrdered(def: Definition, i: int, j: int)
    requires 0 <= i < |def.steps| && 0 <= j < |def.steps|
  {
    StepWrites(def.steps[i]) && StepWrites(def.steps[j]) ==>
      Reaches(def, def.steps[i].id, def.steps[j].id) || Reaches(def, def.steps[j].id, def.steps[i].id)
  }

  method WritersSeparated(def: Definition) returns (ok: bool)
    requires UniqueSteps(def)
    ensures ok <==> WritersOrdered(def)
  {
    ok := true;
    for i := 0 to |def.steps|
      invariant ok <==> forall a, b :: 0 <= a < i && a < b < |def.steps| ==> PairOrdered(def, a, b)
    {
      for j := i + 1 to |def.steps|
        invariant ok <==> (forall a, b :: 0 <= a < i && a < b < |def.steps| ==> PairOrdered(def, a, b)) &&
                          forall b :: i < b < j ==> PairOrdered(def, i, b)
      {
        var left, right := def.steps[i], def.steps[j];
        if StepWrites(left) && StepWrites(right) {
          var below := Descendants(def, left.id);
          var under := Descendants(def, right.id);
          InDescendants(def, left.id, right.id);
          InDescendants(def, right.id, left.id);
          if right.id !in below && left.id !in under {
            assert !PairOrdered(def, i, j);
            ok := false;
          }
        }
      }
    }
    PairsAreWriters(def);
  }

  lemma PairsAreWriters(def: Definition)
    requires UniqueSteps(def)
    ensures WritersOrdered(def) <==> forall a, b :: 0 <= a < |def.steps| && a < b < |def.steps| ==> PairOrdered(def, a, b)
  {
    if forall a, b :: 0 <= a < |def.steps| && a < b < |def.steps| ==> PairOrdered(def, a, b) {
      forall s, t | s in def.steps && t in def.steps && s.id != t.id && StepWrites(s) && StepWrites(t)
        ensures Reaches(def, s.id, t.id) || Reaches(def, t.id, s.id)
      {
        var i :| 0 <= i < |def.steps| && def.steps[i] == s;
        var j :| 0 <= j < |def.steps| && def.steps[j] == t;
        assert if i < j then PairOrdered(def, i, j) else PairOrdered(def, j, i);
      }
    }
  }

  /** Validation accepts a definition exactly when its normal form is valid. */
  method Validate(input: Definition) returns (ok: bool)
    ensures ok <==> Valid(Normalized(input))
  {
    var def := Normalize(input);
    var stepsOk := forall s :: s in def.steps ==> ValidStep(s);
    var unique := StepsUnique(def);
    var edgesOk := EdgeFieldsValid(def);
    var header := IsIdentifier(def.id) && !Text.Blank(def.name) && |def.steps| > 0 &&
                  1 <= def.policy.maxReworkRounds <= MAX_REWORK_ROUNDS_LIMIT &&
                  1 <= def.policy.maxConsecutiveFailures <= MAX_FAILURES_LIMIT;
    if !(header && stepsOk && unique && edgesOk) { return false; }
    ok := IsAcyclic(def);
    if !ok { return false; }
    var up := ReworkUpstream(def);
    var separated := WritersSeparated(def);
    return up && separated;
  }
}
