/** The parallel timeline of a run (conversation_timeline.go): clusters of overlapping
    executions and their lanes. */
module Timeline {
  import opened Collections

  /** Times are numbers; an unset time is `None`. */
  datatype Time = None | At(t: int)

  /** One execution of a step; without a finishing time it is still going on. */
  datatype StepRun = StepRun(id: string, started: Time, finished: Time)

  predicate Before(a: Time, b: Time) {
    match (a, b)
    case (None, At(_)) => true
    case (At(x), At(y)) => x < y
    case (_, None) => false
  }

  /** Runs in order of their starting times, those never started first. */
  ghost predicate Sorted(runs: seq<StepRun>) {
    forall i, j :: 0 <= i < j < |runs| ==> !Before(runs[j].started, runs[i].started)
  }

  /** The run at `j` starts before the earlier one at `i` is over; an unfinished run is never over. */
  predicate Overlaps(runs: seq<StepRun>, i: nat, j: nat)
    requires i < j < |runs|
  {
    runs[i].finished.None? || Before(runs[j].started, runs[i].finished)
  }

  /** For runs of positive length that is the overlap of their time spans. */
  lemma OverlapIsCommonInstant(runs: seq<StepRun>, i: nat, j: nat)
    requires Sorted(runs) && i < j < |runs| && runs[i].started.At? && runs[j].started.At?
    requires Positive(runs[i]) && Positive(runs[j])
    ensures Overlaps(runs, i, j) <==> exists t: int :: During(runs[i], t) && During(runs[j], t)
  {
    assert !Before(runs[j].started, runs[i].started);
    if Overlaps(runs, i, j) {
      assert During(runs[i], runs[j].started.t) && During(runs[j], runs[j].started.t);
    }
  }

  /** One run starts before another: earlier, or at the same time and listed before it. */
  predicate Earlier(runs: seq<StepRun>, a: nat, b: nat)
    requires a < |runs| && b < |runs|
  {
    Before(runs[a].started, runs[b].started) || (runs[a].started == runs[b].started && a < b)
  }

  /** The first of two runs is not over when the second starts. */
  predicate StillGoing(first: StepRun, second: StepRun) {
    first.started.At? && second.started.At? && (first.finished.At? ==> second.started.t < first.finished.t)
  }

  /** Two runs of a list in any order are going on side by side. */
  predicate Clash(runs: seq<StepRun>, a: nat, b: nat) {
    && a < |runs| && b < |runs| && a != b
    && if Earlier(runs, a, b) then StillGoing(runs[a], runs[b]) else StillGoing(runs[b], runs[a])
  }

  ghost predicate InClash(runs: seq<StepRun>, x: string) {
    exists a: nat, b: nat :: Clash(runs, a, b) && runs[a].id == x
  }

  predicate Positive(r: StepRun) {
    r.started.At? && (r.finished.At? ==> r.started.t < r.finished.t)
  }

  predicate During(r: StepRun, t: int) {
    r.started.At? && r.started.t <= t && (r.finished.At? ==> t < r.finished.t)
  }

  // ---------- Clusters ----------

  /** Later of two ends, where an open end lasts for ever. */
  function LaterEnd(a: Time, b: Time): Time {
    if a.None? || b.None? then None else if a.t < b.t then b else a
  }

  function ClusterEnd(runs: seq<StepRun>, i: nat, j: nat): Time
    requires i < j <= |runs|
  {
    if j == i + 1 then runs[i].finished else LaterEnd(ClusterEnd(runs, i, j - 1), runs[j - 1].finished)
  }

  lemma {:induction false} EndCovers(runs: seq<StepRun>, i: nat, j: nat, k: nat)
    requires i <= k < j <= |runs|
    ensures ClusterEnd(runs, i, j).None? || (runs[k].finished.At? && runs[k].finished.t <= ClusterEnd(runs, i, j).t)
  {
    if k < j - 1 { EndCovers(runs, i, j - 1, k); }
  }

  /** The run at `k` starts before the stretch from `i` up to it is over. */
  ghost predicate Joins(runs: seq<StepRun>, i: nat, k: nat)
    requires i < k < |runs|
  {
    ClusterEnd(runs, i, k).None? || Before(runs[k].started, ClusterEnd(runs, i, k))
  }

  /** A maximal stretch of runs, each starting before all earlier ones of the stretch are over. */
  ghost predicate Cluster(runs: seq<StepRun>, i: nat, j: nat) {
    && i < j <= |runs| && runs[i].started.At?
    && (forall k :: i < k < j ==> Joins(runs, i, k))
    && (j < |runs| ==> !Joins(runs, i, j))
  }

  method FindCluster(runs: seq<StepRun>, i: nat) returns (j: nat)
    requires i < |runs| && runs[i].started.At?
    ensures Cluster(runs, i, j)
  {
    var end := runs[i].finished;
    j := i + 1;
    while j < |runs| && (end.None? || Before(runs[j].started, end))
      invariant i < j <= |runs| && end == ClusterEnd(runs, i, j)
      invariant forall k :: i < k < j ==> Joins(runs, i, k)
    {
      assert Joins(runs, i, j);
      if runs[j].finished.None? || (end.At? && Before(end, runs[j].finished)) {
        end := runs[j].finished;
      }
      j := j + 1;
    }
  }

  /** No run of a cluster overlaps a run after the cluster. */
  lemma ClustersApart(runs: seq<StepRun>, i: nat, j: nat, a: nat, b: nat)
    requires Sorted(runs) && Cluster(runs, i, j) && i <= a < j <= b < |runs|
    ensures !Overlaps(runs, a, b)
  {
    EndCovers(runs, i, j, a);
    assert !Before(runs[b].started, runs[j].started) || b == j;
  }

  // ---------- Lanes ----------

  /** The lane of each run of a stretch; what came last in each lane. */
  ghost predicate Lanes(runs: seq<StepRun>, i: nat, k: nat, lane: seq<nat>, last: seq<nat>) {
    && i <= k <= |runs| && |lane| == k - i
    && (forall x :: 0 <= x < |lane| ==> lane[x] < |last|)
    && (forall l :: 0 <= l < |last| ==> i <= last[l] < k && lane[last[l] - i] == l)
    && (forall x :: 0 <= x < |lane| ==> i + x <= last[lane[x]])
  }

  /** No two runs of one lane overlap. */
  ghost predicate LanesDisjoint(runs: seq<StepRun>, i: nat, lane: seq<nat>) {
    forall x, y :: 0 <= x < y < |lane| && i + y < |runs| && lane[x] == lane[y] ==> !Overlaps(runs, i + x, i + y)
  }

  /** A set of runs any two of which overlap. */
  ghost predicate Clique(runs: seq<StepRun>, i: nat, k: nat, members: set<nat>) {
    && (forall a :: a in members ==> i <= a < k <= |runs|)
    && (forall a, b :: a in members && b in members && a < b < |runs| ==> Overlaps(runs, a, b))
  }

  lemma BeforeChain(x: Time, y: Time, z: Time)
    requires !Before(y, x) && Before(y, z)
    ensures Before(x, z)
  {
  }

  /** When no lane is free, the last runs of all lanes and the new run overlap pairwise. */
  lemma NewClique(runs: seq<StepRun>, i: nat, k: nat, lane: seq<nat>, last: seq<nat>)
    requires Sorted(runs) && Lanes(runs, i, k, lane, last) && k < |runs|
    requires forall l :: 0 <= l < |last| ==> Overlaps(runs, last[l], k)
    ensures Clique(runs, i, k + 1, Elements(last + [k])) && |Elements(last + [k])| == |last| + 1
  {
    NoRepeatsCard(last + [k]);
    forall a, b | a in Elements(last + [k]) && b in Elements(last + [k]) && a < b ensures Overlaps(runs, a, b) {
      assert Overlaps(runs, a, k);
      if b < k && runs[a].finished.At? {
        BeforeChain(runs[b].started, runs[k].started, runs[a].finished);
      }
    }
  }

  /** A lane whose last run is over holds no run that overlaps the new one. */
  lemma LaneFree(runs: seq<StepRun>, i: nat, k: nat, lane: seq<nat>, last: seq<nat>, slot: nat)
    requires Sorted(runs) && Lanes(runs, i, k, lane, last) && k < |runs| && LanesDisjoint(runs, i, lane)
    requires slot < |last| && !Overlaps(runs, last[slot], k)
    ensures forall x :: 0 <= x < |lane| && lane[x] == slot ==> !Overlaps(runs, i + x, k)
  {
    forall x | 0 <= x < |lane| && lane[x] == slot ensures !Overlaps(runs, i + x, k) {
      if i + x < last[slot] {
        assert lane[last[slot] - i] == slot;
        assert !Overlaps(runs, i + x, i + (last[slot] - i));
        if Before(runs[k].started, runs[i + x].finished) {
          BeforeChain(runs[last[slot]].started, runs[k].started, runs[i + x].finished);
        }
      }
    }
  }

  /** The runs before `k` are assigned without overlap, and `ends` holds when each lane is free. */
  ghost predicate Assigned(runs: seq<StepRun>, i: nat, k: nat, lane: seq<nat>, last: seq<nat>, ends: seq<Time>) {
    && Lanes(runs, i, k, lane, last) && |ends| == |last|
    && (forall l :: 0 <= l < |last| ==> ends[l] == runs[last[l]].finished)
    && LanesDisjoint(runs, i, lane)
  }

  lemma NoneAssigned(runs: seq<StepRun>, i: nat)
    requires i <= |runs|
    ensures Assigned(runs, i, i, [], [], []) && Clique(runs, i, i, {})
    ensures AllNamed(runs, i, [], []) && FirstFit(runs, i, [])
  {
  }

  lemma BusyClique(runs: seq<StepRun>, i: nat, k: nat, lane: seq<nat>, last: seq<nat>, ends: seq<Time>)
    requires Sorted(runs) && Assigned(runs, i, k, lane, last, ends) && k < |runs|
    requires forall l :: 0 <= l < |ends| ==> ends[l].None? || Before(runs[k].started, ends[l])
    ensures Clique(runs, i, k + 1, Elements(last + [k])) && |Elements(last + [k])| == |ends| + 1
  {
    NewClique(runs, i, k, lane, last);
  }

  lemma CliqueKept(runs: seq<StepRun>, i: nat, k: nat, clique: set<nat>)
    requires Clique(runs, i, k, clique) && k < |runs|
    ensures Clique(runs, i, k + 1, clique)
  {
  }

  lemma AssignedLanes(runs: seq<StepRun>, i: nat, k: nat, lane: seq<nat>, last: seq<nat>, ends: seq<Time>)
    requires Assigned(runs, i, k, lane, last, ends)
    ensures |lane| == k - i && |last| == |ends| && LanesDisjoint(runs, i, lane)
    ensures forall x :: 0 <= x < |lane| ==> lane[x] < |ends|
  {
  }

  lemma OpenLane(runs: seq<StepRun>, i: nat, k: nat, lane: seq<nat>, last: seq<nat>, ends: seq<Time>)
    requires Assigned(runs, i, k, lane, last, ends) && k < |runs|
    ensures Assigned(runs, i, k + 1, lane + [|last|], last + [k], ends + [runs[k].finished])
  {
  }

  lemma ReuseLane(runs: seq<StepRun>, i: nat, k: nat, lane: seq<nat>, last: seq<nat>, ends: seq<Time>, slot: nat)
    requires Sorted(runs) && Assigned(runs, i, k, lane, last, ends) && k < |runs| && slot < |last|
    requires ends[slot].At? && !Before(runs[k].started, ends[slot])
    ensures Assigned(runs, i, k + 1, lane + [slot], last[slot := k], ends[slot := runs[k].finished])
  {
    LaneFree(runs, i, k, lane, last, slot);
  }

  /** The run at `x` of the stretch is the first in lane `l`, and gives the lane its name. */
  ghost predicate NamesLane(runs: seq<StepRun>, i: nat, lane: seq<nat>, lanes: seq<string>, l: nat, x: nat) {
    && l < |lanes| && x < |lane| && i + x < |runs| && lane[x] == l && lanes[l] == runs[i + x].id
    && forall y :: 0 <= y < x ==> lane[y] != l
  }

  ghost predicate AllNamed(runs: seq<StepRun>, i: nat, lane: seq<nat>, lanes: seq<string>) {
    forall l :: 0 <= l < |lanes| ==> HasName(runs, i, lane, lanes, l)
  }

  ghost predicate HasName(runs: seq<StepRun>, i: nat, lane: seq<nat>, lanes: seq<string>, l: nat) {
    exists x :: NamesLane(runs, i, lane, lanes, l, x)
  }

  /** An earlier run of the stretch is in lane `l` and overlaps the one at `x`. */
  ghost predicate Blocks(runs: seq<StepRun>, i: nat, lane: seq<nat>, l: nat, x: nat, y: nat) {
    y < x < |lane| && i + x < |runs| && lane[y] == l && Overlaps(runs, i + y, i + x)
  }

  /** Every lane below the one a run is put in is taken by a run it overlaps. */
  ghost predicate FirstFit(runs: seq<StepRun>, i: nat, lane: seq<nat>) {
    forall x, l :: 0 <= x < |lane| && 0 <= l < lane[x] ==> Blocked(runs, i, lane, l, x)
  }

  ghost predicate Blocked(runs: seq<StepRun>, i: nat, lane: seq<nat>, l: nat, x: nat) {
    exists y :: Blocks(runs, i, lane, l, x, y)
  }

  lemma NamedReuse(runs: seq<StepRun>, i: nat, lane: seq<nat>, lanes: seq<string>, slot: nat)
    requires AllNamed(runs, i, lane, lanes) && slot < |lanes|
    ensures AllNamed(runs, i, lane + [slot], lanes)
  {
    forall l | 0 <= l < |lanes| ensures HasName(runs, i, lane + [slot], lanes, l) {
      assert HasName(runs, i, lane, lanes, l);
      var x :| NamesLane(runs, i, lane, lanes, l, x);
      assert NamesLane(runs, i, lane + [slot], lanes, l, x);
    }
  }

  lemma NamedOpen(runs: seq<StepRun>, i: nat, k: nat, lane: seq<nat>, lanes: seq<string>)
    requires AllNamed(runs, i, lane, lanes) && k == i + |lane| < |runs|
    requires forall x :: 0 <= x < |lane| ==> lane[x] < |lanes|
    ensures AllNamed(runs, i, lane + [|lanes|], lanes + [runs[k].id])
  {
    var more, names := lane + [|lanes|], lanes + [runs[k].id];
    forall l | 0 <= l < |names| ensures HasName(runs, i, more, names, l) {
      if l < |lanes| {
        assert HasName(runs, i, lane, lanes, l);
        var x :| NamesLane(runs, i, lane, lanes, l, x);
        assert NamesLane(runs, i, more, names, l, x);
      } else {
        assert NamesLane(runs, i, more, names, l, |lane|);
      }
    }
  }

  lemma StillFirstFit(runs: seq<StepRun>, i: nat, k: nat, lane: seq<nat>, last: seq<nat>, ends: seq<Time>, slot: nat)
    requires Assigned(runs, i, k, lane, last, ends) && FirstFit(runs, i, lane) && k < |runs| && slot <= |ends|
    requires forall l :: 0 <= l < slot ==> ends[l].None? || Before(runs[k].started, ends[l])
    ensures FirstFit(runs, i, lane + [slot])
  {
    hide LanesDisjoint;
    var more := lane + [slot];
    forall x, l | 0 <= x < |more| && 0 <= l < more[x] ensures Blocked(runs, i, more, l, x) {
      if x < |lane| {
        assert Blocked(runs, i, lane, l, x);
        var y :| Blocks(runs, i, lane, l, x, y);
        assert Blocks(runs, i, more, l, x, y);
      } else {
        assert Blocks(runs, i, more, l, x, last[l] - i);
      }
    }
  }

  /** The greedy assignment: the first lane whose last run is over, or a new one. Runs of one
      lane never overlap, and as many runs as there are lanes overlap pairwise. */
  method AssignLanes(runs: seq<StepRun>, i: nat, j: nat)
    returns (lane: seq<nat>, lanes: seq<string>, ghost clique: set<nat>)
    requires Sorted(runs) && i < j <= |runs|
    ensures |lane| == j - i && forall x :: 0 <= x < |lane| ==> lane[x] < |lanes|
    ensures LanesDisjoint(runs, i, lane)
    ensures Clique(runs, i, j, clique) && |clique| == |lanes|
    ensures Cluster(runs, i, j) && j - i > 1 ==> |lanes| >= 2
    ensures lanes != [] && lanes[0] == runs[i].id
    ensures AllNamed(runs, i, lane, lanes) && FirstFit(runs, i, lane)
  {
    hide AllNamed, FirstFit, Assigned, Clique, LanesDisjoint, Sorted, Before;
    lane, lanes, clique := [], [], {};
    var ends: seq<Time> := [];
    ghost var last: seq<nat> := [];
    NoneAssigned(runs, i);
    for k: nat := i to j
      invariant Assigned(runs, i, k, lane, last, ends) && |lanes| == |ends| == |last|
      invariant AllNamed(runs, i, lane, lanes) && FirstFit(runs, i, lane)
      invariant k == i ==> ends == []
      invariant k > i ==> lanes != [] && lanes[0] == runs[i].id
      invariant Clique(runs, i, k, clique) && |clique| == |lanes|
      invariant k == i + 1 ==> ends == [runs[i].finished]
      invariant Cluster(runs, i, j) && k > i + 1 ==> |lanes| >= 2
    {
      var slot := FirstFree(ends, runs[k].started);
      if k == i + 1 && Cluster(runs, i, j) { assert Joins(runs, i, k); }
      if slot < 0 {
        slot := |lanes|;
        StillFirstFit(runs, i, k, lane, last, ends, slot);
        AssignedLanes(runs, i, k, lane, last, ends);
        NamedOpen(runs, i, k, lane, lanes);
        BusyClique(runs, i, k, lane, last, ends);
        clique := Elements(last + [k]);
        OpenLane(runs, i, k, lane, last, ends);
        lanes := lanes + [runs[k].id];
        ends := ends + [runs[k].finished];
        last := last + [k];
      } else {
        StillFirstFit(runs, i, k, lane, last, ends, slot);
        NamedReuse(runs, i, lane, lanes, slot);
        CliqueKept(runs, i, k, clique);
        ReuseLane(runs, i, k, lane, last, ends, slot);
        ends := ends[slot := runs[k].finished];
        last := last[slot := k];
      }
      lane := lane + [slot];
    }
    AssignedLanes(runs, i, j, lane, last, ends);
  }

  method FirstFree(ends: seq<Time>, start: Time) returns (slot: int)
    ensures -1 <= slot < |ends|
    ensures slot >= 0 ==> ends[slot].At? && !Before(start, ends[slot])
    ensures forall l :: 0 <= l < (if slot < 0 then |ends| else slot) ==> ends[l].None? || Before(start, ends[l])
  {
    for l := 0 to |ends|
      invariant forall m :: 0 <= m < l ==> ends[m].None? || Before(start, ends[m])
    {
      if ends[l].At? && !Before(start, ends[l]) { return l; }
    }
    return -1;
  }

  /** No assignment whatsoever that keeps overlapping runs apart uses fewer lanes: any two
      members of the clique need lanes of their own. */
  lemma NoFewerLanes(runs: seq<StepRun>, i: nat, j: nat, clique: set<nat>, other: seq<nat>)
    requires i <= j <= |runs| && Clique(runs, i, j, clique)
    requires |other| == j - i && LanesDisjoint(runs, i, other)
    ensures |clique| <= |Elements(other)|
  {
    var used := CliqueColours(runs, i, j, clique, other);
    SubsetCard(used, Elements(other));
  }

  lemma OwnLane(runs: seq<StepRun>, i: nat, j: nat, clique: set<nat>, other: seq<nat>, a: nat, b: nat)
    requires i <= j <= |runs| && Clique(runs, i, j, clique) && |other| == j - i && LanesDisjoint(runs, i, other)
    requires a in clique && b in clique && a < b
    ensures other[a - i] != other[b - i]
  {
    assert Overlaps(runs, a, b);
    var x, y := a - i, b - i;
    assert other[x] == other[y] ==> !Overlaps(runs, i + x, i + y);
  }

  lemma {:induction false} CliqueColours(runs: seq<StepRun>, i: nat, j: nat, clique: set<nat>, other: seq<nat>)
    returns (used: set<nat>)
    requires i <= j <= |runs| && Clique(runs, i, j, clique)
    requires |other| == j - i && LanesDisjoint(runs, i, other)
    ensures used <= Elements(other) && |used| == |clique|
    ensures forall c :: c in used ==> exists a :: a in clique && other[a - i] == c
    decreases |clique|
  {
    hide LanesDisjoint, Overlaps;
    used := {};
    if clique != {} {
      var a :| a in clique;
      used := CliqueColours(runs, i, j, clique - {a}, other);
      forall b | b in clique - {a} ensures other[b - i] != other[a - i] {
        if a < b { OwnLane(runs, i, j, clique, other, a, b); } else { OwnLane(runs, i, j, clique, other, b, a); }
      }
      used := used + {other[a - i]};
    }
  }

  // ---------- Grouping all runs ----------

  ghost predicate UniqueIds(runs: seq<StepRun>) {
    forall i, j :: 0 <= i < j < |runs| ==> runs[i].id != runs[j].id
  }

  /** The two maps the rows are built from: the lanes of a run's cluster, and its own lane. */
  datatype Layout = Layout(groups: map<string, seq<string>>, laneIndexes: map<string, nat>)

  /** Two overlapping runs sit side by side in one group. */
  ghost predicate SideBySide(layout: Layout, a: StepRun, b: StepRun) {
    && a.id in layout.groups && b.id in layout.groups && layout.groups[a.id] == layout.groups[b.id]
    && a.id in layout.laneIndexes && b.id in layout.laneIndexes && layout.laneIndexes[a.id] != layout.laneIndexes[b.id]
  }

  ghost predicate FromFirst(runs: seq<StepRun>, i: nat, x: string)
    requires i <= |runs|
  {
    exists k :: 0 <= k < i && runs[k].id == x
  }

  /** Groups and lanes are known for some of the first `i` runs only. */
  ghost predicate Covers(runs: seq<StepRun>, i: nat, layout: Layout)
    requires i <= |runs|
  {
    && (forall x :: x in layout.groups || x in layout.laneIndexes ==> FromFirst(runs, i, x))
    && (forall x :: x in layout.groups ==> layout.groups[x] != [] && FromFirst(runs, i, layout.groups[x][0]))
  }

  /** A group has at least two lanes, and each of its runs one of them. */
  ghost predicate WellSized(layout: Layout) {
    forall x :: x in layout.groups ==> |layout.groups[x]| >= 2 && x in layout.laneIndexes && layout.laneIndexes[x] < |layout.groups[x]|
  }

  /** Groups are told apart by their first lane. */
  ghost predicate GroupsDistinct(layout: Layout) {
    forall x, y :: x in layout.groups && y in layout.groups && SameHead(layout, x, y) ==> layout.groups[x] == layout.groups[y]
  }

  ghost predicate SameHead(layout: Layout, x: string, y: string)
    requires x in layout.groups && y in layout.groups
  {
    layout.groups[x] != [] && layout.groups[y] != [] && layout.groups[x][0] == layout.groups[y][0]
  }

  ghost predicate Splits(runs: seq<StepRun>, i: nat, layout: Layout)
    requires i <= |runs|
  {
    forall a, b :: 0 <= a < b < i && runs[a].started.At? && Overlaps(runs, a, b) ==> SideBySide(layout, runs[a], runs[b])
  }

  ghost predicate ApartFromRest(runs: seq<StepRun>, i: nat)
    requires i <= |runs|
  {
    forall a, b :: 0 <= a < i <= b < |runs| && runs[a].started.At? ==> !Overlaps(runs, a, b)
  }

  ghost predicate LaidOut(runs: seq<StepRun>, i: nat, layout: Layout)
    requires i <= |runs|
  {
    && Covers(runs, i, layout) && WellSized(layout) && GroupsDistinct(layout) && Splits(runs, i, layout) && ApartFromRest(runs, i)
    && Needed(runs, layout) && Named(runs, layout) && Greedy(runs, layout)
  }

  /** The run at `m` is the first in lane `l` of a group, and gives the lane its name. */
  ghost predicate Names(runs: seq<StepRun>, layout: Layout, lanes: seq<string>, l: nat, m: nat) {
    && m < |runs| && l < |lanes| && runs[m].id == lanes[l] && PutInLane(layout, lanes[l], lanes, l)
    && forall o :: 0 <= o < m ==> !PutInLane(layout, runs[o].id, lanes, l)
  }

  ghost predicate HasFirst(runs: seq<StepRun>, layout: Layout, lanes: seq<string>, l: nat) {
    exists m :: Names(runs, layout, lanes, l, m)
  }

  /** Every lane is named by the first run in it. */
  ghost predicate Named(runs: seq<StepRun>, layout: Layout) {
    forall x, l :: x in layout.groups && 0 <= l < |layout.groups[x]| ==> HasFirst(runs, layout, layout.groups[x], l)
  }

  /** In lane `l` of its group an earlier run overlaps the run at `k`. */
  ghost predicate Taken(runs: seq<StepRun>, layout: Layout, k: nat, l: nat, m: nat) {
    && m < k < |runs| && runs[k].id in layout.groups && PutInLane(layout, runs[m].id, layout.groups[runs[k].id], l)
    && Overlaps(runs, m, k)
  }

  ghost predicate TakenBefore(runs: seq<StepRun>, layout: Layout, k: nat, l: nat) {
    exists m :: Taken(runs, layout, k, l, m)
  }

  /** Every run is in the first lane free for it. */
  ghost predicate Greedy(runs: seq<StepRun>, layout: Layout) {
    forall k, l ::
      0 <= k < |runs| && runs[k].id in layout.groups && runs[k].id in layout.laneIndexes && 0 <= l < layout.laneIndexes[runs[k].id] ==>
      TakenBefore(runs, layout, k, l)
  }

  /** So many runs overlap pairwise. */
  ghost predicate Crowd(runs: seq<StepRun>, n: nat) {
    exists clique: set<nat> :: Clique(runs, 0, |runs|, clique) && |clique| == n
  }

  ghost predicate OverlapsSome(runs: seq<StepRun>, x: string) {
    exists a, b :: 0 <= a < b < |runs| && runs[a].started.At? && Overlaps(runs, a, b) && x in {runs[a].id, runs[b].id}
  }

  /** Only runs that overlap another are put in groups, and no group has more lanes than runs
      that overlap pairwise. */
  ghost predicate Needed(runs: seq<StepRun>, layout: Layout) {
    forall x :: x in layout.groups ==> Crowd(runs, |layout.groups[x]|) && OverlapsSome(runs, x)
  }

  lemma {:induction false} EndAttained(runs: seq<StepRun>, i: nat, j: nat) returns (k: nat)
    requires i < j <= |runs|
    ensures i <= k < j && runs[k].finished == ClusterEnd(runs, i, j)
  {
    if j == i + 1 {
      k := i;
    } else {
      k := EndAttained(runs, i, j - 1);
      if runs[j - 1].finished == ClusterEnd(runs, i, j) { k := j - 1; }
    }
  }

  /** In a cluster of two or more runs each overlaps another. */
  lemma ClusterCrowded(runs: seq<StepRun>, i: nat, j: nat, m: nat)
    requires Sorted(runs) && Cluster(runs, i, j) && i <= m < j && j - i > 1
    ensures OverlapsSome(runs, runs[m].id)
  {
    if m == i {
      assert Joins(runs, i, i + 1);
      assert Overlaps(runs, i, i + 1);
    } else {
      assert Joins(runs, i, m);
      var a := EndAttained(runs, i, m);
      assert i < a ==> !Before(runs[a].started, runs[i].started);
      assert Overlaps(runs, a, m);
    }
  }

  lemma AddsNeeded(runs: seq<StepRun>, i: nat, j: nat, before: Layout, layout: Layout, lane: seq<nat>,
                   lanes: seq<string>, clique: set<nat>)
    requires Sorted(runs) && Cluster(runs, i, j) && j - i > 1 && |lane| == j - i
    requires Clique(runs, i, j, clique) && |clique| == |lanes| && Needed(runs, before)
    requires Adds(runs, i, j, before, layout, lane, lanes)
    ensures Needed(runs, layout)
  {
    ClusterBounds(runs, i, j);
    hide Sorted, Cluster, OverlapsSome, OnlyStretch, Extends;
    assert Clique(runs, 0, |runs|, clique);
    assert Crowd(runs, |lanes|);
    forall x | x in layout.groups ensures Crowd(runs, |layout.groups[x]|) && OverlapsSome(runs, x) {
      hide Crowd, Clique;
      if x in before.groups {
        assert layout.groups[x] == before.groups[x] by { ExtendsAt(before.groups, layout.groups, x); }
      } else {
        var m := StretchMember(runs, i, j, before, layout, x);
        assert PutInLane(layout, runs[m].id, lanes, lane[m - i]);
        ClusterCrowded(runs, i, j, m);
      }
    }
  }

  lemma ExtendsAt<V>(before: map<string, V>, m: map<string, V>, x: string)
    requires Extends(before, m) && x in before
    ensures x in m && m[x] == before[x]
  {
  }

  lemma StretchMember(runs: seq<StepRun>, i: nat, k: nat, before: Layout, layout: Layout, x: string) returns (m: nat)
    requires i <= k <= |runs| && OnlyStretch(runs, i, k, before, layout) && x in layout.groups && x !in before.groups
    ensures i <= m < k && runs[m].id == x
  {
    m :| i <= m < k && runs[m].id == x;
  }

  /** `layout` adds the runs of a stretch to `before`, all in one group. */
  ghost predicate Adds(runs: seq<StepRun>, i: nat, k: nat, before: Layout, layout: Layout, lane: seq<nat>,
                       lanes: seq<string>)
    requires i <= k <= |runs| && k - i <= |lane|
  {
    && (forall m :: i <= m < k ==> PutInLane(layout, runs[m].id, lanes, lane[m - i]))
    && Extends(before.groups, layout.groups) && Extends(before.laneIndexes, layout.laneIndexes)
    && OnlyStretch(runs, i, k, before, layout)
  }

  ghost predicate PutInLane(layout: Layout, id: string, lanes: seq<string>, lane: nat) {
    id in layout.groups && id in layout.laneIndexes && layout.groups[id] == lanes && layout.laneIndexes[id] == lane
  }

  ghost predicate Extends<V>(before: map<string, V>, m: map<string, V>) {
    forall x :: x in before ==> x in m && m[x] == before[x]
  }

  ghost predicate OnlyStretch(runs: seq<StepRun>, i: nat, k: nat, before: Layout, layout: Layout)
    requires i <= k <= |runs|
  {
    && (forall x :: x in layout.groups ==> x in before.groups || InStretch(runs, i, k, x))
    && (forall x :: x in layout.laneIndexes ==> x in before.laneIndexes || InStretch(runs, i, k, x))
  }

  ghost predicate InStretch(runs: seq<StepRun>, i: nat, k: nat, x: string)
    requires i <= k <= |runs|
  {
    exists m :: i <= m < k && runs[m].id == x
  }

  lemma AddOne(runs: seq<StepRun>, i: nat, k: nat, before: Layout, layout: Layout, lane: seq<nat>, lanes: seq<string>)
    requires i <= k < |runs| && k - i < |lane| && UniqueIds(runs)
    requires Covers(runs, i, before) && Adds(runs, i, k, before, layout, lane, lanes)
    ensures Adds(runs, i, k + 1, before,
                 Layout(layout.groups[runs[k].id := lanes], layout.laneIndexes[runs[k].id := lane[k - i]]), lane, lanes)
  {
    hide InStretch, Extends, OnlyStretch, UniqueIds, Covers, FromFirst;
    var id := runs[k].id;
    var more := Layout(layout.groups[id := lanes], layout.laneIndexes[id := lane[k - i]]);
    IdsDiffer(runs, k);
    NotCovered(runs, i, k, before);
    StillExtends(before.groups, layout.groups, id, lanes);
    StillExtends(before.laneIndexes, layout.laneIndexes, id, lane[k - i]);
    StretchOneMore(runs, i, k, before, layout, more);
    forall m | i <= m < k + 1 ensures PutInLane(more, runs[m].id, lanes, lane[m - i]) {
      if m < k { assert PutInLane(layout, runs[m].id, lanes, lane[m - i]); }
    }
  }

  lemma NotCovered(runs: seq<StepRun>, i: nat, k: nat, before: Layout)
    requires i <= k < |runs| && UniqueIds(runs) && Covers(runs, i, before)
    ensures runs[k].id !in before.groups && runs[k].id !in before.laneIndexes
  {
    assert !FromFirst(runs, i, runs[k].id);
  }

  lemma StillExtends<V>(before: map<string, V>, m: map<string, V>, id: string, v: V)
    requires Extends(before, m) && id !in before
    ensures Extends(before, m[id := v])
  {
  }

  lemma StretchOneMore(runs: seq<StepRun>, i: nat, k: nat, before: Layout, layout: Layout, more: Layout)
    requires i <= k < |runs| && OnlyStretch(runs, i, k, before, layout)
    requires more.groups.Keys == layout.groups.Keys + {runs[k].id}
    requires more.laneIndexes.Keys == layout.laneIndexes.Keys + {runs[k].id}
    ensures OnlyStretch(runs, i, k + 1, before, more)
  {
    StretchGrows(runs, i, k);
    hide InStretch;
  }

  lemma IdsDiffer(runs: seq<StepRun>, k: nat)
    requires k < |runs| && UniqueIds(runs)
    ensures forall m :: 0 <= m < k ==> runs[m].id != runs[k].id
  {
  }

  lemma StretchGrows(runs: seq<StepRun>, i: nat, k: nat)
    requires i <= k < |runs|
    ensures forall x :: InStretch(runs, i, k, x) ==> InStretch(runs, i, k + 1, x)
    ensures InStretch(runs, i, k + 1, runs[k].id)
  {
    forall x | InStretch(runs, i, k, x) ensures InStretch(runs, i, k + 1, x) {
      var m :| i <= m < k && runs[m].id == x;
      assert runs[m].id == x;
    }
    assert runs[k].id == runs[k].id;
  }

  /** An earlier run was put in a group before, or not at all; never in the group that is added. */
  lemma EarlierKept(runs: seq<StepRun>, i: nat, j: nat, before: Layout, layout: Layout, lane: seq<nat>,
                    lanes: seq<string>, m: nat)
    requires m < i < j <= |runs| && |lane| == j - i && UniqueIds(runs) && Covers(runs, i, before)
    requires lanes != [] && lanes[0] == runs[i].id && Adds(runs, i, j, before, layout, lane, lanes)
    ensures var id := runs[m].id;
            id in layout.groups ==> id in before.groups && before.groups[id] == layout.groups[id] != lanes
    ensures runs[m].id in layout.laneIndexes ==> runs[m].id in before.laneIndexes
  {
    hide SideBySide;
    var id := runs[m].id;
    assert !InStretch(runs, i, j, id);
    assert !FromFirst(runs, i, lanes[0]);
  }

  /** A name given before stays the name. */
  lemma NameKept(runs: seq<StepRun>, i: nat, j: nat, before: Layout, layout: Layout, lane: seq<nat>,
                 lanes: seq<string>, given: seq<string>, l: nat, m: nat)
    requires i < j <= |runs| && |lane| == j - i && UniqueIds(runs) && Covers(runs, i, before)
    requires lanes != [] && lanes[0] == runs[i].id && Adds(runs, i, j, before, layout, lane, lanes)
    requires Names(runs, before, given, l, m)
    ensures Names(runs, layout, given, l, m)
  {
    hide UniqueIds, OnlyStretch;
    assert m < i by { NameCovered(runs, i, before, given, l, m); }
    forall o | 0 <= o < m ensures !PutInLane(layout, runs[o].id, given, l) {
      assert !PutInLane(before, runs[o].id, given, l);
      EarlierKept(runs, i, j, before, layout, lane, lanes, o);
      hide Covers, Adds;
    }
  }

  lemma NameCovered(runs: seq<StepRun>, i: nat, before: Layout, given: seq<string>, l: nat, m: nat)
    requires i <= |runs| && UniqueIds(runs) && Covers(runs, i, before) && Names(runs, before, given, l, m)
    ensures m < i
  {
    assert FromFirst(runs, i, runs[m].id);
  }

  lemma AddsNamed(runs: seq<StepRun>, i: nat, j: nat, before: Layout, layout: Layout, lane: seq<nat>, lanes: seq<string>)
    requires i < j <= |runs| && |lane| == j - i && UniqueIds(runs) && Covers(runs, i, before)
    requires lanes != [] && lanes[0] == runs[i].id && Adds(runs, i, j, before, layout, lane, lanes)
    requires Named(runs, before) && AllNamed(runs, i, lane, lanes)
    ensures Named(runs, layout)
  {
    hide UniqueIds, Covers, Names, NamesLane, Extends, OnlyStretch;
    forall x, l | x in layout.groups && 0 <= l < |layout.groups[x]| ensures HasFirst(runs, layout, layout.groups[x], l) {
      if x in before.groups {
        ExtendsAt(before.groups, layout.groups, x);
        assert HasFirst(runs, before, before.groups[x], l);
        var m :| Names(runs, before, before.groups[x], l, m);
        NameKept(runs, i, j, before, layout, lane, lanes, before.groups[x], l, m);
      } else {
        var s := StretchMember(runs, i, j, before, layout, x);
        assert PutInLane(layout, runs[s].id, lanes, lane[s - i]);
        assert HasName(runs, i, lane, lanes, l);
        var y :| NamesLane(runs, i, lane, lanes, l, y);
        NameGiven(runs, i, j, before, layout, lane, lanes, l, y);
      }
    }
  }

  lemma NameGiven(runs: seq<StepRun>, i: nat, j: nat, before: Layout, layout: Layout, lane: seq<nat>, lanes: seq<string>,
                  l: nat, y: nat)
    requires i < j <= |runs| && |lane| == j - i && UniqueIds(runs) && Covers(runs, i, before)
    requires lanes != [] && lanes[0] == runs[i].id && Adds(runs, i, j, before, layout, lane, lanes)
    requires NamesLane(runs, i, lane, lanes, l, y)
    ensures Names(runs, layout, lanes, l, i + y)
  {
    hide UniqueIds, Covers, Extends, OnlyStretch;
    assert PutInLane(layout, runs[i + y].id, lanes, lane[i + y - i]);
    forall o | 0 <= o < i + y ensures !PutInLane(layout, runs[o].id, lanes, l) {
      if o < i {
        EarlierKept(runs, i, j, before, layout, lane, lanes, o);
      } else {
        assert PutInLane(layout, runs[o].id, lanes, lane[o - i]);
      }
    }
  }

  lemma AddsGreedy(runs: seq<StepRun>, i: nat, j: nat, before: Layout, layout: Layout, lane: seq<nat>, lanes: seq<string>)
    requires i < j <= |runs| && |lane| == j - i && UniqueIds(runs) && Covers(runs, i, before)
    requires lanes != [] && lanes[0] == runs[i].id && Adds(runs, i, j, before, layout, lane, lanes)
    requires Greedy(runs, before) && FirstFit(runs, i, lane)
    ensures Greedy(runs, layout)
  {
    hide UniqueIds, Covers, Adds, FirstFit, Overlaps;
    forall k, l | 0 <= k < |runs| && runs[k].id in layout.groups && runs[k].id in layout.laneIndexes &&
                  0 <= l < layout.laneIndexes[runs[k].id] ensures TakenBefore(runs, layout, k, l)
    {
      if k < i {
        TakenStill(runs, i, j, before, layout, lane, lanes, k, l);
      } else if k < j {
        TakenInStretch(runs, i, j, before, layout, lane, lanes, k, l);
      } else {
        NotYet(runs, i, j, before, layout, lane, lanes, k);
      }
    }
  }

  lemma TakenStill(runs: seq<StepRun>, i: nat, j: nat, before: Layout, layout: Layout, lane: seq<nat>, lanes: seq<string>,
                   k: nat, l: nat)
    requires i < j <= |runs| && |lane| == j - i && UniqueIds(runs) && Covers(runs, i, before)
    requires lanes != [] && lanes[0] == runs[i].id && Adds(runs, i, j, before, layout, lane, lanes) && Greedy(runs, before)
    requires k < i && runs[k].id in layout.groups && runs[k].id in layout.laneIndexes && l < layout.laneIndexes[runs[k].id]
    ensures TakenBefore(runs, layout, k, l)
  {
    hide UniqueIds, Covers, Overlaps, OnlyStretch;
    EarlierKept(runs, i, j, before, layout, lane, lanes, k);
    assert TakenBefore(runs, before, k, l);
    var m :| Taken(runs, before, k, l, m);
    assert Taken(runs, layout, k, l, m);
  }

  lemma TakenInStretch(runs: seq<StepRun>, i: nat, j: nat, before: Layout, layout: Layout, lane: seq<nat>,
                       lanes: seq<string>, k: nat, l: nat)
    requires i <= k < j <= |runs| && |lane| == j - i && FirstFit(runs, i, lane)
    requires Adds(runs, i, j, before, layout, lane, lanes)
    requires runs[k].id in layout.laneIndexes && l < layout.laneIndexes[runs[k].id]
    ensures TakenBefore(runs, layout, k, l)
  {
    hide Overlaps, OnlyStretch, Extends;
    assert PutInLane(layout, runs[k].id, lanes, lane[k - i]);
    assert Blocked(runs, i, lane, l, k - i);
    var y :| Blocks(runs, i, lane, l, k - i, y);
    assert PutInLane(layout, runs[i + y].id, lanes, lane[i + y - i]);
    assert Taken(runs, layout, k, l, i + y);
  }

  lemma NotYet(runs: seq<StepRun>, i: nat, j: nat, before: Layout, layout: Layout, lane: seq<nat>, lanes: seq<string>, k: nat)
    requires i < j <= k < |runs| && |lane| == j - i && UniqueIds(runs) && Covers(runs, i, before)
    requires Adds(runs, i, j, before, layout, lane, lanes)
    ensures runs[k].id !in layout.groups
  {
    hide Extends;
    assert !FromFirst(runs, i, runs[k].id) && !InStretch(runs, i, j, runs[k].id);
  }

  method GroupCluster(runs: seq<StepRun>, i: nat, j: nat, before: Layout) returns (layout: Layout)
    requires Sorted(runs) && UniqueIds(runs) && Cluster(runs, i, j) && LaidOut(runs, i, before)
    ensures LaidOut(runs, j, layout)
  {
    layout := before;
    if j - i > 1 {
      hide Sorted, UniqueIds, Cluster, LanesDisjoint, Adds, Clique, WellSized, GroupsDistinct, Splits, ApartFromRest,
           Covers, Needed, Named, Greedy, AllNamed, FirstFit;
      assert i < j <= |runs| by { ClusterBounds(runs, i, j); }
      var lane, lanes;
      ghost var clique;
      lane, lanes, clique := AssignLanes(runs, i, j);
      NothingAdded(runs, i, before, lane, lanes);
      for k: nat := i to j
        invariant Adds(runs, i, k, before, layout, lane, lanes)
      {
        AddOne(runs, i, k, before, layout, lane, lanes);
        layout := Layout(layout.groups[runs[k].id := lanes], layout.laneIndexes[runs[k].id := lane[k - i]]);
      }
      ClusterLaidOut(runs, i, j, before, layout, lane, lanes, clique);
    } else {
      ClusterAlone(runs, i, j, layout);
    }
  }

  lemma ClusterBounds(runs: seq<StepRun>, i: nat, j: nat)
    requires Cluster(runs, i, j)
    ensures i < j <= |runs|
  {
  }

  lemma NothingAdded(runs: seq<StepRun>, i: nat, before: Layout, lane: seq<nat>, lanes: seq<string>)
    requires i <= |runs|
    ensures Adds(runs, i, i, before, before, lane, lanes)
  {
  }

  lemma ClusterAlone(runs: seq<StepRun>, i: nat, j: nat, layout: Layout)
    requires Sorted(runs) && Cluster(runs, i, j) && LaidOut(runs, i, layout) && j - i <= 1
    ensures LaidOut(runs, j, layout)
  {
    forall b | j <= b < |runs| ensures !Overlaps(runs, i, b) { ClustersApart(runs, i, j, i, b); }
    forall x | FromFirst(runs, i, x) ensures FromFirst(runs, j, x) {}
  }

  lemma ClusterLaidOut(runs: seq<StepRun>, i: nat, j: nat, before: Layout, layout: Layout, lane: seq<nat>,
                       lanes: seq<string>, clique: set<nat>)
    requires Sorted(runs) && UniqueIds(runs) && Cluster(runs, i, j) && LaidOut(runs, i, before)
    requires |lanes| >= 2 && lanes[0] == runs[i].id && j - i > 1 && Clique(runs, i, j, clique) && |clique| == |lanes|
    requires |lane| == j - i && LanesDisjoint(runs, i, lane) && forall x :: 0 <= x < |lane| ==> lane[x] < |lanes|
    requires Adds(runs, i, j, before, layout, lane, lanes) && AllNamed(runs, i, lane, lanes) && FirstFit(runs, i, lane)
    ensures LaidOut(runs, j, layout)
  {
    ClusterBounds(runs, i, j);
    hide Sorted, UniqueIds, Cluster, LanesDisjoint, Adds, Clique, WellSized, GroupsDistinct, Splits, ApartFromRest,
         Covers, Needed, Named, Greedy, AllNamed, FirstFit;
    AddsNamed(runs, i, j, before, layout, lane, lanes);
    AddsGreedy(runs, i, j, before, layout, lane, lanes);
    AddsCovers(runs, i, j, before, layout, lane, lanes);
    AddsSized(runs, i, j, before, layout, lane, lanes);
    AddsDistinct(runs, i, j, before, layout, lane, lanes);
    AddsNeeded(runs, i, j, before, layout, lane, lanes, clique);
    AddsSplits(runs, i, j, before, layout, lane, lanes);
    ClusterApart(runs, i, j);
  }

  lemma AddsSplits(runs: seq<StepRun>, i: nat, j: nat, before: Layout, layout: Layout, lane: seq<nat>,
                   lanes: seq<string>)
    requires i < j <= |runs| && Splits(runs, i, before) && ApartFromRest(runs, i)
    requires |lane| == j - i && LanesDisjoint(runs, i, lane) && Adds(runs, i, j, before, layout, lane, lanes)
    ensures Splits(runs, j, layout)
  {
    hide OnlyStretch;
    forall a, b | 0 <= a < b < j && runs[a].started.At? && Overlaps(runs, a, b) ensures SideBySide(layout, runs[a], runs[b]) {
      if a < i {
        assert b < i;
        assert SideBySide(before, runs[a], runs[b]);
      } else {
        var x, y := a - i, b - i;
        assert lane[x] == lane[y] ==> !Overlaps(runs, i + x, i + y);
      }
    }
  }

  lemma ClusterApart(runs: seq<StepRun>, i: nat, j: nat)
    requires Sorted(runs) && Cluster(runs, i, j) && i <= |runs| && ApartFromRest(runs, i)
    ensures j <= |runs| && ApartFromRest(runs, j)
  {
    hide Sorted;
    forall a, b | 0 <= a < j <= b < |runs| && runs[a].started.At? ensures !Overlaps(runs, a, b) {
      if a >= i { ClustersApart(runs, i, j, a, b); }
    }
  }

  lemma AddsCovers(runs: seq<StepRun>, i: nat, j: nat, before: Layout, layout: Layout, lane: seq<nat>,
                   lanes: seq<string>)
    requires i < j <= |runs| && j - i <= |lane| && Covers(runs, i, before) && lanes != [] && lanes[0] == runs[i].id
    requires Adds(runs, i, j, before, layout, lane, lanes)
    ensures Covers(runs, j, layout)
  {
    forall x | FromFirst(runs, i, x) || InStretch(runs, i, j, x) ensures FromFirst(runs, j, x) {}
    assert FromFirst(runs, j, lanes[0]);
  }

  lemma AddsSized(runs: seq<StepRun>, i: nat, j: nat, before: Layout, layout: Layout, lane: seq<nat>,
                  lanes: seq<string>)
    requires i < j <= |runs| && |lane| == j - i && WellSized(before) && |lanes| >= 2
    requires forall x :: 0 <= x < |lane| ==> lane[x] < |lanes|
    requires Adds(runs, i, j, before, layout, lane, lanes)
    ensures WellSized(layout)
  {
  }

  lemma AddsDistinct(runs: seq<StepRun>, i: nat, j: nat, before: Layout, layout: Layout, lane: seq<nat>,
                     lanes: seq<string>)
    requires i < j <= |runs| && j - i <= |lane| && UniqueIds(runs) && Covers(runs, i, before) && GroupsDistinct(before)
    requires lanes != [] && lanes[0] == runs[i].id && Adds(runs, i, j, before, layout, lane, lanes)
    ensures GroupsDistinct(layout)
  {
    assert !FromFirst(runs, i, lanes[0]);
    forall x, y | x in layout.groups && y in layout.groups && SameHead(layout, x, y)
      ensures layout.groups[x] == layout.groups[y]
    {
      if x in before.groups && y in before.groups { assert SameHead(before, x, y); }
    }
  }

  /** Whatever two runs overlap are shown side by side in different lanes of one group; only
      such runs are in groups, and no group has a lane too many. */
  method GroupRuns(runs: seq<StepRun>) returns (layout: Layout)
    requires Sorted(runs) && UniqueIds(runs)
    ensures LaidOut(runs, |runs|, layout)
  {
    layout := Layout(map[], map[]);
    var i := 0;
    while i < |runs|
      invariant i <= |runs| && LaidOut(runs, i, layout)
    {
      if runs[i].started.None? {
        AllUnstarted(runs, i);
        i := i + 1;
      } else {
        var j := FindCluster(runs, i);
        layout := GroupCluster(runs, i, j, layout);
        i := j;
      }
    }
  }

  lemma AllUnstarted(runs: seq<StepRun>, i: nat)
    requires Sorted(runs) && i < |runs| && runs[i].started.None?
    ensures forall a :: 0 <= a < i ==> runs[a].started.None?
  {
    forall a | 0 <= a < i ensures runs[a].started.None? { assert !Before(runs[i].started, runs[a].started); }
  }
}
