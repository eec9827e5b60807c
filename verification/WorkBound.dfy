/** Automatic execution is bounded: a potential falls with every execution, so between two
    human interventions only finitely many steps can run, under every interleaving. */
module WorkBound {
  import opened Graph
  import opened Validation
  import opened Engine
  import opened Ordering
  import opened Scheduler
  import opened Collections
  import Text

  /** No step has used up its failures while the run goes on ... */
  ghost predicate FailuresLeft(def: Definition, run: Run) {
    forall x :: x in StepIds(def) ==> HasAttempts(def, run, x) || (StatusOf(run, x) == Paused && run.status == RunPaused)
  }

  predicate HasAttempts(def: Definition, run: Run, x: Id) {
    NodeOf(run, x).failures < def.policy.maxConsecutiveFailures
  }

  /** ... and no edge is over its limit. */
  ghost predicate RoundsWithin(def: Definition, run: Run) {
    forall e :: e in def.edges && e.kind.Rework? ==> RoundsOn(run, e) <= Limit(def, e)
  }

  function RoundsOn(run: Run, e: Edge): nat {
    Rounds(run, EdgeKey(e.from, e.to))
  }

  ghost predicate WithinLimits(def: Definition, s: Sched) {
    Shape(def, s) && FailuresLeft(def, s.run) && RoundsWithin(def, s.run)
  }

  // ---------- The potential ----------

  function Credit(def: Definition, run: Run, x: Id): nat {
    var f := NodeOf(run, x).failures;
    if Unfinished(run, x) && f < def.policy.maxConsecutiveFailures then def.policy.maxConsecutiveFailures - f else 0
  }

  function Credits(def: Definition, run: Run, steps: seq<Step>): nat {
    if steps == [] then 0 else Credits(def, run, steps[..|steps| - 1]) + Credit(def, run, steps[|steps| - 1].id)
  }

  function LeftOn(def: Definition, run: Run, e: Edge): nat {
    var r := RoundsOn(run, e);
    if e.kind.Rework? && r < Limit(def, e) then Limit(def, e) - r else 0
  }

  function RoundsLeft(def: Definition, run: Run, edges: seq<Edge>): nat {
    if edges == [] then 0 else RoundsLeft(def, run, edges[..|edges| - 1]) + LeftOn(def, run, edges[|edges| - 1])
  }

  /** The sum of all rework limits. */
  function AllRounds(def: Definition, edges: seq<Edge>): nat {
    if edges == [] then 0 else
      var e := edges[|edges| - 1];
      AllRounds(def, edges[..|edges| - 1]) + if e.kind.Rework? && Limit(def, e) > 0 then Limit(def, e) else 0
  }

  /** Attempts every step may use between two reworks. */
  function Batch(def: Definition): nat {
    if def.policy.maxConsecutiveFailures > 0 then |def.steps| * def.policy.maxConsecutiveFailures else 0
  }

  function Potential(def: Definition, run: Run): nat {
    RoundsLeft(def, run, def.edges) * Batch(def) + Credits(def, run, def.steps)
  }

  /** steps x failure limit x (1 + sum of the rework limits) */
  function Cap(def: Definition): nat {
    Batch(def) * (1 + AllRounds(def, def.edges))
  }

  lemma {:induction false} CreditsMonotone(def: Definition, a: Run, b: Run, steps: seq<Step>)
    requires forall s :: s in steps ==> Credit(def, b, s.id) <= Credit(def, a, s.id)
    ensures Credits(def, b, steps) <= Credits(def, a, steps)
    ensures (exists s :: s in steps && Credit(def, b, s.id) < Credit(def, a, s.id)) ==>
            Credits(def, b, steps) < Credits(def, a, steps)
  {
    if steps != [] {
      var n := |steps| - 1;
      assert steps == steps[..n] + [steps[n]];
      CreditsMonotone(def, a, b, steps[..n]);
    }
  }

  lemma {:induction false} CreditsBounded(def: Definition, run: Run, steps: seq<Step>)
    requires def.policy.maxConsecutiveFailures >= 1
    ensures Credits(def, run, steps) <= |steps| * def.policy.maxConsecutiveFailures
  {
    if steps != [] {
      var n, limit := |steps| - 1, def.policy.maxConsecutiveFailures;
      CreditsBounded(def, run, steps[..n]);
      assert Credit(def, run, steps[n].id) <= limit;
      hide Credit;
      assert |steps| * limit == n * limit + limit;
    }
  }

  lemma {:induction false} RoundsLeftMonotone(def: Definition, a: Run, b: Run, edges: seq<Edge>)
    requires forall e :: e in edges ==> LeftOn(def, b, e) <= LeftOn(def, a, e)
    ensures RoundsLeft(def, b, edges) <= RoundsLeft(def, a, edges)
    ensures (exists e :: e in edges && LeftOn(def, b, e) < LeftOn(def, a, e)) ==>
            RoundsLeft(def, b, edges) < RoundsLeft(def, a, edges)
  {
    if edges != [] {
      var n := |edges| - 1;
      assert edges == edges[..n] + [edges[n]];
      RoundsLeftMonotone(def, a, b, edges[..n]);
    }
  }

  lemma {:induction false} RoundsLeftBounded(def: Definition, run: Run, edges: seq<Edge>)
    ensures RoundsLeft(def, run, edges) <= AllRounds(def, edges)
  {
    if edges != [] { RoundsLeftBounded(def, run, edges[..|edges| - 1]); }
  }

  lemma PotentialBounded(def: Definition, run: Run)
    requires Valid(def)
    ensures Potential(def, run) <= Cap(def)
  {
    CreditsBounded(def, run, def.steps);
    RoundsLeftBounded(def, run, def.edges);
    CapArithmetic(RoundsLeft(def, run, def.edges), AllRounds(def, def.edges), Batch(def), Credits(def, run, def.steps));
  }

  lemma CapArithmetic(a: nat, b: nat, k: nat, c: nat)
    requires a <= b && c <= k
    ensures a * k + c <= k * (1 + b)
  {
    Scale(a, b, k);
    assert k * (1 + b) == k + b * k;
  }

  lemma Scale(a: nat, b: nat, k: nat)
    requires a <= b
    ensures a * k <= b * k
    ensures a < b ==> a * k + k <= b * k
  {
    if a < b { assert (a + 1) * k <= b * k; assert (a + 1) * k == a * k + k; }
  }

  /** An execution that leaves the counters alone and takes credit from one step only. */
  lemma PotentialFalls(def: Definition, a: Run, b: Run, id: Id)
    requires id in StepIds(def) && a.reworkRounds == b.reworkRounds
    requires forall x :: x in StepIds(def) && x != id ==> Credit(def, b, x) == Credit(def, a, x)
    requires Credit(def, b, id) < Credit(def, a, id)
    ensures Potential(def, b) < Potential(def, a)
  {
    var s :| s in def.steps && s.id == id;
    CreditsMonotone(def, a, b, def.steps);
    RoundsLeftSame(def, a, b, def.edges);
  }

  lemma {:induction false} RoundsLeftSame(def: Definition, a: Run, b: Run, edges: seq<Edge>)
    requires a.reworkRounds == b.reworkRounds
    ensures RoundsLeft(def, a, edges) == RoundsLeft(def, b, edges)
  {
    if edges != [] { RoundsLeftSame(def, a, b, edges[..|edges| - 1]); }
  }

  /** A granted rework spends a round, which pays for every attempt it gives back. */
  lemma PotentialFallsOnRework(def: Definition, a: Run, b: Run, edge: Edge, id: Id)
    requires Valid(def) && edge in def.edges && LeftOn(def, b, edge) < LeftOn(def, a, edge)
    requires forall e :: e in def.edges ==> LeftOn(def, b, e) <= LeftOn(def, a, e)
    requires id in StepIds(def) && Credit(def, a, id) > 0
    ensures Potential(def, b) < Potential(def, a)
  {
    RoundsLeftMonotone(def, a, b, def.edges);
    Scale(RoundsLeft(def, b, def.edges), RoundsLeft(def, a, def.edges), Batch(def));
    CreditsBounded(def, b, def.steps);
    var s :| s in def.steps && s.id == id;
    CreditsPositive(def, a, def.steps, s);
  }

  lemma {:induction false} CreditsPositive(def: Definition, run: Run, steps: seq<Step>, s: Step)
    requires s in steps && Credit(def, run, s.id) > 0
    ensures Credits(def, run, steps) > 0
  {
    var n := |steps| - 1;
    assert steps == steps[..n] + [steps[n]];
    if s in steps[..n] { CreditsPositive(def, run, steps[..n], s); }
  }

  // ---------- Every automatic event ----------

  /** Only this edge's counter moves: no other edge has the same key. */
  lemma OwnCounter(def: Definition, edge: Edge, e: Edge)
    requires Valid(def) && edge in def.edges && e in def.edges && edge.kind.Rework? && e.kind.Rework?
    requires EdgeKey(e.from, e.to) == EdgeKey(edge.from, edge.to)
    ensures e == edge
  {
    assert IsIdentifier(e.from) && IsIdentifier(edge.from) by {
      assert ValidEdge(def, e) && ValidEdge(def, edge);
      var s :| s in def.steps && s.id == e.from;
      var t :| t in def.steps && t.id == edge.from;
      assert ValidStep(s) && ValidStep(t);
    }
    EdgeKeyInjective(e.from, e.to, edge.from, edge.to);
    var i :| 0 <= i < |def.edges| && def.edges[i] == e;
    var j :| 0 <= j < |def.edges| && def.edges[j] == edge;
    if i != j { assert SameConnection(def.edges[i], def.edges[j]) && SameConnection(def.edges[j], def.edges[i]); }
  }

  lemma GrantRounds(def: Definition, run: Run, id: Id, o: Outcome, now: int, edge: Edge)
    requires Valid(def) && id in StepIds(def) && StepIds(def) <= run.nodes.Keys && Grants(def, run, id, o, edge)
    ensures edge in def.edges && edge.kind.Rework?
    ensures forall e :: e in def.edges && e.kind.Rework? ==>
              (RoundsOn(Reported(def, run, id, o, now), e) == RoundsOn(run, e) + if e == edge then 1 else 0)
  {
    hide Reported;
    var out := Reported(def, run, id, o, now);
    ReportGrants(def, run, id, o, now, edge, id);
    forall e | e in def.edges && e.kind.Rework?
      ensures RoundsOn(out, e) == RoundsOn(run, e) + if e == edge then 1 else 0
    {
      if EdgeKey(e.from, e.to) == EdgeKey(edge.from, edge.to) { OwnCounter(def, edge, e); }
    }
  }

  lemma GrantFailures(def: Definition, run: Run, id: Id, o: Outcome, now: int, edge: Edge)
    requires Valid(def) && id in StepIds(def) && StepIds(def) <= run.nodes.Keys && Grants(def, run, id, o, edge)
    requires FailuresLeft(def, run)
    ensures FailuresLeft(def, Reported(def, run, id, o, now))
  {
    forall x | x in StepIds(def) ensures HasAttempts(def, Reported(def, run, id, o, now), x) {
      ReportGrants(def, run, id, o, now, edge, x);
    }
  }

  lemma GrantPotential(def: Definition, run: Run, id: Id, o: Outcome, now: int, edge: Edge)
    requires Valid(def) && id in StepIds(def) && StepIds(def) <= run.nodes.Keys && Grants(def, run, id, o, edge)
    requires RoundsWithin(def, run) && Credit(def, run, id) > 0
    ensures RoundsWithin(def, Reported(def, run, id, o, now))
    ensures Potential(def, Reported(def, run, id, o, now)) < Potential(def, run)
  {
    var out := Reported(def, run, id, o, now);
    GrantRounds(def, run, id, o, now, edge);
    forall e | e in def.edges ensures LeftOn(def, out, e) <= LeftOn(def, run, e) {}
    PotentialFallsOnRework(def, run, out, edge, id);
  }

  lemma PassPotential(def: Definition, run: Run, id: Id, o: Outcome, now: int)
    requires Passes(run, o) && id in StepIds(def) && StepIds(def) <= run.nodes.Keys && Credit(def, run, id) > 0
    ensures Potential(def, Reported(def, run, id, o, now)) < Potential(def, run)
  {
    var out := Reported(def, run, id, o, now);
    forall x
      ensures Credit(def, out, x) == if x == id then 0 else Credit(def, run, x)
      ensures out.reworkRounds == run.reworkRounds
    {
      ReportPasses(def, run, id, o, now, x);
    }
    PotentialFalls(def, run, out, id);
  }

  lemma PassLimits(def: Definition, run: Run, id: Id, o: Outcome, now: int)
    requires Valid(def) && Passes(run, o) && id in StepIds(def) && StepIds(def) <= run.nodes.Keys
    requires FailuresLeft(def, run) && RoundsWithin(def, run)
    ensures FailuresLeft(def, Reported(def, run, id, o, now)) && RoundsWithin(def, Reported(def, run, id, o, now))
  {
    var out := Reported(def, run, id, o, now);
    forall x | x in StepIds(def) ensures HasAttempts(def, out, x) { ReportPasses(def, run, id, o, now, x); }
    ReportPasses(def, run, id, o, now, id);
    SameRounds(def, run, out);
  }

  lemma SameRounds(def: Definition, a: Run, b: Run)
    requires a.reworkRounds == b.reworkRounds && RoundsWithin(def, a)
    ensures RoundsWithin(def, b)
  {
    assert forall e :: RoundsOn(a, e) == RoundsOn(b, e);
  }

  lemma StepsBackPotential(def: Definition, run: Run, id: Id, out: Run)
    requires id in StepIds(def) && StepsBack(def, run, id, out) && Credit(def, run, id) > 0
    ensures Potential(def, out) < Potential(def, run)
  {
    forall x | x != id ensures Credit(def, out, x) == Credit(def, run, x) {
      assert SameProgress(out, run, x);
    }
    PotentialFalls(def, run, out, id);
  }

  lemma StepsBackLimits(def: Definition, run: Run, id: Id, out: Run)
    requires StepsBack(def, run, id, out) && FailuresLeft(def, run) && RoundsWithin(def, run)
    ensures FailuresLeft(def, out) && RoundsWithin(def, out)
  {
    forall x | x in StepIds(def)
      ensures HasAttempts(def, out, x) || (StatusOf(out, x) == Paused && out.status == RunPaused)
    {
      if x != id {
        assert SameProgress(out, run, x);
        assert HasAttempts(def, run, x) || (StatusOf(run, x) == Paused && run.status == RunPaused);
      }
    }
    SameRounds(def, run, out);
  }

  lemma InflightCredit(def: Definition, s: Sched, id: Id)
    requires WithinLimits(def, s) && id in s.inflight
    ensures Credit(def, s.run, id) > 0 && id in StepIds(def) && StepIds(def) <= s.run.nodes.Keys
  {
    assert Unfinished(s.run, id);
    assert HasAttempts(def, s.run, id);
  }

  lemma SettledLimits(def: Definition, run: Run, halted: bool, now: int)
    requires FailuresLeft(def, run) && RoundsWithin(def, run)
    ensures var out := Settled(def, run, halted, now);
            Potential(def, out) == Potential(def, run) && FailuresLeft(def, out) && RoundsWithin(def, out)
  {
    var out := Settled(def, run, halted, now);
    SettledKeeps(def, run, halted, now);
    SameNodesPotential(def, run, out);
    SameRounds(def, run, out);
    forall x | x in StepIds(def)
      ensures HasAttempts(def, out, x) || (StatusOf(out, x) == Paused && out.status == RunPaused)
    {
      assert NodeOf(out, x) == NodeOf(run, x);
      assert HasAttempts(def, run, x) || (StatusOf(run, x) == Paused && run.status == RunPaused);
    }
  }

  lemma SameNodesPotential(def: Definition, a: Run, b: Run)
    requires a.reworkRounds == b.reworkRounds && forall x :: Credit(def, a, x) == Credit(def, b, x)
    ensures Potential(def, a) == Potential(def, b)
  {
    RoundsLeftSame(def, a, b, def.edges);
    CreditsMonotone(def, a, b, def.steps);
    CreditsMonotone(def, b, a, def.steps);
  }

  lemma ReportStep(def: Definition, s: Sched, id: Id, o: Outcome)
    requires Valid(def) && WithinLimits(def, s) && id in s.inflight
    ensures WithinLimits(def, After(def, s, Report(id, o)))
    ensures Potential(def, After(def, s, Report(id, o)).run) < Potential(def, s.run)
  {
    var out := Reported(def, s.run, id, o, s.clock);
    ShapeReport(def, s, id, o);
    InflightCredit(def, s, id);
    hide Valid, Shape, Reported, FailuresLeft, RoundsWithin, Settled, Potential, StepsBack;
    if Passes(s.run, o) {
      PassPotential(def, s.run, id, o, s.clock);
      PassLimits(def, s.run, id, o, s.clock);
    } else if edge :| Grants(def, s.run, id, o, edge) {
      GrantPotential(def, s.run, id, o, s.clock, edge);
      GrantFailures(def, s.run, id, o, s.clock, edge);
    } else {
      ReportStepsBack(def, s.run, id, o, s.clock);
      StepsBackPotential(def, s.run, id, out);
      StepsBackLimits(def, s.run, id, out);
    }
    SettledLimits(def, out, s.halted, s.clock);
  }

  lemma FailureStep(def: Definition, s: Sched, id: Id, m: string, remind: bool)
    requires Valid(def) && WithinLimits(def, s) && id in s.inflight
    ensures WithinLimits(def, After(def, s, Failure(id, m, remind)))
    ensures Potential(def, After(def, s, Failure(id, m, remind)).run) < Potential(def, s.run)
  {
    hide Valid, WithinLimits, FailedWith, Settled, StepsBack, Potential, Enabled;
    var out := FailedWith(def, s.run, id, m, remind, s.clock);
    InflightCredit(def, s, id);
    FailureStepsBack(def, s.run, id, m, remind, s.clock);
    SteppedBack(def, s, id, out);
  }

  lemma SteppedBack(def: Definition, s: Sched, id: Id, out: Run)
    requires WithinLimits(def, s) && id in s.inflight && StepsBack(def, s.run, id, out)
    ensures var t := s.(run := Settled(def, out, s.halted, s.clock), inflight := s.inflight - {id}, clock := s.clock + 1);
            WithinLimits(def, t) && Potential(def, t.run) < Potential(def, s.run)
  {
    InflightCredit(def, s, id);
    ShapeStepsBack(def, s, id, out);
    hide StepsBack, Shape, FailuresLeft, RoundsWithin, Potential, Settled;
    StepsBackPotential(def, s.run, id, out);
    StepsBackLimits(def, s.run, id, out);
    SettledLimits(def, out, s.halted, s.clock);
  }

  lemma LeftStep(def: Definition, s: Sched, id: Id, e: Event)
    requires Valid(def) && WithinLimits(def, s) && Enabled(def, s, e)
    requires e == Interrupted(id) || (e.Infrastructure? && e.id == id)
    ensures WithinLimits(def, After(def, s, e))
    ensures e.Infrastructure? ==> Potential(def, After(def, s, e).run) < Potential(def, s.run)
    ensures e.Interrupted? ==> Potential(def, After(def, s, e).run) == Potential(def, s.run)
  {
    var out := After(def, s, e).run;
    ShapeLeft(def, s, id, e);
    InflightCredit(def, s, id);
    SameRounds(def, s.run, out);
    LeftFailures(def, s.run, out, id);
    assert Unfinished(s.run, id);
    if e.Infrastructure? { PotentialFalls(def, s.run, out, id); } else { SameNodesPotential(def, s.run, out); }
  }

  lemma LeftFailures(def: Definition, run: Run, out: Run, id: Id)
    requires FailuresLeft(def, run) && HasAttempts(def, run, id) && out.status == run.status
    requires forall x :: NodeOf(out, x).failures == NodeOf(run, x).failures
    requires forall x :: x != id ==> StatusOf(out, x) == StatusOf(run, x)
    ensures FailuresLeft(def, out)
  {
    forall x | x in StepIds(def)
      ensures HasAttempts(def, out, x) || (StatusOf(out, x) == Paused && out.status == RunPaused)
    {
      assert HasAttempts(def, run, x) || (StatusOf(run, x) == Paused && run.status == RunPaused);
    }
  }

  lemma BeginStep(def: Definition, s: Sched, ids: seq<Id>)
    requires Valid(def) && WithinLimits(def, s) && Enabled(def, s, Begin(ids))
    ensures WithinLimits(def, After(def, s, Begin(ids)))
    ensures Potential(def, After(def, s, Begin(ids)).run) == Potential(def, s.run)
  {
    hide Valid, Shape, RoundsWithin, Credit, HasAttempts, Ready;
    var out := Claimed(s.run, ids, s.clock);
    ShapeBegin(def, s, ids);
    SameRounds(def, s.run, out);
    forall x
      ensures Credit(def, out, x) == Credit(def, s.run, x)
      ensures x in StepIds(def) ==> HasAttempts(def, out, x)
    {
      ClaimedCredit(def, s, ids, x);
    }
    SameNodesPotential(def, s.run, out);
  }

  lemma ClaimedCredit(def: Definition, s: Sched, ids: seq<Id>, x: Id)
    requires FailuresLeft(def, s.run) && Enabled(def, s, Begin(ids))
    ensures Credit(def, Claimed(s.run, ids, s.clock), x) == Credit(def, s.run, x)
    ensures x in StepIds(def) ==> HasAttempts(def, Claimed(s.run, ids, s.clock), x)
  {
    hide Claimed;
    ClaimedNode(s.run, ids, s.clock, x);
  }

  lemma LoopStep(def: Definition, s: Sched)
    requires Valid(def) && WithinLimits(def, s) && Enabled(def, s, NextLoop)
    ensures WithinLimits(def, After(def, s, NextLoop))
    ensures After(def, s, NextLoop).run.reworkRounds == map[]
  {
    ShapeNextLoop(def, s);
    NextRoundRun(def, s.run, s.clock);
    var out := NextRound(def, s.run, s.clock);
    forall x | x in StepIds(def) ensures HasAttempts(def, out, x) { NextRoundStatus(def, s.run, s.clock, x); }
    NoRounds(def, out);
  }

  lemma NoRounds(def: Definition, run: Run)
    requires Valid(def) && run.reworkRounds == map[]
    ensures RoundsWithin(def, run)
  {
    forall e | e in def.edges && e.kind.Rework? ensures RoundsOn(run, e) <= Limit(def, e) { assert ValidEdge(def, e); }
  }

  // ---------- Whole schedules ----------

  function Executions(es: seq<Event>): nat {
    if es == [] then 0 else Executions(es[..|es| - 1]) + if IsExecution(es[|es| - 1]) then 1 else 0
  }

  function Loops(es: seq<Event>): nat {
    if es == [] then 0 else Loops(es[..|es| - 1]) + if es[|es| - 1].NextLoop? then 1 else 0
  }

  lemma StartedWithinLimits(def: Definition, runId: string, limit: Positive)
    requires Valid(def) && EntriesIn(def, def.steps) != []
    ensures WithinLimits(def, Started(def, runId, limit))
  {
    ShapeStarted(def, runId, limit);
    var run := Started(def, runId, limit).run;
    forall x | x in StepIds(def) ensures HasAttempts(def, run, x) { assert NodeOf(run, x) == FreshNode(x); }
    NoRounds(def, run);
  }

  /** A plain resume starts over: it buys one more bounded batch of automatic work. */
  lemma ResumeWithinLimits(def: Definition, s: Sched, m: string)
    requires Valid(def) && WithinLimits(def, s) && Enabled(def, s, ResumeRun("", m)) && s.run.status == RunPaused
    ensures WithinLimits(def, After(def, s, ResumeRun("", m)))
  {
    ShapeResume(def, s, "", m);
    var out := Resumed(def, s.run, "", m, s.clock);
    ResumedBecame(def, s.run, "", m, s.clock);
    NoRounds(def, out);
    forall x | x in StepIds(def) ensures HasAttempts(def, out, x) {
      ResumedFailures(def, s.run, m, s.clock, x);
    }
  }

  lemma ResumedFailures(def: Definition, run: Run, m: string, now: int, x: Id)
    requires Valid(def) && StepIds(def) <= run.nodes.Keys && FailuresLeft(def, run) && run.status == RunPaused
    requires x in StepIds(def)
    ensures HasAttempts(def, Resumed(def, run, "", m, now), x)
  {
    hide Text.Trim, Text.Blank, ReadyIn, Opened;
    NothingToOpen(def, run);
    var quiet := ResumedQuietly(def, run, "", now);
    ResetNodeAt(run, ResumeSet(def, run, ""), ByHuman, x);
    DeliveredAllStatus(quiet, Ids(ReadyIn(def, quiet, def.steps)), Message("human", Text.Trim(m), now));
    assert HasAttempts(def, run, x) || StatusOf(run, x) == Paused;
    assert NodeOf(Resumed(def, run, "", m, now), x).failures == NodeOf(quiet, x).failures;
  }

  lemma AutomaticStep(def: Definition, s: Sched, e: Event)
    requires Valid(def) && WithinLimits(def, s) && Enabled(def, s, e) && Automatic(e)
    ensures WithinLimits(def, After(def, s, e))
    ensures IsExecution(e) ==> Potential(def, After(def, s, e).run) < Potential(def, s.run)
    ensures e.Begin? || e.Interrupted? ==> Potential(def, After(def, s, e).run) == Potential(def, s.run)
  {
    match e {
      case Begin(ids) => BeginStep(def, s, ids);
      case Report(id, o) => ReportStep(def, s, id, o);
      case Failure(id, m, remind) => FailureStep(def, s, id, m, remind);
      case Infrastructure(id, m) => LeftStep(def, s, id, e);
      case Interrupted(id) => LeftStep(def, s, id, e);
      case NextLoop => LoopStep(def, s);
    }
  }

  /** One cap for the schedule so far and one more for every loop round begun. */
  function Allowance(loops: nat, cap: nat): nat {
    if loops == 0 then cap else Allowance(loops - 1, cap) + cap
  }

  lemma {:induction false} AllowanceIsProduct(loops: nat, cap: nat)
    ensures Allowance(loops, cap) == (1 + loops) * cap
  {
    if loops > 0 {
      AllowanceIsProduct(loops - 1, cap);
      assert (1 + loops) * cap == loops * cap + cap;
    }
  }

  lemma {:induction false} PotentialPays(def: Definition, s: Sched, es: seq<Event>)
    requires Valid(def) && WithinLimits(def, s) && Allowed(def, s, es) && AllAutomatic(es)
    ensures WithinLimits(def, Final(def, s, es))
    ensures Executions(es) + Potential(def, Final(def, s, es).run) <= Allowance(Loops(es), Cap(def))
  {
    hide Valid, WithinLimits, Potential, Cap, After, Enabled;
    if es == [] {
      PotentialBounded(def, s.run);
    } else {
      var before, e := es[..|es| - 1], es[|es| - 1];
      PotentialPays(def, s, before);
      assert Automatic(e);
      AutomaticStep(def, Final(def, s, before), e);
      PotentialBounded(def, Final(def, s, es).run);
    }
  }

  /** From any state within its limits, a new run above all, no automatic schedule executes
      more than steps x failure limit x (1 + sum of rework limits) steps per loop round,
      and every rework edge stays within its limit throughout. */
  lemma WorkIsBounded(def: Definition, s: Sched, es: seq<Event>)
    requires Valid(def) && WithinLimits(def, s) && Allowed(def, s, es) && AllAutomatic(es)
    ensures Executions(es) <= (1 + Loops(es)) * Cap(def)
    ensures forall e :: e in def.edges && e.kind.Rework? ==> RoundsOn(Final(def, s, es).run, e) <= Limit(def, e)
  {
    hide Valid, After, Enabled, Cap, Shape;
    PotentialPays(def, s, es);
    AllowanceIsProduct(Loops(es), Cap(def));
  }

  // ---------- Budgets over loop rounds ----------

  ghost predicate GrantedOn(def: Definition, s: Sched, e: Event, edge: Edge) {
    e.Report? && Grants(def, s.run, e.id, e.outcome, edge)
  }

  /** Reworks granted on one edge during a schedule. */
  ghost function Granted(def: Definition, s: Sched, es: seq<Event>, edge: Edge): nat
    requires Allowed(def, s, es)
  {
    if es == [] then 0 else
      var before := es[..|es| - 1];
      Granted(def, s, before, edge) + if GrantedOn(def, Final(def, s, before), es[|es| - 1], edge) then 1 else 0
  }

  lemma ReportCounted(def: Definition, s: Sched, id: Id, o: Outcome, edge: Edge)
    requires Valid(def) && Shape(def, s) && id in s.inflight && edge in def.edges && edge.kind.Rework?
    ensures RoundsOn(Reported(def, s.run, id, o, s.clock), edge) ==
            RoundsOn(s.run, edge) + if Grants(def, s.run, id, o, edge) then 1 else 0
  {
    assert id in StepIds(def) && StepIds(def) <= s.run.nodes.Keys;
    hide Valid, Shape, Reported;
    if Passes(s.run, o) {
      ReportPasses(def, s.run, id, o, s.clock, id);
    } else if granted :| Grants(def, s.run, id, o, granted) {
      GrantRounds(def, s.run, id, o, s.clock, granted);
    } else {
      ReportStepsBack(def, s.run, id, o, s.clock);
    }
  }

  /** No human resumes the run. */
  ghost predicate NoResume(es: seq<Event>) {
    forall i :: 0 <= i < |es| ==> !es[i].ResumeRun?
  }

  /** Every event but a loop round or a resume counts the reworks it grants, and no others. */
  lemma CountedOn(def: Definition, s: Sched, e: Event, edge: Edge)
    requires Valid(def) && Shape(def, s) && Enabled(def, s, e) && !e.NextLoop? && !e.ResumeRun?
    requires edge in def.edges && edge.kind.Rework?
    ensures RoundsOn(After(def, s, e).run, edge) == RoundsOn(s.run, edge) + if GrantedOn(def, s, e, edge) then 1 else 0
  {
    hide Valid, Shape, Reported, FailedWith, Settled, Grants, After, Enabled;
    if e.Report? {
      ReportEnabled(def, s, e);
      ReportCounted(def, s, e.id, e.outcome, edge);
      SettledKeeps(def, Reported(def, s.run, e.id, e.outcome, s.clock), s.halted, s.clock);
    } else if e.Failure? {
      FailureEnabled(def, s, e);
      FailureStepsBack(def, s.run, e.id, e.message, e.remind, s.clock);
      SettledKeeps(def, FailedWith(def, s.run, e.id, e.message, e.remind, s.clock), s.halted, s.clock);
    } else {
      RoundsUntouched(def, s, e);
    }
  }

  lemma ReportEnabled(def: Definition, s: Sched, e: Event)
    requires Enabled(def, s, e) && e.Report?
    ensures e.id in s.inflight
    ensures After(def, s, e).run == Settled(def, Reported(def, s.run, e.id, e.outcome, s.clock), s.halted, s.clock)
  {
    hide Settled, Reported;
  }

  lemma FailureEnabled(def: Definition, s: Sched, e: Event)
    requires Shape(def, s) && Enabled(def, s, e) && e.Failure?
    ensures e.id in StepIds(def) && e.id in s.run.nodes && StepIds(def) <= s.run.nodes.Keys
    ensures After(def, s, e).run == Settled(def, FailedWith(def, s.run, e.id, e.message, e.remind, s.clock), s.halted, s.clock)
  {
    hide Settled, FailedWith;
  }

  lemma RoundsUntouched(def: Definition, s: Sched, e: Event)
    requires Enabled(def, s, e) && !e.NextLoop? && !e.ResumeRun? && !e.Report? && !e.Failure?
    ensures After(def, s, e).run.reworkRounds == s.run.reworkRounds
  {
    hide Ready, MailSet, Reported, FailedWith, Settled, Claimed, NextRound, MailReopened, Resumed, Delivered;
    match e
    case Begin(ids) => ClaimedKeepsRounds(s.run, ids, s.clock);
    case Instruct(id, m) => DeliveredKeepsRounds(s.run, id, m);
    case ReopenMail => ReopenedKeepsRounds(def, s.run, s.clock);
    case _ =>
  }

  lemma ClaimedKeepsRounds(run: Run, ids: seq<Id>, now: int)
    requires ids != []
    ensures Claimed(run, ids, now).reworkRounds == run.reworkRounds
  {
  }

  lemma DeliveredKeepsRounds(run: Run, id: Id, m: Message)
    ensures Delivered(run, id, m).reworkRounds == run.reworkRounds
  {
  }

  lemma ReopenedKeepsRounds(def: Definition, run: Run, now: int)
    ensures MailReopened(def, run, now).reworkRounds == run.reworkRounds
  {
    hide MailSet;
  }

  /** And so no edge ever exceeds its limit. */
  lemma RoundsStayWithin(def: Definition, s: Sched, e: Event)
    requires Valid(def) && Shape(def, s) && RoundsWithin(def, s.run) && Enabled(def, s, e)
    ensures RoundsWithin(def, After(def, s, e).run)
  {
    hide Valid, Shape, After, Enabled;
    if e.NextLoop? || e.ResumeRun? {
      RoundsCleared(def, s, e);
      NoRounds(def, After(def, s, e).run);
    } else {
      forall edge | edge in def.edges && edge.kind.Rework?
        ensures RoundsOn(After(def, s, e).run, edge) <= Limit(def, edge)
      {
        CountedOn(def, s, e, edge);
        if GrantedOn(def, s, e, edge) { GrantHasRoom(def, s.run, e.id, e.outcome, edge); }
      }
    }
  }

  lemma GrantHasRoom(def: Definition, run: Run, id: Id, o: Outcome, edge: Edge)
    requires Grants(def, run, id, o, edge)
    ensures RoundsOn(run, edge) < Limit(def, edge)
  {
  }

  lemma RoundsCleared(def: Definition, s: Sched, e: Event)
    requires Valid(def) && Shape(def, s) && Enabled(def, s, e) && (e.NextLoop? || e.ResumeRun?)
    ensures After(def, s, e).run.reworkRounds == map[]
  {
    if e.NextLoop? {
      NextRoundRun(def, s.run, s.clock);
    } else {
      ResumedBecame(def, s.run, e.from, e.message, s.clock);
    }
  }

  /** Over any number of loop rounds the reworks granted on an edge number at most its
      limit for each round begun, whatever else happens as long as nobody resumes the run. */
  lemma {:induction false} GrantsPerRound(def: Definition, s: Sched, es: seq<Event>, edge: Edge)
    requires Valid(def) && Shape(def, s) && RoundsWithin(def, s.run) && Allowed(def, s, es) && NoResume(es)
    requires edge in def.edges && edge.kind.Rework?
    ensures Limit(def, edge) >= 0 && RoundsWithin(def, Final(def, s, es).run)
    ensures Granted(def, s, es, edge) + RoundsOn(s.run, edge) + Limit(def, edge) <=
            Allowance(Loops(es), Limit(def, edge)) + RoundsOn(Final(def, s, es).run, edge)
  {
    LimitNotNegative(def, edge);
    hide Valid, Shape, RoundsWithin, After, Enabled, RoundsOn, GrantedOn, Limit;
    if es != [] {
      var before, e := es[..|es| - 1], es[|es| - 1];
      GrantsPerRound(def, s, before, edge);
      ShapeAlways(def, s, before);
      var u := Final(def, s, before);
      RoundsStayWithin(def, u, e);
      if e.NextLoop? {
        RoundsRestart(def, u, edge);
      } else {
        CountedOn(def, u, e, edge);
      }
    }
  }

  lemma LimitNotNegative(def: Definition, edge: Edge)
    requires Valid(def) && edge in def.edges && edge.kind.Rework?
    ensures Limit(def, edge) >= 0
  {
    assert ValidEdge(def, edge);
  }

  lemma RoundsRestart(def: Definition, s: Sched, edge: Edge)
    requires Valid(def) && Shape(def, s) && RoundsWithin(def, s.run) && Enabled(def, s, NextLoop)
    requires edge in def.edges && edge.kind.Rework?
    ensures RoundsOn(s.run, edge) <= Limit(def, edge) && RoundsOn(After(def, s, NextLoop).run, edge) == 0
    ensures !GrantedOn(def, s, NextLoop, edge)
  {
    RoundsCleared(def, s, NextLoop);
  }

  lemma GrantsBounded(def: Definition, s: Sched, es: seq<Event>, edge: Edge)
    requires Valid(def) && Shape(def, s) && RoundsWithin(def, s.run) && Allowed(def, s, es) && NoResume(es)
    requires edge in def.edges && edge.kind.Rework?
    ensures Granted(def, s, es, edge) <= (1 + Loops(es)) * Limit(def, edge)
    ensures RoundsOn(Final(def, s, es).run, edge) <= Limit(def, edge)
  {
    hide Valid, After, Enabled, Shape;
    GrantsPerRound(def, s, es, edge);
    AllowanceIsProduct(Loops(es), Limit(def, edge));
  }

  lemma RoundStep(def: Definition, s: Sched, e: Event)
    requires Valid(def) && Shape(def, s) && Enabled(def, s, e)
    ensures var t := After(def, s, e);
            && t.run.loopEnabled == s.run.loopEnabled
            && (s.run.loopRound >= 1 ==> t.run.loopRound == s.run.loopRound + if e.NextLoop? then 1 else 0)
  {
    assert e.Report? || e.Failure? ==> e.id in StepIds(def) && StepIds(def) <= s.run.nodes.Keys;
    assert StepIds(def) <= s.run.nodes.Keys;
    hide Valid, Shape, Reported, FailedWith, Settled, Resumed, MailSet;
    if e.Report? {
      ReportRound(def, s.run, e.id, e.outcome, s.clock);
      SettledKeeps(def, Reported(def, s.run, e.id, e.outcome, s.clock), s.halted, s.clock);
    } else if e.Failure? {
      FailureStepsBack(def, s.run, e.id, e.message, e.remind, s.clock);
      SettledKeeps(def, FailedWith(def, s.run, e.id, e.message, e.remind, s.clock), s.halted, s.clock);
    } else if e.NextLoop? {
      NextRoundRun(def, s.run, s.clock);
    } else if e.ResumeRun? {
      ResumeRound(def, s.run, e.from, e.message, s.clock);
    }
  }

  lemma ResumeRound(def: Definition, run: Run, from: Id, message: string, now: int)
    ensures Resumed(def, run, from, message, now).loopRound == run.loopRound
    ensures Resumed(def, run, from, message, now).loopEnabled == run.loopEnabled
  {
    hide Text.Trim, Text.Blank, ReadyIn, ResumeSet;
    var quiet := ResumedQuietly(def, run, from, now);
    DeliveredAllStatus(quiet, Ids(ReadyIn(def, quiet, def.steps)), Message("human", Text.Trim(message), now));
  }

  lemma ReportRound(def: Definition, run: Run, id: Id, o: Outcome, now: int)
    requires id in StepIds(def) && StepIds(def) <= run.nodes.Keys
    ensures Reported(def, run, id, o, now).loopRound == run.loopRound
    ensures Reported(def, run, id, o, now).loopEnabled == run.loopEnabled
  {
    hide Reported;
    if Passes(run, o) {
      ReportPasses(def, run, id, o, now, id);
    } else if edge :| Grants(def, run, id, o, edge) {
      ReportGrants(def, run, id, o, now, edge, id);
    } else {
      ReportStepsBack(def, run, id, o, now);
    }
  }

  /** The loop round counts the rounds begun, in every schedule. */
  lemma {:induction false} RoundsCounted(def: Definition, s: Sched, es: seq<Event>)
    requires Valid(def) && Shape(def, s) && Allowed(def, s, es) && s.run.loopRound >= 1
    ensures Final(def, s, es).run.loopRound == s.run.loopRound + Loops(es)
    ensures Final(def, s, es).run.loopEnabled == s.run.loopEnabled
  {
    hide Valid, Shape, After, Enabled;
    if es != [] {
      var before := es[..|es| - 1];
      RoundsCounted(def, s, before);
      ShapeAlways(def, s, before);
      RoundStep(def, Final(def, s, before), es[|es| - 1]);
    }
  }

  /** In a looping run started afresh and never resumed, messages, pauses and reopening for mail
      included, the reworks granted on an edge number at most its limit times the loop round
      reached; without human steps the executions number at most the cap times it. */
  lemma LoopBudgets(def: Definition, runId: string, limit: Positive, es: seq<Event>, edge: Edge)
    requires Valid(def) && def.loopEnabled && EntriesIn(def, def.steps) != []
    requires Allowed(def, Started(def, runId, limit), es) && NoResume(es) && edge in def.edges && edge.kind.Rework?
    ensures var start := Started(def, runId, limit);
            var round := Final(def, start, es).run.loopRound;
            && Granted(def, start, es, edge) <= round * Limit(def, edge)
            && (AllAutomatic(es) ==> Executions(es) <= round * Cap(def))
  {
    var start := Started(def, runId, limit);
    StartedWithinLimits(def, runId, limit);
    assert start.run.loopRound == 1;
    hide Valid, After, Enabled, Cap, Shape, Started, RoundsWithin, FailuresLeft;
    RoundsCounted(def, start, es);
    GrantsBounded(def, start, es, edge);
    if AllAutomatic(es) { WorkIsBounded(def, start, es); }
  }

  // ---------- Automatic execution ends ----------

  function Begins(es: seq<Event>): nat {
    if es == [] then 0 else Begins(es[..|es| - 1]) + if es[|es| - 1].Begin? then 1 else 0
  }

  function Interruptions(es: seq<Event>): nat {
    if es == [] then 0 else Interruptions(es[..|es| - 1]) + if es[|es| - 1].Interrupted? then 1 else 0
  }

  /** No automatic event starts a step from here on. */
  predicate Stopping(s: Sched) {
    s.halted || s.cancelled || (s.run.status != RunRunning && s.run.status != RunCompleted)
  }

  lemma FlightSize(def: Definition, s: Sched, e: Event)
    requires Shape(def, s) && Enabled(def, s, e) && Automatic(e)
    ensures var t := After(def, s, e);
            && (e.Begin? ==> |t.inflight| > |s.inflight|)
            && (IsExecution(e) || e.Interrupted? ==> |t.inflight| == |s.inflight| - 1)
            && (e.NextLoop? ==> t.inflight == s.inflight)
  {
    hide Reported, FailedWith, Settled, Claimed, NextRound, WithStatus, Shape, StatusOf, NodeOf, Ready, EntriesIn;
    var t := After(def, s, e);
    if e.Begin? {
      assert e.ids[0] in t.inflight && e.ids[0] !in s.inflight;
      SubsetSmaller(s.inflight, t.inflight);
    }
  }

  lemma FlightStops(def: Definition, s: Sched, e: Event)
    requires Valid(def) && Shape(def, s) && Enabled(def, s, e) && Automatic(e)
    ensures e.Begin? ==> !Stopping(s)
    ensures e.Interrupted? ==> Stopping(s)
    ensures Stopping(s) ==> Stopping(After(def, s, e))
  {
    CompletedEmpty(def, s);
    hide Valid, Shape, Reported, FailedWith, Settled;
    if e.Report? || e.Failure? {
      if Stopping(s) { StoppingStays(def, s, e); }
    } else if e.NextLoop? {
      NextRoundRun(def, s.run, s.clock);
    }
  }

  lemma CompletedEmpty(def: Definition, s: Sched)
    requires Shape(def, s)
    ensures s.run.status == RunCompleted ==> s.inflight == {}
  {
    assert forall x :: x in s.inflight ==> x in StepIds(def) && Unfinished(s.run, x);
  }

  lemma FlightFits(def: Definition, s: Sched)
    requires Valid(def) && Shape(def, s)
    ensures |s.inflight| <= |def.steps|
  {
    StepCount(def);
    SubsetCard(s.inflight, StepIds(def));
  }

  lemma StoppingStays(def: Definition, s: Sched, e: Event)
    requires Shape(def, s) && Enabled(def, s, e) && (e.Report? || e.Failure?) && Stopping(s)
    ensures Stopping(After(def, s, e))
  {
    hide Settled;
    assert StepIds(def) <= s.run.nodes.Keys && e.id in StepIds(def);
    if e.Failure? {
      FailureStepsBack(def, s.run, e.id, e.message, e.remind, s.clock);
      SettledKeeps(def, FailedWith(def, s.run, e.id, e.message, e.remind, s.clock), s.halted, s.clock);
    } else {
      SettledKeeps(def, Reported(def, s.run, e.id, e.outcome, s.clock), s.halted, s.clock);
      if s.run.status != RunRunning { ReportStepsBack(def, s.run, e.id, e.outcome, s.clock); }
    }
  }

  lemma {:induction false} FlightCounts(def: Definition, s: Sched, es: seq<Event>)
    requires Valid(def) && Shape(def, s) && Allowed(def, s, es) && AllAutomatic(es)
    ensures Shape(def, Final(def, s, es))
    ensures |es| == Begins(es) + Executions(es) + Interruptions(es) + Loops(es)
    ensures Begins(es) <= Executions(es) + Interruptions(es) + |Final(def, s, es).inflight|
    ensures Interruptions(es) + |Final(def, s, es).inflight| <= |def.steps|
    ensures Interruptions(es) > 0 ==> Stopping(Final(def, s, es))
    decreases |es|, 1
  {
    if es == [] {
      FlightFits(def, s);
    } else {
      FlightMore(def, s, es);
    }
  }

  lemma {:induction false} FlightMore(def: Definition, s: Sched, es: seq<Event>)
    requires Valid(def) && Shape(def, s) && Allowed(def, s, es) && AllAutomatic(es) && es != []
    ensures Shape(def, Final(def, s, es))
    ensures |es| == Begins(es) + Executions(es) + Interruptions(es) + Loops(es)
    ensures Begins(es) <= Executions(es) + Interruptions(es) + |Final(def, s, es).inflight|
    ensures Interruptions(es) + |Final(def, s, es).inflight| <= |def.steps|
    ensures Interruptions(es) > 0 ==> Stopping(Final(def, s, es))
    decreases |es|, 0
  {
    hide Valid, Shape, After, Enabled, Stopping;
    var before, e := es[..|es| - 1], es[|es| - 1];
    FlightCounts(def, s, before);
    var u := Final(def, s, before);
    assert Automatic(e);
    ShapeKept(def, u, e);
    FlightSize(def, u, e);
    FlightStops(def, u, e);
    FlightFits(def, After(def, u, e));
  }

  /** Between human steps the scheduler does only boundedly many things, starts and
      interruptions included: automatic execution always ends. */
  lemma AutomaticEnds(def: Definition, s: Sched, es: seq<Event>)
    requires Valid(def) && WithinLimits(def, s) && Allowed(def, s, es) && AllAutomatic(es)
    ensures |es| <= 2 * ((1 + Loops(es)) * Cap(def)) + 2 * |def.steps| + Loops(es)
  {
    hide Valid, After, Enabled, Cap, Shape;
    WorkIsBounded(def, s, es);
    FlightCounts(def, s, es);
  }
}
