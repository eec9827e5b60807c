/** When the order of the graph is safe in every schedule: exactly for the definitions in
    which no rework leaves work of another branch standing on a reopened step. */
module OrderSafety {
  import opened Graph
  import opened Validation
  import opened Engine
  import opened Ordering
  import opened Scheduler
  import opened Promptness
  import opened Collections

  /** `y` is overlooked by the rework edge `e`: below its target, yet neither reopened nor
      ordered after its source. */
  ghost predicate Overlooked(def: Definition, e: Edge, y: Id) {
    e in def.edges && e.kind.Rework? && Reaches(def, e.to, y) &&
    y !in ReworkSet(def, e.from, e.to) && !Reaches(def, e.from, y)
  }

  /** Whatever lies below a rework target is reopened by the rework or lies below its source. */
  ghost predicate Contained(def: Definition) {
    forall e, y :: !Overlooked(def, e, y)
  }

  /** A closed run in which the steps in flight are exactly those marked running. */
  ghost predicate Orderly(def: Definition, s: Sched) {
    Shape(def, s) && Closed(def, s.run) && forall x :: x in s.inflight ==> StatusOf(s.run, x) == Running
  }

  // ---------- Contained definitions are always in order ----------

  /** Setting back or completing steps keeps a run closed under the usual conditions. */
  lemma ClosedBecame(def: Definition, run: Run, out: Run, ids: set<Id>, st: NodeStatus)
    requires Closed(def, run) && Became(out, run, ids, st)
    requires st == Running || st == Completed ==>
               forall d, x :: Dep(def, d, x) && x in ids ==> StatusOf(run, d) == Completed && d !in ids
    requires st != Completed ==> forall d, x :: Dep(def, d, x) && d in ids && x !in ids ==> !Advanced(run, x)
    ensures Closed(def, out)
  {
    forall d, x | Dep(def, d, x) && Advanced(out, x) ensures StatusOf(out, d) == Completed {
      if x !in ids { assert Advanced(run, x); }
    }
  }

  /** Nothing below a step in flight has started. */
  lemma NothingBelow(def: Definition, s: Sched, id: Id, x: Id)
    requires Orderly(def, s) && id in s.inflight && Reaches(def, id, x)
    ensures !Advanced(s.run, x)
  {
    if Advanced(s.run, x) { AboveCompleted(def, s.run, id, x); }
  }

  lemma AloneClosed(def: Definition, s: Sched, id: Id, out: Run, st: NodeStatus)
    requires Orderly(def, s) && id in s.inflight && Became(out, s.run, {id}, st) && st != Running
    requires Acyclic(def)
    ensures Closed(def, out)
  {
    forall d, x | Dep(def, d, x) && d in {id} ensures !Advanced(s.run, x) {
      DepReaches(def, d, x);
      NothingBelow(def, s, id, x);
    }
    forall d, x | Dep(def, d, x) && x in {id} ensures StatusOf(s.run, d) == Completed && d !in {id} {
      DepReaches(def, d, x);
      assert Advanced(s.run, x);
    }
    ClosedBecame(def, s.run, out, {id}, st);
  }

  lemma ReworkUp(def: Definition, edge: Edge)
    requires Valid(def) && edge in def.edges && edge.kind.Rework?
    ensures Reaches(def, edge.to, edge.from) && edge.from in StepIds(def) && edge.to in StepIds(def)
    ensures Limit(def, edge) > 0 && edge.to != ""
  {
    assert ValidEdge(def, edge);
    var s :| s in def.steps && s.id == edge.to;
    assert ValidStep(s);
  }

  /** A rework on a contained definition reopens nothing that others rely on, nor a step in flight. */
  lemma GrantOrderly(def: Definition, s: Sched, edge: Edge, out: Run)
    requires Valid(def) && Contained(def) && Orderly(def, s)
    requires edge in def.edges && edge.kind.Rework? && edge.from in s.inflight
    requires Became(out, s.run, ReworkSet(def, edge.from, edge.to), Pending)
    ensures Closed(def, out)
    ensures forall x :: x in s.inflight && x != edge.from ==> x !in ReworkSet(def, edge.from, edge.to)
  {
    hide Valid;
    var path := ReworkSet(def, edge.from, edge.to);
    ReworkUp(def, edge);
    forall x | x in path && x != edge.from ensures StatusOf(s.run, x) == Completed {
      assert Advanced(s.run, edge.from);
      AboveCompleted(def, s.run, x, edge.from);
    }
    forall d, x | Dep(def, d, x) && d in path && x !in path ensures !Advanced(s.run, x) {
      if d == edge.from { DepReaches(def, d, x); } else { ReachesThenDep(def, edge.to, d, x); }
      assert !Overlooked(def, edge, x);
      NothingBelow(def, s, edge.from, x);
    }
    ClosedBecame(def, s.run, out, path, Pending);
  }

  lemma OrderlyReport(def: Definition, s: Sched, id: Id, o: Outcome)
    requires Valid(def) && Contained(def) && Orderly(def, s) && id in s.inflight
    ensures Orderly(def, After(def, s, Report(id, o)))
  {
    hide Valid, Contained, Reported, Settled, Enabled, Closed;
    var out := Reported(def, s.run, id, o, s.clock);
    ShapeReport(def, s, id, o);
    assert id in StepIds(def) && StepIds(def) <= s.run.nodes.Keys;
    if Passes(s.run, o) {
      OrderlyPass(def, s, id, o);
    } else if edge :| Grants(def, s.run, id, o, edge) {
      GrantBecame(def, s.run, id, o, s.clock, edge);
      assert edge.from == id && edge in def.edges;
      GrantOrderly(def, s, edge, out);
      SettledOrder(def, s, id, out);
    } else {
      ReportStepsBack(def, s.run, id, o, s.clock);
      StepsBackBecame(def, s.run, id, out);
      AloneOrderly(def, s, id, out, StatusOf(out, id));
    }
  }

  lemma OrderlyPass(def: Definition, s: Sched, id: Id, o: Outcome)
    requires Valid(def) && Orderly(def, s) && id in s.inflight && Passes(s.run, o)
    ensures Orderly(def, After(def, s, Report(id, o)))
  {
    hide Valid, Reported, Settled, Closed;
    ShapeReport(def, s, id, o);
    PassBecame(def, s.run, id, o, s.clock);
    AloneOrderly(def, s, id, Reported(def, s.run, id, o, s.clock), Completed);
  }

  lemma SettledOrder(def: Definition, s: Sched, id: Id, out: Run)
    requires Closed(def, out) && forall x :: x in s.inflight && x != id ==> StatusOf(out, x) == Running
    ensures Closed(def, Settled(def, out, s.halted, s.clock))
    ensures forall x :: x in s.inflight - {id} ==> StatusOf(Settled(def, out, s.halted, s.clock), x) == Running
  {
    SettledKeeps(def, out, s.halted, s.clock);
    SameStatusClosed(def, out, Settled(def, out, s.halted, s.clock));
  }

  lemma AloneOrderly(def: Definition, s: Sched, id: Id, out: Run, st: NodeStatus)
    requires Valid(def) && Orderly(def, s) && id in s.inflight && Became(out, s.run, {id}, st) && st != Running
    ensures Closed(def, Settled(def, out, s.halted, s.clock))
    ensures forall x :: x in s.inflight - {id} ==> StatusOf(Settled(def, out, s.halted, s.clock), x) == Running
  {
    AloneClosed(def, s, id, out, st);
    SettledOrder(def, s, id, out);
  }

  lemma OrderlyFailure(def: Definition, s: Sched, id: Id, m: string, remind: bool)
    requires Valid(def) && Orderly(def, s) && id in s.inflight
    ensures Orderly(def, After(def, s, Failure(id, m, remind)))
  {
    hide Valid, FailedWith, Settled, Enabled, Closed, StepsBack, Became, StatusOf;
    var out := FailedWith(def, s.run, id, m, remind, s.clock);
    assert id in StepIds(def) && StepIds(def) <= s.run.nodes.Keys;
    FailureStepsBack(def, s.run, id, m, remind, s.clock);
    ShapeStepsBack(def, s, id, out);
    StepsBackBecame(def, s.run, id, out);
    AloneOrderly(def, s, id, out, StatusOf(out, id));
  }

  lemma OrderlyLeft(def: Definition, s: Sched, id: Id, e: Event)
    requires Valid(def) && Orderly(def, s) && Enabled(def, s, e)
    requires e == Interrupted(id) || (e.Infrastructure? && e.id == id)
    ensures Orderly(def, After(def, s, e))
  {
    ShapeLeft(def, s, id, e);
    AloneClosed(def, s, id, After(def, s, e).run, StatusOf(After(def, s, e).run, id));
  }

  lemma OrderlyBegin(def: Definition, s: Sched, ids: seq<Id>)
    requires Valid(def) && Orderly(def, s) && Enabled(def, s, Begin(ids))
    ensures Orderly(def, After(def, s, Begin(ids)))
  {
    hide Valid, Claimed;
    ShapeBegin(def, s, ids);
    ClaimedBecame(s.run, ids, s.clock);
    forall d, x | Dep(def, d, x) && x in Elements(ids) ensures StatusOf(s.run, d) == Completed && d !in Elements(ids) {
      assert Ready(def, s.run, x);
      assert d in ids ==> Ready(def, s.run, d);
    }
    forall d, x | Dep(def, d, x) && d in Elements(ids) ensures !Advanced(s.run, x) {
      assert Ready(def, s.run, d);
    }
    ClosedBecame(def, s.run, Claimed(s.run, ids, s.clock), Elements(ids), Running);
  }

  lemma NoneRunning(def: Definition, s: Sched, d: Id, x: Id)
    requires Valid(def) && Shape(def, s) && s.inflight == {} && Dep(def, d, x)
    ensures StatusOf(s.run, x) != Running
  {
    var e :| e in def.edges && IsNext(e) && e.from == d && e.to == x;
    assert ValidEdge(def, e);
  }

  lemma OrderlyMail(def: Definition, s: Sched)
    requires Valid(def) && Orderly(def, s) && Enabled(def, s, ReopenMail)
    ensures Orderly(def, After(def, s, ReopenMail))
  {
    ShapeMail(def, s);
    var mail := MailSet(def, s.run, StepIds(def));
    hide Valid, Shape, Closed, MailSet, StatusOf, Reopened, After;
    forall d, x | Dep(def, d, x) && d in mail ensures StatusOf(s.run, x) != Running {
      NoneRunning(def, s, d, x);
    }
    MailClosed(def, s.run, StepIds(def));
    MailAfter(def, s);
    SameStatusClosed(def, Reopened(s.run, mail), After(def, s, ReopenMail).run);
  }

  lemma MailAfter(def: Definition, s: Sched)
    requires Enabled(def, s, ReopenMail)
    ensures var t := After(def, s, ReopenMail);
            && t.inflight == {}
            && forall x :: StatusOf(t.run, x) == StatusOf(Reopened(s.run, MailSet(def, s.run, StepIds(def))), x)
  {
    hide MailSet;
  }

  lemma OrderlyResume(def: Definition, s: Sched, from: Id, m: string)
    requires Valid(def) && Orderly(def, s) && Enabled(def, s, ResumeRun(from, m))
    ensures Orderly(def, After(def, s, ResumeRun(from, m)))
  {
    hide Valid, Resumed, ResumedQuietly, Closed, Shape, ResumeSet, NodeOf, StatusOf, Became, Enabled;
    ShapeResume(def, s, from, m);
    ShapeKeys(def, s);
    var out := Resumed(def, s.run, from, m, s.clock);
    ResumedBecame(def, s.run, from, m, s.clock);
    ResumeClosed(def, s.run, from, s.clock);
    var quiet := ResumedQuietly(def, s.run, from, s.clock);
    QuietBecame(def, s.run, from, s.clock);
    SameStatusClosed(def, quiet, out);
  }

  lemma ShapeKeys(def: Definition, s: Sched)
    requires Shape(def, s)
    ensures StepIds(def) <= s.run.nodes.Keys
  {
  }

  lemma QuietBecame(def: Definition, run: Run, from: Id, now: int)
    requires StepIds(def) <= run.nodes.Keys
    ensures Became(ResumedQuietly(def, run, from, now), run, ResumeSet(def, run, from), Pending)
  {
    NothingToOpen(def, run);
    ResetBecame(run, ResumeSet(def, run, from), ByHuman);
  }

  lemma OrderlyKept(def: Definition, s: Sched, e: Event)
    requires Valid(def) && Contained(def) && Orderly(def, s) && Enabled(def, s, e)
    ensures Orderly(def, After(def, s, e))
  {
    hide Valid, Contained, Closed;
    match e {
      case Begin(ids) => OrderlyBegin(def, s, ids);
      case Report(id, o) => OrderlyReport(def, s, id, o);
      case Failure(id, m, remind) => OrderlyFailure(def, s, id, m, remind);
      case Infrastructure(id, m) => OrderlyLeft(def, s, id, e);
      case Interrupted(id) => OrderlyLeft(def, s, id, e);
      case NextLoop =>
        ShapeNextLoop(def, s);
        NextRoundFrontier(def, s.run, s.clock);
      case Instruct(id, m) =>
        ShapeInstruct(def, s, id, m);
        DeliveredBecame(s.run, id, m);
        SameStatusClosed(def, s.run, After(def, s, e).run);
      case ReopenMail => OrderlyMail(def, s);
      case ResumeRun(from, m) => OrderlyResume(def, s, from, m);
      case _ =>
        ShapeKept(def, s, e);
        SameStatusClosed(def, s.run, After(def, s, e).run);
    }
  }

  lemma {:induction false} OrderlyAlways(def: Definition, s: Sched, es: seq<Event>)
    requires Valid(def) && Contained(def) && Orderly(def, s) && Allowed(def, s, es)
    ensures Orderly(def, Final(def, s, es))
  {
    hide Valid, Contained, Orderly, After, Enabled;
    if es != [] {
      OrderlyAlways(def, s, es[..|es| - 1]);
      OrderlyKept(def, Final(def, s, es[..|es| - 1]), es[|es| - 1]);
    }
  }

  lemma StartedOrderly(def: Definition, runId: string, limit: Positive)
    requires Valid(def) && EntriesIn(def, def.steps) != []
    ensures Orderly(def, Started(def, runId, limit))
  {
    ShapeStarted(def, runId, limit);
    forall d, x | Dep(def, d, x) ensures !Advanced(Started(def, runId, limit).run, x) {
      var e :| e in def.edges && IsNext(e) && e.from == d && e.to == x;
      assert ValidEdge(def, e);
    }
  }

  // ---------- The other definitions can always get out of order ----------

  lemma MinimalStep(def: Definition, within: set<Id>, x: Id) returns (m: Id)
    requires Valid(def) && x in within
    ensures m in within && forall d :: Dep(def, d, m) ==> d !in within
    ensures m == x || Reaches(def, m, x)
  {
    m := Minimal(def, within, x);
  }

  lemma ReachedStep(def: Definition, a: Id, y: Id)
    requires Valid(def) && Reaches(def, a, y)
    ensures y in StepIds(def)
  {
    var last := ReachesLast(def, a, y);
    var edge :| edge in def.edges && IsNext(edge) && edge.from == last && edge.to == y;
    assert ValidEdge(def, edge);
  }

  lemma ValidAcyclic(def: Definition)
    requires Valid(def)
    ensures Acyclic(def)
  {
  }

  function ReworkOutcome(target: Id): Outcome {
    Outcome(Verdict.Rework, "again", "again", target)
  }

  lemma GrantOne(def: Definition, s: Sched, e: Edge)
    requires Valid(def) && Shape(def, s) && s.run.status == RunRunning && e.from in s.inflight
    requires e in def.edges && e.kind.Rework? && s.run.reworkRounds == map[]
    ensures Enabled(def, s, Report(e.from, ReworkOutcome(e.to)))
    ensures var t := After(def, s, Report(e.from, ReworkOutcome(e.to)));
            && Shape(def, t) && t.run.status == RunRunning && t.halted == s.halted && t.cancelled == s.cancelled
            && t.inflight == s.inflight - {e.from} && t.limit == s.limit
            && forall x :: StatusOf(t.run, x) == if x in ReworkSet(def, e.from, e.to) then Pending else StatusOf(s.run, x)
  {
    hide Valid, Reported, Settled, Shape, Grants;
    ReworkUp(def, e);
    var o := ReworkOutcome(e.to);
    GrantTaken(def, s.run, e);
    ShapeReport(def, s, e.from, o);
    var out := Reported(def, s.run, e.from, o, s.clock);
    ShapeKeys(def, s);
    GrantBecame(def, s.run, e.from, o, s.clock, e);
    SettledKeeps(def, out, s.halted, s.clock);
    assert StatusOf(out, e.from) == Pending;
  }

  lemma GrantTaken(def: Definition, run: Run, e: Edge)
    requires Valid(def) && e in def.edges && e.kind.Rework? && run.status == RunRunning && run.reworkRounds == map[]
    ensures Grants(def, run, e.from, ReworkOutcome(e.to), e)
  {
    ReworkUp(def, e);
    hide Valid, TakenOver;
    TakenExactly(def, e.from, e.to, e);
  }

  lemma SourceIsStep(def: Definition, e: Edge, y: Id)
    requires Valid(def) && Overlooked(def, e, y)
    ensures e in def.edges && e.kind.Rework? && e.from in StepIds(def) && e.to in StepIds(def)
    ensures y !in ReworkSet(def, e.from, e.to) && e.to in ReworkSet(def, e.from, e.to) && Reaches(def, e.to, y)
  {
    ReworkUp(def, e);
  }

  // ---------- Two steps side by side ----------

  /** The step has not stopped. */
  predicate GoesOn(run: Run, x: Id) {
    StatusOf(run, x) == Pending || StatusOf(run, x) == Running || StatusOf(run, x) == Completed
  }

  ghost predicate NoneStopped(def: Definition, s: Sched) {
    forall x :: x in StepIds(def) ==> GoesOn(s.run, x)
  }

  /** Neither the step nor anything above it has stopped. */
  ghost predicate FreeAbove(def: Definition, s: Sched, p: Id) {
    forall x :: x in StepIds(def) && (x == p || Reaches(def, x, p)) ==> GoesOn(s.run, x)
  }

  /** `p` runs, or is still to run and not held back by `q`. */
  ghost predicate Awaited(def: Definition, s: Sched, p: Id, q: Id) {
    && p != q && p in StepIds(def) && StatusOf(s.run, p) != Completed
    && if p in s.inflight then StatusOf(s.run, p) == Running else !Reaches(def, q, p)
  }

  /** While one of them is not in flight, the other alone cannot keep the scheduler from starting. */
  lemma SomethingStarts(def: Definition, s: Sched, p: Id, q: Id)
    requires Valid(def) && Busy(def, s) && FreeAbove(def, s, p) && Awaited(def, s, p, q) && p !in s.inflight
    requires s.inflight <= {q} && |s.inflight| < s.limit
    ensures Starts(def, s)
  {
    hide Starts, Valid, Reaches, Acyclic;
    var idle := set x | x in StepIds(def) && StatusOf(s.run, x) == Pending && x !in s.inflight;
    assert p in idle;
    var m := MinimalStep(def, idle, p);
    if !Starts(def, s) {
      forall d | Dep(def, d, m) ensures StatusOf(s.run, d) == Completed {
        DepReaches(def, d, m);
        SourceStep(def, d, m);
        if m != p { ReachesTransitive(def, d, m, p); }
      }
      NothingWaits(def, s, m);
    }
  }

  /** Otherwise some third step can pass. */
  lemma ThirdStep(def: Definition, s: Sched, p: Id, q: Id) returns (z: Id)
    requires Valid(def) && Busy(def, s) && NoneStopped(def, s) && Awaited(def, s, p, q) && Awaited(def, s, q, p)
    requires !Starts(def, s) && s.limit >= 2 && (p !in s.inflight || q !in s.inflight)
    ensures z in s.inflight && z != p && z != q
  {
    hide Starts, Valid, Busy;
    if forall x :: x in s.inflight ==> x == p || x == q {
      SubsetCard(s.inflight, if p in s.inflight then {p} else {q});
      if p !in s.inflight { SomethingStarts(def, s, p, q); } else { SomethingStarts(def, s, q, p); }
    }
    z :| z in s.inflight && z != p && z != q;
  }

  /** The scheduler, left to itself, comes to run both side by side: what else is in flight passes. */
  lemma ReachBoth(def: Definition, start: Sched, es0: seq<Event>, p: Id, q: Id) returns (es: seq<Event>)
    requires Valid(def) && Driven(def, start, es0) && start.limit >= 2
    requires var s := Final(def, start, es0); NoneStopped(def, s) && Awaited(def, s, p, q) && Awaited(def, s, q, p)
    ensures Driven(def, start, es) && Extends(es0, es)
    ensures var s, t := Final(def, start, es0), Final(def, start, es);
            && p in t.inflight && q in t.inflight && BothRunning(t.run, p, q) && !Starts(def, t) && NoneStopped(def, t)
            && t.run.reworkRounds == s.run.reworkRounds && (Orderly(def, s) ==> Orderly(def, t))
    decreases |Undone(def, Final(def, start, es0))|, |Idle(def, Final(def, start, es0))|
  {
    hide Valid, Starts, Orderly, Enabled, After, Prompt, Undone, Idle, Shape;
    var s := Final(def, start, es0);
    if Starts(def, s) {
      var more := FillNext(def, start, es0);
      if Orderly(def, s) { OrderlyBegin(def, s, Fill(def, s)); }
      es := ReachBoth(def, start, more, p, q);
    } else if p in s.inflight && q in s.inflight {
      es := es0;
    } else {
      var z := ThirdStep(def, s, p, q);
      var more := PassNext(def, start, es0, z, p);
      if Orderly(def, s) { OrderlyPass(def, s, z, PassOutcome()); }
      es := ReachBoth(def, start, more, p, q);
    }
  }

  /** What has been completed, or has stopped, stays so, and no further step stops. */
  ghost predicate Onward(s: Sched, t: Sched) {
    && (forall x :: StatusOf(s.run, x) != Pending && x !in s.inflight ==>
          StatusOf(t.run, x) == StatusOf(s.run, x) && x !in t.inflight)
    && (forall x :: GoesOn(s.run, x) ==> GoesOn(t.run, x))
    && t.run.reworkRounds == s.run.reworkRounds
  }

  /** It also comes to run a step alone, if nothing above the step has stopped. */
  lemma ReachAlone(def: Definition, start: Sched, es0: seq<Event>, p: Id, q: Id) returns (es: seq<Event>)
    requires Valid(def) && Driven(def, start, es0) && FreeAbove(def, Final(def, start, es0), p)
    requires Awaited(def, Final(def, start, es0), p, q)
    ensures Driven(def, start, es) && Extends(es0, es)
    ensures var s, t := Final(def, start, es0), Final(def, start, es);
            t.inflight == {p} && StatusOf(t.run, p) == Running && !Starts(def, t) && Onward(s, t)
    decreases |Undone(def, Final(def, start, es0))|, |Idle(def, Final(def, start, es0))|
  {
    hide Valid, Starts, Enabled, After, Prompt, Undone, Idle, Shape, Onward, Reaches, FreeAbove, Ready, Fill;
    var s := Final(def, start, es0);
    if Starts(def, s) {
      var more := FillNext(def, start, es0);
      OnwardFill(def, s, Final(def, start, more), Fill(def, s), p);
      es := ReachAlone(def, start, more, p, q);
      OnwardTwice(s, Final(def, start, more), Final(def, start, es));
    } else if z :| z in s.inflight && z != p {
      var more := PassNext(def, start, es0, z, p);
      OnwardPass(def, s, Final(def, start, more), z, p);
      es := ReachAlone(def, start, more, p, q);
      OnwardTwice(s, Final(def, start, more), Final(def, start, es));
    } else {
      es := es0;
      if p !in s.inflight { SomethingStarts(def, s, p, q); }
      assert s.inflight == {p};
      OnwardSame(s);
    }
  }

  lemma OnwardFill(def: Definition, s: Sched, t: Sched, ids: seq<Id>, p: Id)
    requires t.inflight == s.inflight + Elements(ids) && t.run.reworkRounds == s.run.reworkRounds
    requires forall x :: StatusOf(t.run, x) == if x in ids then Running else StatusOf(s.run, x)
    requires forall x :: x in ids ==> Ready(def, s.run, x)
    ensures Onward(s, t) && (FreeAbove(def, s, p) ==> FreeAbove(def, t, p))
  {
    hide StatusOf, Reaches;
  }

  lemma OnwardPass(def: Definition, s: Sched, t: Sched, id: Id, p: Id)
    requires t.inflight == s.inflight - {id} && id in s.inflight && t.run.reworkRounds == s.run.reworkRounds
    requires forall x :: StatusOf(t.run, x) == if x == id then Completed else StatusOf(s.run, x)
    ensures Onward(s, t) && (FreeAbove(def, s, p) ==> FreeAbove(def, t, p))
  {
    hide StatusOf, Reaches;
  }

  lemma OnwardTwice(s: Sched, t: Sched, u: Sched)
    requires Onward(s, t) && Onward(t, u)
    ensures Onward(s, u)
  {
    hide StatusOf;
  }

  lemma OnwardSame(s: Sched)
    ensures Onward(s, s)
  {
  }

  /** Whenever a step is overlooked by a rework edge and two steps may run at once, the scheduler
      by itself can come to run the edge's target and that step, which depends on it, at the same time. */
  lemma Overtake(def: Definition, runId: string, limit: Positive, e: Edge, y: Id) returns (es: seq<Event>)
    requires Valid(def) && EntriesIn(def, def.steps) != [] && Overlooked(def, e, y) && limit >= 2
    ensures Allowed(def, Started(def, runId, limit), es) && Prompt(def, Started(def, runId, limit), es) && AllAutomatic(es)
    ensures BothRunning(Final(def, Started(def, runId, limit), es).run, e.to, y)
  {
    hide Valid, After, Enabled, Started, Prompt, Overlooked, Awaited, NoneStopped, Orderly, Starts, Shape, ReworkSet;
    var start := Started(def, runId, limit);
    StartedBusy(def, runId, limit, e, y);
    es := ReachBoth(def, start, [], e.from, y);
    var sent := SendBack(def, start, es, e, y);
    es := ReachBoth(def, start, sent, e.to, y);
  }

  lemma StartedBusy(def: Definition, runId: string, limit: Positive, e: Edge, y: Id)
    requires Valid(def) && EntriesIn(def, def.steps) != [] && Overlooked(def, e, y)
    ensures var s := Started(def, runId, limit);
            && Driven(def, s, []) && NoneStopped(def, s) && Orderly(def, s) && s.run.reworkRounds == map[] && s.limit == limit
            && Awaited(def, s, e.from, y) && Awaited(def, s, y, e.from)
  {
    hide Valid, Overlooked, Reaches, Orderly, Started, Busy;
    StartedPlainly(def, runId, limit);
    StartedOrderly(def, runId, limit);
    OverlookedApart(def, e, y);
  }

  lemma StartedPlainly(def: Definition, runId: string, limit: Positive)
    requires Valid(def) && EntriesIn(def, def.steps) != []
    ensures var s := Started(def, runId, limit);
            && Driven(def, s, []) && NoneStopped(def, s) && s.inflight == {} && s.run.reworkRounds == map[] && s.limit == limit
            && forall x :: x in StepIds(def) ==> StatusOf(s.run, x) == Pending
  {
    hide Valid;
    ShapeStarted(def, runId, limit);
    NothingDriven(def, Started(def, runId, limit));
  }

  lemma OverlookedApart(def: Definition, e: Edge, y: Id)
    requires Valid(def) && Overlooked(def, e, y)
    ensures e.from in StepIds(def) && y in StepIds(def) && e.from != y && !Reaches(def, e.from, y) && !Reaches(def, y, e.from)
  {
    hide Valid;
    SourceIsStep(def, e, y);
    ReachedStep(def, e.to, y);
    InDescendants(def, e.to, y);
  }

  /** The source sends work back while the overlooked step runs on. */
  lemma SendBack(def: Definition, start: Sched, es0: seq<Event>, e: Edge, y: Id) returns (es: seq<Event>)
    requires Valid(def) && Driven(def, start, es0) && Overlooked(def, e, y)
    requires var s := Final(def, start, es0);
             && e.from in s.inflight && y in s.inflight && BothRunning(s.run, e.from, y) && !Starts(def, s)
             && NoneStopped(def, s) && Orderly(def, s) && s.run.reworkRounds == map[]
    ensures Driven(def, start, es) && Extends(es0, es)
    ensures var t := Final(def, start, es); NoneStopped(def, t) && Awaited(def, t, e.to, y) && Awaited(def, t, y, e.to)
  {
    hide Valid, After, Enabled, Prompt, Overlooked, Starts, ReworkSet, Closed;
    var s, report := Final(def, start, es0), Report(e.from, ReworkOutcome(e.to));
    SourceIsStep(def, e, y);
    TargetBelowNothing(def, s, e, y);
    GrantOne(def, s, e);
    RoomStep(def, s, report);
    DriveOne(def, start, es0, report);
    es := es0 + [report];
  }

  lemma TargetBelowNothing(def: Definition, s: Sched, e: Edge, y: Id)
    requires Valid(def) && Overlooked(def, e, y) && Orderly(def, s) && StatusOf(s.run, e.from) == Running
    ensures e.to !in s.inflight && !Reaches(def, y, e.to) && y != e.to && y in StepIds(def)
  {
    ReworkUp(def, e);
    ValidAcyclic(def);
    ReachedStep(def, e.to, y);
    hide Valid;
    AboveCompleted(def, s.run, e.to, e.from);
    if Reaches(def, y, e.to) { ReachesTransitive(def, e.to, y, e.to); }
  }

  // ---------- One step at a time ----------

  /** The step running alone asks a question, and the run is resumed from another. */
  lemma AskAndResume(def: Definition, start: Sched, es0: seq<Event>, asks: Id, from: Id) returns (es: seq<Event>)
    requires Valid(def) && Driven(def, start, es0) && from in StepIds(def)
    requires Final(def, start, es0).inflight == {asks} && !Starts(def, Final(def, start, es0))
    ensures Driven(def, start, es)
    ensures var s, t := Final(def, start, es0), Final(def, start, es);
            && t.inflight == {} && t.run.reworkRounds == map[]
            && forall x :: StatusOf(t.run, x) ==
                 if x in ResumeSet(def, s.run, from) then Pending else if x == asks then Paused else StatusOf(s.run, x)
  {
    hide Valid, Enabled, After, Prompt, Starts, Shape, ResumeSet;
    var s, ask := Final(def, start, es0), Report(asks, Outcome(AskHuman, "Which one?", "", ""));
    AskedStops(def, s, asks);
    var t := After(def, s, ask);
    PromptOne(def, start, es0, ask);
    Restarted(def, t, from);
    PromptOne(def, start, es0 + [ask], ResumeRun(from, ""));
    es := es0 + [ask] + [ResumeRun(from, "")];
    SameResumeSet(def, s.run, t.run, from);
  }

  lemma AskedStops(def: Definition, s: Sched, asks: Id)
    requires Busy(def, s) && s.inflight == {asks} && !Starts(def, s)
    ensures var ask := Report(asks, Outcome(AskHuman, "Which one?", "", ""));
            && Enabled(def, s, ask) && InTurn(def, s, ask)
            && var t := After(def, s, ask);
               && Shape(def, t) && t.inflight == {} && t.run.status == RunPaused && t.limit == s.limit
               && forall x :: StatusOf(t.run, x) == if x == asks then Paused else StatusOf(s.run, x)
  {
    var ask := Outcome(AskHuman, "Which one?", "", "");
    assert asks in StepIds(def) && StepIds(def) <= s.run.nodes.Keys;
    hide Shape, Starts, After;
    AskedAfter(def, s, asks, "Which one?");
    ShapeReport(def, s, asks, ask);
    LimitStep(def, s, Report(asks, ask));
  }

  lemma SameResumeSet(def: Definition, a: Run, b: Run, from: Id)
    requires from in StepIds(def) && Valid(def)
    ensures ResumeSet(def, a, from) == ResumeSet(def, b, from) == {from} + DescendantSet(def, from)
  {
    assert from != "";
  }

  /** A run at rest is resumed from one of its steps. */
  lemma Restarted(def: Definition, s: Sched, from: Id)
    requires Valid(def) && Shape(def, s) && s.inflight == {} && s.run.status == RunPaused && from in StepIds(def)
    ensures Enabled(def, s, ResumeRun(from, "")) && InTurn(def, s, ResumeRun(from, ""))
    ensures var t := After(def, s, ResumeRun(from, ""));
            && Busy(def, t) && t.limit == s.limit && t.inflight == {} && t.run.reworkRounds == map[]
            && forall x :: StatusOf(t.run, x) == if x in ResumeSet(def, s.run, from) then Pending else StatusOf(s.run, x)
  {
    ShapeKeys(def, s);
    hide Valid, Shape, Resumed, ResumeSet;
    ShapeResume(def, s, from, "");
    ResumedBecame(def, s.run, from, "", s.clock);
  }

  /** With nothing in flight the run is interrupted, and resumed from a step. */
  lemma StopAndResume(def: Definition, start: Sched, es0: seq<Event>, from: Id) returns (es: seq<Event>)
    requires Valid(def) && Driven(def, start, es0) && from in StepIds(def) && Final(def, start, es0).inflight == {}
    ensures Driven(def, start, es)
    ensures var s, t := Final(def, start, es0), Final(def, start, es);
            && t.inflight == {} && t.run.reworkRounds == map[]
            && forall x :: StatusOf(t.run, x) == if x in ResumeSet(def, s.run, from) then Pending else StatusOf(s.run, x)
  {
    hide Valid, Enabled, After, Prompt, Shape, ResumeSet;
    var s := Final(def, start, es0);
    Stopped(def, s);
    PromptOne(def, start, es0, CancelContext);
    var t := After(def, s, CancelContext);
    PromptOne(def, start, es0 + [CancelContext], PauseRun(""));
    var u := After(def, t, PauseRun(""));
    Restarted(def, u, from);
    PromptOne(def, start, es0 + [CancelContext] + [PauseRun("")], ResumeRun(from, ""));
    es := es0 + [CancelContext] + [PauseRun("")] + [ResumeRun(from, "")];
    SameResumeSet(def, s.run, u.run, from);
  }

  lemma Stopped(def: Definition, s: Sched)
    requires Valid(def) && Busy(def, s) && s.inflight == {}
    ensures Enabled(def, s, CancelContext) && InTurn(def, s, CancelContext)
    ensures var t := After(def, s, CancelContext);
            && Enabled(def, t, PauseRun("")) && InTurn(def, t, PauseRun(""))
            && var u := After(def, t, PauseRun(""));
               && Shape(def, u) && u.inflight == {} && u.run.status == RunPaused && u.limit == s.limit
               && forall x :: StatusOf(u.run, x) == StatusOf(s.run, x)
  {
    hide Valid, Shape, Blocked;
    ShapeKept(def, s, CancelContext);
    ShapeKept(def, After(def, s, CancelContext), PauseRun(""));
  }

  /** The source runs alone, and what it sends back leaves the overlooked step standing. */
  lemma SendBackAlone(def: Definition, start: Sched, es0: seq<Event>, e: Edge, y: Id) returns (es: seq<Event>)
    requires Valid(def) && Driven(def, start, es0) && Overlooked(def, e, y)
    requires var s := Final(def, start, es0);
             s.inflight == {e.from} && !Starts(def, s) && s.run.reworkRounds == map[] && StatusOf(s.run, y) == Completed
    ensures Driven(def, start, es) && Extends(es0, es) && !Closed(def, Final(def, start, es).run)
  {
    hide Valid, After, Enabled, Prompt, Overlooked, Starts, ReworkSet, Closed, Shape;
    var s, report := Final(def, start, es0), Report(e.from, ReworkOutcome(e.to));
    SourceIsStep(def, e, y);
    GrantOne(def, s, e);
    DriveOne(def, start, es0, report);
    es := es0 + [report];
    var run := Final(def, start, es).run;
    assert StatusOf(run, e.to) == Pending && StatusOf(run, y) == Completed;
    if Closed(def, run) { AboveCompleted(def, run, e.to, y); }
  }

  /** If the source comes to run before the overlooked step is completed, it asks a question;
      the overlooked step runs in the meantime, and then the source again. */
  lemma LetPass(def: Definition, start: Sched, es0: seq<Event>, e: Edge, y: Id) returns (es: seq<Event>)
    requires Valid(def) && Driven(def, start, es0) && Overlooked(def, e, y)
    requires var s := Final(def, start, es0); s.inflight == {e.from} && !Starts(def, s) && NoneStopped(def, s)
    ensures Driven(def, start, es)
    ensures var t := Final(def, start, es);
            && t.inflight == {e.from} && !Starts(def, t) && t.run.reworkRounds == map[] && StatusOf(t.run, y) == Completed
  {
    hide Valid, After, Enabled, Prompt, Starts, Overlooked, Shape, Busy, GoesOn, Onward, StatusOf, ResumeSet;
    OverlookedApart(def, e, y);
    var s := Final(def, start, es0);
    es := AskAndResume(def, start, es0, e.from, y);
    var t := Final(def, start, es);
    ResumedAt(def, s.run, y);
    AskedFree(def, s, t, e.from, y);
    es := ReachAlone(def, start, es, y, e.from);
    var u := Final(def, start, es);
    LeftAsWas(def, t, u, e.from);
    es := PassNext(def, start, es, y, e.from);
    var v := Final(def, start, es);
    es := StopAndResume(def, start, es, e.from);
    var w := Final(def, start, es);
    ResumedAt(def, v.run, e.from);
    AgainFree(def, u, v, w, e.from, y);
    es := ReachAlone(def, start, es, e.from, y);
    DoneStays(w, Final(def, start, es), y);
  }

  lemma ResumedAt(def: Definition, run: Run, from: Id)
    requires Valid(def) && from in StepIds(def)
    ensures forall x :: x in ResumeSet(def, run, from) <==> x == from || Reaches(def, from, x)
  {
    SameResumeSet(def, run, run, from);
    hide Valid, Reaches, ResumeSet;
    forall x ensures x in DescendantSet(def, from) <==> Reaches(def, from, x) { InDescendants(def, from, x); }
  }

  lemma AskedFree(def: Definition, s: Sched, t: Sched, asks: Id, y: Id)
    requires NoneStopped(def, s) && t.inflight == {} && y in StepIds(def) && asks != y
    requires !Reaches(def, asks, y) && !Reaches(def, y, asks)
    requires forall x :: x in ResumeSet(def, s.run, y) <==> x == y || Reaches(def, y, x)
    requires forall x :: StatusOf(t.run, x) ==
               if x in ResumeSet(def, s.run, y) then Pending else if x == asks then Paused else StatusOf(s.run, x)
    ensures FreeAbove(def, t, y) && Awaited(def, t, y, asks) && StatusOf(t.run, asks) == Paused
    ensures forall x :: x in StepIds(def) && x != asks ==> GoesOn(t.run, x)
  {
    hide Reaches, ResumeSet, StatusOf;
  }

  /** What has stopped is left as it was. */
  lemma LeftAsWas(def: Definition, t: Sched, u: Sched, asks: Id)
    requires Onward(t, u) && t.inflight == {} && StatusOf(t.run, asks) == Paused
    requires forall x :: x in StepIds(def) && x != asks ==> GoesOn(t.run, x)
    ensures StatusOf(u.run, asks) == Paused && forall x :: x in StepIds(def) && x != asks ==> GoesOn(u.run, x)
  {
    hide StatusOf;
  }

  lemma AgainFree(def: Definition, u: Sched, v: Sched, w: Sched, asks: Id, y: Id)
    requires asks in StepIds(def) && asks != y && !Reaches(def, asks, y) && !Reaches(def, y, asks) && w.inflight == {}
    requires forall x :: x in StepIds(def) && x != asks ==> GoesOn(u.run, x)
    requires forall x :: StatusOf(v.run, x) == if x == y then Completed else StatusOf(u.run, x)
    requires forall x :: x in ResumeSet(def, v.run, asks) <==> x == asks || Reaches(def, asks, x)
    requires forall x :: StatusOf(w.run, x) == if x in ResumeSet(def, v.run, asks) then Pending else StatusOf(v.run, x)
    ensures FreeAbove(def, w, asks) && Awaited(def, w, asks, y) && StatusOf(w.run, y) == Completed
  {
    hide Reaches, ResumeSet, StatusOf;
  }

  lemma DoneStays(s: Sched, t: Sched, x: Id)
    requires Onward(s, t) && StatusOf(s.run, x) == Completed && x !in s.inflight
    ensures StatusOf(t.run, x) == Completed && t.run.reworkRounds == s.run.reworkRounds
  {
    hide StatusOf;
  }

  /** Whatever the concurrency limit, the overlooked step can be left standing on the reopened
      target: by the scheduler alone when two steps may run at once, else once a person has
      answered a question and resumed the run. */
  lemma LeftStanding(def: Definition, runId: string, limit: Positive, e: Edge, y: Id) returns (es: seq<Event>)
    requires Valid(def) && EntriesIn(def, def.steps) != [] && Overlooked(def, e, y)
    ensures Allowed(def, Started(def, runId, limit), es) && Prompt(def, Started(def, runId, limit), es)
    ensures !Closed(def, Final(def, Started(def, runId, limit), es).run) && (limit >= 2 ==> AllAutomatic(es))
  {
    hide Valid, After, Enabled, Started, Prompt, Overlooked, Awaited, NoneStopped, Orderly, Starts, Shape, Closed, Onward;
    var start := Started(def, runId, limit);
    SourceIsStep(def, e, y);
    if limit >= 2 {
      es := Overtake(def, runId, limit, e, y);
      if Closed(def, Final(def, start, es).run) { ClosedNotBoth(def, Final(def, start, es).run, e.to, y); }
    } else {
      StartedBusy(def, runId, limit, e, y);
      FreeEverywhere(def, start, e.from);
      es := ReachAlone(def, start, [], e.from, y);
      var s := Final(def, start, es);
      OnwardFree(def, start, s);
      if StatusOf(s.run, y) != Completed { es := LetPass(def, start, es, e, y); }
      es := SendBackAlone(def, start, es, e, y);
    }
  }

  lemma FreeEverywhere(def: Definition, s: Sched, p: Id)
    requires NoneStopped(def, s)
    ensures FreeAbove(def, s, p)
  {
  }

  lemma OnwardFree(def: Definition, s: Sched, t: Sched)
    requires NoneStopped(def, s) && Onward(s, t)
    ensures NoneStopped(def, t) && t.run.reworkRounds == s.run.reworkRounds
  {
    hide GoesOn, StatusOf;
  }

  // ---------- The exact condition ----------

  ghost predicate AlwaysClosed(def: Definition, limit: Positive)
    requires EntriesIn(def, def.steps) != []
  {
    forall runId, es :: Allowed(def, Started(def, runId, limit), es) ==>
      Closed(def, Final(def, Started(def, runId, limit), es).run)
  }

  ghost predicate AlwaysClosedInTurn(def: Definition, limit: Positive)
    requires EntriesIn(def, def.steps) != []
  {
    forall runId, es :: Allowed(def, Started(def, runId, limit), es) && Prompt(def, Started(def, runId, limit), es) ==>
      Closed(def, Final(def, Started(def, runId, limit), es).run)
  }

  /** No schedule ever runs a step together with one that depends on it. */
  ghost predicate NeverOvertaken(def: Definition, limit: Positive)
    requires EntriesIn(def, def.steps) != []
  {
    forall runId, es, a, b :: Allowed(def, Started(def, runId, limit), es) && Reaches(def, a, b) ==>
      !BothRunning(Final(def, Started(def, runId, limit), es).run, a, b)
  }

  /** Nor does the scheduler when it keeps to its discipline. */
  ghost predicate NeverOvertakenInTurn(def: Definition, limit: Positive)
    requires EntriesIn(def, def.steps) != []
  {
    forall runId, es, a, b ::
      Allowed(def, Started(def, runId, limit), es) && Prompt(def, Started(def, runId, limit), es) && Reaches(def, a, b) ==>
      !BothRunning(Final(def, Started(def, runId, limit), es).run, a, b)
  }

  predicate BothRunning(run: Run, a: Id, b: Id) {
    StatusOf(run, a) == Running && StatusOf(run, b) == Running
  }

  /** Over all schedules, human steps included, a valid definition stays closed exactly when
      it is contained, and never overtakes exactly when it is contained or runs one step at a time.
      Keeping to the scheduler's discipline changes neither. */
  lemma OrderExactly(def: Definition, limit: Positive)
    requires Valid(def) && EntriesIn(def, def.steps) != []
    ensures AlwaysClosed(def, limit) <==> Contained(def)
    ensures AlwaysClosedInTurn(def, limit) <==> Contained(def)
    ensures NeverOvertaken(def, limit) <==> Contained(def) || limit == 1
    ensures NeverOvertakenInTurn(def, limit) <==> Contained(def) || limit == 1
  {
    hide Valid, Closed, After, Enabled, Started, ReworkSet, Prompt;
    if Contained(def) {
      forall runId, es | Allowed(def, Started(def, runId, limit), es)
        ensures Closed(def, Final(def, Started(def, runId, limit), es).run)
        ensures forall a, b :: Reaches(def, a, b) ==> !BothRunning(Final(def, Started(def, runId, limit), es).run, a, b)
      {
        StartedOrderly(def, runId, limit);
        OrderlyAlways(def, Started(def, runId, limit), es);
        var run := Final(def, Started(def, runId, limit), es).run;
        forall a, b | Reaches(def, a, b) ensures !BothRunning(run, a, b) { ClosedNotBoth(def, run, a, b); }
      }
    } else {
      var e, y :| Overlooked(def, e, y);
      var es := LeftStanding(def, "", limit, e, y);
      if limit >= 2 {
        var both := Overtake(def, "", limit, e, y);
        SourceIsStep(def, e, y);
        assert BothRunning(Final(def, Started(def, "", limit), both).run, e.to, y);
      } else {
        forall runId, es, a, b | Allowed(def, Started(def, runId, limit), es) && Reaches(def, a, b)
          ensures !BothRunning(Final(def, Started(def, runId, limit), es).run, a, b)
        {
          OneAtATime(def, runId, es, a, b);
        }
      }
    }
  }

  lemma OneAtATime(def: Definition, runId: string, es: seq<Event>, a: Id, b: Id)
    requires Valid(def) && EntriesIn(def, def.steps) != [] && Reaches(def, a, b)
    requires Allowed(def, Started(def, runId, 1), es)
    ensures !BothRunning(Final(def, Started(def, runId, 1), es).run, a, b)
  {
    hide Valid, After, Enabled, Started;
    var s := Final(def, Started(def, runId, 1), es);
    ShapeStarted(def, runId, 1);
    NothingStarted(def, runId, 1);
    ShapeAlways(def, Started(def, runId, 1), es);
    WithinRoom(def, Started(def, runId, 1), es);
    ReachedStep(def, a, b);
    SourceStep(def, a, b);
    RunningInFlight(def, s, a, b);
  }

  lemma NothingStarted(def: Definition, runId: string, limit: Positive)
    requires EntriesIn(def, def.steps) != []
    ensures Started(def, runId, limit).inflight == {} && Started(def, runId, limit).limit == limit
  {
  }

  lemma RunningInFlight(def: Definition, s: Sched, a: Id, b: Id)
    requires Valid(def) && Shape(def, s) && |s.inflight| <= 1 && Reaches(def, a, b)
    requires a in StepIds(def) && b in StepIds(def)
    ensures !BothRunning(s.run, a, b)
  {
    ValidAcyclic(def);
    hide Valid;
    if BothRunning(s.run, a, b) {
      assert a in s.inflight && b in s.inflight && a != b;
      SubsetCard({a, b}, s.inflight);
    }
  }

  lemma SourceStep(def: Definition, a: Id, b: Id)
    requires Valid(def) && Reaches(def, a, b)
    ensures a in StepIds(def)
  {
    var first := ReachesFirst(def, a, b);
    var edge :| edge in def.edges && IsNext(edge) && edge.from == a && edge.to == first;
    assert ValidEdge(def, edge);
  }

  lemma ClosedNotBoth(def: Definition, run: Run, a: Id, b: Id)
    requires Closed(def, run) && Reaches(def, a, b)
    ensures !BothRunning(run, a, b)
  {
    if BothRunning(run, a, b) { AboveCompleted(def, run, a, b); }
  }

  /** On a contained definition no schedule ever lets two steps that may write run, or be
      ready, at the same time. */
  lemma WritersNeverMeet(def: Definition, runId: string, limit: Positive, es: seq<Event>, a: Step, b: Step)
    requires Valid(def) && EntriesIn(def, def.steps) != [] && Contained(def) && Allowed(def, Started(def, runId, limit), es)
    requires a in def.steps && b in def.steps && StepWrites(a) && StepWrites(b)
    requires Active(def, Final(def, Started(def, runId, limit), es).run, a.id)
    requires Active(def, Final(def, Started(def, runId, limit), es).run, b.id)
    ensures a.id == b.id
  {
    hide Valid, Contained, After, Enabled, Started, Active, Closed;
    StartedOrderly(def, runId, limit);
    OrderlyAlways(def, Started(def, runId, limit), es);
    OneWriter(def, Final(def, Started(def, runId, limit), es).run, a, b);
  }
}
