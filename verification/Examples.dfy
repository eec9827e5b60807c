/** The inputs on which a property one would expect fails: a definition and runs of it. */
module Examples {
  import opened Graph
  import opened Validation
  import opened Engine
  import opened Ordering
  import opened Scheduler
  import opened Promptness
  import opened OrderSafety
  import opened Progress
  import Composer
  import Editing
  import Text

  // ---------- A fork with a rework edge ----------

  function Reader(id: Id): Step {
    Step(id, id, Agent, "read-only")
  }

  /** `b` and `c` depend on `a`, and `b` may send work back to it. */
  function Fork(failures: int): Definition {
    Definition("fork", "fork", [Reader("a"), Reader("b"), Reader("c")],
               [Edge("a", "b", Next, 0), Edge("a", "c", Next, 0), SENT_BACK], Policy(1, failures), false)
  }

  const SENT_BACK := Edge("b", "a", EdgeKind.Rework, 0)

  lemma ForkDeps(failures: int, x: Id, y: Id)
    ensures Dep(Fork(failures), x, y) <==> x == "a" && (y == "b" || y == "c")
  {
    var edges := Fork(failures).edges;
    assert forall e :: e in edges ==> e == edges[0] || e == edges[1] || e == edges[2];
    assert edges[0] in edges && edges[1] in edges;
  }

  lemma ForkSteps(failures: int)
    ensures StepIds(Fork(failures)) == {"a", "b", "c"}
    ensures forall s :: s in Fork(failures).steps <==> s == Reader("a") || s == Reader("b") || s == Reader("c")
  {
    var steps := Fork(failures).steps;
    assert forall s :: s in steps ==> s == steps[0] || s == steps[1] || s == steps[2];
    assert steps[0] in steps && steps[1] in steps && steps[2] in steps;
  }

  /** Paths lead from `a` only, and one step far. */
  lemma ForkReaches(failures: int, x: Id, y: Id)
    ensures Reaches(Fork(failures), x, y) <==> x == "a" && (y == "b" || y == "c")
  {
    hide Fork;
    var def := Fork(failures);
    if x == "a" && (y == "b" || y == "c") {
      ForkDeps(failures, x, y);
      DepReaches(def, x, y);
    }
    if Reaches(def, x, y) {
      var z := ReachesFirst(def, x, y);
      ForkDeps(failures, x, z);
      if z != y {
        var u := ReachesFirst(def, z, y);
        ForkDeps(failures, z, u);
      }
    }
  }

  lemma Named(id: string)
    requires id == "a" || id == "b" || id == "c" || id == "fork"
    ensures IsIdentifier(id) && !Text.Blank(id)
  {
    assert !Text.IsSpace(id[0]);
  }

  lemma ForkWellFormed(failures: int)
    requires 1 <= failures <= MAX_FAILURES_LIMIT
    ensures WellFormed(Fork(failures))
  {
    hide IsIdentifier, Text.Blank;
    var def := Fork(failures);
    ForkSteps(failures);
    Named("a");
    Named("b");
    Named("c");
    Named("fork");
    assert def.edges == [Edge("a", "b", Next, 0), Edge("a", "c", Next, 0), SENT_BACK];
  }

  lemma ForkValid(failures: int)
    requires 1 <= failures <= MAX_FAILURES_LIMIT
    ensures Valid(Fork(failures)) && EntriesIn(Fork(failures), Fork(failures).steps) != []
  {
    hide Fork, WellFormed, Acyclic, ReworkGoesUp, WritersOrdered;
    ForkWellFormed(failures);
    ForkOrdered(failures);
    FirstEntry(Fork(failures));
  }

  lemma ForkOrdered(failures: int)
    ensures Acyclic(Fork(failures)) && ReworkGoesUp(Fork(failures)) && WritersOrdered(Fork(failures))
  {
    var def := Fork(failures);
    ForkSteps(failures);
    assert forall e :: e in def.edges && e.kind.Rework? ==> e == SENT_BACK;
    hide Fork;
    forall x ensures !Reaches(def, x, x) { ForkReaches(failures, x, x); }
    ForkReaches(failures, "a", "b");
  }

  lemma FirstEntry(def: Definition)
    requires Valid(def)
    ensures EntriesIn(def, def.steps) != []
  {
    forall e | e in def.edges ensures e.from in StepIds(def) { assert ValidEdge(def, e); }
    hide ValidEdge;
    EntryExists(def);
  }

  /** A valid definition need not be contained: sending work back from `b` to `a` overlooks `c`. */
  lemma ForkOverlooks(failures: int)
    ensures Overlooked(Fork(failures), SENT_BACK, "c") && !Contained(Fork(failures))
  {
    var def := Fork(failures);
    assert def.edges[2] == SENT_BACK && SENT_BACK in def.edges;
    hide Fork;
    ForkReaches(failures, "a", "c");
    ForkReaches(failures, "b", "c");
    ForkReaches(failures, "c", "b");
    InDescendants(def, "a", "c");
    InAncestors(def, "b", "c");
  }

  // ---------- A resume that leaves a stopped step behind ----------

  /** Wherever a step is neither another nor below it, the scheduler can by itself come to run the
      one alone; it asks a question, and the run can be resumed from the other. */
  lemma ResumeElsewhere(def: Definition, runId: string, limit: Positive, asks: Id, from: Id, m: string)
    returns (es: seq<Event>)
    requires Valid(def) && EntriesIn(def, def.steps) != []
    requires asks in StepIds(def) && from in StepIds(def) && from != ""
    requires from != asks && !Reaches(def, from, asks)
    ensures Allowed(def, Started(def, runId, limit), es) && Prompt(def, Started(def, runId, limit), es) && AllAutomatic(es)
    ensures Enabled(def, Final(def, Started(def, runId, limit), es), ResumeRun(from, m))
    ensures LeavesWaiting(def, Final(def, Started(def, runId, limit), es).run, from)
  {
    hide Valid, After, Enabled, Started, Shape, Starts, Prompt, LeavesWaiting, NoneStopped, Reaches;
    var start := Started(def, runId, limit);
    StartedPlainly(def, runId, limit);
    FreeEverywhere(def, start, asks);
    es := ReachAlone(def, start, [], asks, from);
    var ask := Report(asks, Outcome(AskHuman, "Which one?", "", ""));
    AskedWaits(def, Final(def, start, es), asks, from, m);
    PromptOne(def, start, es, ask);
    es := es + [ask];
  }

  lemma AskedWaits(def: Definition, s: Sched, asks: Id, from: Id, m: string)
    requires Shape(def, s) && s.run.status == RunRunning && s.inflight == {asks}
    requires asks in StepIds(def) && from in StepIds(def) && from != "" && from != asks && !Reaches(def, from, asks)
    ensures var ask := Report(asks, Outcome(AskHuman, "Which one?", "", ""));
            && Enabled(def, s, ask) && Enabled(def, After(def, s, ask), ResumeRun(from, m))
            && LeavesWaiting(def, After(def, s, ask).run, from)
  {
    var ask := Report(asks, Outcome(AskHuman, "Which one?", "", ""));
    assert StepIds(def) <= s.run.nodes.Keys;
    hide Shape, After, LeavesWaiting, ResumeSet;
    AskedAfter(def, s, asks, "Which one?");
    LeftBehind(def, After(def, s, ask), asks, from, m);
  }

  lemma LeftBehind(def: Definition, t: Sched, asks: Id, from: Id, m: string)
    requires t.inflight == {} && t.run.status == RunPaused && asks in StepIds(def) && StatusOf(t.run, asks) == Paused
    requires from in StepIds(def) && from != "" && from != asks && !Reaches(def, from, asks)
    ensures Enabled(def, t, ResumeRun(from, m)) && LeavesWaiting(def, t.run, from)
  {
    hide Reaches;
    InDescendants(def, from, asks);
    assert Waits(t.run, asks) && asks !in ResumeSet(def, t.run, from);
  }

  /** In the fork: `b` asks, and a resume from `c` leaves it waiting. */
  lemma ForkLeavesWaiting(limit: Positive) returns (es: seq<Event>)
    ensures EntriesIn(Fork(3), Fork(3).steps) != []
    ensures Allowed(Fork(3), Started(Fork(3), "run", limit), es) && Prompt(Fork(3), Started(Fork(3), "run", limit), es)
    ensures Enabled(Fork(3), Final(Fork(3), Started(Fork(3), "run", limit), es), ResumeRun("c", ""))
    ensures LeavesWaiting(Fork(3), Final(Fork(3), Started(Fork(3), "run", limit), es).run, "c")
  {
    ForkValid(3);
    ForkSteps(3);
    ForkReaches(3, "c", "b");
    hide Fork, Valid;
    es := ResumeElsewhere(Fork(3), "run", limit, "b", "c", "");
  }

  // ---------- A notice that misses a step ----------

  /** A paused run of the fork from before `c` was added to it. */
  function Outgrown(): Run {
    Run("run", "fork", false, 0, RunPaused, "b", map[],
        map["a" := FreshNode("a").(status := Completed), "b" := FreshNode("b").(status := Paused)],
        map[], AskedHuman, "", 0, 0)
  }

  lemma NoticeMisses(now: int)
    ensures var def := Fork(3);
            ReadyIn(def, Composer.Probed(Outgrown()), def.steps) != ReadyIn(def, ResumedQuietly(def, Outgrown(), "", now), def.steps)
  {
    var def, run := Fork(3), Outgrown();
    ForkSteps(3);
    forall d | Dep(def, d, "c") ensures StatusOf(run, d) == Completed { ForkDeps(3, d, "c"); }
    assert Composer.Unstored(def, run, "c");
    hide Fork, ResumedQuietly, Outgrown;
    Composer.NoticeExactly(def, run, now);
  }

  // ---------- A question that is overwritten ----------

  /** In the fork with one attempt a step and two steps at a time, `b` asks a question, `c` passes,
      and the run ends up paused for a failure of `c`. */
  lemma ForkLosesQuestion(limit: Positive) returns (es: seq<Event>)
    requires limit >= 2
    ensures EntriesIn(Fork(1), Fork(1).steps) != [] && Allowed(Fork(1), Started(Fork(1), "run", limit), es)
    ensures Prompt(Fork(1), Started(Fork(1), "run", limit), es)
    ensures var s := Final(Fork(1), Started(Fork(1), "run", limit), es);
            && s.inflight == {"c"} && s.run.pauseReason == AskedHuman
            && var t := After(Fork(1), s, Report("c", PassOutcome()));
               t.run.pauseReason == FailureLimit && StatusOf(t.run, "c") == Paused
  {
    hide Fork, Started, Shape, After, Enabled, Starts, Prompt;
    var def := Fork(1);
    OneAttempt();
    var both := ForkBoth(limit);
    var start := Started(def, "run", limit);
    AsksThenLoses(def, Final(def, start, both));
    PromptOne(def, start, both, Question());
    es := both + [Question()];
  }

  function Question(): Event {
    Report("b", Outcome(AskHuman, "Which one?", "", ""))
  }

  lemma OneAttempt()
    ensures Fork(1).policy.maxConsecutiveFailures == 1
  {
  }

  lemma AsksThenLoses(def: Definition, s: Sched)
    requires Shape(def, s) && s.run.status == RunRunning && s.inflight == {"b", "c"} && def.policy.maxConsecutiveFailures == 1
    ensures Enabled(def, s, Question())
    ensures var t := After(def, s, Question());
            && t.inflight == {"c"} && t.run.pauseReason == AskedHuman
            && var u := After(def, t, Report("c", PassOutcome()));
               u.run.pauseReason == FailureLimit && StatusOf(u.run, "c") == Paused
  {
    hide Shape, After, Enabled;
    InFlightReports(def, s, Question());
    QuestionOverwritten(def, s, "b", "c", "Which one?", PassOutcome());
  }

  lemma InFlightReports(def: Definition, s: Sched, e: Event)
    requires e.Report? && e.id in s.inflight
    ensures Enabled(def, s, e) && After(def, s, e).inflight == s.inflight - {e.id}
  {
  }

  /** `a` completed, `b` and `c` running. */
  lemma ForkBoth(limit: Positive) returns (es: seq<Event>)
    requires limit >= 2
    ensures EntriesIn(Fork(1), Fork(1).steps) != [] && Driven(Fork(1), Started(Fork(1), "run", limit), es)
    ensures var s := Final(Fork(1), Started(Fork(1), "run", limit), es); s.inflight == {"b", "c"} && !Starts(Fork(1), s)
  {
    ForkValid(1);
    ForkOverlooks(1);
    hide Fork, Valid, Overlooked, Started, Orderly, After, Enabled, Starts, Awaited, NoneStopped, Shape;
    StartedBusy(Fork(1), "run", limit, SENT_BACK, "c");
    es := ReachBoth(Fork(1), Started(Fork(1), "run", limit), [], "b", "c");
    OnlyBoth(1, Final(Fork(1), Started(Fork(1), "run", limit), es));
  }

  lemma OnlyBoth(failures: int, s: Sched)
    requires Orderly(Fork(failures), s) && "b" in s.inflight && "c" in s.inflight
    ensures s.inflight == {"b", "c"}
  {
    ForkSteps(failures);
    ForkReaches(failures, "a", "b");
    hide Fork;
    AboveCompleted(Fork(failures), s.run, "a", "b");
    assert "a" !in s.inflight;
  }

  // ---------- An edit that leaves a completed step behind ----------

  /** The fork with `b` made to wait for `c` as well. */
  function Grown(): Definition {
    Fork(3).(edges := Fork(3).edges + [Edge("c", "b", Next, 0)])
  }

  /** The fork at rest, `a` and `b` completed and `c` waiting for an answer. */
  function Halfway(): Run {
    Run("run", "fork", false, 0, RunPaused, "c", map[],
        map["a" := FreshNode("a").(status := Completed), "b" := FreshNode("b").(status := Completed),
            "c" := FreshNode("c").(status := Paused)],
        map[], AskedHuman, "", 0, 0)
  }

  lemma GrownDeps(x: Id, y: Id)
    ensures Dep(Grown(), x, y) <==> (x == "a" && (y == "b" || y == "c")) || (x == "c" && y == "b")
  {
    var edges := Grown().edges;
    assert forall e :: e in edges ==> e == edges[0] || e == edges[1] || e == edges[2] || e == edges[3];
    assert edges[0] in edges && edges[1] in edges && edges[3] in edges;
  }

  lemma GrownAcyclic(x: Id)
    ensures !Reaches(Grown(), x, x)
  {
    hide Grown;
    if Reaches(Grown(), x, x) {
      var y := ReachesFirst(Grown(), x, x);
      GrownDeps(x, y);
      FromLower(y, x);
    }
  }

  /** Paths lead from `a` to `c` to `b`. */
  lemma FromLower(y: Id, x: Id)
    requires (y == "b" || y == "c") && (y == x || Reaches(Grown(), y, x))
    ensures x == "b" || (y == "c" && x == "c")
  {
    hide Grown;
    if y != x {
      var z := ReachesFirst(Grown(), y, x);
      GrownDeps(y, z);
      if z != x {
        var u := ReachesFirst(Grown(), z, x);
        GrownDeps(z, u);
      }
    }
  }

  lemma GrownValid()
    ensures Valid(Grown())
  {
    GrownWellFormed();
    GrownOrdered();
    hide Grown, WellFormed, ReworkGoesUp, WritersOrdered;
    forall x ensures !Reaches(Grown(), x, x) { GrownAcyclic(x); }
  }

  lemma GrownWellFormed()
    ensures WellFormed(Grown())
  {
    hide IsIdentifier, Text.Blank;
    ForkSteps(3);
    Named("a");
    Named("b");
    Named("c");
    Named("fork");
    assert Grown().edges == [Edge("a", "b", Next, 0), Edge("a", "c", Next, 0), SENT_BACK, Edge("c", "b", Next, 0)];
  }

  lemma GrownOrdered()
    ensures ReworkGoesUp(Grown()) && WritersOrdered(Grown())
  {
    ForkSteps(3);
    assert forall e :: e in Grown().edges && e.kind.Rework? ==> e == SENT_BACK;
    hide Grown;
    GrownDeps("a", "b");
    DepReaches(Grown(), "a", "b");
  }

  /** Taken up by a plain resume, the edit leaves `b` completed on a step that is still to run. */
  lemma EditMisfits(limit: Positive)
    ensures Valid(Grown()) && Closed(Fork(3), Halfway())
    ensures var s := Sched(Halfway(), {}, false, false, 0, limit);
            && AtRest(s) && Editing.Stored(s.run) && Enabled(Grown(), s, ResumeRun("", ""))
            && !Editing.Fits(Grown(), s, ResumeRun("", "")) && !Closed(Grown(), After(Grown(), s, ResumeRun("", "")).run)
  {
    hide Grown, Fork, Valid, Halfway, Closed, After, Enabled, AtRest, Editing.Stored, Editing.Respects;
    var s := Sched(Halfway(), {}, false, false, 0, limit);
    GrownValid();
    HalfwayClosed();
    HalfwayRests(limit);
    Misfit();
    Editing.ResumeCloses(Grown(), s, "", "");
  }

  lemma HalfwayClosed()
    ensures Closed(Fork(3), Halfway())
  {
    hide Fork;
    forall d, x | Dep(Fork(3), d, x) && Advanced(Halfway(), x) ensures StatusOf(Halfway(), d) == Completed {
      ForkDeps(3, d, x);
    }
  }

  lemma HalfwayRests(limit: Positive)
    ensures var s := Sched(Halfway(), {}, false, false, 0, limit);
            AtRest(s) && Editing.Stored(s.run) && Enabled(Grown(), s, ResumeRun("", ""))
  {
    hide Grown;
  }

  lemma Misfit()
    ensures !Editing.Respects(Grown(), Halfway(), "")
  {
    GrownDeps("c", "b");
    OpenedNode(Grown(), Halfway(), "b");
    hide Grown;
  }
}
