/** No schedule gets stuck: when a running run has nothing in flight some step is ready, so
    the scheduler's "blocked" pause never happens, except after one kind of resume. */
module Progress {
  import opened Graph
  import opened Validation
  import opened Engine
  import opened Ordering
  import opened Scheduler
  import opened WorkBound
  import opened Promptness
  import opened OrderSafety
  import Text

  predicate Waits(run: Run, x: Id) {
    StatusOf(run, x) == Paused || StatusOf(run, x) == Failed
  }

  ghost predicate SomeLeft(def: Definition, run: Run, inflight: set<Id>) {
    exists x :: x in StepIds(def) && x !in inflight && StatusOf(run, x) != Completed
  }

  /** A run that goes on has no stopped step, and a run that is not finished has work left;
      during an infrastructure pause some of it is not in flight. */
  ghost predicate Live(def: Definition, s: Sched) {
    && (s.run.status == RunRunning && !s.halted ==> forall x :: x in StepIds(def) ==> !Waits(s.run, x))
    && (s.run.status == RunRunning || s.run.status == RunPaused ==> !AllDone(def, s.run))
    && (s.halted ==> SomeLeft(def, s.run, s.inflight))
  }

  ghost function Concluding(def: Definition, s: Sched, id: Id, out: Run): Sched {
    s.(run := Settled(def, out, s.halted, s.clock), inflight := s.inflight - {id}, clock := s.clock + 1)
  }

  /** What the step in flight left behind keeps the run live, whatever its result. */
  lemma LiveSettled(def: Definition, s: Sched, id: Id, out: Run, ids: set<Id>, st: NodeStatus)
    requires Shape(def, s) && Live(def, s) && id in s.inflight && id in ids && Became(out, s.run, ids, st)
    requires st == Pending || (ids == {id} && ((st == Completed && out.status == RunRunning) || (st == Paused && out.status == RunPaused)))
    requires out.status == s.run.status || out.status == RunPaused
    ensures Live(def, Concluding(def, s, id, out))
  {
    hide Settled;
    SettledKeeps(def, out, s.halted, s.clock);
    assert def.steps != [];
    if s.halted {
      var x :| x in StepIds(def) && x !in s.inflight && StatusOf(s.run, x) != Completed;
      assert StatusOf(out, x) != Completed && x !in s.inflight - {id};
    }
    if st != Completed { assert StatusOf(out, id) == st; }
  }

  lemma LiveReport(def: Definition, s: Sched, id: Id, o: Outcome)
    requires Shape(def, s) && Live(def, s) && id in s.inflight
    ensures Live(def, After(def, s, Report(id, o)))
  {
    hide Reported, Settled, Enabled, Live, Became;
    var out := Reported(def, s.run, id, o, s.clock);
    assert id in StepIds(def) && StepIds(def) <= s.run.nodes.Keys;
    if Passes(s.run, o) {
      PassBecame(def, s.run, id, o, s.clock);
      LiveSettled(def, s, id, out, {id}, Completed);
    } else if edge :| Grants(def, s.run, id, o, edge) {
      GrantBecame(def, s.run, id, o, s.clock, edge);
      assert edge.from == id;
      LiveSettled(def, s, id, out, ReworkSet(def, id, edge.to), Pending);
    } else {
      ReportStepsBack(def, s.run, id, o, s.clock);
      StepsBackBecame(def, s.run, id, out);
      LiveSettled(def, s, id, out, {id}, StatusOf(out, id));
    }
  }

  lemma LiveFailure(def: Definition, s: Sched, id: Id, m: string, remind: bool)
    requires Shape(def, s) && Live(def, s) && id in s.inflight
    ensures Live(def, After(def, s, Failure(id, m, remind)))
  {
    hide FailedWith, Settled, Enabled, Live, Became;
    var out := FailedWith(def, s.run, id, m, remind, s.clock);
    assert id in StepIds(def) && StepIds(def) <= s.run.nodes.Keys;
    FailureStepsBack(def, s.run, id, m, remind, s.clock);
    StepsBackBecame(def, s.run, id, out);
    LiveSettled(def, s, id, out, {id}, StatusOf(out, id));
  }

  lemma LiveLeft(def: Definition, s: Sched, id: Id, e: Event)
    requires Shape(def, s) && Live(def, s) && Enabled(def, s, e)
    requires e == Interrupted(id) || (e.Infrastructure? && e.id == id)
    ensures Live(def, After(def, s, e))
  {
    var t := After(def, s, e);
    assert id in StepIds(def) && StatusOf(t.run, id) != Completed;
    if s.halted {
      var x :| x in StepIds(def) && x !in s.inflight && StatusOf(s.run, x) != Completed;
      assert StatusOf(t.run, x) != Completed && x !in t.inflight;
    }
    assert id !in t.inflight;
  }

  lemma LiveBegin(def: Definition, s: Sched, ids: seq<Id>)
    requires Shape(def, s) && Live(def, s) && Enabled(def, s, Begin(ids))
    ensures Live(def, After(def, s, Begin(ids)))
  {
    hide Claimed, Shape, Ready, NodeOf, StatusOf;
    var out, t := Claimed(s.run, ids, s.clock), After(def, s, Begin(ids));
    assert s.run.status == RunRunning && !s.halted && t.run == out && t.halted == s.halted;
    ClaimedBecame(s.run, ids, s.clock);
    ClaimedStatus(s.run, ids, s.clock);
    assert ids[0] in ids && ids[0] in StepIds(def);
    hide After, Enabled;
    assert StatusOf(out, ids[0]) == Running;
    forall x | x in StepIds(def) ensures !Waits(out, x) { assert !Waits(s.run, x); }
  }

  lemma ClaimedStatus(run: Run, ids: seq<Id>, now: int)
    requires ids != []
    ensures Claimed(run, ids, now).status == run.status
  {
  }

  lemma LiveNextLoop(def: Definition, s: Sched)
    requires Valid(def) && Shape(def, s) && Live(def, s) && Enabled(def, s, NextLoop)
    ensures Live(def, After(def, s, NextLoop))
  {
    hide Shape, EntriesIn, NextRound, NodeOf;
    var out := NextRound(def, s.run, s.clock);
    NextRoundRun(def, s.run, s.clock);
    forall x | x in StepIds(def) ensures StatusOf(out, x) == Pending { NextRoundStatus(def, s.run, s.clock, x); }
    assert def.steps[0].id in StepIds(def);
  }

  lemma MailHasSource(def: Definition, run: Run)
    requires MailSet(def, run, StepIds(def)) != {}
    ensures exists m :: m in StepIds(def) && m in MailSet(def, run, StepIds(def))
  {
    var x :| x in MailSet(def, run, StepIds(def));
    var m :| m in StepIds(def) && HasMail(run, m) && AtOrBelow(def, m, x);
    assert AtOrBelow(def, m, m) && m in MailSet(def, run, StepIds(def));
  }

  lemma LiveMail(def: Definition, s: Sched)
    requires Shape(def, s) && Live(def, s) && Enabled(def, s, ReopenMail)
    ensures Live(def, After(def, s, ReopenMail))
  {
    hide MailSet, Shape, After, Enabled, Live;
    var mail := MailSet(def, s.run, StepIds(def));
    MailState(def, s);
    if mail != {} { SetBackLive(def, s, After(def, s, ReopenMail), mail); }
  }

  lemma MailState(def: Definition, s: Sched)
    requires Shape(def, s) && Enabled(def, s, ReopenMail)
    ensures var t, mail := After(def, s, ReopenMail), MailSet(def, s.run, StepIds(def));
            && (s.run.status == RunRunning || AllDone(def, s.run))
            && (mail == {} ==> t == s)
            && (mail != {} ==> t.run.status == RunRunning && t.halted == s.halted && t.inflight == s.inflight
                               && exists m :: m in StepIds(def) && m in mail)
            && forall x :: StatusOf(t.run, x) == if x in mail then Pending else StatusOf(s.run, x)
  {
    hide MailSet, NodeOf;
    MailBecame(def, s.run, s.clock);
    if MailSet(def, s.run, StepIds(def)) != {} { MailHasSource(def, s.run); }
  }

  lemma SetBackLive(def: Definition, s: Sched, t: Sched, mail: set<Id>)
    requires Live(def, s) && (s.run.status == RunRunning || AllDone(def, s.run))
    requires t.run.status == RunRunning && t.halted == s.halted && t.inflight == s.inflight
    requires exists m :: m in StepIds(def) && m in mail
    requires forall x :: StatusOf(t.run, x) == if x in mail then Pending else StatusOf(s.run, x)
    ensures Live(def, t)
  {
    hide StatusOf;
    if s.halted {
      var x :| x in StepIds(def) && x !in s.inflight && StatusOf(s.run, x) != Completed;
      assert StatusOf(t.run, x) != Completed;
    }
  }

  /** The steps a resume from `from` does not set back although they are stopped. */
  ghost predicate LeavesWaiting(def: Definition, run: Run, from: Id) {
    exists x :: x in StepIds(def) && Waits(run, x) && x !in ResumeSet(def, run, from)
  }

  /** A resume leaves a stopped step behind only when it names a step that is neither the
      stopped one nor above it. */
  lemma LeavesWaitingExactly(def: Definition, s: Sched, from: Id)
    requires Shape(def, s) && (s.run.status == RunPaused || s.run.status == RunCompleted)
    ensures LeavesWaiting(def, s.run, from) <==>
            from != "" && exists x :: x in StepIds(def) && Waits(s.run, x) && x != from && !Reaches(def, from, x)
  {
    forall x | x in StepIds(def) && Waits(s.run, x) && from != ""
      ensures x in ResumeSet(def, s.run, from) <==> x == from || Reaches(def, from, x)
    {
      InDescendants(def, from, x);
    }
  }

  lemma ResumeLeavesWork(def: Definition, s: Sched, from: Id, m: string)
    requires Valid(def) && Shape(def, s) && Live(def, s) && Enabled(def, s, ResumeRun(from, m))
    ensures !AllDone(def, After(def, s, ResumeRun(from, m)).run)
  {
    ResumedBecame(def, s.run, from, m, s.clock);
    var out := Resumed(def, s.run, from, m, s.clock);
    if from != "" {
      assert StatusOf(out, from) == Pending;
    } else if s.run.status == RunCompleted {
      assert def.steps[0].id in StepIds(def);
      var sink := SinkBelow(def, def.steps[0].id);
      if sink != def.steps[0].id { ReachedStep(def, def.steps[0].id, sink); }
      var step :| step in def.steps && step.id == sink;
      SinksExactly(def, def.steps, sink);
      assert StatusOf(out, sink) == Pending;
    } else {
      var x :| x in StepIds(def) && StatusOf(s.run, x) != Completed;
      assert StatusOf(out, x) != Completed;
    }
  }

  /** After a resume the run is live exactly when no stopped step is left behind. */
  lemma LiveResume(def: Definition, s: Sched, from: Id, m: string)
    requires Valid(def) && Shape(def, s) && Live(def, s) && Enabled(def, s, ResumeRun(from, m))
    ensures Live(def, After(def, s, ResumeRun(from, m))) <==> !LeavesWaiting(def, s.run, from)
  {
    hide Valid, Resumed, ResumeSet, Shape, AllDone, StatusOf, After, Enabled, LeavesWaiting;
    ShapeKeys(def, s);
    ResumeLeavesWork(def, s, from, m);
    ResumedBecame(def, s.run, from, m, s.clock);
    AfterResume(def, s, from, m);
    StillWaiting(def, s.run, After(def, s, ResumeRun(from, m)).run, from);
  }

  lemma AfterResume(def: Definition, s: Sched, from: Id, m: string)
    requires Enabled(def, s, ResumeRun(from, m))
    ensures var t := After(def, s, ResumeRun(from, m));
            t.run == Resumed(def, s.run, from, m, s.clock) && t.inflight == {} && !t.halted && !t.cancelled
  {
    hide Resumed;
  }

  lemma StillWaiting(def: Definition, run: Run, out: Run, from: Id)
    requires Became(out, run, ResumeSet(def, run, from), Pending)
    ensures LeavesWaiting(def, run, from) <==> exists x :: x in StepIds(def) && Waits(out, x)
  {
    hide ResumeSet, NodeOf, StepIds;
    forall x ensures Waits(out, x) <==> Waits(run, x) && x !in ResumeSet(def, run, from) {}
  }

  lemma LiveKept(def: Definition, s: Sched, e: Event)
    requires Valid(def) && Shape(def, s) && Live(def, s) && Enabled(def, s, e)
    requires e.ResumeRun? ==> !LeavesWaiting(def, s.run, e.from)
    ensures Live(def, After(def, s, e))
  {
    hide Valid, Shape, LeavesWaiting;
    match e {
      case Begin(ids) => LiveBegin(def, s, ids);
      case Report(id, o) => LiveReport(def, s, id, o);
      case Failure(id, m, remind) => LiveFailure(def, s, id, m, remind);
      case Infrastructure(id, m) => LiveLeft(def, s, id, e);
      case Interrupted(id) => LiveLeft(def, s, id, e);
      case NextLoop => LiveNextLoop(def, s);
      case Instruct(id, m) => DeliveredBecame(s.run, id, m);
      case ReopenMail => LiveMail(def, s);
      case ResumeRun(from, m) => LiveResume(def, s, from, m);
      case _ =>
    }
  }

  /** No resume of the schedule leaves a stopped step behind. */
  ghost predicate Careful(def: Definition, s: Sched, es: seq<Event>)
    requires Allowed(def, s, es)
  {
    forall i :: 0 <= i < |es| ==> CarefulAt(def, s, es, i)
  }

  ghost predicate CarefulAt(def: Definition, s: Sched, es: seq<Event>, i: nat)
    requires i < |es|
  {
    es[i].ResumeRun? && Allowed(def, s, es[..i]) ==> !LeavesWaiting(def, Final(def, s, es[..i]).run, es[i].from)
  }

  lemma {:induction false} LiveAlways(def: Definition, s: Sched, es: seq<Event>)
    requires Valid(def) && Shape(def, s) && Live(def, s) && Allowed(def, s, es) && Careful(def, s, es)
    ensures Shape(def, Final(def, s, es)) && Live(def, Final(def, s, es))
  {
    hide Valid, Shape, Live, After, Enabled, LeavesWaiting;
    if es != [] {
      var before := es[..|es| - 1];
      forall i | 0 <= i < |before| ensures CarefulAt(def, s, before, i) {
        assert CarefulAt(def, s, es, i);
        assert before[..i] == es[..i];
      }
      LiveAlways(def, s, before);
      assert CarefulAt(def, s, es, |es| - 1);
      ShapeKept(def, Final(def, s, before), es[|es| - 1]);
      LiveKept(def, Final(def, s, before), es[|es| - 1]);
    }
  }

  lemma LiveNotBlocked(def: Definition, s: Sched)
    requires Valid(def) && Shape(def, s) && Live(def, s)
    requires s.run.status == RunRunning && !s.halted && s.inflight == {}
    ensures ReadyIn(def, s.run, def.steps) != []
  {
    forall e | e in def.edges ensures e.from in StepIds(def) { assert ValidEdge(def, e); }
    assert Acyclic(def);
    hide Valid;
    forall x | x in StepIds(def) ensures StatusOf(s.run, x) == Pending || StatusOf(s.run, x) == Completed {
      assert !Waits(s.run, x);
    }
    NeverStuck(def, s.run);
  }

  lemma StartedLive(def: Definition, runId: string, limit: Positive)
    requires Valid(def) && EntriesIn(def, def.steps) != []
    ensures Shape(def, Started(def, runId, limit)) && Live(def, Started(def, runId, limit))
  {
    hide Shape, EntriesIn, Valid, Driven, StatusOf;
    ShapeStarted(def, runId, limit);
    HasStep(def);
    StartedPlainly(def, runId, limit);
  }

  lemma HasStep(def: Definition)
    requires EntriesIn(def, def.steps) != []
    ensures exists x :: x in StepIds(def)
  {
    assert def.steps[0].id in StepIds(def);
  }

  /** In every schedule without a careless resume, the run is never blocked. */
  lemma NeverBlocked(def: Definition, runId: string, limit: Positive, es: seq<Event>)
    requires Valid(def) && EntriesIn(def, def.steps) != []
    requires Allowed(def, Started(def, runId, limit), es) && Careful(def, Started(def, runId, limit), es)
    ensures !Blocked(def, Final(def, Started(def, runId, limit), es))
  {
    hide Valid, After, Enabled, Started, Shape, Live, Careful;
    StartedLive(def, runId, limit);
    LiveAlways(def, Started(def, runId, limit), es);
    var s := Final(def, Started(def, runId, limit), es);
    if Blocked(def, s) { LiveNotBlocked(def, s); }
  }

  // ---------- The one resume that can block a run ----------

  /** The scheduler's own moves: no human takes part. */
  ghost predicate AllUnattended(es: seq<Event>) {
    forall i :: 0 <= i < |es| ==> Automatic(es[i]) || es[i].ReopenMail?
  }

  ghost predicate NoMail(def: Definition, run: Run) {
    forall x :: x in StepIds(def) ==> !HasMail(run, x)
  }

  lemma NoMailEmpty(def: Definition, run: Run)
    ensures MailSet(def, run, StepIds(def)) == {} <==> NoMail(def, run)
  {
    if x :| x in StepIds(def) && HasMail(run, x) {
      assert AtOrBelow(def, x, x) && x in MailSet(def, run, StepIds(def));
    }
  }

  lemma UnattendedCareful(def: Definition, s: Sched, es: seq<Event>)
    requires Allowed(def, s, es) && AllUnattended(es)
    ensures Careful(def, s, es)
  {
    forall i | 0 <= i < |es| ensures CarefulAt(def, s, es, i) {
      assert Automatic(es[i]) || es[i].ReopenMail?;
    }
  }

  /** While some step stays stopped, the scheduler comes to an end of what it can start. */
  lemma DryUp(def: Definition, start: Sched, es0: seq<Event>, p: Id) returns (es: seq<Event>)
    requires Valid(def) && Driven(def, start, es0) && p in StepIds(def) && Waits(Final(def, start, es0).run, p)
    ensures Driven(def, start, es) && Extends(es0, es)
    ensures var s, t := Final(def, start, es0), Final(def, start, es);
            t.inflight == {} && !Starts(def, t) && Waits(t.run, p) && (NoMail(def, s.run) ==> NoMail(def, t.run))
    decreases |Undone(def, Final(def, start, es0))|, |Idle(def, Final(def, start, es0))|
  {
    hide Valid, Starts, Enabled, After, Prompt, Undone, Idle, NoMail, Shape, Waits, Fill, Ready, PassOutcome;
    var s := Final(def, start, es0);
    if Starts(def, s) {
      var more := FillNext(def, start, es0);
      StillWaits(def, s, Final(def, start, more), p, Fill(def, s), Running);
      if NoMail(def, s.run) { NoMailKept(def, s, Begin(Fill(def, s))); }
      es := DryUp(def, start, more, p);
    } else if z :| z in s.inflight {
      NotInFlight(def, s, z, p);
      var more := PassNext(def, start, es0, z, p);
      StillWaits(def, s, Final(def, start, more), p, [z], Completed);
      if NoMail(def, s.run) { NoMailKept(def, s, Report(z, PassOutcome())); }
      es := DryUp(def, start, more, p);
    } else {
      es := es0;
    }
  }

  lemma StillWaits(def: Definition, s: Sched, t: Sched, p: Id, ids: seq<Id>, st: NodeStatus)
    requires Waits(s.run, p) && (p !in ids || forall x :: x in ids ==> Ready(def, s.run, x))
    requires forall x :: StatusOf(t.run, x) == if x in ids then st else StatusOf(s.run, x)
    ensures Waits(t.run, p)
  {
  }

  lemma NotInFlight(def: Definition, s: Sched, z: Id, p: Id)
    requires Shape(def, s) && z in s.inflight && Waits(s.run, p)
    ensures z != p && StatusOf(s.run, p) != Completed
  {
    assert Unfinished(s.run, z);
  }

  /** The run dries up around the stopped step, mail is dealt with, and it dries up again. */
  lemma Dries(def: Definition, t: Sched, p: Id) returns (es: seq<Event>)
    requires Valid(def) && Busy(def, t) && p in StepIds(def) && Waits(t.run, p)
    ensures Allowed(def, t, es) && Prompt(def, t, es) && AllUnattended(es) && Blocked(def, Final(def, t, es))
  {
    hide Valid, After, Enabled, Busy, Blocked, NoMail, Waits, Starts, Prompt;
    NothingDriven(def, t);
    es := DryUp(def, t, [], p);
    var reopened := es + [ReopenMail];
    MailInTurn(def, Final(def, t, es));
    DriveOne(def, t, es, ReopenMail);
    AfterMail(def, Final(def, t, es));
    es := DryUp(def, t, reopened, p);
    NothingLeft(def, Final(def, t, es));
  }

  lemma MailInTurn(def: Definition, s: Sched)
    requires Busy(def, s) && s.inflight == {} && !Starts(def, s)
    ensures Shape(def, s) && Enabled(def, s, ReopenMail) && InTurn(def, s, ReopenMail) && Busy(def, After(def, s, ReopenMail))
  {
    hide Shape, Starts, MailSet;
    ShapeMail(def, s);
    AfterMail(def, s);
    LimitStep(def, s, ReopenMail);
  }

  lemma NothingLeft(def: Definition, s: Sched)
    requires Valid(def) && Busy(def, s) && s.inflight == {} && !Starts(def, s) && NoMail(def, s.run)
    ensures Blocked(def, s)
  {
    hide Valid, Shape, Starts, NoMail, Ready;
    NoMailEmpty(def, s.run);
    if ReadyIn(def, s.run, def.steps) != [] {
      var step := ReadyIn(def, s.run, def.steps)[0];
      ReadyExactly(def, s.run, def.steps, step);
      NothingWaits(def, s, step.id);
    }
  }

  lemma AfterMail(def: Definition, t: Sched)
    requires Shape(def, t) && Enabled(def, t, ReopenMail)
    ensures var u := After(def, t, ReopenMail);
            && NoMail(def, u.run) && u.inflight == {} && u.halted == t.halted && u.cancelled == t.cancelled
            && (t.run.status == RunRunning ==> u.run.status == RunRunning)
            && forall x :: Waits(t.run, x) ==> Waits(u.run, x)
  {
    MailBecame(def, t.run, t.clock);
    var mail := MailSet(def, t.run, StepIds(def));
    forall x | x in StepIds(def) ensures !HasMail(After(def, t, ReopenMail).run, x) {
      if HasMail(t.run, x) { assert AtOrBelow(def, x, x) && x in mail; }
      ResetNodeAt(t.run, mail, ToPending, x);
    }
  }

  /** A resume can end with the run blocked, with no further human step, exactly when it
      leaves a stopped step behind. */
  lemma ResumeBlocksExactly(def: Definition, s: Sched, from: Id, m: string)
    requires Valid(def) && Shape(def, s) && Live(def, s) && Enabled(def, s, ResumeRun(from, m))
    ensures var t := After(def, s, ResumeRun(from, m));
            LeavesWaiting(def, s.run, from) <==>
            exists es :: Allowed(def, t, es) && AllUnattended(es) && Blocked(def, Final(def, t, es))
    ensures var t := After(def, s, ResumeRun(from, m));
            LeavesWaiting(def, s.run, from) <==>
            exists es :: Allowed(def, t, es) && Prompt(def, t, es) && AllUnattended(es) && Blocked(def, Final(def, t, es))
  {
    var t := After(def, s, ResumeRun(from, m));
    ShapeResume(def, s, from, m);
    LiveResume(def, s, from, m);
    ResumedBecame(def, s.run, from, m, s.clock);
    assert t.inflight == {} && !t.halted && !t.cancelled && t.run.status == RunRunning;
    if p :| p in StepIds(def) && Waits(s.run, p) && p !in ResumeSet(def, s.run, from) {
      assert Waits(t.run, p);
      var es := Dries(def, t, p);
    } else {
      forall es | Allowed(def, t, es) && AllUnattended(es) ensures !Blocked(def, Final(def, t, es)) {
        StaysLive(def, t, es);
      }
    }
  }

  lemma StaysLive(def: Definition, t: Sched, es: seq<Event>)
    requires Valid(def) && Shape(def, t) && Live(def, t) && Allowed(def, t, es) && AllUnattended(es)
    ensures !Blocked(def, Final(def, t, es))
  {
    hide Valid, After, Enabled, Shape, Live, Careful;
    UnattendedCareful(def, t, es);
    LiveAlways(def, t, es);
    if Blocked(def, Final(def, t, es)) { LiveNotBlocked(def, Final(def, t, es)); }
  }

  // ---------- Without human messages there is never mail to reopen for ----------

  lemma GrantLeavesOthers(def: Definition, run: Run, id: Id, o: Outcome, now: int, edge: Edge, x: Id)
    requires Grants(def, run, id, o, edge) && id in StepIds(def) && StepIds(def) <= run.nodes.Keys
    requires x !in ReworkSet(def, id, edge.to)
    ensures NodeOf(Reported(def, run, id, o, now), x) == NodeOf(run, x)
  {
    hide Reported, Grants, Concluded, FeedbackText, Text.Blank;
    GrantedRun(def, run, id, o, now, edge);
    assert id in ReworkSet(def, id, edge.to) && edge.to in ReworkSet(def, id, edge.to);
    var working := run.(updatedAt := now);
    var marked := Put(RoundCounted(working, EdgeKey(edge.from, edge.to)), id, Concluded(working, id, o, now));
    ResetNodeAt(marked, ReworkSet(def, id, edge.to), ToPending, x);
  }

  lemma NoMailReport(def: Definition, s: Sched, id: Id, o: Outcome)
    requires Shape(def, s) && NoMail(def, s.run) && id in s.inflight
    ensures NoMail(def, After(def, s, Report(id, o)).run)
  {
    hide Reported, Settled, ReworkSet, Grants, StepsBack;
    var out := Reported(def, s.run, id, o, s.clock);
    SettledKeeps(def, out, s.halted, s.clock);
    assert id in StepIds(def) && StepIds(def) <= s.run.nodes.Keys;
    forall x | x in StepIds(def) ensures !HasMail(out, x) {
      assert !HasMail(s.run, x);
      ReportMail(def, s.run, id, o, s.clock, x);
    }
    forall x | x in StepIds(def) ensures !HasMail(Settled(def, out, s.halted, s.clock), x) { assert !HasMail(out, x); }
  }

  lemma ReportMail(def: Definition, run: Run, id: Id, o: Outcome, now: int, x: Id)
    requires id in StepIds(def) && StepIds(def) <= run.nodes.Keys && !HasMail(run, x)
    ensures !HasMail(Reported(def, run, id, o, now), x)
  {
    hide Reported, ReworkSet;
    if Passes(run, o) {
      ReportPasses(def, run, id, o, now, x);
    } else if edge :| Grants(def, run, id, o, edge) {
      ReportGrants(def, run, id, o, now, edge, x);
      if x !in ReworkSet(def, id, edge.to) { GrantLeavesOthers(def, run, id, o, now, edge, x); }
    } else {
      ReportStepsBack(def, run, id, o, now);
      StepsBackMail(def, run, id, Reported(def, run, id, o, now), x);
    }
  }

  lemma StepsBackMail(def: Definition, run: Run, id: Id, out: Run, x: Id)
    requires StepsBack(def, run, id, out) && !HasMail(run, x)
    ensures !HasMail(out, x)
  {
    if x != id { assert SameProgress(out, run, x); }
  }

  lemma {:induction false} DeliveredOthers(run: Run, ids: seq<Id>, m: Message, x: Id)
    requires x !in ids
    ensures NodeOf(DeliveredAll(run, ids, m), x) == NodeOf(run, x)
  {
    if |ids| > 0 {
      assert ids[|ids| - 1] in ids;
      DeliveredOthers(run, ids[..|ids| - 1], m, x);
    }
  }

  lemma ResumeMail(def: Definition, run: Run, from: Id, m: string, now: int, x: Id)
    requires StepIds(def) <= run.nodes.Keys && !HasMail(run, x)
    ensures !HasMail(Resumed(def, run, from, m, now), x)
  {
    hide ResumeSet, Ready;
    NothingToOpen(def, run);
    var quiet := ResumedQuietly(def, run, from, now);
    ResetNodeAt(run, ResumeSet(def, run, from), ByHuman, x);
    ResumedBecame(def, run, from, m, now);
    QuietBecame(def, run, from, now);
    var receivers := Ids(ReadyIn(def, quiet, def.steps));
    var human := Message("human", Text.Trim(m), now);
    if x in receivers {
      var i :| 0 <= i < |receivers| && receivers[i] == x;
      ReadyExactly(def, quiet, def.steps, ReadyIn(def, quiet, def.steps)[i]);
      UpstreamReady(def, quiet, x);
    } else {
      DeliveredOthers(quiet, receivers, human, x);
    }
    assert from in ResumeSet(def, run, from) || from == "" by { FromIsReset(def, run, from); }
  }

  lemma FromIsReset(def: Definition, run: Run, from: Id)
    ensures from != "" ==> from in ResumeSet(def, run, from)
  {
  }

  lemma NoMailKept(def: Definition, s: Sched, e: Event)
    requires Valid(def) && Shape(def, s) && NoMail(def, s.run) && Enabled(def, s, e) && !e.Instruct?
    ensures NoMail(def, After(def, s, e).run)
  {
    hide Valid, Shape, HasMail;
    if e.Report? {
      NoMailReport(def, s, e.id, e.outcome);
    } else if e.Failure? {
      NoMailFailure(def, s, e.id, e.message, e.remind);
    } else if e.ReopenMail? {
      NoMailEmpty(def, s.run);
    } else {
      forall x | x in StepIds(def) ensures !HasMail(After(def, s, e).run, x) {
        assert !HasMail(s.run, x);
        OtherMail(def, s, e, x);
      }
    }
  }

  lemma NoMailFailure(def: Definition, s: Sched, id: Id, m: string, remind: bool)
    requires Shape(def, s) && NoMail(def, s.run) && id in s.inflight
    ensures NoMail(def, After(def, s, Failure(id, m, remind)).run)
  {
    hide FailedWith, Settled, StepsBack, HasMail;
    var out := FailedWith(def, s.run, id, m, remind, s.clock);
    FailureStepsBack(def, s.run, id, m, remind, s.clock);
    SettledKeeps(def, out, s.halted, s.clock);
    forall x | x in StepIds(def) ensures !HasMail(Settled(def, out, s.halted, s.clock), x) {
      StepsBackMail(def, s.run, id, out, x);
      SameNodeMail(out, Settled(def, out, s.halted, s.clock), x);
    }
  }

  lemma SameNodeMail(a: Run, b: Run, x: Id)
    requires NodeOf(a, x) == NodeOf(b, x)
    ensures HasMail(a, x) <==> HasMail(b, x)
  {
  }

  lemma OtherMail(def: Definition, s: Sched, e: Event, x: Id)
    requires Valid(def) && Shape(def, s) && Enabled(def, s, e) && x in StepIds(def) && !HasMail(s.run, x)
    requires !e.Report? && !e.Failure? && !e.ReopenMail? && !e.Instruct?
    ensures !HasMail(After(def, s, e).run, x)
  {
    hide Valid, Shape;
    match e {
      case Begin(ids) => ClaimedNode(s.run, ids, s.clock, x);
      case NextLoop => NextRoundStatus(def, s.run, s.clock, x);
      case ResumeRun(from, m) =>
        assert StepIds(def) <= s.run.nodes.Keys by { ShapeKeys(def, s); }
        ResumeMail(def, s.run, from, m, s.clock, x);
      case _ =>
    }
  }

  lemma {:induction false} NoMailAlways(def: Definition, s: Sched, es: seq<Event>)
    requires Valid(def) && Shape(def, s) && NoMail(def, s.run) && Allowed(def, s, es)
    requires forall i :: 0 <= i < |es| ==> !es[i].Instruct?
    ensures NoMail(def, Final(def, s, es).run)
  {
    hide Valid, Shape, NoMail, After, Enabled;
    if es != [] {
      var before := es[..|es| - 1];
      NoMailAlways(def, s, before);
      ShapeAlways(def, s, before);
      NoMailKept(def, Final(def, s, before), es[|es| - 1]);
    }
  }

  /** In a schedule without human messages, reopening for mail never changes the run. */
  lemma MailIdle(def: Definition, runId: string, limit: Positive, es: seq<Event>)
    requires Valid(def) && EntriesIn(def, def.steps) != [] && Allowed(def, Started(def, runId, limit), es)
    requires forall i :: 0 <= i < |es| ==> !es[i].Instruct?
    ensures var run := Final(def, Started(def, runId, limit), es).run; Reopened(run, MailSet(def, run, StepIds(def))) == run
  {
    ShapeStarted(def, runId, limit);
    var run0 := Started(def, runId, limit).run;
    forall x | x in StepIds(def) ensures !HasMail(run0, x) { assert NodeOf(run0, x) == FreshNode(x); }
    hide Valid, After, Enabled, Shape, Started;
    NoMailAlways(def, Started(def, runId, limit), es);
    var run := Final(def, Started(def, runId, limit), es).run;
    NoMailEmpty(def, run);
    assert ResetNodes(run.nodes, {}, ToPending) == run.nodes;
  }

  // ---------- The work bound with the scheduler's own reopening ----------

  function Reopenings(es: seq<Event>): nat {
    if es == [] then 0 else Reopenings(es[..|es| - 1]) + if es[|es| - 1].ReopenMail? then 1 else 0
  }

  /** Where no mail waits, a schedule of the scheduler's own moves reaches the same state
      without its reopenings. */
  lemma {:induction false} DropReopenings(def: Definition, s: Sched, es: seq<Event>) returns (busy: seq<Event>)
    requires Valid(def) && Shape(def, s) && NoMail(def, s.run) && Allowed(def, s, es) && AllUnattended(es)
    ensures Allowed(def, s, busy) && AllAutomatic(busy) && Final(def, s, busy) == Final(def, s, es)
    ensures Executions(busy) == Executions(es) && Loops(busy) == Loops(es) && |busy| + Reopenings(es) == |es|
  {
    hide Valid, Shape, NoMail, Enabled, After;
    busy := [];
    if es != [] {
      var before, e := es[..|es| - 1], es[|es| - 1];
      busy := DropReopenings(def, s, before);
      assert Automatic(e) || e.ReopenMail?;
      var u := Final(def, s, before);
      if e.ReopenMail? {
        NoMailAlways(def, s, before);
        ReopeningIdle(def, u);
      } else {
        OneMore(def, s, busy, e);
        assert (busy + [e])[..|busy|] == busy;
        busy := busy + [e];
      }
    }
  }

  lemma ReopeningIdle(def: Definition, s: Sched)
    requires NoMail(def, s.run) && Enabled(def, s, ReopenMail)
    ensures After(def, s, ReopenMail) == s
  {
    NoMailEmpty(def, s.run);
  }

  /** The same bounds for everything the scheduler does by itself, its reopening for mail
      included, from any state within its limits where no mail waits. */
  lemma UnattendedWork(def: Definition, s: Sched, es: seq<Event>)
    requires Valid(def) && WithinLimits(def, s) && NoMail(def, s.run) && Allowed(def, s, es) && AllUnattended(es)
    ensures Executions(es) <= (1 + Loops(es)) * Cap(def)
    ensures forall e :: e in def.edges && e.kind.Rework? ==> RoundsOn(Final(def, s, es).run, e) <= Limit(def, e)
    ensures |es| - Reopenings(es) <= 2 * ((1 + Loops(es)) * Cap(def)) + 2 * |def.steps| + Loops(es)
  {
    hide Valid, Shape, NoMail, Enabled, After, Cap;
    var busy := DropReopenings(def, s, es);
    WorkIsBounded(def, s, busy);
    AutomaticEnds(def, s, busy);
  }

  /** And a new run is such a state. */
  lemma StartedIdle(def: Definition, runId: string, limit: Positive)
    requires Valid(def) && EntriesIn(def, def.steps) != []
    ensures WithinLimits(def, Started(def, runId, limit)) && NoMail(def, Started(def, runId, limit).run)
  {
    StartedWithinLimits(def, runId, limit);
    ShapeStarted(def, runId, limit);
    hide Valid, Shape, WithinLimits, EntriesIn;
    var run := Started(def, runId, limit).run;
    forall x | x in StepIds(def) ensures !HasMail(run, x) { assert NodeOf(run, x) == FreshNode(x); }
  }
}
