/** Definitions that are edited while a run is at rest: a resume and a new loop round take the
    definition up as it then stands (usecase.go, execution_refresh.go). What the schedules
    under one definition keep, those over any number of edits keep too, exactly when the edits
    respect what is completed. */
module Editing {
  import opened Graph
  import opened Validation
  import opened Engine
  import opened Ordering
  import opened Scheduler
  import opened WorkBound
  import opened OrderSafety
  import opened Collections
  import Text

  // ---------- What is stored ----------

  /** Every stored node, of whatever definition, has a status. */
  ghost predicate Stored(run: Run) {
    forall x :: x in run.nodes ==> StatusOf(run, x) != NoStatus
  }

  lemma FailureKeys(def: Definition, run: Run, id: Id, message: string, remind: bool, now: int)
    ensures FailedWith(def, run, id, message, remind, now).nodes.Keys <= run.nodes.Keys + StepIds(def) + {id}
    ensures AfterFailure(def, run, id, message, now).nodes.Keys <= run.nodes.Keys + StepIds(def) + {id}
  {
    hide Text.Trim, Text.Blank;
  }

  lemma ReportKeys(def: Definition, run: Run, id: Id, o: Outcome, now: int)
    requires Valid(def) && id in StepIds(def) && StepIds(def) <= run.nodes.Keys
    ensures Reported(def, run, id, o, now).nodes.Keys <= run.nodes.Keys
  {
    hide Valid, Reported, Grants, SentBack, StepsBack;
    if Passes(run, o) {
      ReportPasses(def, run, id, o, now, id);
    } else if edge :| Grants(def, run, id, o, edge) {
      GrantedRun(def, run, id, o, now, edge);
      GrantKeys(def, run, id, o, now, edge);
    } else {
      SteppedKeys(def, run, id, o, now);
    }
  }

  lemma SteppedKeys(def: Definition, run: Run, id: Id, o: Outcome, now: int)
    requires id in StepIds(def) && StepIds(def) <= run.nodes.Keys && !Passes(run, o) && !GrantsAny(def, run, id, o)
    ensures Reported(def, run, id, o, now).nodes.Keys <= run.nodes.Keys
  {
    hide AfterOutcome, AfterFailure, GrantsAny;
    if AfterOutcome(def, run, id, o, now).Err? {
      FailureKeys(def, run, id, "", false, now);
    } else {
      var node, reason, message := StoppedReport(def, run, id, o, now);
    }
  }

  lemma GrantKeys(def: Definition, run: Run, id: Id, o: Outcome, now: int, edge: Edge)
    requires Valid(def) && Grants(def, run, id, o, edge) && id in StepIds(def) && StepIds(def) <= run.nodes.Keys
    ensures var working := run.(updatedAt := now);
            SentBack(def, working, id, edge, Concluded(working, id, o, now), Message(id, FeedbackText(o), now)).nodes.Keys <= run.nodes.Keys
  {
    PathIsSteps(def, id, edge);
    hide Valid, ReworkSet, Concluded, FeedbackText, Text.Blank;
  }

  lemma PathIsSteps(def: Definition, id: Id, edge: Edge)
    requires Valid(def) && edge in def.edges && edge.kind.Rework? && edge.from == id
    ensures ReworkSet(def, id, edge.to) <= StepIds(def) && edge.to in ReworkSet(def, id, edge.to)
  {
    ReworkUp(def, edge);
    hide Valid;
    forall x | x in DescendantSet(def, edge.to) ensures x in StepIds(def) {
      InDescendants(def, edge.to, x);
      ReachedStep(def, edge.to, x);
    }
  }

  lemma ResumeKeys(def: Definition, run: Run, from: Id, m: string, now: int)
    requires Valid(def) && (from == "" || from in StepIds(def))
    ensures Resumed(def, run, from, m, now).nodes.Keys == run.nodes.Keys + StepIds(def)
  {
    hide Valid, ReadyIn, Text.Trim, Text.Blank, ResumedQuietly, DeliveredAll, Ids, StepIds;
    var quiet := ResumedQuietly(def, run, from, now);
    QuietKeys(def, run, from, now);
    ReadyAreSteps(def, quiet);
    DeliveredAllKeys(quiet, Ids(ReadyIn(def, quiet, def.steps)), Message("human", Text.Trim(m), now));
  }

  lemma QuietKeys(def: Definition, run: Run, from: Id, now: int)
    requires Valid(def) && (from == "" || from in StepIds(def))
    ensures ResumedQuietly(def, run, from, now).nodes.Keys == run.nodes.Keys + StepIds(def)
  {
    hide Valid, ResumeSet;
    ResetWithin(def, run, from);
  }

  lemma ResetWithin(def: Definition, run: Run, from: Id)
    requires Valid(def) && (from == "" || from in StepIds(def))
    ensures ResumeSet(def, Opened(def, run), from) <= run.nodes.Keys + StepIds(def)
  {
    hide Valid;
    forall x | x in ResumeSet(def, Opened(def, run), from) ensures x in run.nodes.Keys + StepIds(def) {
      if from != "" {
        if x != from {
          InDescendants(def, from, x);
          ReachedStep(def, from, x);
        }
      } else if run.status == RunCompleted {
        SinksExactly(def, def.steps, x);
      }
    }
  }

  lemma ReadyAreSteps(def: Definition, run: Run)
    ensures Elements(Ids(ReadyIn(def, run, def.steps))) <= StepIds(def)
  {
    hide Ready;
    var ready := ReadyIn(def, run, def.steps);
    forall x | x in Ids(ready) ensures x in StepIds(def) {
      var i :| 0 <= i < |ready| && ready[i].id == x;
      ReadyExactly(def, run, def.steps, ready[i]);
    }
  }

  lemma {:induction false} DeliveredAllKeys(run: Run, ids: seq<Id>, m: Message)
    ensures run.nodes.Keys <= DeliveredAll(run, ids, m).nodes.Keys <= run.nodes.Keys + Elements(ids)
  {
    hide Text.Blank;
    if ids != [] {
      DeliveredAllKeys(run, ids[..|ids| - 1], m);
      assert ids == ids[..|ids| - 1] + [ids[|ids| - 1]];
    }
  }

  lemma RoundKeys(def: Definition, run: Run, now: int)
    requires EntriesIn(def, def.steps) != []
    ensures NextRound(def, run, now).nodes.Keys == run.nodes.Keys + StepIds(def)
  {
    hide LoopText, Summaries, EntriesIn;
    var entries := EntriesIn(def, def.steps);
    EntriesAreSteps(def, def.steps);
    DeliveredAllKeys(Rewound(def, run, now).(currentStepId := entries[0]), entries,
                     Message("onecatch", LoopText(Summaries(run, def.steps)), now));
  }

  lemma {:induction false} EntriesAreSteps(def: Definition, steps: seq<Step>)
    requires forall s :: s in steps ==> s in def.steps
    ensures Elements(EntriesIn(def, steps)) <= StepIds(def)
  {
    if steps != [] {
      assert steps == steps[..|steps| - 1] + [steps[|steps| - 1]];
      EntriesAreSteps(def, steps[..|steps| - 1]);
    }
  }

  /** No event adds a node that is not one of the definition's. */
  lemma KeysKept(def: Definition, s: Sched, e: Event)
    requires Valid(def) && Shape(def, s) && Enabled(def, s, e)
    ensures After(def, s, e).run.nodes.Keys <= s.run.nodes.Keys
  {
    hide Valid, Reported, FailedWith, Settled, Resumed, NextRound, Ready, MailSet, Claimed, Delivered, MailReopened, StepIds,
         NodeOf;
    match e
    case Begin(ids) => ClaimedKeys(s.run, ids, s.clock);
    case Instruct(id, m) => DeliveredKeys(s.run, id, m);
    case Report(id, o) =>
      ReportKeys(def, s.run, id, o, s.clock);
      SettledKeeps(def, Reported(def, s.run, id, o, s.clock), s.halted, s.clock);
    case Failure(id, m, remind) =>
      FailureKeys(def, s.run, id, m, remind, s.clock);
      SettledKeeps(def, FailedWith(def, s.run, id, m, remind, s.clock), s.halted, s.clock);
    case NextLoop => RoundKeys(def, s.run, s.clock);
    case ReopenMail => MailKeys(def, s.run, s.clock);
    case ResumeRun(from, m) => ResumeKeys(def, s.run, from, m, s.clock);
    case _ =>
  }

  lemma ClaimedKeys(run: Run, ids: seq<Id>, now: int)
    requires ids != []
    ensures Claimed(run, ids, now).nodes.Keys == run.nodes.Keys + Elements(ids)
  {
  }

  lemma DeliveredKeys(run: Run, id: Id, m: Message)
    ensures Delivered(run, id, m).nodes.Keys <= run.nodes.Keys + {id}
  {
  }

  lemma MailKeys(def: Definition, run: Run, now: int)
    requires StepIds(def) <= run.nodes.Keys
    ensures MailReopened(def, run, now).nodes.Keys <= run.nodes.Keys
  {
  }

  lemma StoredKept(def: Definition, s: Sched, e: Event)
    requires Valid(def) && Shape(def, s) && Stored(s.run) && Enabled(def, s, e)
    ensures Stored(After(def, s, e).run)
  {
    hide Valid, Shape, Enabled, After, StatusOf;
    KeysKept(def, s, e);
    var out := After(def, s, e).run;
    forall x | x in out.nodes ensures StatusOf(out, x) != NoStatus { StatusStays(def, s, e, x); }
  }

  /** A node with a status keeps having one. */
  lemma StatusStays(def: Definition, s: Sched, e: Event, x: Id)
    requires Valid(def) && Shape(def, s) && Enabled(def, s, e) && StatusOf(s.run, x) != NoStatus
    ensures StatusOf(After(def, s, e).run, x) != NoStatus
  {
    hide Valid, Reported, FailedWith, Settled, Resumed, NextRound, Ready, Claimed, Delivered, MailReopened, MailSet,
         StatusOf, NodeOf, StepsBack, WithStatus, StepIds;
    match e
    case Begin(ids) => ClaimedBecame(s.run, ids, s.clock);
    case Report(id, o) => ReportStays(def, s, id, o, x);
    case Failure(id, m, remind) => FailureStays(def, s, id, m, remind, x);
    case Infrastructure(id, m) => LeftStays(s.run, id, Paused, m, s.clock, x);
    case Interrupted(id) => LeftStays(s.run, id, Pending, NodeOf(s.run, id).error, s.clock, x);
    case NextLoop =>
      if x in StepIds(def) { NextRoundStatus(def, s.run, s.clock, x); } else { NextRoundElse(def, s.run, s.clock, x); }
    case Instruct(id, m) => DeliveredBecame(s.run, id, m);
    case ReopenMail => MailBecame(def, s.run, s.clock);
    case ResumeRun(from, m) => ResumedBecame(def, s.run, from, m, s.clock);
    case _ => SameNodes(s.run, After(def, s, e).run, x);
  }

  lemma SameNodes(a: Run, b: Run, x: Id)
    requires a.nodes == b.nodes
    ensures StatusOf(a, x) == StatusOf(b, x)
  {
  }

  lemma LeftStays(run: Run, id: Id, st: NodeStatus, error: string, now: int, x: Id)
    requires st != NoStatus && StatusOf(run, x) != NoStatus
    ensures StatusOf(WithStatus(run, id, st, error, now), x) != NoStatus
  {
  }

  lemma FailureStays(def: Definition, s: Sched, id: Id, m: string, remind: bool, x: Id)
    requires id in StepIds(def) && StepIds(def) <= s.run.nodes.Keys && StatusOf(s.run, x) != NoStatus
    ensures StatusOf(Settled(def, FailedWith(def, s.run, id, m, remind, s.clock), s.halted, s.clock), x) != NoStatus
  {
    hide FailedWith, Settled, StatusOf, StepsBack;
    var out := FailedWith(def, s.run, id, m, remind, s.clock);
    FailureStepsBack(def, s.run, id, m, remind, s.clock);
    StepsBackBecame(def, s.run, id, out);
    SettledKeeps(def, out, s.halted, s.clock);
    SameStatus(out, Settled(def, out, s.halted, s.clock), x);
  }

  lemma ReportStays(def: Definition, s: Sched, id: Id, o: Outcome, x: Id)
    requires id in StepIds(def) && StepIds(def) <= s.run.nodes.Keys && id in s.inflight && StatusOf(s.run, x) != NoStatus
    ensures StatusOf(Settled(def, Reported(def, s.run, id, o, s.clock), s.halted, s.clock), x) != NoStatus
  {
    hide Reported, Settled, Grants, StatusOf;
    var out := Reported(def, s.run, id, o, s.clock);
    SettledKeeps(def, out, s.halted, s.clock);
    SameStatus(out, Settled(def, out, s.halted, s.clock), x);
    if Passes(s.run, o) {
      PassBecame(def, s.run, id, o, s.clock);
    } else if edge :| Grants(def, s.run, id, o, edge) {
      GrantBecame(def, s.run, id, o, s.clock, edge);
    } else {
      ReportStepsBack(def, s.run, id, o, s.clock);
      StepsBackBecame(def, s.run, id, out);
    }
  }

  lemma SameStatus(a: Run, b: Run, x: Id)
    requires NodeOf(a, x) == NodeOf(b, x)
    ensures StatusOf(a, x) == StatusOf(b, x)
  {
  }

  lemma {:induction false} StoredAlways(def: Definition, s: Sched, es: seq<Event>)
    requires Valid(def) && Shape(def, s) && Stored(s.run) && Allowed(def, s, es)
    ensures Stored(Final(def, s, es).run)
  {
    hide Valid, Shape, Stored, After, Enabled;
    if es != [] {
      var before := es[..|es| - 1];
      StoredAlways(def, s, before);
      ShapeAlways(def, s, before);
      StoredKept(def, Final(def, s, before), es[|es| - 1]);
    }
  }

  // ---------- Taking a definition up ----------

  predicate TakesUp(e: Event) {
    e.NextLoop? || e.ResumeRun?
  }

  /** What stays completed rests on completed steps only, by the new definition too. */
  ghost predicate Respects(def: Definition, run: Run, from: Id) {
    forall d, x :: Dep(def, d, x) && StatusOf(run, x) == Completed && x !in ResumeSet(def, Opened(def, run), from) ==>
      StatusOf(run, d) == Completed
  }

  /** A loop round starts everything over; a resume must respect what stays completed. */
  ghost predicate Fits(def: Definition, s: Sched, e: Event) {
    e.ResumeRun? ==> Respects(def, s.run, e.from)
  }

  /** What a resume makes of a node, whether the definition is the one it was stored under or not. */
  lemma ResumedNode(def: Definition, run: Run, from: Id, m: string, now: int, x: Id)
    requires Valid(def) && (from == "" || from in StepIds(def))
    ensures var out := Resumed(def, run, from, m, now);
            && StatusOf(out, x) == (if x in ResumeSet(def, Opened(def, run), from) || (x in StepIds(def) && x !in run.nodes)
                                    then Pending else StatusOf(run, x))
            && NodeOf(out, x).failures == (if x in ResumeSet(def, Opened(def, run), from) then 0 else NodeOf(run, x).failures)
            && out.status == RunRunning && out.reworkRounds == map[]
  {
    hide Valid, Text.Trim, Text.Blank, ReadyIn, Ids, ResumeSet;
    var start, quiet, human := Opened(def, run), ResumedQuietly(def, run, from, now), Message("human", Text.Trim(m), now);
    OpenedNode(def, run, x);
    ResetNodeAt(start, ResumeSet(def, start, from), ByHuman, x);
    DeliveredStatus(quiet, from, human, x);
    DeliveredAllStatus(quiet, Ids(ReadyIn(def, quiet, def.steps)), human);
  }

  lemma ResumeShape(def: Definition, s: Sched, from: Id, m: string)
    requires Valid(def) && AtRest(s) && Stored(s.run) && Enabled(def, s, ResumeRun(from, m))
    ensures var t := After(def, s, ResumeRun(from, m)); Shape(def, t) && Stored(t.run)
  {
    hide Valid, Resumed, ResumeSet, StatusOf, NodeOf;
    var out := Resumed(def, s.run, from, m, s.clock);
    ResumeKeys(def, s.run, from, m, s.clock);
    forall x
      ensures StatusOf(out, x) != Running && out.status == RunRunning
      ensures x in out.nodes ==> StatusOf(out, x) != NoStatus
    {
      ResumedNode(def, s.run, from, m, s.clock, x);
    }
  }

  lemma ResumeCloses(def: Definition, s: Sched, from: Id, m: string)
    requires Valid(def) && AtRest(s) && Enabled(def, s, ResumeRun(from, m))
    ensures Closed(def, After(def, s, ResumeRun(from, m)).run) <==> Respects(def, s.run, from)
  {
    hide Valid, Resumed, ResumeSet, StatusOf, NodeOf, Dep;
    var out, ids := Resumed(def, s.run, from, m, s.clock), ResumeSet(def, Opened(def, s.run), from);
    forall x
      ensures StatusOf(out, x) == Completed <==> StatusOf(s.run, x) == Completed && x !in ids
      ensures StatusOf(out, x) != Running
    {
      ResumedNode(def, s.run, from, m, s.clock, x);
      MissingNode(s.run, x);
    }
    forall d, x | Dep(def, d, x) && d in ids && StatusOf(s.run, d) == Completed ensures x in ids {
      BelowReset(def, s.run, from, d, x);
    }
  }

  lemma MissingNode(run: Run, x: Id)
    ensures x !in run.nodes ==> StatusOf(run, x) == NoStatus
  {
  }

  /** Whatever rests on a completed step that is set back is set back with it. */
  lemma BelowReset(def: Definition, run: Run, from: Id, d: Id, x: Id)
    requires Dep(def, d, x) && d in ResumeSet(def, Opened(def, run), from) && StatusOf(run, d) == Completed
    ensures x in ResumeSet(def, Opened(def, run), from)
  {
    OpenedNode(def, run, d);
    if from != "" {
      if d == from { DepReaches(def, d, x); } else {
        InDescendants(def, from, d);
        ReachesThenDep(def, from, d, x);
      }
      InDescendants(def, from, x);
    } else if run.status == RunCompleted {
      SinksExactly(def, def.steps, d);
    }
  }

  /** A definition taken up at rest leaves the run in order exactly when it fits. */
  lemma TakenUp(def: Definition, s: Sched, e: Event)
    requires Valid(def) && AtRest(s) && Stored(s.run) && TakesUp(e) && Enabled(def, s, e)
    ensures var t := After(def, s, e);
            && Shape(def, t) && Stored(t.run) && t.inflight == {} && (Orderly(def, t) <==> Fits(def, s, e))
  {
    hide Valid, Closed, Respects, Stored, Shape, AtRest;
    if e.NextLoop? {
      RoundShape(def, s);
      RoundStored(def, s);
      NextRoundFrontier(def, s.run, s.clock);
      RestInFlight(s);
    } else {
      ResumeShape(def, s, e.from, e.message);
      ResumeCloses(def, s, e.from, e.message);
    }
  }

  lemma RestInFlight(s: Sched)
    requires AtRest(s)
    ensures s.inflight == {}
  {
  }

  lemma RoundStored(def: Definition, s: Sched)
    requires Valid(def) && Stored(s.run) && Enabled(def, s, NextLoop)
    ensures Stored(After(def, s, NextLoop).run)
  {
    hide Valid, NextRound, StatusOf;
    RoundKeys(def, s.run, s.clock);
    var out := NextRound(def, s.run, s.clock);
    forall x | x in out.nodes ensures StatusOf(out, x) != NoStatus {
      if x in StepIds(def) { NextRoundStatus(def, s.run, s.clock, x); } else { NextRoundElse(def, s.run, s.clock, x); }
    }
  }

  // ---------- Any number of edits ----------

  /** A definition, the event that takes it up, and what happens under it. */
  datatype Phase = Phase(def: Definition, first: Event, es: seq<Event>)

  ghost predicate Follows(s: Sched, phases: seq<Phase>)
    decreases |phases|, 0
  {
    phases == [] ||
      var n := |phases| - 1;
      && Follows(s, phases[..n])
      && var p, t := phases[n], Reached(s, phases[..n]);
         TakesUp(p.first) && Enabled(p.def, t, p.first) && Allowed(p.def, After(p.def, t, p.first), p.es)
  }

  ghost function Reached(s: Sched, phases: seq<Phase>): Sched
    requires Follows(s, phases)
    decreases |phases|, 1
  {
    if phases == [] then s else
      var p, t := phases[|phases| - 1], Reached(s, phases[..|phases| - 1]);
      Final(p.def, After(p.def, t, p.first), p.es)
  }

  function Current(def: Definition, phases: seq<Phase>): Definition {
    if phases == [] then def else phases[|phases| - 1].def
  }

  ghost predicate AllValid(phases: seq<Phase>) {
    forall i :: 0 <= i < |phases| ==> Valid(phases[i].def)
  }

  /** At rest for the next definition: nothing is in flight, and every node has a status. */
  lemma RestsBefore(def: Definition, t: Sched, p: Phase)
    requires Shape(def, t) && TakesUp(p.first) && Enabled(p.def, t, p.first)
    ensures AtRest(t)
  {
  }

  lemma {:induction false} ShapeEdits(def: Definition, s: Sched, phases: seq<Phase>)
    requires Valid(def) && Shape(def, s) && Stored(s.run) && Follows(s, phases) && AllValid(phases)
    ensures Shape(Current(def, phases), Reached(s, phases)) && Stored(Reached(s, phases).run)
  {
    hide Valid, Shape, Stored, After, Enabled, AtRest, Orderly, Fits, TakesUp;
    if phases != [] {
      var n := |phases| - 1;
      var p, t := phases[n], Reached(s, phases[..n]);
      ShapeEdits(def, s, phases[..n]);
      RestsBefore(Current(def, phases[..n]), t, p);
      TakenUp(p.def, t, p.first);
      ShapeAlways(p.def, After(p.def, t, p.first), p.es);
      StoredAlways(p.def, After(p.def, t, p.first), p.es);
    }
  }

  /** Every edit gives a contained definition and fits. */
  ghost predicate AllFit(s: Sched, phases: seq<Phase>)
    requires Follows(s, phases)
  {
    phases == [] ||
      var n := |phases| - 1;
      AllFit(s, phases[..n]) && Contained(phases[n].def) && Fits(phases[n].def, Reached(s, phases[..n]), phases[n].first)
  }

  /** Over any number of edits the run stays in order, if each edit fits. */
  lemma {:induction false} OrderlyEdits(def: Definition, s: Sched, phases: seq<Phase>)
    requires Valid(def) && Orderly(def, s) && Stored(s.run) && Follows(s, phases) && AllValid(phases) && AllFit(s, phases)
    ensures Orderly(Current(def, phases), Reached(s, phases))
  {
    hide Valid, Shape, Stored, After, Enabled, AtRest, Closed, Fits, TakesUp, Contained;
    if phases != [] {
      var n := |phases| - 1;
      var p, t := phases[n], Reached(s, phases[..n]);
      OrderlyEdits(def, s, phases[..n]);
      ShapeEdits(def, s, phases[..n]);
      RestsBefore(Current(def, phases[..n]), t, p);
      TakenUp(p.def, t, p.first);
      OrderlyAlways(p.def, After(p.def, t, p.first), p.es);
    }
  }

  /** From the start of a run, over whatever happens and whatever edits fit: the run stays in order,
      and no two steps that may write run, or are ready, at once. */
  lemma EditedRuns(def: Definition, runId: string, limit: Positive, es: seq<Event>, phases: seq<Phase>)
    requires Valid(def) && Contained(def) && EntriesIn(def, def.steps) != [] && Allowed(def, Started(def, runId, limit), es)
    requires var s := Final(def, Started(def, runId, limit), es); Follows(s, phases) && AllValid(phases) && AllFit(s, phases)
    ensures var s, last := Final(def, Started(def, runId, limit), es), Current(def, phases);
            Orderly(last, Reached(s, phases)) && WritersApart(last, Reached(s, phases).run)
  {
    hide Valid, Shape, Stored, After, Enabled, Closed, Contained, Started, Active, AllFit;
    var start := Started(def, runId, limit);
    var s, last := Final(def, start, es), Current(def, phases);
    StartedOrderly(def, runId, limit);
    StartedStored(def, runId, limit);
    OrderlyAlways(def, start, es);
    StoredAlways(def, start, es);
    OrderlyEdits(def, s, phases);
    var run := Reached(s, phases).run;
    CurrentValid(def, phases);
    forall a, b | a in last.steps && b in last.steps && Writes(last, run, a) && Writes(last, run, b) ensures a.id == b.id {
      OneWriter(last, run, a, b);
    }
  }

  ghost predicate Writes(def: Definition, run: Run, s: Step) {
    StepWrites(s) && Active(def, run, s.id)
  }

  ghost predicate WritersApart(def: Definition, run: Run) {
    forall a, b :: a in def.steps && b in def.steps && Writes(def, run, a) && Writes(def, run, b) ==> a.id == b.id
  }

  lemma CurrentValid(def: Definition, phases: seq<Phase>)
    requires Valid(def) && AllValid(phases)
    ensures Valid(Current(def, phases))
  {
    hide Valid;
  }

  lemma StartedStored(def: Definition, runId: string, limit: Positive)
    requires EntriesIn(def, def.steps) != []
    ensures Stored(Started(def, runId, limit).run)
  {
  }

  // ---------- Work over edits ----------

  /** No step that a resume leaves alone has used up the failures of the new definition. */
  ghost predicate Renews(def: Definition, s: Sched, e: Event) {
    e.ResumeRun? ==> forall x :: x in StepIds(def) && x !in ResumeSet(def, Opened(def, s.run), e.from) ==> HasAttempts(def, s.run, x)
  }

  /** A definition taken up at rest starts within its limits exactly when it renews them. */
  lemma LimitsTakenUp(def: Definition, s: Sched, e: Event)
    requires Valid(def) && AtRest(s) && Stored(s.run) && TakesUp(e) && Enabled(def, s, e)
    ensures WithinLimits(def, After(def, s, e)) <==> Renews(def, s, e)
  {
    hide Shape, Stored, AtRest, NextRound, Resumed, ResumeSet, NodeOf, StatusOf, WellFormed, Acyclic, ReworkGoesUp, WritersOrdered;
    TakenUp(def, s, e);
    FailuresAllowed(def);
    if e.NextLoop? {
      var out := NextRound(def, s.run, s.clock);
      NextRoundRun(def, s.run, s.clock);
      NoRounds(def, out);
      forall x | x in StepIds(def) ensures HasAttempts(def, out, x) { NextRoundStatus(def, s.run, s.clock, x); }
    } else {
      var out := Resumed(def, s.run, e.from, e.message, s.clock);
      ResumedNode(def, s.run, e.from, e.message, s.clock, "");
      forall x ensures HasAttempts(def, out, x) <==> x in ResumeSet(def, Opened(def, s.run), e.from) || HasAttempts(def, s.run, x)
      {
        ResumedNode(def, s.run, e.from, e.message, s.clock, x);
      }
      NoRounds(def, out);
    }
  }

  lemma FailuresAllowed(def: Definition)
    requires Valid(def)
    ensures def.policy.maxConsecutiveFailures > 0
  {
  }

  function Worked(phases: seq<Phase>): nat {
    if phases == [] then 0 else Worked(phases[..|phases| - 1]) + Executions(phases[|phases| - 1].es)
  }

  /** For each round begun, the cap of the definition it was begun under. */
  function Granting(phases: seq<Phase>): nat {
    if phases == [] then 0 else
      var p := phases[|phases| - 1];
      Granting(phases[..|phases| - 1]) + (1 + Loops(p.es)) * Cap(p.def)
  }

  ghost predicate AllRenew(s: Sched, phases: seq<Phase>)
    requires Follows(s, phases)
  {
    phases == [] ||
      var n := |phases| - 1;
      AllRenew(s, phases[..n]) && AllAutomatic(phases[n].es) && Renews(phases[n].def, Reached(s, phases[..n]), phases[n].first)
  }

  /** Automatic work stays bounded over any number of edits: each round begun adds the cap of the
      definition it is begun under. */
  lemma {:induction false} EditedWork(def: Definition, s: Sched, phases: seq<Phase>)
    requires Valid(def) && Shape(def, s) && Stored(s.run) && Follows(s, phases) && AllValid(phases) && AllRenew(s, phases)
    ensures Worked(phases) <= Granting(phases)
  {
    hide Valid, Shape, Stored, After, Enabled, AtRest, TakesUp, Renews, Cap, WithinLimits;
    if phases != [] {
      var n := |phases| - 1;
      var p, t := phases[n], Reached(s, phases[..n]);
      EditedWork(def, s, phases[..n]);
      ShapeEdits(def, s, phases[..n]);
      RestsBefore(Current(def, phases[..n]), t, p);
      LimitsTakenUp(p.def, t, p.first);
      WorkIsBounded(p.def, After(p.def, t, p.first), p.es);
    }
  }

  // ---------- A looping run that is resumed ----------

  /** A completed looping run that is resumed without naming a step begins its next round, which
      is resumed: what the code does in one go is a schedule of four events. */
  lemma LoopResumed(def: Definition, s: Sched, m: string)
    requires Valid(def) && Shape(def, s) && Enabled(def, s, NextLoop)
    ensures var es := [NextLoop, CancelContext, PauseRun(""), ResumeRun("", m)];
            && Allowed(def, s, es)
            && var t := Final(def, s, es);
               && t.run == Resumed(def, NextRound(def, s.run, s.clock).(status := RunPaused), "", m, s.clock + 3)
               && t.inflight == {} && !t.halted && !t.cancelled
  {
    hide Valid, Shape, NextRound, Resumed, EntriesIn, Enabled, After;
    RoundPaused(def, s, m);
    OneMore(def, s, [], NextLoop);
    OneMore(def, s, [NextLoop], CancelContext);
    OneMore(def, s, [NextLoop, CancelContext], PauseRun(""));
    OneMore(def, s, [NextLoop, CancelContext, PauseRun("")], ResumeRun("", m));
    assert [] + [NextLoop] == [NextLoop];
    assert [NextLoop] + [CancelContext] == [NextLoop, CancelContext];
    assert [NextLoop, CancelContext] + [PauseRun("")] == [NextLoop, CancelContext, PauseRun("")];
    assert [NextLoop, CancelContext, PauseRun("")] + [ResumeRun("", m)] == [NextLoop, CancelContext, PauseRun(""), ResumeRun("", m)];
  }

  lemma RoundPaused(def: Definition, s: Sched, m: string)
    requires Valid(def) && Enabled(def, s, NextLoop)
    ensures var a := After(def, s, NextLoop);
            && Enabled(def, a, CancelContext)
            && var b := After(def, a, CancelContext);
               && Enabled(def, b, PauseRun(""))
               && var c := After(def, b, PauseRun(""));
                  && Enabled(def, c, ResumeRun("", m))
                  && var t := After(def, c, ResumeRun("", m));
                     && t.run == Resumed(def, NextRound(def, s.run, s.clock).(status := RunPaused), "", m, s.clock + 3)
                     && t.inflight == {} && !t.halted && !t.cancelled
  {
    hide Valid, NextRound, Resumed, EntriesIn, Blocked;
    NextRoundRun(def, s.run, s.clock);
    var c := After(def, After(def, After(def, s, NextLoop), CancelContext), PauseRun(""));
    SameResume(def, NextRound(def, s.run, s.clock), c.run, m, s.clock + 3);
  }

  /** A resume does not look at the reason of the pause or at the last change. */
  lemma SameResume(def: Definition, a: Run, b: Run, m: string, now: int)
    requires b == a.(status := RunPaused, pauseReason := b.pauseReason, updatedAt := b.updatedAt)
    ensures Resumed(def, b, "", m, now) == Resumed(def, a.(status := RunPaused), "", m, now)
  {
    hide Text.Trim, Text.Blank, ReadyIn, DeliveredAll;
    assert ResumedQuietly(def, b, "", now) == ResumedQuietly(def, a.(status := RunPaused), "", now);
  }
}
