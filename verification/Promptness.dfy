/** The scheduler's own discipline (scheduler.go): before it takes a result it starts the first
    ready steps that fit, and it reopens steps for messages only when nothing is left to start. */
module Promptness {
  import opened Graph
  import opened Validation
  import opened Engine
  import opened Scheduler
  import opened Collections

  // ---------- What is started next ----------

  function Unstarted(ready: seq<Step>, inflight: set<Id>): seq<Id> {
    if ready == [] then [] else
      var n := |ready| - 1;
      Unstarted(ready[..n], inflight) + if ready[n].id in inflight then [] else [ready[n].id]
  }

  /** The ready steps not in flight, in the order of the definition. */
  function Waiting(def: Definition, s: Sched): seq<Id> {
    Unstarted(ReadyIn(def, s.run, def.steps), s.inflight)
  }

  /** As many of them as fit under the concurrency limit. */
  function Fill(def: Definition, s: Sched): seq<Id> {
    var room, waiting := s.limit - |s.inflight|, Waiting(def, s);
    if room <= 0 then [] else if room < |waiting| then waiting[..room] else waiting
  }

  ghost predicate Starts(def: Definition, s: Sched) {
    s.run.status == RunRunning && !s.halted && !s.cancelled && Fill(def, s) != []
  }

  /** The scheduler would do this now. People act at any time. */
  ghost predicate InTurn(def: Definition, s: Sched, e: Event) {
    match e
    case Begin(ids) => ids == Fill(def, s)
    case Report(_, _) => !Starts(def, s)
    case Failure(_, _, _) => !Starts(def, s)
    case Infrastructure(_, _) => !Starts(def, s)
    case Interrupted(_) => !Starts(def, s)
    case ReopenMail => !Starts(def, s)
    case _ => true
  }

  ghost predicate Prompt(def: Definition, s: Sched, es: seq<Event>)
    requires Allowed(def, s, es)
  {
    es == [] || (Prompt(def, s, es[..|es| - 1]) && InTurn(def, Final(def, s, es[..|es| - 1]), es[|es| - 1]))
  }

  lemma {:induction false} WaitingApart(def: Definition, s: Sched, steps: seq<Step>)
    requires forall i, j :: 0 <= i < j < |steps| ==> steps[i].id != steps[j].id
    ensures var ids := Unstarted(ReadyIn(def, s.run, steps), s.inflight);
            NoRepeats(ids) && forall x :: x in ids ==> exists i :: 0 <= i < |steps| && steps[i].id == x
  {
    hide Unstarted, ReadyIn;
    if steps == [] {
      assert Unstarted(ReadyIn(def, s.run, steps), s.inflight) == [] by { NothingWaiting(def, s); }
    } else {
      var n := |steps| - 1;
      WaitingApart(def, s, steps[..n]);
      var before := Unstarted(ReadyIn(def, s.run, steps[..n]), s.inflight);
      OneMoreWaiting(def, s, steps);
      assert forall i :: 0 <= i < n ==> steps[..n][i] == steps[i];
      assert steps[n].id !in before;
    }
  }

  lemma NothingWaiting(def: Definition, s: Sched)
    ensures Unstarted(ReadyIn(def, s.run, []), s.inflight) == []
  {
  }

  lemma OneMoreWaiting(def: Definition, s: Sched, steps: seq<Step>)
    requires steps != []
    ensures var n := |steps| - 1;
            var before := Unstarted(ReadyIn(def, s.run, steps[..n]), s.inflight);
            var ids := Unstarted(ReadyIn(def, s.run, steps), s.inflight);
            ids == before || ids == before + [steps[n].id]
  {
    hide Unstarted, StatusOf;
    var n := |steps| - 1;
    var ready := ReadyIn(def, s.run, steps[..n]);
    UnstartedNext(ready, steps[n], s.inflight);
    assert ReadyIn(def, s.run, steps) == ready || ReadyIn(def, s.run, steps) == ready + [steps[n]];
  }

  lemma UnstartedNext(ready: seq<Step>, step: Step, inflight: set<Id>)
    ensures Unstarted(ready + [step], inflight) ==
            Unstarted(ready, inflight) + if step.id in inflight then [] else [step.id]
  {
    assert (ready + [step])[..|ready|] == ready;
  }

  lemma {:induction false} UnstartedExactly(ready: seq<Step>, inflight: set<Id>, x: Id)
    ensures x in Unstarted(ready, inflight) <==> x !in inflight && exists s :: s in ready && s.id == x
  {
    if ready != [] {
      var n := |ready| - 1;
      UnstartedExactly(ready[..n], inflight, x);
      assert ready == ready[..n] + [ready[n]];
    }
  }

  lemma WaitingExactly(def: Definition, s: Sched, x: Id)
    ensures x in Waiting(def, s) <==> x in StepIds(def) && Ready(def, s.run, x) && x !in s.inflight
  {
    hide Ready;
    UnstartedExactly(ReadyIn(def, s.run, def.steps), s.inflight, x);
    forall step: Step | step.id == x
      ensures step in ReadyIn(def, s.run, def.steps) <==> step in def.steps && Ready(def, s.run, x)
    {
      ReadyExactly(def, s.run, def.steps, step);
    }
  }

  lemma FillFits(def: Definition, s: Sched)
    requires UniqueSteps(def) && |s.inflight| <= s.limit
    ensures NoRepeats(Fill(def, s)) && |s.inflight| + |Fill(def, s)| <= s.limit
    ensures forall x :: x in Fill(def, s) ==> x in StepIds(def) && Ready(def, s.run, x) && x !in s.inflight
    ensures Fill(def, s) == [] <==> |s.inflight| == s.limit || Waiting(def, s) == []
  {
    hide Ready, Waiting;
    NoneTwice(def, s);
    forall x | x in Fill(def, s) ensures x in StepIds(def) && Ready(def, s.run, x) && x !in s.inflight {
      assert x in Waiting(def, s);
      WaitingExactly(def, s, x);
    }
  }

  /** Those that wait stand in the order of the steps. */
  lemma {:induction false} UnstartedOrder(ready: seq<Step>, inflight: set<Id>) returns (at: seq<nat>)
    ensures Picks(at, ready, IdOf, Unstarted(ready, inflight))
    ensures forall i: nat :: i in at <==> i < |ready| && ready[i].id !in inflight
  {
    hide Picks, Unstarted;
    UnstartedLast(ready, inflight);
    if ready == [] {
      at := [];
      PicksNone(IdOf);
    } else {
      var n := |ready| - 1;
      var front := UnstartedOrder(ready[..n], inflight);
      var more: seq<nat> := if ready[n].id !in inflight then [n] else [];
      at := front + more;
      assert ready == ready[..n] + [ready[n]];
      PicksMore(front, ready[..n], IdOf, Unstarted(ready[..n], inflight), ready[n], more);
      assert Unstarted(ready, inflight) == Unstarted(ready[..n], inflight) + if more == [] then [] else [IdOf(ready[n])];
    }
  }

  lemma UnstartedLast(ready: seq<Step>, inflight: set<Id>)
    ensures Unstarted(ready, inflight) ==
            if ready == [] then []
            else var n := |ready| - 1;
                 Unstarted(ready[..n], inflight) + if ready[n].id !in inflight then [ready[n].id] else []
  {
  }

  /** Started are the first of those that wait: of two steps that wait, the one that comes first in
      the definition is started if the other is, and one is left waiting only for want of room. */
  lemma FillFirst(def: Definition, s: Sched, i: nat, j: nat)
    requires UniqueSteps(def) && |s.inflight| <= s.limit && i < |def.steps| && j < |def.steps|
    requires var a, b := def.steps[i].id, def.steps[j].id;
             Ready(def, s.run, a) && Ready(def, s.run, b) && a !in s.inflight && b !in s.inflight
    ensures i < j && def.steps[j].id in Fill(def, s) ==> def.steps[i].id in Fill(def, s)
    ensures def.steps[i].id !in Fill(def, s) ==> |s.inflight| + |Fill(def, s)| == s.limit
  {
    hide Ready, Waiting, UniqueSteps;
    var a, b := def.steps[i].id, def.steps[j].id;
    assert def.steps[i] in def.steps && def.steps[j] in def.steps;
    WaitingExactly(def, s, a);
    var waiting := Waiting(def, s);
    NoneTwice(def, s);
    var p: nat :| p < |waiting| && waiting[p] == a;
    assert p < |Fill(def, s)| ==> Fill(def, s)[p] == a;
    if i < j && b in Fill(def, s) {
      var q: nat :| q < |Fill(def, s)| && Fill(def, s)[q] == b;
      assert waiting[q] == b;
      var at := WaitingOrder(def, s);
      StepAt(def, at[p], i);
      StepAt(def, at[q], j);
    }
  }

  lemma StepAt(def: Definition, i: nat, j: nat)
    requires UniqueSteps(def) && i < |def.steps| && j < |def.steps| && def.steps[i].id == def.steps[j].id
    ensures i == j
  {
  }

  lemma WaitingOrder(def: Definition, s: Sched) returns (at: seq<nat>)
    ensures Rising(at) && |at| == |Waiting(def, s)|
    ensures forall k :: 0 <= k < |at| ==> at[k] < |def.steps| && Waiting(def, s)[k] == def.steps[at[k]].id
  {
    hide ReadyIn, Unstarted, Ready;
    var ready := ReadyIn(def, s.run, def.steps);
    var inner := ReadyOrder(def, s.run, def.steps);
    var outer := UnstartedOrder(ready, s.inflight);
    at := seq(|outer|, k requires 0 <= k < |outer| => inner[outer[k]]);
  }

  lemma NoneTwice(def: Definition, s: Sched)
    requires UniqueSteps(def)
    ensures NoRepeats(Waiting(def, s))
  {
    WaitingApart(def, s, def.steps);
  }

  // ---------- Schedules that keep to it ----------

  /** A run that goes on, with no more steps in flight than may be. */
  ghost predicate Busy(def: Definition, s: Sched) {
    Shape(def, s) && s.run.status == RunRunning && !s.halted && !s.cancelled && |s.inflight| <= s.limit
  }

  ghost predicate Driven(def: Definition, start: Sched, es: seq<Event>) {
    Allowed(def, start, es) && Prompt(def, start, es) && Busy(def, Final(def, start, es)) &&
    Final(def, start, es).limit == start.limit
  }

  lemma NothingDriven(def: Definition, s: Sched)
    requires Busy(def, s)
    ensures Driven(def, s, [])
  {
  }

  /** `es` goes on from `es0` with nothing but what the scheduler does by itself. */
  ghost predicate Extends(es0: seq<Event>, es: seq<Event>) {
    es0 <= es && forall i :: |es0| <= i < |es| ==> Automatic(es[i])
  }

  lemma PromptOne(def: Definition, start: Sched, es: seq<Event>, e: Event)
    requires Allowed(def, start, es) && Prompt(def, start, es)
    requires Enabled(def, Final(def, start, es), e) && InTurn(def, Final(def, start, es), e)
    ensures Allowed(def, start, es + [e]) && Prompt(def, start, es + [e])
    ensures Final(def, start, es + [e]) == After(def, Final(def, start, es), e)
    ensures Automatic(e) ==> Extends(es, es + [e])
  {
    hide After, Enabled, InTurn;
    OneMore(def, start, es, e);
    assert (es + [e])[..|es|] == es;
  }

  lemma DriveOne(def: Definition, start: Sched, es: seq<Event>, e: Event)
    requires Driven(def, start, es) && Enabled(def, Final(def, start, es), e) && InTurn(def, Final(def, start, es), e)
    requires Busy(def, After(def, Final(def, start, es), e))
    ensures Driven(def, start, es + [e]) && Final(def, start, es + [e]) == After(def, Final(def, start, es), e)
    ensures Automatic(e) ==> Extends(es, es + [e])
  {
    hide After, Enabled, InTurn, Busy, Prompt, Extends;
    PromptOne(def, start, es, e);
    LimitStep(def, Final(def, start, es), e);
  }

  function PassOutcome(): Outcome {
    Outcome(Pass, "done", "", "")
  }

  lemma PassOne(def: Definition, s: Sched, id: Id)
    requires Valid(def) && Shape(def, s) && s.run.status == RunRunning && id in s.inflight
    requires exists x :: x in StepIds(def) && x != id && StatusOf(s.run, x) != Completed
    ensures Enabled(def, s, Report(id, PassOutcome()))
    ensures var t := After(def, s, Report(id, PassOutcome()));
            && Shape(def, t) && t.run.status == RunRunning && t.halted == s.halted && t.cancelled == s.cancelled
            && t.inflight == s.inflight - {id} && t.run.reworkRounds == s.run.reworkRounds
            && forall x :: StatusOf(t.run, x) == if x == id then Completed else StatusOf(s.run, x)
  {
    hide Valid, Reported, Settled;
    ShapeReport(def, s, id, PassOutcome());
    var out := Reported(def, s.run, id, PassOutcome(), s.clock);
    PassBecame(def, s.run, id, PassOutcome(), s.clock);
    ReportPasses(def, s.run, id, PassOutcome(), s.clock, id);
    SettledKeeps(def, out, s.halted, s.clock);
    var x :| x in StepIds(def) && x != id && StatusOf(s.run, x) != Completed;
    assert StatusOf(out, x) != Completed;
  }

  ghost function Undone(def: Definition, s: Sched): set<Id> {
    set x | x in StepIds(def) && StatusOf(s.run, x) != Completed
  }

  ghost function Idle(def: Definition, s: Sched): set<Id> {
    Undone(def, s) - s.inflight
  }

  /** The scheduler starts what fits. */
  lemma FillNext(def: Definition, start: Sched, es: seq<Event>) returns (more: seq<Event>)
    requires Valid(def) && Driven(def, start, es) && Starts(def, Final(def, start, es))
    ensures Driven(def, start, more) && Extends(es, more)
    ensures var s, t := Final(def, start, es), Final(def, start, more);
            && Enabled(def, s, Begin(Fill(def, s))) && t == After(def, s, Begin(Fill(def, s)))
            && t.run.reworkRounds == s.run.reworkRounds && t.inflight == s.inflight + Elements(Fill(def, s))
            && (forall x :: StatusOf(t.run, x) == if x in Fill(def, s) then Running else StatusOf(s.run, x))
            && (forall x :: x in Fill(def, s) ==> x in StepIds(def) && Ready(def, s.run, x) && x !in s.inflight)
            && |Undone(def, t)| == |Undone(def, s)| && |Idle(def, t)| < |Idle(def, s)|
  {
    hide Ready, Shape, Fill, Prompt, Allowed, WellFormed, Acyclic, ReworkGoesUp, WritersOrdered;
    var s := Final(def, start, es);
    var e := Begin(Fill(def, s));
    FillStarts(def, s);
    DriveOne(def, start, es, e);
    more := es + [e];
    FewerIdle(def, s, After(def, s, e), Fill(def, s));
  }

  lemma FillStarts(def: Definition, s: Sched)
    requires Valid(def) && Busy(def, s) && Starts(def, s)
    ensures Enabled(def, s, Begin(Fill(def, s))) && InTurn(def, s, Begin(Fill(def, s)))
    ensures var t := After(def, s, Begin(Fill(def, s)));
            && Busy(def, t) && t.run.reworkRounds == s.run.reworkRounds
            && t.inflight == s.inflight + Elements(Fill(def, s))
            && forall x :: StatusOf(t.run, x) == if x in Fill(def, s) then Running else StatusOf(s.run, x)
    ensures forall x :: x in Fill(def, s) ==> x in StepIds(def) && Ready(def, s.run, x) && x !in s.inflight
  {
    hide Ready, Shape, Fill, Claimed, Valid, StatusOf;
    UniqueInValid(def);
    FillFits(def, s);
    ShapeBegin(def, s, Fill(def, s));
    RoomStep(def, s, Begin(Fill(def, s)));
    ClaimedBecame(s.run, Fill(def, s), s.clock);
    ClaimedRest(s.run, Fill(def, s), s.clock);
  }

  lemma UniqueInValid(def: Definition)
    requires Valid(def)
    ensures UniqueSteps(def)
  {
  }

  lemma ClaimedRest(run: Run, ids: seq<Id>, now: int)
    requires ids != []
    ensures Claimed(run, ids, now).status == run.status && Claimed(run, ids, now).reworkRounds == run.reworkRounds
  {
  }

  lemma FewerIdle(def: Definition, s: Sched, t: Sched, ids: seq<Id>)
    requires ids != [] && t.inflight == s.inflight + Elements(ids)
    requires forall x :: x in ids ==> x in StepIds(def) && Ready(def, s.run, x) && x !in s.inflight
    requires forall x :: StatusOf(t.run, x) == if x in ids then Running else StatusOf(s.run, x)
    ensures |Undone(def, t)| == |Undone(def, s)| && |Idle(def, t)| < |Idle(def, s)|
  {
    hide StatusOf;
    assert Undone(def, t) == Undone(def, s);
    assert ids[0] in Idle(def, s) && ids[0] !in Idle(def, t);
    SubsetSmaller(Idle(def, t), Idle(def, s));
  }

  /** With nothing more to start, a step in flight passes while `keep` is not completed. */
  lemma PassNext(def: Definition, start: Sched, es: seq<Event>, id: Id, keep: Id) returns (more: seq<Event>)
    requires Valid(def) && Driven(def, start, es) && !Starts(def, Final(def, start, es))
    requires id in Final(def, start, es).inflight
    requires keep in StepIds(def) && keep != id && StatusOf(Final(def, start, es).run, keep) != Completed
    ensures Driven(def, start, more) && Extends(es, more)
    ensures var s, t := Final(def, start, es), Final(def, start, more);
            && Enabled(def, s, Report(id, PassOutcome())) && t == After(def, s, Report(id, PassOutcome()))
            && t.run.reworkRounds == s.run.reworkRounds && t.inflight == s.inflight - {id}
            && (forall x :: StatusOf(t.run, x) == if x == id then Completed else StatusOf(s.run, x))
            && |Undone(def, t)| < |Undone(def, s)|
  {
    hide Valid, Shape, Fill, Prompt, Allowed, PassOutcome, Starts;
    var s := Final(def, start, es);
    var e := Report(id, PassOutcome());
    PassOne(def, s, id);
    RoomStep(def, s, e);
    DriveOne(def, start, es, e);
    more := es + [e];
    FewerUndone(def, s, After(def, s, e), id);
  }

  lemma FewerUndone(def: Definition, s: Sched, t: Sched, id: Id)
    requires Shape(def, s) && id in s.inflight
    requires forall x :: StatusOf(t.run, x) == if x == id then Completed else StatusOf(s.run, x)
    ensures |Undone(def, t)| < |Undone(def, s)|
  {
    hide StatusOf;
    assert Unfinished(s.run, id);
    assert id in Undone(def, s) && id !in Undone(def, t);
    SubsetSmaller(Undone(def, t), Undone(def, s));
  }

  /** A started run with room has nothing to start only when nothing is ready. */
  lemma NothingWaits(def: Definition, s: Sched, x: Id)
    requires Valid(def) && Busy(def, s) && !Starts(def, s) && |s.inflight| < s.limit
    requires x in StepIds(def) && x !in s.inflight
    ensures !Ready(def, s.run, x)
  {
    hide Ready, Shape, Waiting, Fill, Valid;
    UniqueInValid(def);
    FillFits(def, s);
    WaitingExactly(def, s, x);
  }
}
