/** What each operation does to every node and to every field of a run, spelled out: which
    fields it writes, with what, and that it keeps the rest. */
module Effects {
  import opened Graph
  import opened Validation
  import opened Engine
  import opened Ordering
  import opened Collections
  import Scheduler
  import Text

  /** The node of a step as the run knows it; a step the run has no node for is pending and new. */
  ghost function Known(def: Definition, run: Run, x: Id): NodeState {
    if x in run.nodes then run.nodes[x]
    else if exists s :: s in def.steps && s.id == x then NodeState(x, Pending, 0, 0, NoVerdict, "", "", [], 0, 0)
    else NodeState("", NoStatus, 0, 0, NoVerdict, "", "", [], 0, 0)
  }

  lemma KnownOpened(def: Definition, run: Run, x: Id)
    ensures NodeOf(Opened(def, run), x) == Known(def, run, x)
  {
    OpenedNode(def, run, x);
  }

  /** The runs differ in their nodes and the time of the last change only. */
  predicate NodesOnly(out: Run, run: Run, now: int) {
    out.updatedAt == now && out.(nodes := run.nodes, updatedAt := run.updatedAt) == run
  }

  // ---------- Verdicts ----------

  /** A pass: what the step said is kept, its errors, failures and messages are cleared. */
  lemma PassEffect(def: Definition, run: Run, id: Id, o: Outcome, now: int, x: Id)
    requires id in StepIds(def) && run.status == RunRunning && o.verdict.Pass?
    ensures AfterOutcome(def, run, id, o, now).Ok?
    ensures var out, was := AfterOutcome(def, run, id, o, now).value, Known(def, run, x);
            && NodesOnly(out, run, now)
            && NodeOf(out, x) ==
               if x != id then was
               else NodeState(was.stepId, Completed, was.attempt, 0, Pass, Text.Trim(o.summary), "", [], was.startedAt, now)
  {
    hide Text.Trim;
    KnownOpened(def, run, x);
  }

  /** A question: the step and the run stop, and the run says what was asked. */
  lemma AskEffect(def: Definition, run: Run, id: Id, o: Outcome, now: int, x: Id)
    requires id in StepIds(def) && run.status == RunRunning && o.verdict.AskHuman?
    ensures AfterOutcome(def, run, id, o, now).Ok?
    ensures var out, was := AfterOutcome(def, run, id, o, now).value, Known(def, run, x);
            && out.status == RunPaused && out.pauseReason == AskedHuman && out.lastError == Text.Trim(o.summary)
            && NodesOnly(out.(status := run.status, pauseReason := run.pauseReason, lastError := run.lastError), run, now)
            && NodeOf(out, x) ==
               if x != id then was
               else NodeState(was.stepId, Paused, was.attempt, 0, AskHuman, Text.Trim(o.summary), "", [], was.startedAt, now)
  {
    hide Text.Trim;
    KnownOpened(def, run, x);
  }

  /** What the target of a rework is told: the feedback, or the summary where the feedback is blank. */
  function Told(o: Outcome): string {
    if Text.Blank(o.feedback) then Text.Trim(o.summary) else Text.Trim(o.feedback)
  }

  lemma FeedbackTold(o: Outcome)
    ensures FeedbackText(o) == Told(o)
  {
    Text.BlankTrimsAway(o.feedback);
    hide Text.Trim, Text.Blank;
  }

  function MaxRounds(def: Definition, e: Edge): int {
    if e.maxRounds != 0 then e.maxRounds else def.policy.maxReworkRounds
  }

  /** The rounds a rework edge has used up: those counted under its two ends. */
  function Used(run: Run, e: Edge): nat {
    var key := e.from + ">" + e.to;
    if key in run.reworkRounds then run.reworkRounds[key] else 0
  }

  /** The steps between the target of a rework and its source. */
  ghost predicate SetBack(def: Definition, e: Edge, x: Id) {
    x == e.from || x == e.to || (Reaches(def, e.to, x) && Reaches(def, x, e.from))
  }

  /** A rework with rounds left: the source keeps what it said, every step between goes back to
      pending, and the target has one message more. */
  lemma ReworkEffect(def: Definition, run: Run, id: Id, o: Outcome, now: int, e: Edge, x: Id)
    requires id in StepIds(def) && run.status == RunRunning && o.verdict.Rework?
    requires TakenOver(def, id, o.target, e) && Used(run, e) < MaxRounds(def, e)
    ensures AfterOutcome(def, run, id, o, now).Ok? && e.from == id
    ensures var out, was := AfterOutcome(def, run, id, o, now).value, Known(def, run, x);
            && out.reworkRounds == run.reworkRounds[e.from + ">" + e.to := Used(run, e) + 1]
            && NodesOnly(out.(reworkRounds := run.reworkRounds), run, now)
            && var said := if x != id then was
                           else NodeState(was.stepId, was.status, was.attempt, 0, Verdict.Rework, Text.Trim(o.summary), "", [],
                                          was.startedAt, now);
               NodeOf(out, x) == said.(
                 status := if SetBack(def, e, x) then Pending else said.status,
                 stepId := if x == e.to && !Text.Blank(Told(o)) then x else said.stepId,
                 inbox := said.inbox + if x == e.to && !Text.Blank(Told(o)) then [Message(id, Told(o), now)] else [])
  {
    hide Text.Trim, Text.Blank, ReworkSet, TakenOver, FeedbackText, Told, Reaches, AfterOutcome, SentBack, SetBack;
    GrantedOutcome(def, run, id, o, now, e);
    KnownOpened(def, run, x);
    var out := Opened(def, run).(updatedAt := now);
    SentBackExactly(def, out, id, e, Concluded(out, id, o, now), Message(id, Told(o), now), x);
    BetweenExactly(def, e, x);
  }

  lemma GrantedOutcome(def: Definition, run: Run, id: Id, o: Outcome, now: int, e: Edge)
    requires id in StepIds(def) && run.status == RunRunning && o.verdict.Rework?
    requires TakenOver(def, id, o.target, e) && Used(run, e) < MaxRounds(def, e)
    ensures e.from == id
    ensures var out := Opened(def, run).(updatedAt := now);
            AfterOutcome(def, run, id, o, now) == Ok(SentBack(def, out, id, e, Concluded(out, id, o, now), Message(id, Told(o), now)))
  {
    hide Text.Trim, Text.Blank, FeedbackText, Told, SentBack, Concluded, OpenedNodes;
    ChosenExactly(def, id, o.target);
    FeedbackTold(o);
  }

  lemma BetweenExactly(def: Definition, e: Edge, x: Id)
    ensures x in ReworkSet(def, e.from, e.to) <==> SetBack(def, e, x)
  {
    InDescendants(def, e.to, x);
    InDescendants(def, x, e.from);
  }

  lemma SentBackExactly(def: Definition, run: Run, id: Id, e: Edge, node: NodeState, m: Message, x: Id)
    requires e.from == id
    ensures var out := SentBack(def, run, id, e, node, m);
            var said := if x == id then node else NodeOf(run, x);
            && NodeOf(out, x) == said.(
                 status := if x in ReworkSet(def, e.from, e.to) then Pending else said.status,
                 stepId := if x == e.to && !Text.Blank(m.text) then x else said.stepId,
                 inbox := said.inbox + if x == e.to && !Text.Blank(m.text) then [m] else [])
            && out == RoundCounted(run, EdgeKey(e.from, e.to)).(nodes := out.nodes)
  {
    hide Text.Blank, ReworkSet;
    var marked := Put(RoundCounted(run, EdgeKey(e.from, e.to)), id, node);
    var path := ReworkSet(def, e.from, e.to);
    ResetNodeAt(marked, path, ToPending, x);
    if !Text.Blank(m.text) { DeliveredNode(Reopened(marked, path), e.to, m, x); }
  }

  /** A rework without rounds left: the step and the run stop. */
  lemma LimitEffect(def: Definition, run: Run, id: Id, o: Outcome, now: int, e: Edge, x: Id)
    requires id in StepIds(def) && run.status == RunRunning && o.verdict.Rework?
    requires TakenOver(def, id, o.target, e) && Used(run, e) >= MaxRounds(def, e)
    ensures AfterOutcome(def, run, id, o, now).Ok?
    ensures var out, was := AfterOutcome(def, run, id, o, now).value, Known(def, run, x);
            && out.status == RunPaused && out.pauseReason == ReworkLimit
            && NodesOnly(out.(status := run.status, pauseReason := run.pauseReason, lastError := run.lastError), run, now)
            && NodeOf(out, x) ==
               if x != id then was
               else NodeState(was.stepId, Paused, was.attempt, 0, Verdict.Rework, Text.Trim(o.summary), "", [], was.startedAt, now)
  {
    hide Text.Trim, TakenOver, FeedbackText;
    ChosenExactly(def, id, o.target);
    KnownOpened(def, run, x);
  }

  /** A failure: the step keeps what it said, its messages and its session. */
  lemma FailureNode(def: Definition, run: Run, id: Id, message: string, now: int, x: Id)
    requires id in StepIds(def)
    ensures var out, was := AfterFailure(def, run, id, message, now), Known(def, run, x);
            var stops := Known(def, run, id).failures + 1 >= def.policy.maxConsecutiveFailures;
            && NodeOf(out, x) ==
               (if x != id then was
                else was.(status := if stops then Paused else Pending, failures := was.failures + 1, error := Text.Trim(message),
                          finishedAt := now))
            && (if stops then out.status == RunPaused && out.pauseReason == FailureLimit && out.lastError == Text.Trim(message) &&
                              NodesOnly(out.(status := run.status, pauseReason := run.pauseReason, lastError := run.lastError), run, now)
                else NodesOnly(out, run, now))
  {
    hide Text.Trim;
    KnownOpened(def, run, x);
    KnownOpened(def, run, id);
  }

  // ---------- Resuming ----------

  /** A resume from a step restarts that step and all below it; one of a completed run its last
      steps; any other the steps that stopped. */
  ghost predicate Restarts(def: Definition, run: Run, from: Id, x: Id) {
    if from != "" then x == from || Reaches(def, from, x)
    else if run.status == RunCompleted then x in StepIds(def) && forall y :: !Dep(def, x, y)
    else Known(def, run, x).status in {Running, Paused, Failed}
  }

  lemma RestartsExactly(def: Definition, run: Run, from: Id, x: Id)
    ensures x in ResumeSet(def, Opened(def, run), from) <==> Restarts(def, run, from, x)
  {
    KnownOpened(def, run, x);
    if from != "" {
      InDescendants(def, from, x);
    } else if run.status == RunCompleted {
      SinksExactly(def, def.steps, x);
    }
  }

  /** Who is told: the step the run is resumed from or, where none is named, each step that
      starts next. */
  ghost predicate IsTold(def: Definition, out: Run, from: Id, x: Id) {
    if from != "" then x == from else x in StepIds(def) && Ready(def, out, x)
  }

  /** A resume restarts steps without touching what they did, clears their errors and failures,
      and puts the person's message, once, in the inboxes it is for. */
  lemma ResumeEffect(def: Definition, run: Run, from: Id, message: string, now: int, x: Id)
    requires Valid(def)
    ensures var out, was := Resumed(def, run, from, message, now), Known(def, run, x);
            var told := !Text.Blank(message) && IsTold(def, out, from, x);
            NodeOf(out, x) == NodeState(
              if told then x else was.stepId,
              if Restarts(def, run, from, x) then Pending else was.status,
              was.attempt,
              if Restarts(def, run, from, x) then 0 else was.failures,
              was.verdict,
              was.summary,
              if Restarts(def, run, from, x) then "" else was.error,
              if told then was.inbox + [Message("human", Text.Trim(message), now)] else was.inbox,
              was.startedAt,
              was.finishedAt)
    ensures var out := Resumed(def, run, from, message, now);
            && out.status == RunRunning && out.completedAt == 0 && out.pauseReason == NoReason && out.lastError == ""
            && out.reworkRounds == map[]
            && NodesOnly(out.(status := run.status, completedAt := run.completedAt, pauseReason := run.pauseReason,
                              lastError := run.lastError, reworkRounds := run.reworkRounds), run, now)
  {
    hide Valid, Text.Trim, Text.Blank, Restarts, ResumeSet, Ready, Opened, ReadyIn;
    KnownOpened(def, run, x);
    RestartsExactly(def, run, from, x);
    var start := Opened(def, run);
    OpenedRun(def, run);
    var quiet := ResumedQuietly(def, run, from, now);
    ResetNodeAt(start, ResumeSet(def, start, from), ByHuman, x);
    var human := Message("human", Text.Trim(message), now);
    if !Text.Blank(message) {
      Text.TrimNotBlank(message);
      if from != "" { DeliveredNode(quiet, from, human, x); } else { HandedOut(def, quiet, human, x); }
    }
  }

  lemma OpenedRun(def: Definition, run: Run)
    ensures Opened(def, run).(nodes := run.nodes) == run
  {
  }

  lemma HandedOut(def: Definition, run: Run, m: Message, x: Id)
    requires Valid(def) && !Text.Blank(m.text)
    ensures var out := DeliveredAll(run, Ids(ReadyIn(def, run, def.steps)), m);
            && out.(nodes := run.nodes) == run
            && NodeOf(out, x) == if x in StepIds(def) && Ready(def, out, x)
                                 then NodeOf(run, x).(stepId := x, inbox := NodeOf(run, x).inbox + [m]) else NodeOf(run, x)
  {
    hide Text.Blank, Ready, Acyclic, ReworkGoesUp, WritersOrdered, ValidEdges, ValidSteps, UniqueEdges, ReadyIn, Ids;
    var ids := Ids(ReadyIn(def, run, def.steps));
    ReadyUnique(def, run, def.steps);
    DeliveredAllNode(run, ids, m, x);
    DeliveredAllStatus(run, ids, m);
    ReadyIds(def, run, x);
    SameStatusReady(def, DeliveredAll(run, ids, m), run, x);
  }

  lemma ReadyIds(def: Definition, run: Run, x: Id)
    ensures x in Ids(ReadyIn(def, run, def.steps)) <==> x in StepIds(def) && Ready(def, run, x)
  {
    hide Ready;
    var ready := ReadyIn(def, run, def.steps);
    forall s | s in def.steps || s in ready ensures s in ready <==> s in def.steps && Ready(def, run, s.id) {
      ReadyExactly(def, run, def.steps, s);
    }
    if x in StepIds(def) && Ready(def, run, x) {
      var s :| s in def.steps && s.id == x;
      var i :| 0 <= i < |ready| && ready[i] == s;
      assert Ids(ready)[i] == x;
    }
    if x in Ids(ready) {
      var i :| 0 <= i < |ready| && Ids(ready)[i] == x;
      assert ready[i] in ready;
    }
  }

  lemma SameStatusReady(def: Definition, a: Run, b: Run, x: Id)
    requires forall y :: StatusOf(a, y) == StatusOf(b, y)
    ensures Ready(def, a, x) <==> Ready(def, b, x)
  {
  }

  // ---------- The next loop round ----------

  /** The next round forgets what every step did but its attempts and its messages. */
  lemma NextRoundEffect(def: Definition, run: Run, now: int, x: Id)
    requires Valid(def)
    ensures EntriesIn(def, def.steps) != []
    ensures var out, was := NextRound(def, run, now), Lookup(run.nodes, x);
            var opening := Message("onecatch", LoopText(Summaries(run, def.steps)), now);
            var first := x in StepIds(def) && forall d :: !Dep(def, d, x);
            NodeOf(out, x) == if x !in StepIds(def) then was else NodeState(
              x, Pending, was.attempt, 0, NoVerdict, "", "", was.inbox + if first then [opening] else [], 0, 0)
    ensures var out := NextRound(def, run, now);
            && out.status == RunRunning && out.completedAt == 0 && out.pauseReason == NoReason && out.lastError == ""
            && out.reworkRounds == map[] && out.loopRound == (if run.loopRound > 1 then run.loopRound + 1 else 2)
            && out.currentStepId == EntriesIn(def, def.steps)[0]
            && NodesOnly(out.(status := run.status, completedAt := run.completedAt, pauseReason := run.pauseReason,
                              lastError := run.lastError, reworkRounds := run.reworkRounds, loopRound := run.loopRound,
                              currentStepId := run.currentStepId), run, now)
  {
    hide Valid, LoopText, Summaries, Text.Blank, EntriesIn;
    EntryOfValid(def);
    var entries := EntriesIn(def, def.steps);
    var opening := Message("onecatch", LoopText(Summaries(run, def.steps)), now);
    NextRoundNode(def, run, now, x);
    EntriesExactly(def, def.steps, x);
    DeliveredAllStatus(Rewound(def, run, now).(currentStepId := entries[0]), entries, opening);
  }

  lemma EntryOfValid(def: Definition)
    requires Valid(def)
    ensures EntriesIn(def, def.steps) != []
  {
    forall e | e in def.edges ensures e.from in StepIds(def) { assert ValidEdge(def, e); }
    EntryExists(def);
  }

  /** The opening message lists, in the order of the steps, what each step that said anything said. */
  lemma {:induction false} SummariesExactly(run: Run, steps: seq<Step>, line: string)
    ensures line in Summaries(run, steps) <==>
            exists s :: s in steps && NodeOf(run, s.id).summary != "" && line == s.name + ": " + NodeOf(run, s.id).summary
  {
    if steps != [] {
      var n := |steps| - 1;
      assert steps == steps[..n] + [steps[n]];
      SummariesExactly(run, steps[..n], line);
    }
  }

  // ---------- The scheduler's own writes ----------

  /** Starting steps: each has one attempt more and no error; what it said before and its
      messages stay. */
  lemma BeginEffect(def: Definition, run: Run, ids: seq<Id>, now: int, x: Id)
    requires ids != []
    ensures var out, was := Scheduler.Claimed(run, ids, now), Lookup(run.nodes, x);
            && NodeOf(out, x) == (if x !in ids then was else NodeState(
                 was.stepId, Running, was.attempt + 1, was.failures, was.verdict, was.summary, "", was.inbox, now, 0))
            && out.currentStepId == ids[|ids| - 1]
            && NodesOnly(out.(currentStepId := run.currentStepId), run, now)
  {
    Scheduler.ClaimedNode(run, ids, now, x);
  }

  /** After a report or a failure the run is completed exactly when it was running, no pause is
      pending and every step is completed. */
  lemma SettledExactly(def: Definition, run: Run, halted: bool, now: int)
    ensures var out := Scheduler.Settled(def, run, halted, now);
            var done := run.status == RunRunning && !halted && def.steps != [] &&
                        forall s :: s in def.steps ==> Lookup(run.nodes, s.id).status == Completed;
            out == run.(updatedAt := now, status := if done then RunCompleted else run.status,
                        completedAt := if done then now else run.completedAt)
  {
    forall s | s in def.steps ensures s.id in StepIds(def) {}
  }

  /** Reopening for mail changes statuses only: those of the completed steps at or below a
      completed step with a message. */
  lemma MailEffect(def: Definition, run: Run, x: Id)
    ensures var out := Reopened(Opened(def, run), MailSet(def, Opened(def, run), StepIds(def)));
            var was := Known(def, run, x);
            && out.(nodes := run.nodes) == run
            && NodeOf(out, x) == was.(status := if was.status == Completed && BelowMail(def, run, x) then Pending else was.status)
  {
    hide AtOrBelow;
    KnownOpened(def, run, x);
    forall m ensures NodeOf(Opened(def, run), m) == Known(def, run, m) { KnownOpened(def, run, m); }
    var start := Opened(def, run);
    ResetNodeAt(start, MailSet(def, start, StepIds(def)), ToPending, x);
    BelowMailExactly(def, run, x);
  }

  ghost predicate BelowMail(def: Definition, run: Run, x: Id) {
    exists m :: m in StepIds(def) && Known(def, run, m).status == Completed && Known(def, run, m).inbox != [] &&
                (x == m || Reaches(def, m, x))
  }

  lemma BelowMailExactly(def: Definition, run: Run, x: Id)
    ensures x in MailSet(def, Opened(def, run), StepIds(def)) <==> Known(def, run, x).status == Completed && BelowMail(def, run, x)
  {
    var start := Opened(def, run);
    forall m ensures NodeOf(start, m) == Known(def, run, m) { KnownOpened(def, run, m); }
    assert StatusOf(start, x) == Completed ==> x in start.nodes;
    if x in MailSet(def, start, StepIds(def)) {
      var m :| m in StepIds(def) && HasMail(start, m) && AtOrBelow(def, m, x);
      assert Known(def, run, m).inbox != [];
    }
    if Known(def, run, x).status == Completed && BelowMail(def, run, x) {
      var m :| m in StepIds(def) && Known(def, run, m).status == Completed && Known(def, run, m).inbox != [] &&
               (x == m || Reaches(def, m, x));
      assert HasMail(start, m) && AtOrBelow(def, m, x);
    }
  }

  /** A new run: ready, with a new node for every step and none else. */
  lemma FreshEffect(def: Definition, runId: string, entry: Id, now: int)
    ensures var run := Fresh(def, runId, entry, now);
            && run.id == runId && run.workflowId == def.id && run.loopEnabled == def.loopEnabled
            && run.loopRound == (if def.loopEnabled then 1 else 0) && run.status == RunReady && run.currentStepId == entry
            && run.sessions == map[] && run.reworkRounds == map[] && run.pauseReason == NoReason && run.lastError == ""
            && run.updatedAt == now && run.completedAt == 0
            && run.nodes.Keys == (set s | s in def.steps :: s.id)
            && forall x :: x in run.nodes ==> run.nodes[x] == NodeState(x, Pending, 0, 0, NoVerdict, "", "", [], 0, 0)
  {
  }

  /** A step that ended without a verdict is told so, besides its failure. */
  lemma RemindEffect(def: Definition, run: Run, id: Id, message: string, remind: bool, now: int, x: Id)
    ensures var out, failed := Scheduler.FailedWith(def, run, id, message, remind, now), AfterFailure(def, run, id, message, now);
            && out.(nodes := failed.nodes) == failed
            && NodeOf(out, x) == if !remind || x != id then NodeOf(failed, x) else NodeOf(failed, x).(
                 stepId := x, inbox := NodeOf(failed, x).inbox + [Message("onecatch", "End with a verdict.", now)])
  {
    hide AfterFailure, Text.Blank;
    if remind {
      SomethingSaid("End with a verdict.");
      DeliveredNode(AfterFailure(def, run, id, message, now), id, Message("onecatch", "End with a verdict.", now), x);
    }
  }

  lemma SomethingSaid(s: string)
    requires s != "" && s[0] == 'E'
    ensures !Text.Blank(s)
  {
  }

  /** A step that could not run stops, with the reason; one that was interrupted is to run again.
      Neither counts as a failure, and both keep their messages. */
  lemma LeftEffect(def: Definition, s: Scheduler.Sched, id: Id, message: string, x: Id)
    requires id in s.inflight
    ensures var t, was := Scheduler.After(def, s, Scheduler.Infrastructure(id, message)), NodeOf(s.run, x);
            && NodesOnly(t.run, s.run, s.clock) && t.halted && t.inflight == s.inflight - {id}
            && NodeOf(t.run, x) == if x == id then was.(status := Paused, error := message, finishedAt := s.clock) else was
    ensures Scheduler.Enabled(def, s, Scheduler.Interrupted(id)) ==>
            var t, was := Scheduler.After(def, s, Scheduler.Interrupted(id)), NodeOf(s.run, x);
            && NodesOnly(t.run, s.run, s.clock) && t.halted == s.halted && t.inflight == s.inflight - {id}
            && NodeOf(t.run, x) == if x == id then was.(status := Pending, finishedAt := s.clock) else was
  {
  }
}
