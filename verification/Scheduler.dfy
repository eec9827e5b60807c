/** The scheduler as a state machine over the engine's transitions: steps are started,
    report, fail or are interrupted in any order, and a human may step in
    (internal/usecase/workflows/scheduler.go, drive and the functions it calls). */
module Scheduler {
  import opened Graph
  import opened Validation
  import opened Engine
  import opened Ordering
  import opened Collections
  import Text

  type Positive = n: nat | 1 <= n witness 1

  /** `inflight` are the started steps that have not reported; `halted` is a pending
      infrastructure pause and `cancelled` an ended context, both of which stop new starts;
      `limit` is how many steps may be in flight at once. */
  datatype Sched = Sched(run: Run, inflight: set<Id>, halted: bool, cancelled: bool, clock: int, limit: Positive)

  datatype Event =
    | Begin(ids: seq<Id>)
    | Report(id: Id, outcome: Outcome)
    | Failure(id: Id, message: string, remind: bool)
    | Infrastructure(id: Id, message: string)
    | Interrupted(id: Id)
    | NextLoop
    | Instruct(id: Id, m: Message)
    | ReopenMail
    | CancelContext
    | PauseRun(reason: string)
    | ResumeRun(from: Id, message: string)
    | CancelRun

  predicate Automatic(e: Event) {
    e.Begin? || e.Report? || e.Failure? || e.Infrastructure? || e.Interrupted? || e.NextLoop?
  }

  /** An execution has ended with a result. */
  predicate IsExecution(e: Event) {
    e.Report? || e.Failure? || e.Infrastructure?
  }

  function Claim(n: NodeState, now: int): NodeState {
    n.(status := Running, attempt := n.attempt + 1, error := "", startedAt := now, finishedAt := 0)
  }

  function Claimed(run: Run, ids: seq<Id>, now: int): Run
    requires ids != []
  {
    run.(nodes := map x | x in run.nodes.Keys + (set y | y in ids) ::
           if x in ids then Claim(NodeOf(run, x), now) else run.nodes[x],
         currentStepId := ids[|ids| - 1], updatedAt := now)
  }

  /** A verdict the engine refuses is recorded as a failure of the step. */
  ghost function Reported(def: Definition, run: Run, id: Id, o: Outcome, now: int): Run {
    var r := AfterOutcome(def, run, id, o, now);
    if r.Ok? then r.value else AfterFailure(def, run, id, "", now)
  }

  ghost function FailedWith(def: Definition, run: Run, id: Id, message: string, remind: bool, now: int): Run {
    var out := AfterFailure(def, run, id, message, now);
    if remind then Delivered(out, id, Message("onecatch", "End with a verdict.", now)) else out
  }

  /** The last verdict and the completion of the run land in one write. */
  ghost function Settled(def: Definition, run: Run, halted: bool, now: int): Run {
    if run.status == RunRunning && !halted && |def.steps| > 0 && AllDone(def, run)
    then run.(status := RunCompleted, completedAt := now, updatedAt := now)
    else run.(updatedAt := now)
  }

  function WithStatus(run: Run, id: Id, status: NodeStatus, error: string, now: int): Run {
    Put(run, id, NodeOf(run, id).(status := status, error := error, finishedAt := now)).(updatedAt := now)
  }

  ghost function MailReopened(def: Definition, run: Run, now: int): Run {
    var mail := MailSet(def, run, StepIds(def));
    if mail == {} then run else Reopened(run, mail).(status := RunRunning, completedAt := 0, updatedAt := now)
  }

  /** Nothing is in flight, nothing can start, and no mail would reopen anything: the state
      in which the scheduler pauses the run as blocked. */
  ghost predicate Blocked(def: Definition, s: Sched) {
    && s.run.status == RunRunning && !s.halted && !s.cancelled && s.inflight == {}
    && ReadyIn(def, s.run, def.steps) == [] && MailSet(def, s.run, StepIds(def)) == {}
  }

  ghost predicate Enabled(def: Definition, s: Sched, e: Event) {
    match e
    case Begin(ids) => s.run.status == RunRunning && !s.halted && !s.cancelled && ids != [] && NoRepeats(ids) &&
                       |s.inflight| + |ids| <= s.limit &&
                       forall x :: x in ids ==> x in StepIds(def) && Ready(def, s.run, x) && x !in s.inflight
    case Report(id, _) => id in s.inflight
    case Failure(id, _, _) => id in s.inflight
    case Infrastructure(id, _) => id in s.inflight
    case Interrupted(id) => id in s.inflight && (s.halted || s.cancelled || s.run.status != RunRunning)
    case NextLoop => s.inflight == {} && s.run.status == RunCompleted && s.run.loopEnabled && EntriesIn(def, def.steps) != []
    case Instruct(id, _) => id in StepIds(def) && (s.run.status == RunRunning || s.run.status == RunCompleted)
    case ReopenMail => s.inflight == {} && (s.run.status == RunRunning || s.run.status == RunCompleted)
    case CancelContext => true
    case PauseRun(_) => s.inflight == {} && s.run.status == RunRunning && (s.halted || s.cancelled || Blocked(def, s))
    case ResumeRun(from, _) => s.inflight == {} && (s.run.status == RunPaused || s.run.status == RunCompleted) &&
                               if from == "" then s.run.status == RunPaused || !s.run.loopEnabled else from in StepIds(def)
    case CancelRun => s.inflight == {} && s.run.status == RunPaused
  }

  /** Nothing is in flight when a run is resumed, so no node is still marked running then. */
  ghost function After(def: Definition, s: Sched, e: Event): Sched
    requires Enabled(def, s, e)
  {
    var now := s.clock;
    var next := s.(clock := now + 1);
    match e
    case Begin(ids) => next.(run := Claimed(s.run, ids, now), inflight := s.inflight + Elements(ids))
    case Report(id, o) => next.(run := Settled(def, Reported(def, s.run, id, o, now), s.halted, now), inflight := s.inflight - {id})
    case Failure(id, m, remind) =>
      next.(run := Settled(def, FailedWith(def, s.run, id, m, remind, now), s.halted, now), inflight := s.inflight - {id})
    case Infrastructure(id, m) => next.(run := WithStatus(s.run, id, Paused, m, now), inflight := s.inflight - {id}, halted := true)
    case Interrupted(id) => next.(run := WithStatus(s.run, id, Pending, NodeOf(s.run, id).error, now), inflight := s.inflight - {id})
    case NextLoop => next.(run := NextRound(def, s.run, now))
    case Instruct(id, m) => next.(run := Delivered(s.run, id, m))
    case ReopenMail => if MailSet(def, s.run, StepIds(def)) == {} then s else next.(run := MailReopened(def, s.run, now))
    case CancelContext => next.(cancelled := true)
    case PauseRun(reason) => next.(run := s.run.(status := RunPaused, pauseReason := OtherReason(reason), updatedAt := now))
    case ResumeRun(from, m) => Sched(Resumed(def, s.run, from, m, now), {}, false, false, now + 1, s.limit)
    case CancelRun => next.(run := s.run.(status := RunCancelled, pauseReason := NoReason, updatedAt := now))
  }

  /** A run just created and started. */
  ghost function Started(def: Definition, runId: string, limit: Positive): Sched
    requires EntriesIn(def, def.steps) != []
  {
    Sched(Fresh(def, runId, EntriesIn(def, def.steps)[0], 0).(status := RunRunning), {}, false, false, 1, limit)
  }

  // ---------- Schedules ----------

  /** Each event of the schedule is enabled when its turn comes. */
  ghost predicate Allowed(def: Definition, s: Sched, es: seq<Event>)
    decreases |es|, 0
  {
    es == [] || (Allowed(def, s, es[..|es| - 1]) && Enabled(def, Final(def, s, es[..|es| - 1]), es[|es| - 1]))
  }

  ghost function Final(def: Definition, s: Sched, es: seq<Event>): Sched
    requires Allowed(def, s, es)
    decreases |es|, 1
  {
    if es == [] then s else After(def, Final(def, s, es[..|es| - 1]), es[|es| - 1])
  }

  ghost predicate AllAutomatic(es: seq<Event>) {
    forall i :: 0 <= i < |es| ==> Automatic(es[i])
  }

  lemma OneMore(def: Definition, s: Sched, es: seq<Event>, e: Event)
    requires Allowed(def, s, es) && Enabled(def, Final(def, s, es), e)
    ensures Allowed(def, s, es + [e]) && Final(def, s, es + [e]) == After(def, Final(def, s, es), e)
  {
    assert (es + [e])[..|es|] == es;
  }

  lemma RoomStep(def: Definition, s: Sched, e: Event)
    requires Enabled(def, s, e) && |s.inflight| <= s.limit
    ensures |After(def, s, e).inflight| <= s.limit
  {
    hide Claimed, Reported, Settled, FailedWith, Resumed, NextRound, Delivered, MailReopened, WithStatus, Ready, NodeOf;
    var t := After(def, s, e);
    if e.Begin? {
      NoRepeatsCard(e.ids);
      assert t.inflight == s.inflight + Elements(e.ids);
      assert |s.inflight + Elements(e.ids)| <= |s.inflight| + |Elements(e.ids)|;
    } else {
      SubsetCard(t.inflight, s.inflight);
    }
  }

  lemma LimitStep(def: Definition, s: Sched, e: Event)
    requires Enabled(def, s, e)
    ensures After(def, s, e).limit == s.limit
  {
    hide Claimed, Reported, Settled, FailedWith, Resumed, NextRound, Delivered, MailReopened, WithStatus, Ready, NodeOf;
  }

  lemma {:induction false} LimitStays(def: Definition, s: Sched, es: seq<Event>)
    requires Allowed(def, s, es)
    ensures Final(def, s, es).limit == s.limit
  {
    hide After, Enabled;
    if es != [] {
      LimitStays(def, s, es[..|es| - 1]);
      LimitStep(def, Final(def, s, es[..|es| - 1]), es[|es| - 1]);
    }
  }

  /** No more steps are in flight than may be. */
  lemma {:induction false} WithinRoom(def: Definition, s: Sched, es: seq<Event>)
    requires Allowed(def, s, es) && |s.inflight| <= s.limit
    ensures |Final(def, s, es).inflight| <= s.limit
  {
    hide After, Enabled;
    if es != [] {
      WithinRoom(def, s, es[..|es| - 1]);
      LimitStays(def, s, es[..|es| - 1]);
      RoomStep(def, Final(def, s, es[..|es| - 1]), es[|es| - 1]);
    }
  }

  // ---------- What a report does ----------

  predicate Unfinished(run: Run, x: Id) {
    StatusOf(run, x) == Pending || StatusOf(run, x) == Running
  }

  predicate Passes(run: Run, o: Outcome) {
    run.status == RunRunning && o.verdict.Pass?
  }

  /** The report is a rework that is granted, over this edge. */
  ghost predicate Grants(def: Definition, run: Run, id: Id, o: Outcome, edge: Edge) {
    run.status == RunRunning && o.verdict.Rework? && TakenOver(def, id, o.target, edge) &&
    Rounds(run, EdgeKey(edge.from, edge.to)) < Limit(def, edge)
  }

  ghost predicate GrantsAny(def: Definition, run: Run, id: Id, o: Outcome) {
    exists edge :: Grants(def, run, id, o, edge)
  }

  lemma ReportPasses(def: Definition, run: Run, id: Id, o: Outcome, now: int, x: Id)
    requires Passes(run, o) && id in StepIds(def) && StepIds(def) <= run.nodes.Keys
    ensures var out := Reported(def, run, id, o, now);
            && StatusOf(out, x) == (if x == id then Completed else StatusOf(run, x))
            && NodeOf(out, x).failures == (if x == id then 0 else NodeOf(run, x).failures)
            && NodeOf(out, x).inbox == (if x == id then [] else NodeOf(run, x).inbox)
            && out.status == RunRunning && out.reworkRounds == run.reworkRounds
            && out.nodes.Keys == run.nodes.Keys && out.loopEnabled == run.loopEnabled && out.loopRound == run.loopRound
  {
    NothingToOpen(def, run);
  }

  lemma ReportGrants(def: Definition, run: Run, id: Id, o: Outcome, now: int, edge: Edge, x: Id)
    requires Grants(def, run, id, o, edge) && id in StepIds(def) && StepIds(def) <= run.nodes.Keys
    ensures edge.from == id
    ensures var out := Reported(def, run, id, o, now);
            && StatusOf(out, x) == (if x in ReworkSet(def, id, edge.to) then Pending else StatusOf(run, x))
            && NodeOf(out, x).failures == (if x == id then 0 else NodeOf(run, x).failures)
            && out.status == RunRunning
            && out.reworkRounds == run.reworkRounds[EdgeKey(id, edge.to) := Rounds(run, EdgeKey(id, edge.to)) + 1]
            && (x in run.nodes ==> x in out.nodes) && out.loopEnabled == run.loopEnabled && out.loopRound == run.loopRound
  {
    hide Reported, Grants, SentBack, ReworkSet;
    GrantedRun(def, run, id, o, now, edge);
    var working := run.(updatedAt := now);
    SentBackStatus(def, working, edge, Concluded(working, id, o, now), Message(id, FeedbackText(o), now), x);
  }

  lemma GrantedRun(def: Definition, run: Run, id: Id, o: Outcome, now: int, edge: Edge)
    requires Grants(def, run, id, o, edge) && id in StepIds(def) && StepIds(def) <= run.nodes.Keys
    ensures edge.from == id && run.status == RunRunning
    ensures var working := run.(updatedAt := now);
            Reported(def, run, id, o, now) ==
              SentBack(def, working, id, edge, Concluded(working, id, o, now), Message(id, FeedbackText(o), now))
  {
    hide Opened, SentBack, Concluded, FeedbackText, AfterFailure, TakenOver;
    ChosenExactly(def, id, o.target);
    NothingToOpen(def, run);
  }

  ghost predicate SameProgress(a: Run, b: Run, x: Id) {
    StatusOf(a, x) == StatusOf(b, x) && NodeOf(a, x).failures == NodeOf(b, x).failures && NodeOf(a, x).inbox == NodeOf(b, x).inbox
  }

  /** Any other report, and every failure, concerns the step alone: it is pending again
      with one more failure below the limit, or paused together with the run. */
  ghost predicate StepsBack(def: Definition, run: Run, id: Id, out: Run) {
    && (forall x :: x != id ==> SameProgress(out, run, x))
    && run.nodes.Keys <= out.nodes.Keys && out.reworkRounds == run.reworkRounds
    && out.loopEnabled == run.loopEnabled && out.loopRound == run.loopRound
    && ((StatusOf(out, id) == Pending && out.status == run.status && NodeOf(out, id).failures == NodeOf(run, id).failures + 1
         && NodeOf(out, id).failures < def.policy.maxConsecutiveFailures) ||
        (StatusOf(out, id) == Paused && out.status == RunPaused))
  }

  lemma FailureStepsBack(def: Definition, run: Run, id: Id, message: string, remind: bool, now: int)
    requires id in StepIds(def) && StepIds(def) <= run.nodes.Keys
    ensures StepsBack(def, run, id, AfterFailure(def, run, id, message, now))
    ensures StepsBack(def, run, id, FailedWith(def, run, id, message, remind, now))
  {
    hide AfterFailure, StepsBack, Delivered;
    FailureAlone(def, run, id, message, now);
    DeliveredStepsBack(def, run, id, AfterFailure(def, run, id, message, now), Message("onecatch", "End with a verdict.", now));
  }

  lemma DeliveredStepsBack(def: Definition, run: Run, id: Id, out: Run, m: Message)
    requires StepsBack(def, run, id, out)
    ensures StepsBack(def, run, id, Delivered(out, id, m))
  {
    hide Text.Blank;
    forall x | x != id ensures SameProgress(Delivered(out, id, m), run, x) {
      assert SameProgress(out, run, x);
    }
  }

  lemma FailureAlone(def: Definition, run: Run, id: Id, message: string, now: int)
    requires id in StepIds(def) && StepIds(def) <= run.nodes.Keys
    ensures StepsBack(def, run, id, AfterFailure(def, run, id, message, now))
  {
    NothingToOpen(def, run);
  }

  lemma ReportStepsBack(def: Definition, run: Run, id: Id, o: Outcome, now: int)
    requires id in StepIds(def) && StepIds(def) <= run.nodes.Keys
    requires !Passes(run, o) && !GrantsAny(def, run, id, o)
    ensures StepsBack(def, run, id, Reported(def, run, id, o, now))
  {
    hide AfterOutcome, AfterFailure, StepsBack, GrantsAny, Stopped;
    var r := AfterOutcome(def, run, id, o, now);
    if r.Err? {
      FailureStepsBack(def, run, id, "", false, now);
    } else {
      var node, reason, message := StoppedReport(def, run, id, o, now);
      StoppedAlone(def, run, id, node, reason, message, now);
    }
  }

  /** A report that is taken without passing or being granted stops its step and the run. */
  lemma StoppedReport(def: Definition, run: Run, id: Id, o: Outcome, now: int)
    returns (node: NodeState, reason: PauseReason, message: string)
    requires id in StepIds(def) && StepIds(def) <= run.nodes.Keys
    requires !Passes(run, o) && !GrantsAny(def, run, id, o) && AfterOutcome(def, run, id, o, now).Ok?
    ensures AfterOutcome(def, run, id, o, now).value == Stopped(run.(updatedAt := now), id, node, reason, message)
  {
    hide Opened, SentBack, FeedbackText, Stopped, TakenOver;
    ChosenExactly(def, id, o.target);
    NothingToOpen(def, run);
    var working := run.(updatedAt := now);
    node := Concluded(working, id, o, now);
    if o.verdict.AskHuman? {
      reason, message := AskedHuman, node.summary;
    } else {
      assert !Grants(def, run, id, o, ChosenEdge(def, id, o.target).value);
      reason, message := ReworkLimit, FeedbackText(o);
    }
  }

  lemma StoppedAlone(def: Definition, run: Run, id: Id, node: NodeState, reason: PauseReason, message: string, now: int)
    requires id in run.nodes
    ensures StepsBack(def, run, id, Stopped(run.(updatedAt := now), id, node, reason, message))
  {
  }

  // ---------- When a verdict is lost ----------

  /** The engine takes no verdict on a run that is not running, none it does not know, and no
      rework without an edge to send it over. */
  ghost predicate Refused(def: Definition, run: Run, id: Id, o: Outcome) {
    || run.status != RunRunning
    || !(o.verdict.Pass? || o.verdict.AskHuman? || o.verdict.Rework?)
    || (o.verdict.Rework? && !Sendable(def, id, o.target))
  }

  lemma RefusedExactly(def: Definition, run: Run, id: Id, o: Outcome, now: int)
    requires id in StepIds(def)
    ensures AfterOutcome(def, run, id, o, now).Err? <==> Refused(def, run, id, o)
  {
    hide ChosenEdge, SentBack, Concluded, Opened, Stopped, TakenAt;
    ChosenExactly(def, id, o.target);
  }

  /** A refused verdict leaves no trace but a failure: what the step said, its inbox and its
      earlier verdict stay as they were, it runs again below the limit, and at the limit it
      stops together with the run, whose pause then names the failure whatever it named before. */
  lemma VerdictLost(def: Definition, run: Run, id: Id, o: Outcome, now: int)
    requires id in StepIds(def) && StepIds(def) <= run.nodes.Keys && Refused(def, run, id, o)
    ensures var out, was, node := Reported(def, run, id, o, now), NodeOf(run, id), NodeOf(Reported(def, run, id, o, now), id);
            && node.failures == was.failures + 1 && node.verdict == was.verdict && node.summary == was.summary
            && node.inbox == was.inbox
            && (forall x :: x != id ==> NodeOf(out, x) == NodeOf(run, x))
            && (if was.failures + 1 >= def.policy.maxConsecutiveFailures
                then node.status == Paused && out.status == RunPaused && out.pauseReason == FailureLimit
                else node.status == Pending && out.status == run.status && out.pauseReason == run.pauseReason)
  {
    hide ChosenEdge, SentBack, Concluded, Text.Trim;
    RefusedExactly(def, run, id, o, now);
    NothingToOpen(def, run);
    hide AfterOutcome;
  }

  /** A step asks the person a question, which pauses the run, and then a sibling on its last
      attempt reports, no matter what: the sibling's verdict is lost, and the run no longer says
      that a question is waiting. */
  lemma QuestionOverwritten(def: Definition, s: Sched, a: Id, b: Id, question: string, o: Outcome)
    requires Shape(def, s) && s.run.status == RunRunning && a in s.inflight && b in s.inflight && a != b
    requires NodeOf(s.run, b).failures + 1 >= def.policy.maxConsecutiveFailures
    ensures var asked := After(def, s, Report(a, Outcome(AskHuman, question, "", "")));
            && asked.run.status == RunPaused && asked.run.pauseReason == AskedHuman && b in asked.inflight
            && var t := After(def, asked, Report(b, o));
               && t.run.status == RunPaused && t.run.pauseReason == FailureLimit
               && StatusOf(t.run, a) == Paused && StatusOf(t.run, b) == Paused
  {
    assert a in StepIds(def) && b in StepIds(def) && StepIds(def) <= s.run.nodes.Keys;
    hide Shape, Reported, Settled, Refused, StepsBack;
    var asked := After(def, s, Report(a, Outcome(AskHuman, question, "", "")));
    AskedAfter(def, s, a, question);
    LostAfter(def, asked, b, o);
  }

  lemma AskedAfter(def: Definition, s: Sched, id: Id, question: string)
    requires id in s.inflight && id in StepIds(def) && StepIds(def) <= s.run.nodes.Keys && s.run.status == RunRunning
    ensures var t := After(def, s, Report(id, Outcome(AskHuman, question, "", "")));
            && t.run.status == RunPaused && t.run.pauseReason == AskedHuman && t.inflight == s.inflight - {id}
            && StatusOf(t.run, id) == Paused && StepIds(def) <= t.run.nodes.Keys
            && forall x :: x != id ==> NodeOf(t.run, x) == NodeOf(s.run, x)
  {
    hide Reported, Settled, StepsBack, GrantsAny;
    var ask := Outcome(AskHuman, question, "", "");
    Asked(def, s.run, id, ask, s.clock);
    SettledKeeps(def, Reported(def, s.run, id, ask, s.clock), s.halted, s.clock);
  }

  lemma LostAfter(def: Definition, s: Sched, id: Id, o: Outcome)
    requires id in s.inflight && id in StepIds(def) && StepIds(def) <= s.run.nodes.Keys && s.run.status == RunPaused
    requires NodeOf(s.run, id).failures + 1 >= def.policy.maxConsecutiveFailures
    ensures var t := After(def, s, Report(id, o));
            && t.run.status == RunPaused && t.run.pauseReason == FailureLimit && StatusOf(t.run, id) == Paused
            && forall x :: x != id ==> NodeOf(t.run, x) == NodeOf(s.run, x)
  {
    hide Reported, Settled, ChosenEdge;
    VerdictLost(def, s.run, id, o, s.clock);
    SettledKeeps(def, Reported(def, s.run, id, o, s.clock), s.halted, s.clock);
  }

  /** A question pauses its step and the run and touches no other node. */
  lemma Asked(def: Definition, run: Run, id: Id, o: Outcome, now: int)
    requires id in StepIds(def) && StepIds(def) <= run.nodes.Keys && run.status == RunRunning && o.verdict.AskHuman?
    ensures var out := Reported(def, run, id, o, now);
            && out.status == RunPaused && out.pauseReason == AskedHuman && StatusOf(out, id) == Paused
            && StepIds(def) <= out.nodes.Keys && !GrantsAny(def, run, id, o)
            && forall x :: x != id ==> NodeOf(out, x) == NodeOf(run, x)
  {
    NothingToOpen(def, run);
  }

  // ---------- The shape of every reachable state ----------

  /** Exactly the steps in flight are running or have been set back while running. */
  ghost predicate Shape(def: Definition, s: Sched) {
    && StepIds(def) <= s.run.nodes.Keys
    && s.inflight <= StepIds(def)
    && (forall x :: x in s.inflight ==> Unfinished(s.run, x))
    && (forall x :: x in StepIds(def) ==> StatusOf(s.run, x) != NoStatus)
    && (forall x :: StatusOf(s.run, x) == Running ==> x in s.inflight)
    && (s.run.status == RunCompleted ==> AllDone(def, s.run))
  }

  /** `out` differs from `run` in status only at `ids`, which now have status `st`. */
  ghost predicate Became(out: Run, run: Run, ids: set<Id>, st: NodeStatus) {
    run.nodes.Keys <= out.nodes.Keys &&
    forall x :: StatusOf(out, x) == if x in ids then st else StatusOf(run, x)
  }

  lemma SettledKeeps(def: Definition, run: Run, halted: bool, now: int)
    ensures var out := Settled(def, run, halted, now);
            && out.nodes == run.nodes && out.reworkRounds == run.reworkRounds
            && out.loopEnabled == run.loopEnabled && out.loopRound == run.loopRound && out.pauseReason == run.pauseReason
            && (forall x :: NodeOf(out, x) == NodeOf(run, x)) && (AllDone(def, out) <==> AllDone(def, run))
            && (out.status == run.status || (run.status == RunRunning && !halted && out.status == RunCompleted && AllDone(def, run)))
            && (out.status == RunRunning && !halted && def.steps != [] ==> !AllDone(def, run))
  {
  }

  lemma ClaimedNode(run: Run, ids: seq<Id>, now: int, x: Id)
    requires ids != []
    ensures NodeOf(Claimed(run, ids, now), x) == if x in ids then Claim(NodeOf(run, x), now) else NodeOf(run, x)
  {
  }

  lemma ClaimedBecame(run: Run, ids: seq<Id>, now: int)
    requires ids != []
    ensures Became(Claimed(run, ids, now), run, Elements(ids), Running)
  {
  }

  lemma PassBecame(def: Definition, run: Run, id: Id, o: Outcome, now: int)
    requires Passes(run, o) && id in StepIds(def) && StepIds(def) <= run.nodes.Keys
    ensures Became(Reported(def, run, id, o, now), run, {id}, Completed)
    ensures Reported(def, run, id, o, now).status == RunRunning
  {
    forall x { ReportPasses(def, run, id, o, now, x); }
  }

  lemma GrantBecame(def: Definition, run: Run, id: Id, o: Outcome, now: int, edge: Edge)
    requires Grants(def, run, id, o, edge) && id in StepIds(def) && StepIds(def) <= run.nodes.Keys
    ensures Became(Reported(def, run, id, o, now), run, ReworkSet(def, id, edge.to), Pending)
    ensures Reported(def, run, id, o, now).status == RunRunning
  {
    forall x { ReportGrants(def, run, id, o, now, edge, x); }
  }

  lemma StepsBackBecame(def: Definition, run: Run, id: Id, out: Run)
    requires StepsBack(def, run, id, out)
    ensures Became(out, run, {id}, StatusOf(out, id))
    ensures StatusOf(out, id) == Pending || StatusOf(out, id) == Paused
  {
    forall x ensures StatusOf(out, x) == if x in {id} then StatusOf(out, id) else StatusOf(run, x) {
      if x != id { assert SameProgress(out, run, x); }
    }
  }

  /** After settling, the statuses are those of the settled run. */
  lemma SettledBecame(def: Definition, out: Run, run: Run, ids: set<Id>, st: NodeStatus, halted: bool, now: int)
    requires Became(out, run, ids, st)
    ensures Became(Settled(def, out, halted, now), run, ids, st)
  {
    SettledKeeps(def, out, halted, now);
  }

  lemma ResumedBecame(def: Definition, run: Run, from: Id, message: string, now: int)
    requires StepIds(def) <= run.nodes.Keys
    ensures Became(Resumed(def, run, from, message, now), run, ResumeSet(def, run, from), Pending)
    ensures Resumed(def, run, from, message, now).status == RunRunning
    ensures Resumed(def, run, from, message, now).reworkRounds == map[]
  {
    NothingToOpen(def, run);
    var ids := ResumeSet(def, run, from);
    var quiet := ResumedQuietly(def, run, from, now);
    var human := Message("human", Text.Trim(message), now);
    var receivers := Ids(ReadyIn(def, quiet, def.steps));
    ResetBecame(run, ids, ByHuman);
    DeliveredBecame(quiet, from, human);
    DeliveredAllStatus(quiet, receivers, human);
    assert Resumed(def, run, from, message, now) in {quiet, Delivered(quiet, from, human), DeliveredAll(quiet, receivers, human)};
  }

  lemma ResetBecame(run: Run, ids: set<Id>, kind: Reset)
    ensures Became(WithReset(run, ids, kind), run, ids, Pending)
  {
  }

  lemma DeliveredBecame(run: Run, id: Id, m: Message)
    ensures Became(Delivered(run, id, m), run, {}, Pending)
    ensures Delivered(run, id, m).(nodes := run.nodes) == run
  {
  }

  lemma MailBecame(def: Definition, run: Run, now: int)
    ensures Became(MailReopened(def, run, now), run, MailSet(def, run, StepIds(def)), Pending)
  {
    ResetBecame(run, MailSet(def, run, StepIds(def)), ToPending);
  }

  /** One argument for every event: the changed steps leave flight unless they wait or run. */
  lemma ShapeBecame(def: Definition, s: Sched, t: Sched, ids: set<Id>, st: NodeStatus)
    requires Shape(def, s) && Became(t.run, s.run, ids, st) && st != NoStatus
    requires t.inflight <= StepIds(def) && t.inflight <= s.inflight + ids && s.inflight - ids <= t.inflight
    requires st == Running ==> ids <= t.inflight
    requires st == Pending || st == Running || ids !! t.inflight
    requires t.run.status == RunCompleted ==> AllDone(def, t.run)
    ensures Shape(def, t)
  {
  }

  lemma ShapeReport(def: Definition, s: Sched, id: Id, o: Outcome)
    requires Shape(def, s) && id in s.inflight
    ensures Shape(def, After(def, s, Report(id, o)))
  {
    var out := Reported(def, s.run, id, o, s.clock);
    var t := After(def, s, Report(id, o));
    if Passes(s.run, o) {
      PassBecame(def, s.run, id, o, s.clock);
      ShapeSettled(def, s, id, out, {id}, Completed);
    } else if edge :| Grants(def, s.run, id, o, edge) {
      GrantBecame(def, s.run, id, o, s.clock, edge);
      assert edge.from == id;
      ShapeSettled(def, s, id, out, ReworkSet(def, id, edge.to), Pending);
    } else {
      ReportStepsBack(def, s.run, id, o, s.clock);
      ShapeStepsBack(def, s, id, out);
    }
  }

  lemma ShapeSettled(def: Definition, s: Sched, id: Id, out: Run, ids: set<Id>, st: NodeStatus)
    requires Shape(def, s) && id in s.inflight && id in ids && Became(out, s.run, ids, st)
    requires st == Pending || (ids == {id} && (st == Completed || st == Paused))
    requires out.status == s.run.status || out.status == RunPaused
    ensures Shape(def, s.(run := Settled(def, out, s.halted, s.clock), inflight := s.inflight - {id}, clock := s.clock + 1))
  {
    SettledKeeps(def, out, s.halted, s.clock);
    SettledBecame(def, out, s.run, ids, st, s.halted, s.clock);
    assert s.run.status != RunCompleted by { assert Unfinished(s.run, id); }
    ShapeBecame(def, s, s.(run := Settled(def, out, s.halted, s.clock), inflight := s.inflight - {id}, clock := s.clock + 1), ids, st);
  }

  lemma ShapeStepsBack(def: Definition, s: Sched, id: Id, out: Run)
    requires Shape(def, s) && id in s.inflight && StepsBack(def, s.run, id, out)
    ensures Shape(def, s.(run := Settled(def, out, s.halted, s.clock), inflight := s.inflight - {id}, clock := s.clock + 1))
  {
    StepsBackBecame(def, s.run, id, out);
    ShapeSettled(def, s, id, out, {id}, StatusOf(out, id));
  }

  /** Nothing is in flight, and no node is marked running. */
  ghost predicate AtRest(s: Sched) {
    s.inflight == {} && forall x :: StatusOf(s.run, x) != Running
  }

  /** A round begins in shape whatever definition it begins under. */
  lemma RoundShape(def: Definition, s: Sched)
    requires Valid(def) && AtRest(s) && Enabled(def, s, NextLoop)
    ensures Shape(def, After(def, s, NextLoop)) && AtRest(After(def, s, NextLoop))
    ensures forall x :: x in StepIds(def) ==> StatusOf(After(def, s, NextLoop).run, x) == Pending
  {
    hide Valid, StatusOf, NextRound, EntriesIn;
    NextRoundRun(def, s.run, s.clock);
    var out := NextRound(def, s.run, s.clock);
    forall x
      ensures StatusOf(out, x) != Running
      ensures x in StepIds(def) ==> StatusOf(out, x) == Pending
    {
      if x in StepIds(def) { NextRoundStatus(def, s.run, s.clock, x); } else { NextRoundElse(def, s.run, s.clock, x); }
    }
  }

  lemma ShapeNextLoop(def: Definition, s: Sched)
    requires Valid(def) && Shape(def, s) && Enabled(def, s, NextLoop)
    ensures Shape(def, After(def, s, NextLoop))
  {
    RoundShape(def, s);
  }

  lemma ShapeBegin(def: Definition, s: Sched, ids: seq<Id>)
    requires Shape(def, s) && Enabled(def, s, Begin(ids))
    ensures Shape(def, After(def, s, Begin(ids)))
  {
    ClaimedBecame(s.run, ids, s.clock);
    ShapeBecame(def, s, After(def, s, Begin(ids)), Elements(ids), Running);
  }

  lemma ShapeLeft(def: Definition, s: Sched, id: Id, e: Event)
    requires Shape(def, s) && Enabled(def, s, e)
    requires e == Interrupted(id) || (e.Infrastructure? && e.id == id)
    ensures Shape(def, After(def, s, e))
  {
    assert s.run.status != RunCompleted by { assert Unfinished(s.run, id); }
    var st := if e.Interrupted? then Pending else Paused;
    assert StatusOf(After(def, s, e).run, id) == st;
    ShapeBecame(def, s, After(def, s, e), {id}, st);
  }

  lemma ShapeMail(def: Definition, s: Sched)
    requires Shape(def, s) && Enabled(def, s, ReopenMail)
    ensures Shape(def, After(def, s, ReopenMail))
  {
    MailBecame(def, s.run, s.clock);
    ShapeBecame(def, s, After(def, s, ReopenMail), MailSet(def, s.run, StepIds(def)), Pending);
  }

  lemma ShapeResume(def: Definition, s: Sched, from: Id, m: string)
    requires Shape(def, s) && Enabled(def, s, ResumeRun(from, m))
    ensures Shape(def, After(def, s, ResumeRun(from, m)))
  {
    ResumedBecame(def, s.run, from, m, s.clock);
    ShapeBecame(def, s, After(def, s, ResumeRun(from, m)), ResumeSet(def, s.run, from), Pending);
  }

  lemma ShapeInstruct(def: Definition, s: Sched, id: Id, m: Message)
    requires Shape(def, s) && Enabled(def, s, Instruct(id, m))
    ensures Shape(def, After(def, s, Instruct(id, m)))
  {
    DeliveredBecame(s.run, id, m);
    ShapeBecame(def, s, After(def, s, Instruct(id, m)), {}, Pending);
  }

  lemma ShapeKept(def: Definition, s: Sched, e: Event)
    requires Valid(def) && Shape(def, s) && Enabled(def, s, e)
    ensures Shape(def, After(def, s, e))
  {
    match e {
      case Begin(ids) => ShapeBegin(def, s, ids);
      case Report(id, o) => ShapeReport(def, s, id, o);
      case Failure(id, m, remind) =>
        FailureStepsBack(def, s.run, id, m, remind, s.clock);
        ShapeStepsBack(def, s, id, FailedWith(def, s.run, id, m, remind, s.clock));
      case Infrastructure(id, m) => ShapeLeft(def, s, id, e);
      case Interrupted(id) => ShapeLeft(def, s, id, e);
      case NextLoop => ShapeNextLoop(def, s);
      case Instruct(id, m) => ShapeInstruct(def, s, id, m);
      case ReopenMail => ShapeMail(def, s);
      case ResumeRun(from, m) => ShapeResume(def, s, from, m);
      case _ => ShapeBecame(def, s, After(def, s, e), {}, Pending);
    }
  }

  lemma ShapeStarted(def: Definition, runId: string, limit: Positive)
    requires EntriesIn(def, def.steps) != []
    ensures Shape(def, Started(def, runId, limit))
    ensures forall x :: x in StepIds(def) ==> NodeOf(Started(def, runId, limit).run, x) == FreshNode(x)
  {
  }

  lemma {:induction false} ShapeAlways(def: Definition, s: Sched, es: seq<Event>)
    requires Valid(def) && Shape(def, s) && Allowed(def, s, es)
    ensures Shape(def, Final(def, s, es))
  {
    if es != [] {
      ShapeAlways(def, s, es[..|es| - 1]);
      ShapeKept(def, Final(def, s, es[..|es| - 1]), es[|es| - 1]);
    }
  }
}
