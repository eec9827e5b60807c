/** Which transitions keep the order of the graph: the status a node has after each
    operation, when every started step still rests on finished dependencies, and why
    a run whose steps are pending or completed is never stuck. */
module Ordering {
  import opened Graph
  import opened Validation
  import opened Engine
  import opened Collections
  import Text

  ghost predicate Advanced(run: Run, x: Id) {
    StatusOf(run, x) == Completed || StatusOf(run, x) == Running
  }

  /** Every completed or running step has all its dependencies completed. */
  ghost predicate Closed(def: Definition, run: Run) {
    forall d, x :: Dep(def, d, x) && Advanced(run, x) ==> StatusOf(run, d) == Completed
  }

  ghost predicate Active(def: Definition, run: Run, x: Id) {
    StatusOf(run, x) == Running || Ready(def, run, x)
  }

  // ---------- What each operation does to a node ----------

  lemma OpenedNode(def: Definition, run: Run, x: Id)
    ensures NodeOf(Opened(def, run), x) ==
            if x in StepIds(def) && x !in run.nodes then FreshNode(x) else NodeOf(run, x)
  {
  }

  lemma ResetNodeAt(run: Run, ids: set<Id>, kind: Reset, x: Id)
    ensures NodeOf(WithReset(run, ids, kind), x) == if x in ids then ResetNode(kind, x, NodeOf(run, x)) else NodeOf(run, x)
  {
  }

  lemma DeliveredNode(run: Run, id: Id, m: Message, x: Id)
    requires !Text.Blank(m.text)
    ensures NodeOf(Delivered(run, id, m), x) ==
            if x == id then NodeOf(run, x).(stepId := id, inbox := NodeOf(run, x).inbox + [m]) else NodeOf(run, x)
  {
  }

  lemma DeliveredStatus(run: Run, id: Id, m: Message, x: Id)
    ensures StatusOf(Delivered(run, id, m), x) == StatusOf(run, x)
    ensures NodeOf(Delivered(run, id, m), x).failures == NodeOf(run, x).failures
    ensures x in run.nodes ==> x in Delivered(run, id, m).nodes
  {
  }

  /** Handing one message to several different steps gives each of them exactly one copy. */
  lemma {:induction false} DeliveredAllNode(run: Run, ids: seq<Id>, m: Message, x: Id)
    requires NoRepeats(ids) && !Text.Blank(m.text)
    ensures NodeOf(DeliveredAll(run, ids, m), x) ==
            if x in ids then NodeOf(run, x).(stepId := x, inbox := NodeOf(run, x).inbox + [m]) else NodeOf(run, x)
    ensures run.nodes.Keys <= DeliveredAll(run, ids, m).nodes.Keys
    ensures DeliveredAll(run, ids, m).(nodes := run.nodes) == run
  {
    if |ids| > 0 {
      var n := |ids| - 1;
      assert ids == ids[..n] + [ids[n]];
      DeliveredAllNode(run, ids[..n], m, x);
    }
  }

  lemma DeliveredAllStatus(run: Run, ids: seq<Id>, m: Message)
    ensures forall x :: StatusOf(DeliveredAll(run, ids, m), x) == StatusOf(run, x)
    ensures forall x :: NodeOf(DeliveredAll(run, ids, m), x).failures == NodeOf(run, x).failures
    ensures run.nodes.Keys <= DeliveredAll(run, ids, m).nodes.Keys
    ensures DeliveredAll(run, ids, m).(nodes := run.nodes) == run
  {
    if |ids| > 0 {
      DeliveredAllStatus(run, ids[..|ids| - 1], m);
    }
  }

  /** A granted rework, node by node: the steps between target and source are pending
      with everything else kept, the target also gets exactly one message, the source
      keeps only its concluded node, and every other node is untouched. */
  lemma SentBackNode(def: Definition, run: Run, edge: Edge, node: NodeState, m: Message, x: Id)
    requires edge.from != edge.to && !Text.Blank(m.text)
    ensures NodeOf(SentBack(def, run, edge.from, edge, node, m), x) ==
              if x == edge.from then node.(status := Pending)
              else if x == edge.to then NodeOf(run, x).(stepId := x, status := Pending, inbox := NodeOf(run, x).inbox + [m])
              else if x in ReworkSet(def, edge.from, edge.to) then NodeOf(run, x).(status := Pending)
              else NodeOf(run, x)
  {
    var marked := Put(RoundCounted(run, EdgeKey(edge.from, edge.to)), edge.from, node);
    var path := ReworkSet(def, edge.from, edge.to);
    ResetNodeAt(marked, path, ToPending, x);
    DeliveredNode(Reopened(marked, path), edge.to, m, x);
  }

  /** What a rework verdict on a running run does: below the edge's limit the steps between
      go back to pending, one round is counted and the run goes on; at the limit only the
      source stops and the run pauses. */
  lemma ReworkVerdict(def: Definition, run: Run, id: Id, o: Outcome, now: int, edge: Edge, x: Id)
    requires o.verdict.Rework? && run.status == RunRunning && id in StepIds(def)
    requires TakenOver(def, id, o.target, edge) && StepIds(def) <= run.nodes.Keys
    ensures AfterOutcome(def, run, id, o, now).Ok?
    ensures var out := AfterOutcome(def, run, id, o, now).value;
            var key := EdgeKey(id, edge.to);
            if Rounds(run, key) < Limit(def, edge)
            then && out.status == RunRunning && Rounds(out, key) == Rounds(run, key) + 1
                 && StatusOf(out, x) == (if x in ReworkSet(def, id, edge.to) then Pending else StatusOf(run, x))
            else && out.status == RunPaused && out.pauseReason == ReworkLimit && out.reworkRounds == run.reworkRounds
                 && StatusOf(out, x) == (if x == id then Paused else StatusOf(run, x))
  {
    hide Concluded, EdgeKey, FeedbackText, Opened, ChosenEdge, Limit, ReworkSet, SentBack, TakenOver;
    ChosenExactly(def, id, o.target);
    NothingToOpen(def, run);
    var working := run.(updatedAt := now);
    var node := Concluded(working, id, o, now);
    if Rounds(run, EdgeKey(id, edge.to)) < Limit(def, edge) {
      SentBackStatus(def, working, edge, node, Message(id, FeedbackText(o), now), x);
    }
  }

  lemma NothingToOpen(def: Definition, run: Run)
    requires StepIds(def) <= run.nodes.Keys
    ensures Opened(def, run) == run
  {
    assert OpenedNodes(def, run.nodes) == run.nodes;
  }

  lemma SentBackStatus(def: Definition, run: Run, edge: Edge, node: NodeState, m: Message, x: Id)
    ensures var out := SentBack(def, run, edge.from, edge, node, m);
            && StatusOf(out, x) == (if x in ReworkSet(def, edge.from, edge.to) then Pending else StatusOf(run, x))
            && NodeOf(out, x).failures == (if x == edge.from then node.failures else NodeOf(run, x).failures)
            && out.reworkRounds == RoundCounted(run, EdgeKey(edge.from, edge.to)).reworkRounds
            && out.status == run.status && (x in run.nodes ==> x in out.nodes)
            && out.loopEnabled == run.loopEnabled && out.loopRound == run.loopRound
  {
    var marked := Put(RoundCounted(run, EdgeKey(edge.from, edge.to)), edge.from, node);
    ResetNodeAt(marked, ReworkSet(def, edge.from, edge.to), ToPending, x);
    DeliveredStatus(Reopened(marked, ReworkSet(def, edge.from, edge.to)), edge.to, m, x);
  }

  // ---------- Closed runs ----------

  /** In a closed run everything above a started step is completed. */
  lemma AboveCompleted(def: Definition, run: Run, a: Id, x: Id)
    requires Closed(def, run) && Advanced(run, x) && Reaches(def, a, x)
    ensures StatusOf(run, a) == Completed
  {
    var p :| PathBetween(def, p, a, x);
    var i := |p| - 1;
    while i > 0
      invariant 0 <= i < |p| && Advanced(run, p[i])
      invariant i < |p| - 1 ==> StatusOf(run, p[i]) == Completed
    {
      assert Dep(def, p[i - 1], p[i]);
      i := i - 1;
    }
  }

  lemma ActiveAbove(def: Definition, run: Run, a: Id, x: Id)
    requires Closed(def, run) && Active(def, run, x) && Reaches(def, a, x)
    ensures StatusOf(run, a) == Completed
  {
    var d := ReachesLast(def, a, x);
    assert StatusOf(run, d) == Completed;
    if d != a { AboveCompleted(def, run, a, d); }
  }

  /** In a closed run no path joins two steps that are running or ready. */
  lemma ActiveUnrelated(def: Definition, run: Run, a: Id, b: Id)
    requires Closed(def, run) && Active(def, run, a) && Active(def, run, b)
    ensures !Reaches(def, a, b)
  {
    if Reaches(def, a, b) {
      ActiveAbove(def, run, a, b);
    }
  }

  /** Validation and closedness together keep writers apart: at most one step that may
      write is running or could be started. */
  lemma OneWriter(def: Definition, run: Run, a: Step, b: Step)
    requires Valid(def) && Closed(def, run)
    requires a in def.steps && b in def.steps && StepWrites(a) && StepWrites(b)
    requires Active(def, run, a.id) && Active(def, run, b.id)
    ensures a.id == b.id
  {
    ActiveUnrelated(def, run, a.id, b.id);
    ActiveUnrelated(def, run, b.id, a.id);
  }

  lemma OpenedClosed(def: Definition, run: Run)
    ensures Closed(def, run) <==> Closed(def, Opened(def, run))
  {
    forall x
      ensures Advanced(run, x) <==> Advanced(Opened(def, run), x)
      ensures StatusOf(run, x) == Completed <==> StatusOf(Opened(def, run), x) == Completed
    {
      OpenedNode(def, run, x);
    }
  }

  /** Only the statuses matter. */
  lemma SameStatusClosed(def: Definition, a: Run, b: Run)
    requires forall x :: StatusOf(a, x) == StatusOf(b, x)
    ensures Closed(def, a) <==> Closed(def, b)
  {
  }

  /** A pass keeps a closed run closed exactly when the step's own dependencies are completed. */
  lemma PassClosed(def: Definition, run: Run, id: Id, o: Outcome, now: int)
    requires Acyclic(def) && Closed(def, run) && o.verdict.Pass?
    requires run.status == RunRunning && id in StepIds(def)
    ensures AfterOutcome(def, run, id, o, now).Ok?
    ensures Closed(def, AfterOutcome(def, run, id, o, now).value) <==> forall d :: Dep(def, d, id) ==> StatusOf(run, d) == Completed
  {
    OpenedClosed(def, run);
    var out := AfterOutcome(def, run, id, o, now).value;
    forall x ensures StatusOf(out, x) == Completed <==> x == id || StatusOf(run, x) == Completed {
      OpenedNode(def, run, x);
    }
    assert Advanced(out, id);
    forall d | Dep(def, d, id) ensures d != id { DepReaches(def, d, id); }
    forall x | Advanced(out, x) && x != id ensures Advanced(run, x) {
      OpenedNode(def, run, x);
    }
  }

  /** Taking a step that was not completed out of the running set changes nothing below it. */
  lemma StepBackClosed(def: Definition, run: Run, id: Id, node: NodeState)
    requires Closed(def, run) && StatusOf(run, id) != Completed
    requires node.status == Pending || node.status == Paused
    ensures Closed(def, Put(run, id, node))
  {
  }

  /** Work left below `target` that a rework from `from` does not reopen. */
  ghost predicate LeftBelow(def: Definition, run: Run, from: Id, target: Id, y: Id) {
    Reaches(def, target, y) && y !in ReworkSet(def, from, target) && Advanced(run, y)
  }

  /** A granted rework keeps a closed run closed exactly when nothing completed or running
      is left below the target outside the reopened path. */
  lemma ReworkClosed(def: Definition, run: Run, edge: Edge, node: NodeState, m: Message)
    requires Closed(def, run) && Reaches(def, edge.to, edge.from)
    ensures Closed(def, SentBack(def, run, edge.from, edge, node, m)) <==>
            forall y :: !LeftBelow(def, run, edge.from, edge.to, y)
  {
    var out := SentBack(def, run, edge.from, edge, node, m);
    var path := ReworkSet(def, edge.from, edge.to);
    forall x ensures StatusOf(out, x) == if x in path then Pending else StatusOf(run, x) {
      SentBackStatus(def, run, edge, node, m, x);
    }
    if Closed(def, out) {
      forall y | LeftBelow(def, run, edge.from, edge.to, y) ensures false {
        AboveCompleted(def, out, edge.to, y);
      }
    } else {
      var d, x :| Dep(def, d, x) && Advanced(out, x) && StatusOf(out, d) != Completed;
      assert d in path && (x !in path) && Advanced(run, x);
      ReachesThenDep(def, edge.to, d, x);
      assert LeftBelow(def, run, edge.from, edge.to, x);
    }
  }

  /** Reopening for mail keeps a closed run closed exactly when no running step rests on a
      reopened one; in particular whenever nothing is running. */
  lemma MailClosed(def: Definition, run: Run, sources: set<Id>)
    requires Closed(def, run)
    ensures Closed(def, Reopened(run, MailSet(def, run, sources))) <==>
            forall d, x :: Dep(def, d, x) && d in MailSet(def, run, sources) ==> StatusOf(run, x) != Running
  {
    var mail := MailSet(def, run, sources);
    var out := Reopened(run, mail);
    forall d, x | Dep(def, d, x) && d in mail && StatusOf(run, x) == Completed ensures x in mail {
      var m :| m in sources && HasMail(run, m) && AtOrBelow(def, m, d);
      ReachesThenDep(def, m, d, x);
    }
    if !Closed(def, out) {
      var d, x :| Dep(def, d, x) && Advanced(out, x) && StatusOf(out, d) != Completed;
      assert Advanced(run, x) && d in mail;
    }
    forall d, x | Dep(def, d, x) && d in mail && StatusOf(run, x) == Running
      ensures StatusOf(out, d) == Pending && StatusOf(out, x) == Running
    {}
  }

  /** Every branch of a resume keeps a closed run closed. */
  lemma ResumeClosed(def: Definition, run: Run, from: Id, now: int)
    requires Closed(def, run)
    ensures Closed(def, ResumedQuietly(def, run, from, now))
  {
    OpenedClosed(def, run);
    var start := Opened(def, run);
    var out := ResumedQuietly(def, run, from, now);
    var ids := ResumeSet(def, start, from);
    forall x ensures StatusOf(out, x) == if x in ids then Pending else StatusOf(start, x) {
      ResetNodeAt(start, ids, ByHuman, x);
    }
    forall d, x | Dep(def, d, x) && Advanced(out, x) ensures StatusOf(out, d) == Completed {
      if d in ids {
        if from != "" {
          ReachesThenDep(def, from, d, x);
          InDescendants(def, from, x);
        } else if run.status == RunCompleted {
          SinksExactly(def, def.steps, d);
        }
        assert false;
      }
    }
  }

  // ---------- No stuck state ----------

  /** With every step pending or completed and something left to do, some step is ready. */
  lemma NeverStuck(def: Definition, run: Run)
    requires Acyclic(def) && forall e :: e in def.edges ==> e.from in StepIds(def)
    requires forall x :: x in StepIds(def) ==> StatusOf(run, x) == Pending || StatusOf(run, x) == Completed
    requires !AllDone(def, run)
    ensures ReadyIn(def, run, def.steps) != []
  {
    var waiting := set x | x in StepIds(def) && StatusOf(run, x) == Pending;
    var x :| x in StepIds(def) && StatusOf(run, x) != Completed;
    var m := Minimal(def, waiting, x);
    assert Ready(def, run, m);
    var s :| s in def.steps && s.id == m;
    ReadyExactly(def, run, def.steps, s);
  }

  // ---------- Who runs, and who is told, after a resume or in a new round ----------

  lemma IdsAppend(steps: seq<Step>, s: Step)
    ensures Ids(steps + [s]) == Ids(steps) + [s.id]
  {
  }

  lemma {:induction false} ReadyUnique(def: Definition, run: Run, steps: seq<Step>)
    requires forall i, j :: 0 <= i < j < |steps| ==> steps[i].id != steps[j].id
    ensures NoRepeats(Ids(ReadyIn(def, run, steps)))
    ensures forall x :: x in Ids(ReadyIn(def, run, steps)) ==> x in Ids(steps)
  {
    if |steps| > 0 {
      var n := |steps| - 1;
      ReadyUnique(def, run, steps[..n]);
      var before := ReadyIn(def, run, steps[..n]);
      IdsAppend(before, steps[n]);
      assert steps == steps[..n] + [steps[n]];
      IdsAppend(steps[..n], steps[n]);
      assert steps[n].id !in Ids(steps[..n]) by {
        assert forall i :: 0 <= i < n ==> Ids(steps[..n])[i] == steps[i].id;
      }
      assert Ids(ReadyIn(def, run, steps)) == Ids(before) || Ids(ReadyIn(def, run, steps)) == Ids(before) + [steps[n].id];
    }
  }

  /** After resuming a fully completed run without naming a step, the ready steps are
      exactly the sinks, in definition order. */
  lemma {:induction false} CompletedResumeReady(def: Definition, run: Run, now: int, steps: seq<Step>)
    requires run.status == RunCompleted && AllDone(def, run) && (forall s :: s in steps ==> s in def.steps)
    requires forall e :: e in def.edges ==> e.from in StepIds(def)
    ensures Ids(ReadyIn(def, ResumedQuietly(def, run, "", now), steps)) == SinksIn(def, steps)
  {
    if |steps| > 0 {
      var n := |steps| - 1;
      assert steps == steps[..n] + [steps[n]];
      hide ResumedQuietly, Ready;
      CompletedResumeReady(def, run, now, steps[..n]);
      var out := ResumedQuietly(def, run, "", now);
      ReadySinkOnly(def, run, now, steps[n].id);
      UpstreamReady(def, out, steps[n].id);
      NoDownstream(def, steps[n].id);
      IdsAppend(ReadyIn(def, out, steps[..n]), steps[n]);
    }
  }

  lemma ReadySinkOnly(def: Definition, run: Run, now: int, id: Id)
    requires run.status == RunCompleted && AllDone(def, run) && id in StepIds(def)
    requires forall e :: e in def.edges ==> e.from in StepIds(def)
    ensures Ready(def, ResumedQuietly(def, run, "", now), id) <==> forall d :: !Dep(def, id, d)
  {
    var start := Opened(def, run);
    var out := ResumedQuietly(def, run, "", now);
    var sinks := Elements(SinksIn(def, def.steps));
    assert StepIds(def) <= run.nodes.Keys;
    forall x | x in StepIds(def)
      ensures StatusOf(out, x) == if forall d :: !Dep(def, x, d) then Pending else Completed
    {
      var s :| s in def.steps && s.id == x;
      SinksExactly(def, def.steps, x);
      ResetNodeAt(start, sinks, ByHuman, x);
      OpenedNode(def, run, x);
    }
  }

  /** Every loop round opens with the frontier of a fresh run. */
  lemma {:induction false} RoundReady(def: Definition, run: Run, steps: seq<Step>)
    requires forall s :: s in steps ==> StatusOf(run, s.id) == Pending
    requires forall e :: e in def.edges ==> StatusOf(run, e.from) == Pending
    ensures Ids(ReadyIn(def, run, steps)) == EntriesIn(def, steps)
  {
    if |steps| > 0 {
      var n := |steps| - 1;
      assert steps == steps[..n] + [steps[n]];
      RoundReady(def, run, steps[..n]);
      var ups := UpstreamIn(def.edges, steps[n].id);
      assert ups != [] ==> ups[0] in ups;
      IdsAppend(ReadyIn(def, run, steps[..n]), steps[n]);
    }
  }

  lemma {:induction false} EntriesUnique(def: Definition, steps: seq<Step>)
    requires forall i, j :: 0 <= i < j < |steps| ==> steps[i].id != steps[j].id
    ensures NoRepeats(EntriesIn(def, steps))
    ensures forall x :: x in EntriesIn(def, steps) ==> x in Ids(steps)
  {
    if |steps| > 0 {
      var n := |steps| - 1;
      EntriesUnique(def, steps[..n]);
      assert steps == steps[..n] + [steps[n]];
      IdsAppend(steps[..n], steps[n]);
      assert steps[n].id !in Ids(steps[..n]) by {
        assert forall i :: 0 <= i < n ==> Ids(steps[..n])[i] == steps[i].id;
      }
    }
  }

  lemma LoopTextNotBlank(lines: seq<string>)
    ensures !Text.Blank(LoopText(lines))
  {
    assert LoopText(lines)[0] == 'N' && !Text.IsSpace('N');
  }

  /** The next loop round, node by node: every step is pending with no failures counted,
      each entry gains exactly one message, other inboxes stay, and attempts survive. */
  lemma NextRoundNode(def: Definition, run: Run, now: int, x: Id)
    requires Valid(def) && EntriesIn(def, def.steps) != []
    ensures var m := Message("onecatch", LoopText(Summaries(run, def.steps)), now);
            var reset := if x in StepIds(def) then ResetNode(ForNextRound, x, NodeOf(run, x)) else NodeOf(run, x);
            NodeOf(NextRound(def, run, now), x) ==
            if x in EntriesIn(def, def.steps) then reset.(stepId := x, inbox := NodeOf(run, x).inbox + [m]) else reset
  {
    hide EntriesIn, LoopText, Summaries, ResetNodes;
    var entries := EntriesIn(def, def.steps);
    var start := Rewound(def, run, now).(currentStepId := entries[0]);
    ResetNodeAt(run, StepIds(def), ForNextRound, x);
    EntriesUnique(def, def.steps);
    LoopTextNotBlank(Summaries(run, def.steps));
    DeliveredAllNode(start, entries, Message("onecatch", LoopText(Summaries(run, def.steps)), now), x);
    assert NodeOf(start, x).inbox == NodeOf(run, x).inbox;
  }

  /** What the next round keeps of the run itself: sessions stay, rework budgets start over. */
  lemma NextRoundRun(def: Definition, run: Run, now: int)
    requires Valid(def) && EntriesIn(def, def.steps) != []
    ensures var out := NextRound(def, run, now);
            && out.sessions == run.sessions && out.reworkRounds == map[] && out.status == RunRunning
            && out.loopEnabled == run.loopEnabled && out.workflowId == run.workflowId
            && out.loopRound == (if run.loopRound > 1 then run.loopRound else 1) + 1
            && StepIds(def) <= out.nodes.Keys
  {
    var entries := EntriesIn(def, def.steps);
    var start := Rewound(def, run, now).(currentStepId := entries[0]);
    var m := Message("onecatch", LoopText(Summaries(run, def.steps)), now);
    DeliveredAllStatus(start, entries, m);
  }

  lemma NextRoundStatus(def: Definition, run: Run, now: int, x: Id)
    requires Valid(def) && EntriesIn(def, def.steps) != [] && x in StepIds(def)
    ensures StatusOf(NextRound(def, run, now), x) == Pending
    ensures NodeOf(NextRound(def, run, now), x).failures == 0
  {
    var start := Rewound(def, run, now).(currentStepId := EntriesIn(def, def.steps)[0]);
    ResetNodeAt(run, StepIds(def), ForNextRound, x);
    DeliveredAllStatus(start, EntriesIn(def, def.steps), Message("onecatch", LoopText(Summaries(run, def.steps)), now));
  }

  lemma NextRoundElse(def: Definition, run: Run, now: int, x: Id)
    requires Valid(def) && EntriesIn(def, def.steps) != [] && x !in StepIds(def)
    ensures StatusOf(NextRound(def, run, now), x) == StatusOf(run, x)
  {
    var start := Rewound(def, run, now).(currentStepId := EntriesIn(def, def.steps)[0]);
    ResetNodeAt(run, StepIds(def), ForNextRound, x);
    DeliveredAllStatus(start, EntriesIn(def, def.steps), Message("onecatch", LoopText(Summaries(run, def.steps)), now));
  }

  /** Every loop round opens with the frontier of a fresh run, and closed. */
  lemma NextRoundFrontier(def: Definition, run: Run, now: int)
    requires Valid(def)
    ensures EntriesIn(def, def.steps) != []
    ensures Ids(ReadyIn(def, NextRound(def, run, now), def.steps)) == EntriesIn(def, def.steps)
    ensures Closed(def, NextRound(def, run, now))
  {
    EntryExists(def);
    var out := NextRound(def, run, now);
    forall x | x in StepIds(def) ensures StatusOf(out, x) == Pending {
      NextRoundStatus(def, run, now, x);
    }
    RoundReady(def, out, def.steps);
  }

  /** After a plain resume every step is pending or completed. */
  lemma PlainResumeStatus(def: Definition, run: Run, now: int, x: Id)
    requires run.status != RunCompleted && x in StepIds(def)
    requires x in run.nodes ==> StatusOf(run, x) != NoStatus
    ensures StatusOf(ResumedQuietly(def, run, "", now), x) == if StatusOf(run, x) == Completed then Completed else Pending
  {
    var start := Opened(def, run);
    OpenedNode(def, run, x);
    ResetNodeAt(start, ResumeSet(def, start, ""), ByHuman, x);
  }

  /** A plain resume of a run with work left starts with at least one step. */
  lemma PlainResumeReady(def: Definition, run: Run, now: int)
    requires Valid(def) && run.status != RunCompleted && !AllDone(def, run)
    requires forall y :: y in StepIds(def) && y in run.nodes ==> StatusOf(run, y) != NoStatus
    ensures ReadyIn(def, ResumedQuietly(def, run, "", now), def.steps) != []
  {
    var quiet := ResumedQuietly(def, run, "", now);
    forall y | y in StepIds(def)
      ensures StatusOf(quiet, y) == if StatusOf(run, y) == Completed then Completed else Pending
    {
      PlainResumeStatus(def, run, now, y);
    }
    NeverStuck(def, quiet);
  }

  /** A non-blank message on a plain resume goes to every step that will start next, once
      each, and to nobody else. */
  lemma PlainResumeDelivers(def: Definition, run: Run, message: string, now: int, x: Id)
    requires Valid(def) && !Text.Blank(message)
    ensures var quiet := ResumedQuietly(def, run, "", now);
            var receivers := Ids(ReadyIn(def, quiet, def.steps));
            && NoRepeats(receivers)
            && NodeOf(Resumed(def, run, "", message, now), x).inbox ==
               NodeOf(quiet, x).inbox + (if x in receivers then [Message("human", Text.Trim(message), now)] else [])
  {
    var quiet := ResumedQuietly(def, run, "", now);
    ReadyUnique(def, quiet, def.steps);
    Text.TrimNotBlank(message);
    DeliveredAllNode(quiet, Ids(ReadyIn(def, quiet, def.steps)), Message("human", Text.Trim(message), now), x);
  }
}
