/** Reopening a run: for waiting mail, by a human, or for the next loop round
    (engine.go, loop.go). */
module Resuming {
  import opened Graph
  import opened Validation
  import opened Engine
  import opened Collections
  import Text

  // ---------- Reopening for mail ----------

  /** Go ranges over a map in no fixed order: any listing of the set may come out. */
  method Keys(all: set<Id>) returns (keys: seq<Id>)
    ensures NoRepeats(keys) && Elements(keys) == all
  {
    keys := [];
    var rest := all;
    while rest != {}
      invariant NoRepeats(keys) && rest <= all
      invariant forall x :: x in keys <==> x in all && x !in rest
      decreases rest
    {
      var key :| key in rest;
      keys := keys + [key];
      rest := rest - {key};
    }
  }

  ghost function CompletedAmong(run: Run, ids: set<Id>): set<Id> {
    set x | x in ids && StatusOf(run, x) == Completed
  }

  /** Reopen the completed ones among `ids` and note which they were. */
  method ReopenCompleted(run: Run, ids: seq<Id>, noted: seq<Id>) returns (out: Run, reopened: seq<Id>)
    requires NoRepeats(noted) && forall x :: x in noted ==> StatusOf(run, x) != Completed
    ensures out == Reopened(run, CompletedAmong(run, Elements(ids)))
    ensures NoRepeats(reopened) && Elements(reopened) == Elements(noted) + CompletedAmong(run, Elements(ids))
  {
    reopened := noted;
    var nodes := run.nodes;
    ghost var done: set<Id> := {};
    assert ResetNodes(run.nodes, {}, ToPending) == run.nodes;
    for i := 0 to |ids|
      invariant done == CompletedAmong(run, Elements(ids[..i]))
      invariant nodes == ResetNodes(run.nodes, done, ToPending)
      invariant NoRepeats(reopened) && Elements(reopened) == Elements(noted) + done
    {
      var id := ids[i];
      assert Elements(ids[..i + 1]) == Elements(ids[..i]) + {id};
      if Lookup(nodes, id).status == Completed {
        ResetOneMore(run.nodes, done, id, ToPending);
        assert id !in Elements(reopened);
        nodes := nodes[id := ResetNode(ToPending, id, nodes[id])];
        reopened := reopened + [id];
        done := done + {id};
      }
    }
    assert ids[..|ids|] == ids;
    out := run.(nodes := nodes);
  }

  /** Where the scan stands once the steps in `sources` have been looked at. */
  ghost predicate Scanned(def: Definition, start: Run, sources: set<Id>, run: Run, reopened: seq<Id>) {
    && run == Reopened(start, MailSet(def, start, sources))
    && NoRepeats(reopened) && Elements(reopened) == MailSet(def, start, sources)
  }

  method ScanStep(def: Definition, ghost start: Run, ghost sources: set<Id>, id: Id, run: Run, noted: seq<Id>)
    returns (out: Run, reopened: seq<Id>)
    requires Scanned(def, start, sources, run, noted)
    ensures Scanned(def, start, sources + {id}, out, reopened)
  {
    var node := NodeOf(run, id);
    if node.status != Completed || |node.inbox| == 0 {
      SkipSource(def, start, sources, id);
      return run, noted;
    }
    var below := Descendants(def, id);
    var keys := Keys(below);
    AddSource(def, start, sources, id);
    assert Elements([id] + keys) == {id} + below;
    out, reopened := ReopenCompleted(run, [id] + keys, noted);
  }

  /** The scan changes the run while reading it, yet the result has a closed form in the
      input: exactly the completed steps at or below a completed step with mail are
      reopened, whatever the order of steps and map keys, and each is reported once. */
  method ReopenForInbox(input: Definition, run: Run) returns (out: Run, reopened: seq<Id>)
    ensures out == Reopened(Opened(input, run), MailSet(Normalized(input), Opened(input, run), StepIds(input)))
    ensures NoRepeats(reopened)
    ensures Elements(reopened) == MailSet(Normalized(input), Opened(input, run), StepIds(input))
  {
    var def := Normalize(input);
    out := EnsureNodes(def, run);
    ghost var start := out;
    reopened := [];
    ReopenNone(def, start);
    ghost var sources := Elements(Ids(def.steps[..0]));
    for i := 0 to |def.steps|
      invariant sources == Elements(Ids(def.steps[..i]))
      invariant Scanned(def, start, sources, out, reopened)
    {
      assert Ids(def.steps[..i + 1]) == Ids(def.steps[..i]) + [def.steps[i].id];
      out, reopened := ScanStep(def, start, sources, def.steps[i].id, out, reopened);
      sources := sources + {def.steps[i].id};
    }
    AllSources(def);
  }

  lemma AllSources(def: Definition)
    ensures Elements(Ids(def.steps[..|def.steps|])) == StepIds(def)
  {
    var ids := Ids(def.steps);
    assert def.steps[..|def.steps|] == def.steps;
    forall x | x in StepIds(def) ensures x in ids {
      var i :| 0 <= i < |def.steps| && def.steps[i].id == x;
      assert ids[i] == x;
    }
  }

  lemma ReopenNone(def: Definition, run: Run)
    ensures MailSet(def, run, {}) == {} && Reopened(run, {}) == run
  {
    assert Reopened(run, {}).nodes == run.nodes;
  }

  /** A step that no longer needs reopening adds nothing, even if it had mail in the input. */
  lemma SkipSource(def: Definition, run: Run, sources: set<Id>, id: Id)
    requires !HasMail(Reopened(run, MailSet(def, run, sources)), id)
    ensures MailSet(def, run, sources + {id}) == MailSet(def, run, sources)
  {
    if HasMail(run, id) {
      assert id in MailSet(def, run, sources);
      var m :| m in sources && HasMail(run, m) && AtOrBelow(def, m, id);
      forall x | x in MailSet(def, run, sources + {id}) ensures x in MailSet(def, run, sources) {
        if AtOrBelow(def, id, x) {
          AtOrBelowTransitive(def, m, id, x);
        }
      }
    }
  }

  lemma AtOrBelowTransitive(def: Definition, a: Id, b: Id, c: Id)
    requires AtOrBelow(def, a, b) && AtOrBelow(def, b, c)
    ensures AtOrBelow(def, a, c)
  {
    if a != b && b != c { ReachesTransitive(def, a, b, c); }
  }

  lemma AddSource(def: Definition, run: Run, sources: set<Id>, id: Id)
    requires HasMail(Reopened(run, MailSet(def, run, sources)), id)
    ensures var done := MailSet(def, run, sources);
            var added := CompletedAmong(Reopened(run, done), {id} + DescendantSet(def, id));
            && MailSet(def, run, sources + {id}) == done + added
            && Reopened(Reopened(run, done), added) == Reopened(run, done + added)
  {
    var done := MailSet(def, run, sources);
    var was := Reopened(run, done);
    var added := CompletedAmong(was, {id} + DescendantSet(def, id));
    assert HasMail(run, id);
    forall x ensures x in MailSet(def, run, sources + {id}) <==> x in done + added {
      InDescendants(def, id, x);
    }
    ResetTwice(run.nodes, done, added, ToPending);
  }

  lemma ResetTwice(nodes: map<Id, NodeState>, a: set<Id>, b: set<Id>, kind: Reset)
    ensures ResetNodes(ResetNodes(nodes, a, kind), b, kind) == ResetNodes(nodes, a + b, kind)
  {
  }

  /** After reopening, no completed step keeps a message. */
  lemma NoMailLeft(def: Definition, run: Run, id: Id)
    requires id in StepIds(def)
    ensures !HasMail(Reopened(Opened(def, run), MailSet(def, Opened(def, run), StepIds(def))), id)
  {
    var start := Opened(def, run);
    if HasMail(start, id) {
      assert AtOrBelow(def, id, id);
      assert id in MailSet(def, start, StepIds(def));
    }
  }

  // ---------- Resume ----------

  method Restart(run: Run, ids: set<Id>) returns (out: Run)
    ensures out == WithReset(run, ids, ByHuman)
  {
    var nodes := ResetAll(run.nodes, ids, ByHuman);
    out := run.(nodes := nodes);
  }

  method ResumeTargets(def: Definition, run: Run, from: Id) returns (ids: set<Id>)
    ensures ids == ResumeSet(def, run, from)
  {
    if from != "" {
      var below := Descendants(def, from);
      ids := {from} + below;
    } else if run.status == RunCompleted {
      var sinks := SinkSteps(def);
      ids := set x | x in sinks;
    } else {
      ids := set x | x in run.nodes.Keys &&
        (run.nodes[x].status == Running || run.nodes[x].status == Paused || run.nodes[x].status == Failed);
    }
  }

  method DeliverAll(run: Run, ids: seq<Id>, m: Message) returns (out: Run)
    ensures out == DeliveredAll(run, ids, m)
  {
    out := run;
    for i := 0 to |ids|
      invariant out == DeliveredAll(run, ids[..i], m)
    {
      assert ids[..i + 1][..i] == ids[..i];
      out := Deliver(out, ids[i], m);
    }
    assert ids[..|ids|] == ids;
  }

  method Resume(input: Definition, run: Run, from: Id, message: string, now: int) returns (r: Result<Run>)
    ensures var def := Normalized(input);
            r == if !Valid(def) then Err(InvalidDefinition)
                 else if run.workflowId != input.id then Err(DefinitionMismatch)
                 else if run.status != RunPaused && run.status != RunCompleted && run.status != RunFailed then Err(InvalidRunState)
                 else if from != "" && from !in StepIds(def) then Err(UnknownStep)
                 else Ok(Resumed(def, run, from, message, now))
  {
    var def := Normalize(input);
    var checked := ValidateRunDefinition(input, run);
    if checked.Err? { return Err(checked.error); }
    if run.status != RunPaused && run.status != RunCompleted && run.status != RunFailed { return Err(InvalidRunState); }
    var out := EnsureNodes(def, run);
    if from != "" && from !in StepIds(def) { return Err(UnknownStep); }
    var ids := ResumeTargets(def, out, from);
    out := Restart(out, ids);
    out := out.(reworkRounds := map[], status := RunRunning, completedAt := 0, pauseReason := NoReason,
                lastError := "", updatedAt := now);
    var text := Text.Trim(message);
    Text.BlankTrimsAway(message);
    if text != "" {
      out := HandOut(def, out, from, Message("human", text, now));
    }
    return Ok(out);
  }

  method HandOut(def: Definition, run: Run, from: Id, m: Message) returns (out: Run)
    ensures out == if from != "" then Delivered(run, from, m) else DeliveredAll(run, Ids(ReadyIn(def, run, def.steps)), m)
  {
    if from != "" {
      out := Deliver(run, from, m);
    } else {
      var ready := ReadySteps(def, run);
      var ids := Ids(ready);
      out := DeliverAll(run, ids, m);
    }
  }

  // ---------- The next loop round ----------

  method Summarize(run: Run, steps: seq<Step>) returns (lines: seq<string>)
    ensures lines == Summaries(run, steps)
  {
    lines := [];
    for i := 0 to |steps|
      invariant lines == Summaries(run, steps[..i])
    {
      assert steps[..i + 1][..i] == steps[..i];
      var summary := NodeOf(run, steps[i].id).summary;
      if summary != "" { lines := lines + [steps[i].name + ": " + summary]; }
    }
    assert steps[..|steps|] == steps;
  }

  method Rewind(def: Definition, run: Run, now: int) returns (out: Run)
    ensures out == Rewound(def, run, now)
  {
    var nodes := ResetAll(run.nodes, StepIds(def), ForNextRound);
    out := run.(loopRound := (if run.loopRound > 1 then run.loopRound else 1) + 1, status := RunRunning,
                completedAt := 0, updatedAt := now, pauseReason := NoReason, lastError := "", reworkRounds := map[]);
    out := out.(nodes := nodes);
  }

  method NextLoopRound(def: Definition, run: Run, now: int) returns (r: Result<Run>)
    ensures r.Ok? <==> run.loopEnabled && run.status == RunCompleted && Valid(Normalized(def))
    ensures r.Ok? ==> EntriesIn(def, def.steps) != [] && r.value == NextRound(def, run, now)
    ensures r.Err? ==> r.error == if run.loopEnabled && run.status == RunCompleted then InvalidDefinition else InvalidRunState
  {
    if !run.loopEnabled || run.status != RunCompleted { return Err(InvalidRunState); }
    var ok := Validate(def);
    if !ok { return Err(InvalidDefinition); }
    EntryExists(Normalized(def));
    EntriesNormalized(def, def.steps);
    var lines := Summarize(run, def.steps);
    var out := Rewind(def, run, now);
    var entries := EntrySteps(def);
    out := out.(currentStepId := entries[0]);
    out := DeliverAll(out, entries, Message("onecatch", LoopText(lines), now));
    return Ok(out);
  }
}
