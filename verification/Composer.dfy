/** The notice above the composer of a paused run (workflow_composer.go): which steps an
    unaddressed message will reach, predicted from a probe of its own. */
module Composer {
  import opened Graph
  import opened Validation
  import opened Engine
  import opened Ordering
  import Text

  predicate Interrupted(n: NodeState) {
    n.status == Paused || n.status == Failed || n.status == Running
  }

  function AsPending(n: NodeState): NodeState {
    if Interrupted(n) then n.(status := Pending) else n
  }

  function Probed(run: Run): Run {
    run.(nodes := map x | x in run.nodes :: AsPending(run.nodes[x]))
  }

  function Names(steps: seq<Step>): seq<string> {
    seq(|steps|, i requires 0 <= i < |steps| => steps[i].name)
  }

  method Receivers(def: Definition, run: Run) returns (receivers: seq<string>)
    ensures receivers == Names(ReadyIn(def, Probed(run), def.steps))
  {
    hide Names;
    var nodes := run.nodes;
    var rest := run.nodes.Keys;
    while rest != {}
      invariant rest <= run.nodes.Keys == nodes.Keys
      invariant forall x :: x in rest ==> nodes[x] == run.nodes[x]
      invariant forall x :: x in nodes && x !in rest ==> nodes[x] == AsPending(run.nodes[x])
      decreases rest
    {
      var id :| id in rest;
      if Interrupted(nodes[id]) {
        nodes := nodes[id := nodes[id].(status := Pending)];
      }
      rest := rest - {id};
    }
    assert nodes == Probed(run).nodes;
    var ready := ReadySteps(def, run.(nodes := nodes));
    receivers := NamesOf(ready);
  }

  method NamesOf(steps: seq<Step>) returns (names: seq<string>)
    ensures names == Names(steps)
  {
    names := [];
    for i := 0 to |steps|
      invariant names == Names(steps[..i])
    {
      names := names + [steps[i].name];
    }
    assert steps[..|steps|] == steps;
  }

  /** The node of a step was never stored, so resuming will add it as pending. */
  ghost predicate Unstored(def: Definition, run: Run, x: Id) {
    x in StepIds(def) && x !in run.nodes
  }

  lemma ProbeStatus(def: Definition, run: Run, now: int, x: Id)
    requires run.status != RunCompleted
    ensures var quiet := ResumedQuietly(def, run, "", now);
            && StatusOf(quiet, x) == (if Unstored(def, run, x) then Pending else StatusOf(Probed(run), x))
            && (Unstored(def, run, x) ==> StatusOf(Probed(run), x) == NoStatus)
  {
    var start := Opened(def, run);
    OpenedNode(def, run, x);
    ResetNodeAt(start, ResumeSet(def, start, ""), ByHuman, x);
  }

  lemma ProbeReady(def: Definition, run: Run, now: int, x: Id)
    requires run.status != RunCompleted
    ensures var quiet := ResumedQuietly(def, run, "", now);
            Ready(def, quiet, x) <==> Ready(def, Probed(run), x) || (Unstored(def, run, x) && Ready(def, quiet, x))
    ensures Unstored(def, run, x) ==> !Ready(def, Probed(run), x)
  {
    var quiet := ResumedQuietly(def, run, "", now);
    hide ResumedQuietly, Probed;
    forall d
      ensures StatusOf(quiet, d) == Completed <==> StatusOf(Probed(run), d) == Completed
    {
      ProbeStatus(def, run, now, d);
    }
    ProbeStatus(def, run, now, x);
  }

  /** The notice is right exactly when no unstored step becomes ready on resuming. */
  lemma NoticeExactly(def: Definition, run: Run, now: int)
    requires run.status != RunCompleted
    ensures ReadyIn(def, Probed(run), def.steps) == ReadyIn(def, ResumedQuietly(def, run, "", now), def.steps) <==>
            forall x :: Unstored(def, run, x) ==> exists d :: Dep(def, d, x) && StatusOf(run, d) != Completed
  {
    hide ResumedQuietly, Probed, Ready;
    var quiet := ResumedQuietly(def, run, "", now);
    if forall x :: Unstored(def, run, x) ==> exists d :: Dep(def, d, x) && StatusOf(run, d) != Completed {
      forall s | s in def.steps ensures Ready(def, quiet, s.id) <==> Ready(def, Probed(run), s.id) {
        ProbeReady(def, run, now, s.id);
        if Unstored(def, run, s.id) { UnstoredReady(def, run, now, s.id); }
      }
      SameReady(def, quiet, Probed(run), def.steps);
    } else {
      var x :| Unstored(def, run, x) && forall d :: Dep(def, d, x) ==> StatusOf(run, d) == Completed;
      var s :| s in def.steps && s.id == x;
      UnstoredReady(def, run, now, x);
      ProbeReady(def, run, now, x);
      ReadyExactly(def, quiet, def.steps, s);
      ReadyExactly(def, Probed(run), def.steps, s);
    }
  }

  // ---------- What the notice says and what the message reaches ----------

  /** The steps with a longer inbox once the run is resumed with the message. */
  ghost function Reached(def: Definition, run: Run, message: string, now: int, steps: seq<Step>): seq<Step> {
    if steps == [] then [] else
      var n := |steps| - 1;
      var before, after := ResumedQuietly(def, run, "", now), Resumed(def, run, "", message, now);
      Reached(def, run, message, now, steps[..n]) +
      if |NodeOf(after, steps[n].id).inbox| > |NodeOf(before, steps[n].id).inbox| then [steps[n]] else []
  }

  lemma {:induction false} ReachedAreReady(def: Definition, run: Run, message: string, now: int, steps: seq<Step>)
    requires Valid(def) && !Text.Blank(message) && forall s :: s in steps ==> s in def.steps
    ensures Reached(def, run, message, now, steps) == ReadyIn(def, ResumedQuietly(def, run, "", now), steps)
  {
    if steps != [] {
      var n := |steps| - 1;
      assert steps == steps[..n] + [steps[n]];
      ReachedAreReady(def, run, message, now, steps[..n]);
      ReachedOne(def, run, message, now, steps[n]);
      UpstreamReady(def, ResumedQuietly(def, run, "", now), steps[n].id);
      hide Valid, Resumed, ResumedQuietly;
    }
  }

  lemma ReachedOne(def: Definition, run: Run, message: string, now: int, s: Step)
    requires Valid(def) && !Text.Blank(message) && s in def.steps
    ensures var before, after := ResumedQuietly(def, run, "", now), Resumed(def, run, "", message, now);
            |NodeOf(after, s.id).inbox| > |NodeOf(before, s.id).inbox| <==> Ready(def, before, s.id)
  {
    hide Valid, Resumed, ResumedQuietly, Ready, ReadyIn, Ids;
    PlainResumeDelivers(def, run, message, now, s.id);
    ReadyIds(def, ResumedQuietly(def, run, "", now), s);
  }

  lemma ReadyIds(def: Definition, run: Run, s: Step)
    requires s in def.steps
    ensures s.id in Ids(ReadyIn(def, run, def.steps)) <==> Ready(def, run, s.id)
  {
    hide Ready, ReadyIn;
    var ready := ReadyIn(def, run, def.steps);
    ReadyExactly(def, run, def.steps, s);
    if Ready(def, run, s.id) {
      var i :| 0 <= i < |ready| && ready[i] == s;
      assert Ids(ready)[i] == s.id;
    } else if s.id in Ids(ready) {
      var i :| 0 <= i < |ready| && ready[i].id == s.id;
      ReadyExactly(def, run, def.steps, ready[i]);
    }
  }

  /** A sublist with as many names is the whole list. */
  lemma {:induction false} FewerReady(def: Definition, a: Run, b: Run, steps: seq<Step>)
    requires forall s :: s in steps ==> (Ready(def, a, s.id) ==> Ready(def, b, s.id))
    ensures |ReadyIn(def, a, steps)| <= |ReadyIn(def, b, steps)|
    ensures |ReadyIn(def, a, steps)| == |ReadyIn(def, b, steps)| ==> ReadyIn(def, a, steps) == ReadyIn(def, b, steps)
  {
    hide Ready;
    if steps != [] {
      var n := |steps| - 1;
      assert steps == steps[..n] + [steps[n]];
      FewerReady(def, a, b, steps[..n]);
      UpstreamReady(def, a, steps[n].id);
      UpstreamReady(def, b, steps[n].id);
    }
  }

  /** The names on the notice are those of the steps that the message of a plain resume reaches,
      again exactly when no unstored step becomes ready. */
  lemma NamesExactly(def: Definition, run: Run, message: string, now: int)
    requires Valid(def) && run.status != RunCompleted && !Text.Blank(message)
    ensures Names(ReadyIn(def, Probed(run), def.steps)) == Names(Reached(def, run, message, now, def.steps)) <==>
            forall x :: Unstored(def, run, x) ==> exists d :: Dep(def, d, x) && StatusOf(run, d) != Completed
  {
    hide ResumedQuietly, Probed, Ready, Valid;
    var probe, quiet := Probed(run), ResumedQuietly(def, run, "", now);
    ReachedAreReady(def, run, message, now, def.steps);
    NoticeExactly(def, run, now);
    forall s | s in def.steps ensures Ready(def, probe, s.id) ==> Ready(def, quiet, s.id) {
      ProbeReady(def, run, now, s.id);
    }
    FewerReady(def, probe, quiet, def.steps);
    assert |Names(ReadyIn(def, probe, def.steps))| == |ReadyIn(def, probe, def.steps)|;
    assert |Names(ReadyIn(def, quiet, def.steps))| == |ReadyIn(def, quiet, def.steps)|;
  }

  lemma UnstoredReady(def: Definition, run: Run, now: int, x: Id)
    requires run.status != RunCompleted && Unstored(def, run, x)
    ensures Ready(def, ResumedQuietly(def, run, "", now), x) <==> forall d :: Dep(def, d, x) ==> StatusOf(run, d) == Completed
  {
    var quiet := ResumedQuietly(def, run, "", now);
    ProbeStatus(def, run, now, x);
    forall d ensures StatusOf(quiet, d) == Completed <==> StatusOf(run, d) == Completed {
      ProbeStatus(def, run, now, d);
    }
  }

  lemma {:induction false} SameReady(def: Definition, a: Run, b: Run, steps: seq<Step>)
    requires forall s :: s in steps ==> (Ready(def, a, s.id) <==> Ready(def, b, s.id))
    ensures ReadyIn(def, a, steps) == ReadyIn(def, b, steps)
  {
    hide Ready;
    if |steps| > 0 {
      var n := |steps| - 1;
      assert steps == steps[..n] + [steps[n]];
      SameReady(def, a, b, steps[..n]);
      UpstreamReady(def, a, steps[n].id);
      UpstreamReady(def, b, steps[n].id);
    }
  }
}
