/** The run state machine (engine.go, loop.go). Every operation works on a copy
    of the run, so a run is a value; each method is proved equal to a
    specification function, and the theorems are about those functions. */
module Engine {
  import opened Graph
  import opened Validation
  import opened Collections
  import Text

  // ---------- State ----------

  /** `NoStatus` is the zero value: the status of a node that was never stored. */
  datatype NodeStatus = NoStatus | Pending | Running | Completed | Paused | Failed

  datatype Verdict = NoVerdict | Pass | Rework | AskHuman | OtherVerdict(text: string)

  datatype Message = Message(from: string, text: string, at: int)

  datatype NodeState = NodeState(
    stepId: Id,
    status: NodeStatus,
    attempt: nat,
    failures: nat,
    verdict: Verdict,
    summary: string,
    error: string,
    inbox: seq<Message>,
    startedAt: int,
    finishedAt: int)

  datatype RunStatus = RunReady | RunRunning | RunPaused | RunCompleted | RunFailed | RunCancelled

  datatype PauseReason = NoReason | AskedHuman | ReworkLimit | FailureLimit | OtherReason(text: string)

  datatype Run = Run(
    id: string,
    workflowId: string,
    loopEnabled: bool,
    loopRound: int,
    status: RunStatus,
    currentStepId: Id,
    sessions: map<Id, string>,
    nodes: map<Id, NodeState>,
    reworkRounds: map<string, nat>,
    pauseReason: PauseReason,
    lastError: string,
    updatedAt: int,
    completedAt: int)

  datatype Outcome = Outcome(verdict: Verdict, summary: string, feedback: string, target: string)

  datatype Error = InvalidRunState | UnknownStep | InvalidOutcome | DefinitionMismatch | InvalidDefinition | RunIdRequired

  datatype Result<+T> = Ok(value: T) | Err(error: Error)

  const ZERO_NODE := NodeState("", NoStatus, 0, 0, NoVerdict, "", "", [], 0, 0)

  function FreshNode(id: Id): NodeState {
    ZERO_NODE.(stepId := id, status := Pending)
  }

  /** A map read: an absent node is the zero node. */
  function Lookup(nodes: map<Id, NodeState>, id: Id): NodeState {
    if id in nodes then nodes[id] else ZERO_NODE
  }

  function NodeOf(run: Run, id: Id): NodeState {
    Lookup(run.nodes, id)
  }

  function StatusOf(run: Run, id: Id): NodeStatus {
    NodeOf(run, id).status
  }

  function Rounds(run: Run, key: string): nat {
    if key in run.reworkRounds then run.reworkRounds[key] else 0
  }

  function Put(run: Run, id: Id, node: NodeState): Run {
    run.(nodes := run.nodes[id := node])
  }

  // ---------- Specifications ----------

  /** Every step has a node; stored nodes stay as they are. */
  function Opened(def: Definition, run: Run): Run {
    run.(nodes := OpenedNodes(def, run.nodes))
  }

  function OpenedNodes(def: Definition, nodes: map<Id, NodeState>): map<Id, NodeState> {
    (map x | x in StepIds(def) :: FreshNode(x)) + nodes
  }

  ghost predicate Ready(def: Definition, run: Run, id: Id) {
    StatusOf(run, id) == Pending && forall d :: Dep(def, d, id) ==> StatusOf(run, d) == Completed
  }

  function ReadyIn(def: Definition, run: Run, steps: seq<Step>): seq<Step> {
    if |steps| == 0 then [] else
      var n := |steps| - 1;
      ReadyIn(def, run, steps[..n]) +
      if StatusOf(run, steps[n].id) == Pending &&
         forall d :: d in UpstreamIn(def.edges, steps[n].id) ==> StatusOf(run, d) == Completed
      then [steps[n]] else []
  }

  ghost predicate AllDone(def: Definition, run: Run) {
    forall x :: x in StepIds(def) ==> StatusOf(run, x) == Completed
  }

  /** The three ways in which a node is set back to pending: by rework or mail,
      by a human, and for the next loop round. */
  datatype Reset = ToPending | ByHuman | ForNextRound

  function ResetNode(kind: Reset, id: Id, n: NodeState): NodeState {
    match kind
    case ToPending => n.(status := Pending)
    case ByHuman => n.(status := Pending, error := "", failures := 0)
    case ForNextRound => n.(stepId := id, status := Pending, verdict := NoVerdict, error := "", summary := "",
                            failures := 0, startedAt := 0, finishedAt := 0)
  }

  function ResetNodes(nodes: map<Id, NodeState>, ids: set<Id>, kind: Reset): map<Id, NodeState> {
    map x | x in nodes.Keys + ids :: if x in ids then ResetNode(kind, x, Lookup(nodes, x)) else nodes[x]
  }

  /** The same run with the given nodes set back. */
  function WithReset(run: Run, ids: set<Id>, kind: Reset): Run {
    run.(nodes := ResetNodes(run.nodes, ids, kind))
  }

  function Reopened(run: Run, ids: set<Id>): Run {
    WithReset(run, ids, ToPending)
  }

  lemma ResetOneMore(nodes: map<Id, NodeState>, ids: set<Id>, id: Id, kind: Reset)
    ensures ResetNodes(nodes, ids, kind)[id := ResetNode(kind, id, Lookup(ResetNodes(nodes, ids, kind), id))]
         == ResetNodes(nodes, ids + {id}, kind)
  {
  }

  function Delivered(run: Run, id: Id, m: Message): Run {
    if Text.Blank(m.text) then run
    else Put(run, id, NodeOf(run, id).(stepId := id, inbox := NodeOf(run, id).inbox + [m]))
  }

  function DeliveredAll(run: Run, ids: seq<Id>, m: Message): Run {
    if |ids| == 0 then run else Delivered(DeliveredAll(run, ids[..|ids| - 1], m), ids[|ids| - 1], m)
  }

  function Ids(steps: seq<Step>): seq<Id> {
    seq(|steps|, i requires 0 <= i < |steps| => steps[i].id)
  }

  function FirstTo(edges: seq<Edge>, target: Id): (r: Result<Edge>)
    ensures r.Ok? ==> r.value in edges && r.value.to == target
    ensures r.Err? ==> r.error == InvalidOutcome && forall e :: e in edges ==> e.to != target
  {
    if edges == [] then Err(InvalidOutcome)
    else if edges[0].to == target then Ok(edges[0])
    else FirstTo(edges[1..], target)
  }

  function ChosenEdge(def: Definition, id: Id, target: Id): (r: Result<Edge>)
    ensures r.Ok? ==> r.value in def.edges && r.value.kind.Rework? && r.value.from == id
    ensures r.Ok? && target != "" ==> r.value.to == target
  {
    var edges := ReworkEdgesIn(def.edges, id);
    if edges == [] then Err(InvalidOutcome)
    else if target == "" then (if |edges| == 1 then Ok(edges[0]) else Err(InvalidOutcome))
    else FirstTo(edges, target)
  }

  /** The edge at `i` is a rework edge out of the step. */
  predicate OutOf(edges: seq<Edge>, id: Id, i: nat) {
    i < |edges| && edges[i].kind.Rework? && edges[i].from == id
  }

  /** The edge a rework is taken over: with a target the first rework edge to it, without one the
      only rework edge out of the step. */
  ghost predicate TakenAt(edges: seq<Edge>, id: Id, target: Id, i: nat) {
    && OutOf(edges, id, i)
    && if target == "" then forall j: nat :: OutOf(edges, id, j) ==> j == i
       else edges[i].to == target && forall j: nat :: j < i && OutOf(edges, id, j) ==> edges[j].to != target
  }

  ghost predicate TakenOver(def: Definition, id: Id, target: Id, e: Edge) {
    exists i: nat :: TakenAt(def.edges, id, target, i) && def.edges[i] == e
  }

  /** There is an edge to take a rework over. */
  ghost predicate Sendable(def: Definition, id: Id, target: Id) {
    exists i: nat :: TakenAt(def.edges, id, target, i)
  }

  lemma {:induction false} SoleOut(edges: seq<Edge>, id: Id, i: nat)
    requires OutOf(edges, id, i) && forall j: nat :: OutOf(edges, id, j) ==> j == i
    ensures ReworkEdgesIn(edges, id) == [edges[i]]
  {
    var n := |edges| - 1;
    assert forall j: nat :: OutOf(edges[..n], id, j) ==> j < n && OutOf(edges, id, j);
    if i == n {
      NoneOut(edges[..n], id);
    } else {
      assert !OutOf(edges, id, n);
      SoleOut(edges[..n], id, i);
    }
  }

  lemma NoneOut(edges: seq<Edge>, id: Id)
    ensures ReworkEdgesIn(edges, id) == [] <==> forall j: nat :: !OutOf(edges, id, j)
  {
    if ReworkEdgesIn(edges, id) != [] {
      var e := ReworkEdgesIn(edges, id)[0];
      var j :| 0 <= j < |edges| && edges[j] == e;
      assert OutOf(edges, id, j);
    }
  }

  lemma {:induction false} SoleListed(edges: seq<Edge>, id: Id) returns (i: nat)
    requires |ReworkEdgesIn(edges, id)| == 1
    ensures TakenAt(edges, id, "", i)
  {
    var n := |edges| - 1;
    if OutOf(edges, id, n) {
      i := n;
      NoneOut(edges[..n], id);
      forall j: nat | OutOf(edges, id, j) ensures j == i { assert !OutOf(edges[..n], id, j); }
    } else {
      i := SoleListed(edges[..n], id);
      forall j: nat | OutOf(edges, id, j) ensures j == i { assert j < n && OutOf(edges[..n], id, j); }
    }
  }

  lemma {:induction false} FirstToMore(edges: seq<Edge>, e: Edge, target: Id)
    ensures FirstTo(edges + [e], target) ==
            if FirstTo(edges, target).Ok? then FirstTo(edges, target) else FirstTo([e], target)
  {
    if edges == [] {
      assert edges + [e] == [e];
    } else {
      assert (edges + [e])[1..] == edges[1..] + [e];
      FirstToMore(edges[1..], e, target);
    }
  }

  lemma NoneTo(edges: seq<Edge>, id: Id, target: Id)
    requires forall j: nat :: OutOf(edges, id, j) ==> edges[j].to != target
    ensures FirstTo(ReworkEdgesIn(edges, id), target).Err?
  {
    forall e | e in ReworkEdgesIn(edges, id) ensures e.to != target {
      var j :| 0 <= j < |edges| && edges[j] == e;
      assert OutOf(edges, id, j);
    }
  }

  lemma {:induction false} FirstToAt(edges: seq<Edge>, id: Id, target: Id, i: nat)
    requires target != "" && TakenAt(edges, id, target, i)
    ensures FirstTo(ReworkEdgesIn(edges, id), target) == Ok(edges[i])
  {
    hide FirstTo;
    var n := |edges| - 1;
    var before := ReworkEdgesIn(edges[..n], id);
    assert forall j: nat :: OutOf(edges[..n], id, j) <==> j < n && OutOf(edges, id, j);
    FirstToMore(before, edges[n], target);
    FirstToOne(edges[n], target);
    if i == n {
      NoneTo(edges[..n], id, target);
      LastOut(edges, id);
    } else {
      FirstToAt(edges[..n], id, target, i);
      LastOut(edges, id);
    }
  }

  lemma FirstToOne(e: Edge, target: Id)
    ensures e.to == target ==> FirstTo([e], target) == Ok(e)
  {
  }

  lemma LastOut(edges: seq<Edge>, id: Id)
    requires edges != []
    ensures var n := |edges| - 1;
            ReworkEdgesIn(edges, id) ==
            if OutOf(edges, id, n) then ReworkEdgesIn(edges[..n], id) + [edges[n]] else ReworkEdgesIn(edges[..n], id)
  {
  }

  /** Exactly one edge of a definition is the one a rework is taken over, or none is. */
  lemma ChosenExactly(def: Definition, id: Id, target: Id)
    ensures forall i: nat :: TakenAt(def.edges, id, target, i) ==> ChosenEdge(def, id, target) == Ok(def.edges[i])
    ensures ChosenEdge(def, id, target).Ok? ==> Sendable(def, id, target)
    ensures forall e :: ChosenEdge(def, id, target) == Ok(e) <==> TakenOver(def, id, target, e)
  {
    forall i: nat | TakenAt(def.edges, id, target, i) ensures ChosenEdge(def, id, target) == Ok(def.edges[i]) {
      TakenChosen(def, id, target, i);
    }
    if ChosenEdge(def, id, target).Ok? {
      var i := ChosenAt(def, id, target);
    }
  }

  /** On a valid definition: the rework edge to the target, or the only rework edge when none is named. */
  lemma TakenExactly(def: Definition, id: Id, target: Id, e: Edge)
    requires Valid(def)
    ensures TakenOver(def, id, target, e) <==>
            && e in def.edges && e.kind.Rework? && e.from == id
            && if target != "" then e.to == target else forall f :: f in def.edges && f.kind.Rework? && f.from == id ==> f == e
  {
    hide Acyclic, ReworkGoesUp, WritersOrdered, ValidEdges, ValidSteps, UniqueSteps;
    if TakenOver(def, id, target, e) {
      var i: nat :| TakenAt(def.edges, id, target, i) && def.edges[i] == e;
      forall f | f in def.edges && f.kind.Rework? && f.from == id && target == "" ensures f == e {
        var j :| 0 <= j < |def.edges| && def.edges[j] == f;
        assert OutOf(def.edges, id, j);
      }
    }
    if e in def.edges && e.kind.Rework? && e.from == id {
      var i: nat :| i < |def.edges| && def.edges[i] == e;
      forall j: nat | OutOf(def.edges, id, j) && def.edges[j].to == e.to ensures j == i {
        if j != i { TwoEdges(def, i, j); }
      }
      forall j: nat | OutOf(def.edges, id, j) ensures def.edges[j] in def.edges {}
      assert TakenAt(def.edges, id, e.to, i) || e.to == "";
    }
  }

  lemma TwoEdges(def: Definition, i: nat, j: nat)
    requires UniqueEdges(def) && i < |def.edges| && j < |def.edges| && i != j
    ensures !SameConnection(def.edges[i], def.edges[j]) && !SameConnection(def.edges[j], def.edges[i])
  {
  }

  lemma TakenChosen(def: Definition, id: Id, target: Id, i: nat)
    requires TakenAt(def.edges, id, target, i)
    ensures ChosenEdge(def, id, target) == Ok(def.edges[i])
  {
    if target == "" { SoleOut(def.edges, id, i); } else { FirstToAt(def.edges, id, target, i); }
  }

  lemma ChosenAt(def: Definition, id: Id, target: Id) returns (i: nat)
    requires ChosenEdge(def, id, target).Ok?
    ensures TakenAt(def.edges, id, target, i)
  {
    if target == "" {
      i := SoleListed(def.edges, id);
    } else {
      var e := ChosenEdge(def, id, target).value;
      hide ChosenEdge;
      i := 0;
      while !(OutOf(def.edges, id, i) && def.edges[i].to == target)
        invariant i < |def.edges| && e in def.edges[i..]
        invariant forall j: nat :: j < i && OutOf(def.edges, id, j) ==> def.edges[j].to != target
        decreases |def.edges| - i
      {
        assert e in def.edges[i + 1..];
        i := i + 1;
      }
    }
  }

  function Limit(def: Definition, e: Edge): int {
    if e.maxRounds == 0 then def.policy.maxReworkRounds else e.maxRounds
  }

  function FeedbackText(o: Outcome): string {
    if Text.Trim(o.feedback) != "" then Text.Trim(o.feedback) else Text.Trim(o.summary)
  }

  /** The node of a step that has just reported a verdict. */
  function Concluded(run: Run, id: Id, o: Outcome, now: int): NodeState {
    NodeOf(run, id).(verdict := o.verdict, summary := Text.Trim(o.summary), error := "",
                     failures := 0, inbox := [], finishedAt := now)
  }

  function RoundCounted(run: Run, key: string): Run {
    run.(reworkRounds := run.reworkRounds[key := Rounds(run, key) + 1])
  }

  ghost function SentBack(def: Definition, run: Run, id: Id, edge: Edge, node: NodeState, m: Message): Run {
    Delivered(Reopened(Put(RoundCounted(run, EdgeKey(edge.from, edge.to)), id, node),
                       ReworkSet(def, edge.from, edge.to)), edge.to, m)
  }

  function Stopped(run: Run, id: Id, node: NodeState, reason: PauseReason, message: string): Run {
    Put(run, id, node.(status := Paused)).(status := RunPaused, pauseReason := reason, lastError := message)
  }

  ghost function AfterRework(def: Definition, run: Run, id: Id, o: Outcome, now: int): Result<Run> {
    match ChosenEdge(def, id, o.target)
    case Err(e) => Err(e)
    case Ok(edge) =>
      if Rounds(run, EdgeKey(edge.from, edge.to)) >= Limit(def, edge)
      then Ok(Stopped(run, id, Concluded(run, id, o, now), ReworkLimit, FeedbackText(o)))
      else Ok(SentBack(def, run, id, edge, Concluded(run, id, o, now), Message(id, FeedbackText(o), now)))
  }

  ghost function AfterOutcome(def: Definition, run: Run, id: Id, o: Outcome, now: int): Result<Run> {
    if id !in StepIds(def) then Err(UnknownStep)
    else if run.status != RunRunning then Err(InvalidRunState)
    else
      var out := Opened(def, run).(updatedAt := now);
      var node := Concluded(out, id, o, now);
      match o.verdict
      case Pass => Ok(Put(out, id, node.(status := Completed)))
      case AskHuman => Ok(Stopped(out, id, node, AskedHuman, node.summary))
      case Rework => AfterRework(def, out, id, o, now)
      case _ => Err(InvalidOutcome)
  }

  function AfterFailure(def: Definition, run: Run, id: Id, message: string, now: int): Run {
    var out := Opened(def, run).(updatedAt := now);
    var was := NodeOf(out, id);
    var node := was.(failures := was.failures + 1, error := Text.Trim(message), finishedAt := now, status := Pending);
    if node.failures >= def.policy.maxConsecutiveFailures
    then Stopped(out, id, node, FailureLimit, node.error)
    else Put(out, id, node)
  }

  ghost predicate HasMail(run: Run, id: Id) {
    StatusOf(run, id) == Completed && NodeOf(run, id).inbox != []
  }

  ghost predicate AtOrBelow(def: Definition, m: Id, x: Id) {
    x == m || Reaches(def, m, x)
  }

  /** The completed steps at or below one of `sources` that passed with mail waiting. */
  ghost function MailSet(def: Definition, run: Run, sources: set<Id>): set<Id> {
    set x | x in run.nodes.Keys && StatusOf(run, x) == Completed &&
            exists m :: m in sources && HasMail(run, m) && AtOrBelow(def, m, x)
  }

  ghost function ResumeSet(def: Definition, run: Run, from: Id): set<Id> {
    if from != "" then {from} + DescendantSet(def, from)
    else if run.status == RunCompleted then Elements(SinksIn(def, def.steps))
    else set x | x in run.nodes.Keys && (run.nodes[x].status == Running || run.nodes[x].status == Paused || run.nodes[x].status == Failed)
  }

  /** The run after a resume, before the message is handed out. */
  ghost function ResumedQuietly(def: Definition, run: Run, from: Id, now: int): Run {
    var out := Opened(def, run);
    WithReset(out, ResumeSet(def, out, from), ByHuman).(
      reworkRounds := map[], status := RunRunning, completedAt := 0, pauseReason := NoReason, lastError := "", updatedAt := now)
  }

  ghost function Resumed(def: Definition, run: Run, from: Id, message: string, now: int): Run {
    var out := ResumedQuietly(def, run, from, now);
    var human := Message("human", Text.Trim(message), now);
    if Text.Blank(message) then out
    else if from != "" then Delivered(out, from, human)
    else DeliveredAll(out, Ids(ReadyIn(def, out, def.steps)), human)
  }

  function Summaries(run: Run, steps: seq<Step>): seq<string> {
    if |steps| == 0 then [] else
      var n := |steps| - 1;
      Summaries(run, steps[..n]) +
      if NodeOf(run, steps[n].id).summary != "" then [steps[n].name + ": " + NodeOf(run, steps[n].id).summary] else []
  }

  function Joined(lines: seq<string>): string {
    if |lines| == 0 then "" else lines[0] + "\n" + Joined(lines[1..])
  }

  function LoopText(summaries: seq<string>): string {
    "Next round:\n" + Joined(summaries)
  }

  /** A completed run turned into the start of its next round, before the opening message. */
  ghost function Rewound(def: Definition, run: Run, now: int): Run {
    run.(loopRound := (if run.loopRound > 1 then run.loopRound else 1) + 1, status := RunRunning, completedAt := 0,
         updatedAt := now, pauseReason := NoReason, lastError := "", reworkRounds := map[],
         nodes := ResetNodes(run.nodes, StepIds(def), ForNextRound))
  }

  ghost function NextRound(def: Definition, run: Run, now: int): Run
    requires EntriesIn(def, def.steps) != []
  {
    var entries := EntriesIn(def, def.steps);
    DeliveredAll(Rewound(def, run, now).(currentStepId := entries[0]), entries,
                 Message("onecatch", LoopText(Summaries(run, def.steps)), now))
  }

  function Fresh(def: Definition, runId: string, entry: Id, now: int): Run {
    Run(runId, def.id, def.loopEnabled, if def.loopEnabled then 1 else 0, RunReady, entry, map[],
        OpenedNodes(def, map[]), map[], NoReason, "", now, 0)
  }

  // ---------- Operations ----------

  method NewRun(input: Definition, runId: string, now: int) returns (r: Result<Run>)
    ensures r.Ok? <==> Valid(Normalized(input)) && !Text.Blank(runId)
    ensures r.Ok? ==> EntriesIn(input, input.steps) != [] &&
                      r.value == Fresh(Normalized(input), runId, EntriesIn(input, input.steps)[0], now)
    ensures r.Err? ==> r.error == if !Valid(Normalized(input)) then InvalidDefinition else RunIdRequired
  {
    var def := Normalize(input);
    var ok := Validate(input);
    if !ok { return Err(InvalidDefinition); }
    if Text.Blank(runId) { return Err(RunIdRequired); }
    EntryExists(def);
    EntriesNormalized(input, input.steps);
    var entries := EntrySteps(def);
    var run := Run(runId, def.id, def.loopEnabled, 1, RunReady, entries[0], map[], map[], map[], NoReason, "", now, 0);
    if !def.loopEnabled { run := run.(loopRound := 0); }
    var nodes := AddNodes(def, run.nodes);
    run := run.(nodes := nodes);
    return Ok(run);
  }

  lemma {:induction false} EntriesNormalized(def: Definition, steps: seq<Step>)
    ensures EntriesIn(Normalized(def), steps) == EntriesIn(def, steps)
  {
    if |steps| > 0 {
      EntriesNormalized(def, steps[..|steps| - 1]);
      NormalizedSameGraph(def, steps[|steps| - 1].id);
    }
  }

  method AddNodes(def: Definition, nodes: map<Id, NodeState>) returns (out: map<Id, NodeState>)
    ensures out == OpenedNodes(def, nodes)
  {
    out := nodes;
    for i := 0 to |def.steps|
      invariant forall j :: 0 <= j < i ==> def.steps[j].id in out
      invariant nodes.Keys <= out.Keys <= nodes.Keys + StepIds(def)
      invariant forall x :: x in out ==> out[x] == if x in nodes then nodes[x] else FreshNode(x)
    {
      if def.steps[i].id !in out {
        out := out[def.steps[i].id := FreshNode(def.steps[i].id)];
      }
    }
    assert out.Keys == nodes.Keys + StepIds(def);
  }

  method EnsureNodes(def: Definition, run: Run) returns (out: Run)
    ensures out == Opened(def, run)
  {
    var nodes := AddNodes(def, run.nodes);
    out := run.(nodes := nodes);
  }

  method ValidateRunDefinition(def: Definition, run: Run) returns (r: Result<()>)
    ensures r.Ok? <==> Valid(Normalized(def)) && run.workflowId == def.id
    ensures r.Err? ==> r.error == if !Valid(Normalized(def)) then InvalidDefinition else DefinitionMismatch
  {
    var ok := Validate(def);
    if !ok { return Err(InvalidDefinition); }
    if run.workflowId != def.id { return Err(DefinitionMismatch); }
    return Ok(());
  }

  method Start(input: Definition, run: Run, now: int) returns (r: Result<Run>)
    ensures r.Ok? <==> Valid(Normalized(input)) && run.workflowId == input.id && run.status == RunReady
    ensures r.Ok? ==> r.value == Opened(input, run).(status := RunRunning, updatedAt := now)
    ensures r.Err? ==> r.error == if !Valid(Normalized(input)) then InvalidDefinition
                                  else if run.workflowId != input.id then DefinitionMismatch else InvalidRunState
  {
    var def := Normalize(input);
    var checked := ValidateRunDefinition(input, run);
    if checked.Err? { return Err(checked.error); }
    if run.status != RunReady { return Err(InvalidRunState); }
    var out := EnsureNodes(def, run);
    return Ok(out.(status := RunRunning, updatedAt := now));
  }

  method ReadySteps(def: Definition, run: Run) returns (ready: seq<Step>)
    ensures ready == ReadyIn(def, run, def.steps)
  {
    hide StatusOf, UpstreamIn;
    ready := [];
    for i := 0 to |def.steps|
      invariant ready == ReadyIn(def, run, def.steps[..i])
    {
      assert def.steps[..i + 1][..i] == def.steps[..i];
      var step := def.steps[i];
      var ok := IsReady(def, run, step.id);
      if ok { ready := ready + [step]; }
    }
    assert def.steps[..|def.steps|] == def.steps;
  }

  method IsReady(def: Definition, run: Run, x: Id) returns (ok: bool)
    ensures ok <==> StatusOf(run, x) == Pending && forall d :: d in UpstreamIn(def.edges, x) ==> StatusOf(run, d) == Completed
  {
    ok := StatusOf(run, x) == Pending;
    if ok {
      hide StatusOf, UpstreamIn;
      var ups := Upstream(def, x);
      for j := 0 to |ups|
        invariant ok <==> forall k :: 0 <= k < j ==> StatusOf(run, ups[k]) == Completed
      {
        if StatusOf(run, ups[j]) != Completed {
          ok := false;
          break;
        }
      }
    }
  }

  /** The list holds exactly the ready steps. */
  lemma {:induction false} ReadyExactly(def: Definition, run: Run, steps: seq<Step>, s: Step)
    ensures s in ReadyIn(def, run, steps) <==> s in steps && Ready(def, run, s.id)
  {
    if |steps| > 0 {
      var n := |steps| - 1;
      assert steps == steps[..n] + [steps[n]];
      hide Ready;
      ReadyExactly(def, run, steps[..n], s);
      UpstreamReady(def, run, steps[n].id);
    }
  }

  /** Ready steps stand in the order of the steps. */
  lemma {:induction false} ReadyOrder(def: Definition, run: Run, steps: seq<Step>) returns (at: seq<nat>)
    ensures Picks(at, steps, Same, ReadyIn(def, run, steps))
    ensures forall i: nat :: i in at <==> i < |steps| && Ready(def, run, steps[i].id)
  {
    hide Picks, ReadyIn, Ready;
    ReadyLast(def, run, steps);
    if steps == [] {
      at := [];
      PicksNone(Same<Step>);
    } else {
      var n := |steps| - 1;
      var front := ReadyOrder(def, run, steps[..n]);
      var more: seq<nat> := if Ready(def, run, steps[n].id) then [n] else [];
      at := front + more;
      assert steps == steps[..n] + [steps[n]];
      PicksMore(front, steps[..n], Same, ReadyIn(def, run, steps[..n]), steps[n], more);
      assert ReadyIn(def, run, steps) == ReadyIn(def, run, steps[..n]) + if more == [] then [] else [Same(steps[n])];
    }
  }

  lemma ReadyLast(def: Definition, run: Run, steps: seq<Step>)
    ensures ReadyIn(def, run, steps) ==
            if steps == [] then []
            else var n := |steps| - 1;
                 ReadyIn(def, run, steps[..n]) + if Ready(def, run, steps[n].id) then [steps[n]] else []
  {
    hide Ready;
    if steps != [] { UpstreamReady(def, run, steps[|steps| - 1].id); }
  }

  lemma UpstreamReady(def: Definition, run: Run, id: Id)
    ensures Ready(def, run, id) <==>
            StatusOf(run, id) == Pending && forall d :: d in UpstreamIn(def.edges, id) ==> StatusOf(run, d) == Completed
  {
    forall d ensures d in UpstreamIn(def.edges, id) <==> Dep(def, d, id) {}
  }

  method AllCompleted(def: Definition, run: Run) returns (all: bool)
    ensures all <==> AllDone(def, run) && |def.steps| > 0
  {
    for i := 0 to |def.steps|
      invariant forall j :: 0 <= j < i ==> StatusOf(run, def.steps[j].id) == Completed
    {
      if StatusOf(run, def.steps[i].id) != Completed {
        assert def.steps[i] in def.steps;
        return false;
      }
    }
    return |def.steps| > 0;
  }

  method ReworkEdge(def: Definition, id: Id, target: Id) returns (r: Result<Edge>)
    ensures r == ChosenEdge(def, id, target)
    ensures r.Ok? <==> Sendable(def, id, target)
    ensures forall i: nat :: TakenAt(def.edges, id, target, i) ==> r == Ok(def.edges[i])
    ensures r.Err? ==> r.error == InvalidOutcome
  {
    ChosenExactly(def, id, target);
    hide TakenAt;
    var edges := ReworkEdges(def, id);
    if |edges| == 0 { return Err(InvalidOutcome); }
    if target == "" {
      if |edges| == 1 { return Ok(edges[0]); }
      return Err(InvalidOutcome);
    }
    for i := 0 to |edges|
      invariant FirstTo(edges, target) == FirstTo(edges[i..], target)
    {
      if edges[i].to == target { return Ok(edges[i]); }
    }
    return Err(InvalidOutcome);
  }

  method CheckOutcome(input: Definition, id: Id, o: Outcome) returns (r: Result<()>)
    ensures r.Ok? <==> o.verdict.Pass? || o.verdict.AskHuman? ||
                       (o.verdict.Rework? && Sendable(Normalized(input), id, o.target))
    ensures r.Err? ==> r.error == InvalidOutcome
  {
    var def := Normalize(input);
    match o.verdict {
      case Pass => return Ok(());
      case AskHuman => return Ok(());
      case Rework =>
        var edge := ReworkEdge(def, id, o.target);
        if edge.Ok? { return Ok(()); }
        return Err(InvalidOutcome);
      case _ => return Err(InvalidOutcome);
    }
  }

  /** The source's loop over a set of ids, writing one node at a time. */
  method ResetAll(nodes: map<Id, NodeState>, ids: set<Id>, kind: Reset) returns (out: map<Id, NodeState>)
    ensures out == ResetNodes(nodes, ids, kind)
  {
    out := nodes;
    var rest := ids;
    assert ResetNodes(nodes, {}, kind) == nodes;
    while rest != {}
      invariant rest <= ids
      invariant out == ResetNodes(nodes, ids - rest, kind)
      decreases rest
    {
      var id :| id in rest;
      ResetOneMore(nodes, ids - rest, id, kind);
      out := out[id := ResetNode(kind, id, Lookup(out, id))];
      assert ids - (rest - {id}) == ids - rest + {id};
      rest := rest - {id};
    }
    assert ids - rest == ids;
  }

  method Reopen(run: Run, ids: set<Id>) returns (out: Run)
    ensures out == Reopened(run, ids)
  {
    var nodes := ResetAll(run.nodes, ids, ToPending);
    out := run.(nodes := nodes);
  }

  /** A message that says something is the last of one inbox; nothing else of the run changes,
      and a blank one changes nothing at all. */
  method Deliver(run: Run, id: Id, m: Message) returns (out: Run)
    ensures out == Delivered(run, id, m)
    ensures Text.Blank(m.text) ==> out == run
    ensures !Text.Blank(m.text) ==> NodeOf(out, id).inbox == NodeOf(run, id).inbox + [m]
    ensures StatusOf(out, id) == StatusOf(run, id) && NodeOf(out, id).failures == NodeOf(run, id).failures
    ensures forall x :: x != id ==> NodeOf(out, x) == NodeOf(run, x)
    ensures out.(nodes := run.nodes) == run
  {
    if Text.Blank(m.text) { return run; }
    var node := NodeOf(run, id);
    node := node.(stepId := id);
    node := node.(inbox := node.inbox + [m]);
    return Put(run, id, node);
  }

  /** The rework branch, on the working copy and the node that has just concluded. */
  method ApplyRework(def: Definition, run: Run, id: Id, node: NodeState, o: Outcome, now: int) returns (r: Result<Run>)
    requires node == Concluded(run, id, o, now)
    ensures r == AfterRework(def, run, id, o, now)
  {
    var chosen := ReworkEdge(def, id, o.target);
    if chosen.Err? { return Err(chosen.error); }
    var edge := chosen.value;
    var limit := edge.maxRounds;
    if limit == 0 { limit := def.policy.maxReworkRounds; }
    var key := EdgeKey(edge.from, edge.to);
    if Rounds(run, key) >= limit {
      var stopped := StopRun(run, id, node, ReworkLimit, FeedbackText(o));
      return Ok(stopped);
    }
    var out := SendBack(def, run, id, edge, node, Message(id, FeedbackText(o), now));
    return Ok(out);
  }

  method StopRun(run: Run, id: Id, node: NodeState, reason: PauseReason, message: string) returns (out: Run)
    ensures out == Stopped(run, id, node, reason, message)
  {
    out := Put(run, id, node.(status := Paused));
    out := out.(status := RunPaused, pauseReason := reason, lastError := message);
  }

  method SendBack(def: Definition, run: Run, id: Id, edge: Edge, node: NodeState, m: Message) returns (out: Run)
    ensures out == SentBack(def, run, id, edge, node, m)
  {
    out := CountRework(run, EdgeKey(edge.from, edge.to));
    out := ReopenPath(def, Put(out, id, node), edge);
    out := Deliver(out, edge.to, m);
  }

  method CountRework(run: Run, key: string) returns (out: Run)
    ensures out == RoundCounted(run, key)
  {
    out := run.(reworkRounds := run.reworkRounds[key := Rounds(run, key) + 1]);
  }

  method ReopenPath(def: Definition, run: Run, edge: Edge) returns (out: Run)
    ensures out == Reopened(run, ReworkSet(def, edge.from, edge.to))
  {
    var path := ReworkPath(def, edge.from, edge.to);
    out := Reopen(run, path);
  }

  method ApplyOutcome(input: Definition, run: Run, id: Id, o: Outcome, now: int) returns (r: Result<Run>)
    ensures r == AfterOutcome(Normalized(input), run, id, o, now)
  {
    var def := Normalize(input);
    if id !in StepIds(def) { return Err(UnknownStep); }
    if run.status != RunRunning { return Err(InvalidRunState); }
    var out := EnsureNodes(def, run);
    var node := NodeOf(out, id).(verdict := o.verdict, summary := Text.Trim(o.summary), error := "",
                                 failures := 0, inbox := [], finishedAt := now);
    out := out.(updatedAt := now);
    match o.verdict {
      case Pass =>
        node := node.(status := Completed);
        out := Put(out, id, node);
      case AskHuman =>
        out := StopRun(out, id, node, AskedHuman, node.summary);
      case Rework =>
        r := ApplyRework(def, out, id, node, o, now);
        return;
      case _ => return Err(InvalidOutcome);
    }
    return Ok(out);
  }

  lemma FailureEffect(def: Definition, run: Run, id: Id, message: string, now: int)
    ensures var out, failures := AfterFailure(def, run, id, message, now), NodeOf(run, id).failures + 1;
            && NodeOf(out, id).failures == failures && NodeOf(out, id).inbox == NodeOf(run, id).inbox
            && (if failures < def.policy.maxConsecutiveFailures
                then StatusOf(out, id) == Pending && out.status == run.status && out.pauseReason == run.pauseReason
                else StatusOf(out, id) == Paused && out.status == RunPaused && out.pauseReason == FailureLimit)
            && (forall x :: x != id && x in run.nodes ==> NodeOf(out, x) == NodeOf(run, x))
            && out.sessions == run.sessions && out.reworkRounds == run.reworkRounds && out.loopRound == run.loopRound
  {
    hide Text.Trim;
  }

  /** One more failure of one step: it is to run again, with its inbox and session, until its
      failures reach the limit; then it stops and the run with it. */
  method RecordStepFailure(input: Definition, run: Run, id: Id, message: string, now: int) returns (out: Run)
    ensures out == AfterFailure(Normalized(input), run, id, message, now)
    ensures var failures := NodeOf(run, id).failures + 1;
            && NodeOf(out, id).failures == failures && NodeOf(out, id).inbox == NodeOf(run, id).inbox
            && (failures < NormalPolicy(input.policy).maxConsecutiveFailures ==>
                  StatusOf(out, id) == Pending && out.status == run.status && out.pauseReason == run.pauseReason)
            && (failures >= NormalPolicy(input.policy).maxConsecutiveFailures ==>
                  StatusOf(out, id) == Paused && out.status == RunPaused && out.pauseReason == FailureLimit)
    ensures forall x :: x != id && x in run.nodes ==> NodeOf(out, x) == NodeOf(run, x)
    ensures out.sessions == run.sessions && out.reworkRounds == run.reworkRounds && out.loopRound == run.loopRound
  {
    FailureEffect(Normalized(input), run, id, message, now);
    hide Text.Trim, OpenedNodes;
    var def := Normalize(input);
    out := EnsureNodes(def, run);
    var node := NodeOf(out, id);
    node := node.(failures := node.failures + 1, error := Text.Trim(message), finishedAt := now, status := Pending);
    out := out.(updatedAt := now);
    if node.failures >= def.policy.maxConsecutiveFailures {
      out := StopRun(out, id, node, FailureLimit, node.error);
    } else {
      out := Put(out, id, node);
    }
  }

  method Pause(input: Definition, run: Run, reason: string, message: string, now: int) returns (r: Result<Run>)
    ensures r.Ok? <==> Valid(Normalized(input)) && run.workflowId == input.id && run.status == RunRunning
    ensures r.Ok? ==> r.value == run.(status := RunPaused, pauseReason := OtherReason(Text.Trim(reason)),
                                      lastError := Text.Trim(message), updatedAt := now)
    ensures r.Err? ==> r.error == if !Valid(Normalized(input)) then InvalidDefinition
                                  else if run.workflowId != input.id then DefinitionMismatch else InvalidRunState
  {
    var checked := ValidateRunDefinition(input, run);
    if checked.Err? { return Err(checked.error); }
    if run.status != RunRunning { return Err(InvalidRunState); }
    return Ok(run.(status := RunPaused, pauseReason := OtherReason(Text.Trim(reason)),
                   lastError := Text.Trim(message), updatedAt := now));
  }

  method Cancel(input: Definition, run: Run, now: int) returns (r: Result<Run>)
    ensures r.Ok? <==> Valid(Normalized(input)) && run.workflowId == input.id &&
                       (run.status == RunReady || run.status == RunPaused)
    ensures r.Ok? ==> r.value == run.(status := RunCancelled, pauseReason := NoReason, updatedAt := now)
    ensures r.Err? ==> r.error == if !Valid(Normalized(input)) then InvalidDefinition
                                  else if run.workflowId != input.id then DefinitionMismatch else InvalidRunState
  {
    var checked := ValidateRunDefinition(input, run);
    if checked.Err? { return Err(checked.error); }
    if run.status != RunReady && run.status != RunPaused { return Err(InvalidRunState); }
    return Ok(run.(status := RunCancelled, pauseReason := NoReason, updatedAt := now));
  }
}
