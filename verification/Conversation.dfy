/** The conversation built from a run's records (conversation.go): tool results are paired
    with their calls, queue notices are folded, and neighbouring process records are grouped. */
module Conversation {
  import opened Transcript

  // ---------- Pairing results with calls ----------

  datatype CallKey = CallKey(step: string, stream: string)

  /** Where a record ends: as an item of its own, among the details of a call, or folded into
      its step's queue row. Calls and queue rows are named by the position of their record. */
  datatype Place = Shown | Attached(call: nat) | Folded(row: nat)

  datatype Cell = Cell(record: Record, settled: bool, details: seq<nat>)

  /** The scan after some records: one cell and one place for each, the items so far, the calls
      known by identifier, the outstanding calls without one, the steps whose outstanding calls
      cannot be told apart, and the queue rows. */
  datatype State = State(
    cells: seq<Cell>,
    places: seq<Place>,
    items: seq<nat>,
    calls: map<CallKey, nat>,
    legacy: map<string, seq<nat>>,
    ambiguous: set<string>,
    queues: map<string, nat>)

  const BLANK := State([], [], [], map[], map[], {}, map[])

  function Outstanding(st: State, step: string): seq<nat> {
    if step in st.legacy then st.legacy[step] else []
  }

  predicate InRange(st: State) {
    && |st.places| == |st.cells|
    && (forall k :: k in st.calls ==> st.calls[k] < |st.cells|)
    && (forall s :: s in st.legacy ==> forall k :: 0 <= k < |st.legacy[s]| ==> st.legacy[s][k] < |st.cells|)
    && (forall s :: s in st.queues ==> st.queues[s] < |st.cells|)
  }

  /** The call a result belongs to: the one with its identifier, or else the only outstanding
      call of its step. */
  function Target(st: State, r: Record): Option<nat> {
    var key, waiting := CallKey(r.step, r.stream), Outstanding(st, r.step);
    if key in st.calls then Some(st.calls[key])
    else if |waiting| == 1 && r.step !in st.ambiguous then Some(waiting[0])
    else None
  }

  /** A finished result takes one call without identifier off its step's batch. */
  predicate Drains(st: State, r: Record, target: Option<nat>)
    requires InRange(st) && (target.Some? ==> target.value < |st.cells|)
  {
    !r.streaming && Outstanding(st, r.step) != [] && (target.None? || st.cells[target.value].record.stream == "")
  }

  function Drained(st: State, step: string): State
    requires Outstanding(st, step) != []
  {
    var rest := Outstanding(st, step)[1..];
    st.(legacy := st.legacy[step := rest], ambiguous := if rest == [] then st.ambiguous - {step} else st.ambiguous)
  }

  function Joined(call: Cell, i: nat, r: Record): Cell {
    call.(details := call.details + [i], settled := !r.streaming,
          record := call.record.(failed := call.record.failed || r.failed))
  }

  function Attach(st: State, t: nat, r: Record): State
    requires InRange(st) && t < |st.cells|
  {
    var i := |st.cells|;
    st.(cells := st.cells[t := Joined(st.cells[t], i, r)] + [Cell(r, false, [])],
        places := st.places + [Attached(t)],
        calls := if r.stream != "" then st.calls[CallKey(r.step, r.stream) := t] else st.calls)
  }

  function Refreshed(row: Cell, r: Record): Cell {
    row.(record := row.record.(text := r.text, revision := r.revision,
                               queueUpdatedAt := if r.queueUpdatedAt == 0 then r.at else r.queueUpdatedAt))
  }

  function Fold(st: State, q: nat, r: Record): State
    requires InRange(st) && q < |st.cells|
  {
    st.(cells := st.cells[q := Refreshed(st.cells[q], r)] + [Cell(r, false, [])], places := st.places + [Folded(q)])
  }

  /** What ends a step's batch of calls: prose, a person's message, or a request to the person. */
  predicate Interrupts(r: Record) {
    r.kind.Message? || r.user || r.question.Some? || r.permission.Some?
  }

  /** The record becomes an item; a call is registered, an interruption forgets the batch. */
  function Show(st: State, r: Record): State {
    var i := |st.cells|;
    var st1 := st.(cells := st.cells + [Cell(r, false, [])], places := st.places + [Shown], items := st.items + [i]);
    if r.kind.ToolUse? then
      if r.stream != "" then st1.(calls := st.calls[CallKey(r.step, r.stream) := i])
      else
        var batch := Outstanding(st, r.step) + [i];
        st1.(legacy := st.legacy[r.step := batch], ambiguous := if |batch| > 1 then st.ambiguous + {r.step} else st.ambiguous)
    else if Interrupts(r) then st1.(legacy := st.legacy - {r.step}, ambiguous := st.ambiguous - {r.step})
    else st1
  }

  function QueueRow(r: Record): Record {
    r.(key := "queue/" + r.step)
  }

  function Step(st: State, r: Record): State
    requires InRange(st)
  {
    if r.kind.QueueStatus? then
      if r.step in st.queues then Fold(st, st.queues[r.step], r)
      else Show(st.(queues := st.queues[r.step := |st.cells|]), QueueRow(r))
    else if r.kind.ToolResult? then
      var target := Target(st, r);
      assert target.Some? ==> target.value < |st.cells| by { TargetInRange(st, r); }
      var st1 := if Drains(st, r, target) then Drained(st, r.step) else st;
      if target.Some? then Attach(st1, target.value, r) else Show(st1, r)
    else Show(st, r)
  }

  lemma TargetInRange(st: State, r: Record)
    requires InRange(st)
    ensures Target(st, r).Some? ==> Target(st, r).value < |st.cells|
  {
  }

  lemma ShowInRange(st: State, r: Record)
    requires InRange(st.(queues := map[])) && forall s :: s in st.queues ==> st.queues[s] <= |st.cells|
    ensures InRange(Show(st, r)) && |Show(st, r).cells| == |st.cells| + 1
  {
  }

  lemma AttachInRange(st: State, t: nat, r: Record)
    requires InRange(st) && t < |st.cells|
    ensures InRange(Attach(st, t, r)) && |Attach(st, t, r).cells| == |st.cells| + 1
  {
  }

  lemma FoldInRange(st: State, q: nat, r: Record)
    requires InRange(st) && q < |st.cells|
    ensures InRange(Fold(st, q, r)) && |Fold(st, q, r).cells| == |st.cells| + 1
  {
  }

  lemma DrainedInRange(st: State, step: string)
    requires InRange(st) && Outstanding(st, step) != []
    ensures InRange(Drained(st, step)) && |Drained(st, step).cells| == |st.cells|
  {
  }

  lemma StepInRange(st: State, r: Record)
    requires InRange(st)
    ensures InRange(Step(st, r)) && |Step(st, r).cells| == |st.cells| + 1
  {
    hide Show, Attach, Fold, Drained, Target, Drains, Outstanding, QueueRow;
    if r.kind.QueueStatus? {
      if r.step in st.queues { FoldInRange(st, st.queues[r.step], r); }
      else { ShowInRange(st.(queues := st.queues[r.step := |st.cells|]), QueueRow(r)); }
    } else if r.kind.ToolResult? {
      var target := Target(st, r);
      TargetInRange(st, r);
      if Drains(st, r, target) {
        OnlyBatchesDrain(st, r, target);
        DrainedInRange(st, r.step);
      }
      var st1 := if Drains(st, r, target) then Drained(st, r.step) else st;
      if target.Some? { AttachInRange(st1, target.value, r); } else { ShowInRange(st1, r); }
    } else { ShowInRange(st, r); }
  }

  lemma OnlyBatchesDrain(st: State, r: Record, target: Option<nat>)
    requires InRange(st) && (target.Some? ==> target.value < |st.cells|) && Drains(st, r, target)
    ensures Outstanding(st, r.step) != []
  {
  }

  function Scan(raw: seq<Record>): (st: State)
    ensures InRange(st) && |st.cells| == |raw|
  {
    if raw == [] then BLANK else
      var st := Scan(raw[..|raw| - 1]);
      StepInRange(st, raw[|raw| - 1]);
      Step(st, raw[|raw| - 1])
  }

  // ---------- What one record changes ----------

  function Own(r: Record, st: State): Record {
    if r.kind.QueueStatus? && r.step !in st.queues then QueueRow(r) else r
  }

  lemma ShownCells(st: State, r: Record)
    ensures Show(st, r).cells == st.cells + [Cell(r, false, [])] && Show(st, r).places == st.places + [Shown]
    ensures Show(st, r).items == st.items + [|st.cells|] && Show(st, r).queues == st.queues
  {
  }

  lemma DrainedCells(st: State, step: string)
    requires Outstanding(st, step) != []
    ensures Drained(st, step).cells == st.cells && Drained(st, step).places == st.places
    ensures Drained(st, step).items == st.items && Drained(st, step).queues == st.queues
    ensures Drained(st, step).calls == st.calls
  {
  }

  /** The cells after a record placed at `p`. */
  ghost predicate CellsAfter(st: State, st': State, p: Place, r: Record, own: Record) {
    && |st'.cells| == |st.cells| + 1
    && st'.places == st.places + [p]
    && st'.items == (if p.Shown? then st.items + [|st.cells|] else st.items)
    && st'.cells[|st.cells|] == Cell(own, false, [])
    && forall j :: 0 <= j < |st.cells| ==>
         st'.cells[j] == if p == Attached(j) then Joined(st.cells[j], |st.cells|, r)
                         else if p == Folded(j) then Refreshed(st.cells[j], r) else st.cells[j]
  }

  ghost predicate StepPlace(st: State, r: Record, p: Place) {
    if r.kind.QueueStatus? then p == if r.step in st.queues then Folded(st.queues[r.step]) else Shown
    else if r.kind.ToolResult? then p == if Target(st, r).Some? then Attached(Target(st, r).value) else Shown
    else p.Shown?
  }

  /** The new record gets a cell and a place, and touches at most the one cell it ends in:
      a result is attached to its target, a queue notice folded into its step's row. */
  lemma StepOnCells(st: State, r: Record) returns (p: Place)
    requires InRange(st)
    ensures StepPlace(st, r, p) && CellsAfter(st, Step(st, r), p, r, Own(r, st))
    ensures Step(st, r).queues == if r.kind.QueueStatus? && r.step !in st.queues then st.queues[r.step := |st.cells|] else st.queues
  {
    hide Target, Drains, Outstanding, Joined, Refreshed, InRange, Interrupts, Show, Drained, QueueRow;
    Lengths(st);
    TargetInRange(st, r);
    if r.kind.QueueStatus? && r.step !in st.queues {
      ShownCells(st.(queues := st.queues[r.step := |st.cells|]), QueueRow(r));
      p := Shown;
    } else if r.kind.QueueStatus? {
      p := Folded(st.queues[r.step]);
    } else if r.kind.ToolResult? {
      p := ResultOnCells(st, r);
    } else {
      ShownCells(st, r);
      p := Shown;
    }
  }

  lemma ResultOnCells(st: State, r: Record) returns (p: Place)
    requires InRange(st) && r.kind.ToolResult?
    ensures StepPlace(st, r, p) && CellsAfter(st, Step(st, r), p, r, r) && Step(st, r).queues == st.queues
  {
    hide Target, Outstanding, Joined, InRange, Interrupts, Show, Drained;
    TargetInRange(st, r);
    var target := Target(st, r);
    if Drains(st, r, target) { DrainedCells(st, r.step); }
    hide Drains;
    var st1 := if Drains(st, r, target) then Drained(st, r.step) else st;
    ShownCells(st1, r);
    p := if target.Some? then Attached(target.value) else Shown;
  }

  lemma Lengths(st: State)
    requires InRange(st)
    ensures |st.places| == |st.cells|
    ensures forall s :: s in st.queues ==> st.queues[s] < |st.cells|
  {
  }

  /** An identifier is bound when its call appears, or when a result carrying it is attached. */
  lemma StepOnCalls(st: State, r: Record)
    requires InRange(st)
    ensures var st', i, key := Step(st, r), |st.cells|, CallKey(r.step, r.stream);
            st'.calls ==
            if r.stream == "" then st.calls
            else if r.kind.ToolUse? then st.calls[key := i]
            else if r.kind.ToolResult? && Target(st, r).Some? then st.calls[key := Target(st, r).value]
            else st.calls
  {
    hide Target, Drains, Outstanding, Joined, Refreshed, InRange, Interrupts;
    TargetInRange(st, r);
  }

  /** The batch of a step after one of its records. */
  function NextBatch(st: State, r: Record): seq<nat>
    requires InRange(st)
  {
    var batch, target := Outstanding(st, r.step), Target(st, r);
    assert target.Some? ==> target.value < |st.cells| by { TargetInRange(st, r); }
    if r.kind.ToolUse? then if r.stream == "" then batch + [|st.cells|] else batch
    else if r.kind.QueueStatus? && r.step in st.queues then batch
    else if r.kind.ToolResult? && (target.Some? || !Interrupts(r)) then if Drains(st, r, target) then batch[1..] else batch
    else if Interrupts(r) then []
    else batch
  }

  /** A batch stays, gains a new call, loses its first call, or is forgotten. */
  lemma NextBatchCases(st: State, r: Record)
    requires InRange(st)
    ensures var batch := Outstanding(st, r.step);
            || NextBatch(st, r) == batch
            || (r.kind.ToolUse? && r.stream == "" && NextBatch(st, r) == batch + [|st.cells|])
            || (batch != [] && NextBatch(st, r) == batch[1..])
            || NextBatch(st, r) == []
  {
    hide InRange, Target;
    TargetInRange(st, r);
  }

  /** Steps whose calls cannot be told apart have some outstanding, and two outstanding calls
      cannot be told apart. */
  ghost predicate Batched(st: State) {
    forall s :: (s in st.ambiguous ==> Outstanding(st, s) != []) && (|Outstanding(st, s)| > 1 ==> s in st.ambiguous)
  }

  /** The batches after a record of one step. */
  ghost predicate BatchesAfter(st: State, st': State, step: string, batch: seq<nat>) {
    forall s ::
      && Outstanding(st', s) == (if s == step then batch else Outstanding(st, s))
      && (s in st'.ambiguous <==> Outstanding(st', s) != [] && (s in st.ambiguous || |Outstanding(st', s)| > 1))
  }

  lemma ShownBatches(st: State, r: Record)
    requires Batched(st)
    ensures BatchesAfter(st, Show(st, r), r.step,
              if r.kind.ToolUse? then if r.stream == "" then Outstanding(st, r.step) + [|st.cells|] else Outstanding(st, r.step)
              else if Interrupts(r) then [] else Outstanding(st, r.step))
  {
    hide Interrupts;
  }

  lemma DrainedBatches(st: State, step: string)
    requires Batched(st) && Outstanding(st, step) != []
    ensures BatchesAfter(st, Drained(st, step), step, Outstanding(st, step)[1..]) && Batched(Drained(st, step))
  {
  }

  /** A step's batch changes only with its own records, and its calls cannot be told apart
      from when two are outstanding together until none is. */
  lemma StepOnBatches(st: State, r: Record)
    requires InRange(st) && Batched(st)
    ensures BatchesAfter(st, Step(st, r), r.step, NextBatch(st, r)) && Batched(Step(st, r))
  {
    hide Target, Joined, Refreshed, InRange, Interrupts, Show, Drained, QueueRow;
    TargetInRange(st, r);
    if r.kind.QueueStatus? && r.step !in st.queues {
      ShownBatches(st.(queues := st.queues[r.step := |st.cells|]), QueueRow(r));
      SameInterrupt(r);
    } else if r.kind.ToolResult? {
      var target := Target(st, r);
      if Drains(st, r, target) { DrainedBatches(st, r.step); }
      ShownBatches(if Drains(st, r, target) then Drained(st, r.step) else st, r);
    } else {
      ShownBatches(st, r);
    }
  }

  lemma SameInterrupt(r: Record)
    ensures Interrupts(QueueRow(r)) == Interrupts(r) && QueueRow(r).step == r.step && QueueRow(r).kind == r.kind
  {
  }

  // ---------- Each record ends in one place ----------

  ghost predicate Sorted(s: seq<nat>) {
    forall i, j :: 0 <= i < j < |s| ==> s[i] < s[j]
  }

  /** `s` lists, in order and once each, the positions with a place. */
  ghost predicate Lists(s: seq<nat>, places: seq<Place>, p: Place) {
    Sorted(s) && forall i: nat :: i in s <==> i < |places| && places[i] == p
  }

  lemma ListsNext(s: seq<nat>, places: seq<Place>, p: Place, q: Place)
    requires Lists(s, places, p)
    ensures Lists(if q == p then s + [|places|] else s, places + [q], p)
  {
    assert forall i :: 0 <= i < |s| ==> s[i] in s;
  }

  /** Records are attached and folded backwards, into items. */
  ghost predicate Backward(places: seq<Place>) {
    forall i :: 0 <= i < |places| ==>
      && (places[i].Attached? ==> places[i].call < i)
      && (places[i].Folded? ==> places[i].row < i)
  }

  ghost predicate Partition(st: State) {
    && |st.places| == |st.cells|
    && Backward(st.places)
    && Lists(st.items, st.places, Shown)
    && forall j :: 0 <= j < |st.cells| ==> Lists(st.cells[j].details, st.places, Attached(j))
  }

  lemma PartitionNext(st: State, st': State, p: Place, r: Record, own: Record)
    requires Partition(st) && CellsAfter(st, st', p, r, own)
    requires (p.Attached? ==> p.call < |st.cells|) && (p.Folded? ==> p.row < |st.cells|)
    ensures Partition(st')
  {
    hide Lists, Joined, Refreshed, Backward;
    ListsNext(st.items, st.places, Shown, p);
    BackwardNext(st.places, p);
    forall j | 0 <= j < |st'.cells| ensures Lists(st'.cells[j].details, st'.places, Attached(j)) {
      DetailsNext(st, st', p, r, own, j);
    }
  }

  lemma BackwardNext(places: seq<Place>, p: Place)
    requires Backward(places) && (p.Attached? ==> p.call < |places|) && (p.Folded? ==> p.row < |places|)
    ensures Backward(places + [p])
  {
  }

  lemma DetailsNext(st: State, st': State, p: Place, r: Record, own: Record, j: nat)
    requires Partition(st) && CellsAfter(st, st', p, r, own) && j < |st'.cells|
    requires p.Attached? ==> p.call < |st.cells|
    ensures Lists(st'.cells[j].details, st'.places, Attached(j))
  {
    hide Lists;
    if j < |st.cells| { ListsNext(st.cells[j].details, st.places, Attached(j), p); } else { NothingLists(st.places + [p], j); }
  }

  lemma NothingLists(places: seq<Place>, j: nat)
    requires forall i :: 0 <= i < |places| ==> places[i] != Attached(j)
    ensures Lists([], places, Attached(j))
  {
  }

  /** Nothing is lost and nothing is shown twice: every record is an item, or a detail of one
      call, or folded into one queue row, and the items and each call's details list exactly
      their records, in the order of the transcript. */
  lemma {:induction false} EveryRecordOnce(raw: seq<Record>)
    ensures Partition(Scan(raw)) && |Scan(raw).places| == |raw|
  {
    if raw != [] {
      var n := |raw| - 1;
      EveryRecordOnce(raw[..n]);
      var st := Scan(raw[..n]);
      var p := StepOnCells(st, raw[n]);
      PlaceInRange(st, raw[n], p);
      hide Step, Partition, InRange;
      PartitionNext(st, Scan(raw), p, raw[n], Own(raw[n], st));
    }
  }

  lemma PlaceInRange(st: State, r: Record, p: Place)
    requires InRange(st) && StepPlace(st, r, p)
    ensures (p.Attached? ==> p.call < |st.cells|) && (p.Folded? ==> p.row < |st.cells|)
  {
    TargetInRange(st, r);
  }

  // ---------- Results stay with their calls ----------

  ghost predicate IsCall(raw: seq<Record>, t: nat, step: string) {
    t < |raw| && raw[t].kind.ToolUse? && raw[t].step == step
  }

  /** A result of the step carrying the identifier was attached to the call before. */
  ghost predicate Bound(raw: seq<Record>, places: seq<Place>, key: CallKey, t: nat) {
    exists i :: 0 <= i < |raw| && i < |places| && places[i] == Attached(t) && raw[i].kind.ToolResult? &&
                raw[i].step == key.step && raw[i].stream == key.stream
  }

  ghost predicate Named(raw: seq<Record>, places: seq<Place>, key: CallKey, t: nat) {
    && key.stream != "" && IsCall(raw, t, key.step)
    && (raw[t].stream == key.stream || (raw[t].stream == "" && Bound(raw, places, key, t)))
  }

  ghost predicate Anonymous(raw: seq<Record>, batch: seq<nat>, step: string) {
    Sorted(batch) && forall t :: t in batch ==> IsCall(raw, t, step) && raw[t].stream == ""
  }

  /** A result is attached to a call of its step, with its identifier or with none. */
  ghost predicate Paired(raw: seq<Record>, i: nat, t: nat) {
    i < |raw| && raw[i].kind.ToolResult? && IsCall(raw, t, raw[i].step) && t < i && raw[t].stream in {raw[i].stream, ""}
  }

  ghost predicate Matched(raw: seq<Record>, st: State) {
    && |raw| == |st.cells| == |st.places| && InRange(st) && Batched(st)
    && (forall k :: k in st.calls ==> Named(raw, st.places, k, st.calls[k]))
    && (forall s :: Anonymous(raw, Outstanding(st, s), s))
    && (forall i :: 0 <= i < |raw| && st.places[i].Attached? ==> Paired(raw, i, st.places[i].call))
  }

  lemma NamedLater(raw: seq<Record>, places: seq<Place>, key: CallKey, t: nat, r: Record, p: Place)
    requires |raw| == |places| && Named(raw, places, key, t)
    ensures Named(raw + [r], places + [p], key, t)
  {
    if raw[t].stream != key.stream {
      var i :| 0 <= i < |raw| && i < |places| && places[i] == Attached(t) && raw[i].kind.ToolResult? &&
               raw[i].step == key.step && raw[i].stream == key.stream;
      assert (places + [p])[i] == Attached(t) && (raw + [r])[i] == raw[i];
    }
  }

  /** The target of a result carries its identifier, or had it bound, or waits alone without one. */
  lemma TargetMatches(raw: seq<Record>, st: State, r: Record)
    requires Matched(raw, st) && r.kind.ToolResult? && Target(st, r).Some?
    ensures var t := Target(st, r).value;
            && Paired(raw + [r], |raw|, t)
            && (r.stream != "" ==> Named(raw + [r], st.places + [Attached(t)], CallKey(r.step, r.stream), t))
  {
    hide InRange, Batched;
    var t, key := Target(st, r).value, CallKey(r.step, r.stream);
    if key in st.calls {
      NamedLater(raw, st.places, key, t, r, Attached(t));
    } else {
      assert Anonymous(raw, Outstanding(st, r.step), r.step);
      assert t in Outstanding(st, r.step);
      assert (st.places + [Attached(t)])[|raw|] == Attached(t) && (raw + [r])[|raw|] == r;
    }
  }

  lemma CallsMatched(raw: seq<Record>, st: State, r: Record, p: Place)
    requires Matched(raw, st) && StepPlace(st, r, p)
    ensures forall k :: k in Step(st, r).calls ==> Named(raw + [r], st.places + [p], k, Step(st, r).calls[k])
  {
    StepOnCalls(st, r);
    if r.kind.ToolResult? && Target(st, r).Some? { TargetMatches(raw, st, r); }
    hide InRange, Batched, Step, Target;
    forall k | k in Step(st, r).calls ensures Named(raw + [r], st.places + [p], k, Step(st, r).calls[k]) {
      if k in st.calls { NamedLater(raw, st.places, k, st.calls[k], r, p); }
    }
  }

  lemma BatchMatched(raw: seq<Record>, st: State, r: Record, s: string)
    requires Matched(raw, st)
    ensures Anonymous(raw + [r], Outstanding(Step(st, r), s), s)
  {
    hide InRange, Batched, Step, Target, Drains, Outstanding, NextBatch, Anonymous;
    StepOnBatches(st, r);
    NextBatchCases(st, r);
    var batch := Outstanding(st, s);
    AnonymousLater(raw, batch, s, r);
    assert Outstanding(Step(st, r), s) == if s == r.step then NextBatch(st, r) else batch;
  }

  lemma AnonymousLater(raw: seq<Record>, batch: seq<nat>, step: string, r: Record)
    requires Anonymous(raw, batch, step)
    ensures Anonymous(raw + [r], batch, step) && Anonymous(raw + [r], [], step)
    ensures batch != [] ==> Anonymous(raw + [r], batch[1..], step)
    ensures r.kind.ToolUse? && r.stream == "" && r.step == step ==> Anonymous(raw + [r], batch + [|raw|], step)
  {
    assert forall t :: t in batch ==> t < |raw| && (raw + [r])[t] == raw[t];
    assert forall k :: 0 <= k < |batch| ==> batch[k] in batch;
  }

  /** Results are attached within their step, never to a call with another identifier. */
  lemma {:induction false} ResultsStayWithCalls(raw: seq<Record>)
    ensures Matched(raw, Scan(raw))
  {
    hide InRange, Step, Matched;
    if raw == [] {
      NothingMatched();
    } else {
      var n := |raw| - 1;
      ResultsStayWithCalls(raw[..n]);
      assert raw == raw[..n] + [raw[n]];
      MatchedNext(raw[..n], Scan(raw[..n]), raw[n]);
    }
  }

  lemma NothingMatched()
    ensures Matched([], BLANK)
  {
  }

  lemma MatchedNext(raw: seq<Record>, st: State, r: Record)
    requires Matched(raw, st) && InRange(st)
    ensures Matched(raw + [r], Step(st, r))
  {
    hide InRange, Batched, Step, StepPlace, Named, Anonymous, Paired, Outstanding, NextBatch;
    var p := StepOnCells(st, r);
    StepInRange(st, r);
    StepOnBatches(st, r);
    CallsMatched(raw, st, r, p);
    forall s ensures Anonymous(raw + [r], Outstanding(Step(st, r), s), s) { BatchMatched(raw, st, r, s); }
    PlacesMatched(raw, st, r, p);
  }

  lemma PlacesMatched(raw: seq<Record>, st: State, r: Record, p: Place)
    requires Matched(raw, st) && StepPlace(st, r, p)
    ensures forall i :: 0 <= i <= |raw| && (st.places + [p])[i].Attached? ==> Paired(raw + [r], i, (st.places + [p])[i].call)
  {
    hide InRange, Batched, Target;
    if r.kind.ToolResult? && Target(st, r).Some? { TargetMatches(raw, st, r); }
    forall i | 0 <= i < |raw| && st.places[i].Attached? ensures Paired(raw + [r], i, st.places[i].call) {
      assert Paired(raw, i, st.places[i].call);
    }
  }

  // ---------- No guessing ----------

  /** The call without identifier that a result without identifier is attached to has been the
      only such call outstanding in its step at every moment since it was made. */
  lemma {:induction false} SoleSince(raw: seq<Record>, step: string, t: nat)
    requires Outstanding(Scan(raw), step) == [t] && step !in Scan(raw).ambiguous
    ensures t < |raw| && forall m :: t < m <= |raw| ==> Outstanding(Scan(raw[..m]), step) == [t]
  {
    hide Step, Outstanding, InRange, Batched;
    if raw == [] {
      NoBatches(step);
    } else {
      var n := |raw| - 1;
      var st, r := Scan(raw[..n]), raw[n];
      assert raw[..n + 1] == raw;
      Batches(raw[..n]);
      SoleBefore(st, r, step, t);
      if t != n {
        SoleSince(raw[..n], step, t);
        forall m | t < m <= n ensures Outstanding(Scan(raw[..m]), step) == [t] {
          assert raw[..m] == raw[..n][..m];
        }
      }
    }
  }

  lemma SoleBefore(st: State, r: Record, step: string, t: nat)
    requires InRange(st) && Batched(st) && Outstanding(Step(st, r), step) == [t] && step !in Step(st, r).ambiguous
    ensures t == |st.cells| || (Outstanding(st, step) == [t] && step !in st.ambiguous)
  {
    hide InRange, Step, Target, Drains, NextBatch, Outstanding;
    StepOnBatches(st, r);
    NextBatchCases(st, r);
    NotDrained(Outstanding(st, step), t);
    assert Outstanding(st, step) == [t] || NextBatch(st, r) == [t];
  }

  lemma Batches(raw: seq<Record>)
    ensures Batched(Scan(raw))
  {
    ResultsStayWithCalls(raw);
  }

  lemma NoBatches(step: string)
    ensures Outstanding(BLANK, step) == []
  {
  }

  lemma NotDrained(batch: seq<nat>, t: nat)
    ensures batch != [] && batch[1..] == [t] ==> |batch| > 1
    ensures forall n: nat :: batch + [n] == [t] ==> n == t
  {
    forall n: nat ensures batch + [n] == [t] ==> n == t {
      assert (batch + [n])[|batch|] == n;
    }
    assert batch != [] ==> |batch[1..]| == |batch| - 1;
  }

  /** The record at `i` binds an identifier to the call `t`: it is that call, or a result
      carrying the identifier that was attached to it. */
  ghost predicate Binds(raw: seq<Record>, places: seq<Place>, i: nat, key: CallKey, t: nat) {
    && i < |raw| && i < |places| && key.stream != "" && raw[i].step == key.step && raw[i].stream == key.stream
    && ((raw[i].kind.ToolUse? && t == i) || (raw[i].kind.ToolResult? && places[i] == Attached(t)))
  }

  /** The last record that binds the identifier binds it to `t`. */
  ghost predicate BoundLast(raw: seq<Record>, places: seq<Place>, key: CallKey, t: nat) {
    exists i: nat :: Binds(raw, places, i, key, t) && NoneAfter(raw, places, i, key)
  }

  ghost predicate NoneAfter(raw: seq<Record>, places: seq<Place>, i: nat, key: CallKey) {
    forall j: nat, u: nat :: i < j ==> !Binds(raw, places, j, key, u)
  }

  lemma BindsLater(raw: seq<Record>, places: seq<Place>, r: Record, p: Place, i: nat, key: CallKey, t: nat)
    requires |raw| == |places|
    ensures i < |raw| ==> (Binds(raw + [r], places + [p], i, key, t) <==> Binds(raw, places, i, key, t))
    ensures i == |raw| ==> (Binds(raw + [r], places + [p], i, key, t) <==>
              key == CallKey(r.step, r.stream) && r.stream != "" &&
              ((r.kind.ToolUse? && t == i) || (r.kind.ToolResult? && p == Attached(t))))
  {
  }

  /** One more record moves the last binding only if it binds the identifier itself. */
  lemma BoundLastNext(raw: seq<Record>, places: seq<Place>, r: Record, p: Place, key: CallKey, t: nat)
    requires |raw| == |places|
    ensures var here := exists u: nat :: Binds(raw + [r], places + [p], |raw|, key, u);
            BoundLast(raw + [r], places + [p], key, t) <==>
            if here then Binds(raw + [r], places + [p], |raw|, key, t) else BoundLast(raw, places, key, t)
  {
    var n := |raw|;
    forall i: nat, u: nat ensures Binds(raw + [r], places + [p], i, key, u) <==>
      if i == n then Binds(raw + [r], places + [p], n, key, u) else Binds(raw, places, i, key, u)
    {
      BindsLater(raw, places, r, p, i, key, u);
    }
    hide Binds;
    if Binds(raw + [r], places + [p], n, key, t) { assert NoneAfter(raw + [r], places + [p], n, key); }
    if BoundLast(raw, places, key, t) && !exists u: nat :: Binds(raw + [r], places + [p], n, key, u) {
      var i: nat :| Binds(raw, places, i, key, t) && NoneAfter(raw, places, i, key);
      assert NoneAfter(raw + [r], places + [p], i, key);
    }
    if BoundLast(raw + [r], places + [p], key, t) {
      var i: nat :| Binds(raw + [r], places + [p], i, key, t) && NoneAfter(raw + [r], places + [p], i, key);
      if i != n { assert NoneAfter(raw, places, i, key); }
    }
  }

  lemma CallsNext(raw: seq<Record>, st: State, r: Record, key: CallKey, t: nat)
    requires InRange(st) && |raw| == |st.cells|
    requires key in st.calls && st.calls[key] == t <==> BoundLast(raw, st.places, key, t)
    ensures key in Step(st, r).calls && Step(st, r).calls[key] == t <==> BoundLast(raw + [r], Step(st, r).places, key, t)
  {
    hide InRange, Step, Target, BoundLast, Binds;
    Lengths(st);
    var p := StepOnCells(st, r);
    var n, all, places := |raw|, raw + [r], st.places + [p];
    StepOnCalls(st, r);
    BoundLastNext(raw, st.places, r, p, key, t);
    forall u: nat { BindsLater(raw, st.places, r, p, n, key, u); }
    if key == CallKey(r.step, r.stream) && r.stream != "" {
      assert r.kind.ToolUse? ==> Binds(all, places, n, key, n);
      assert p.Attached? ==> Binds(all, places, n, key, p.call);
    }
  }

  lemma NothingBound(key: CallKey, t: nat)
    ensures !BoundLast([], [], key, t)
  {
  }

  /** The scan knows an identifier exactly while a call is bound to it, and by its last binding. */
  lemma {:induction false} CallsAreLastBindings(raw: seq<Record>, key: CallKey, t: nat)
    ensures key in Scan(raw).calls && Scan(raw).calls[key] == t <==> BoundLast(raw, Scan(raw).places, key, t)
  {
    hide InRange, Step, BoundLast;
    if raw == [] {
      NothingBound(key, t);
    } else {
      var n := |raw| - 1;
      CallsAreLastBindings(raw[..n], key, t);
      assert raw == raw[..n] + [raw[n]];
      CallsNext(raw[..n], Scan(raw[..n]), raw[n], key, t);
    }
  }

  /** Once two calls without identifiers were outstanding together, until the batch is empty, a
      result reaches a call exactly when it carries an identifier whose last binding is that call. */
  lemma LastBindingDecides(raw: seq<Record>, r: Record, t: nat)
    requires r.kind.ToolResult? && r.step in Scan(raw).ambiguous
    ensures Target(Scan(raw), r) == Some(t) <==> BoundLast(raw, Scan(raw).places, CallKey(r.step, r.stream), t)
    ensures r.stream == "" ==> Target(Scan(raw), r) == None
  {
    hide InRange, Batched, Step, BoundLast;
    CallsAreLastBindings(raw, CallKey(r.step, r.stream), t);
    if r.stream == "" { NoNamelessBinding(raw, r); }
  }

  lemma NoNamelessBinding(raw: seq<Record>, r: Record)
    requires r.stream == ""
    ensures CallKey(r.step, r.stream) !in Scan(raw).calls
  {
    ResultsStayWithCalls(raw);
    hide InRange, Batched, Step;
  }

  /** The record is the call that made the identifier the result carries. */
  predicate Identifies(call: Record, r: Record) {
    call.kind.ToolUse? && call.step == r.step && call.stream == r.stream != ""
  }

  /** In a listing an identifier has one call and one result, so the last binding is the call. */
  lemma BoundByItsCall(raw: seq<Record>, places: seq<Place>, r: Record, t: nat)
    requires Listed(raw + [r]) && r.kind.ToolResult? && |places| == |raw|
    ensures BoundLast(raw, places, CallKey(r.step, r.stream), t) <==> t < |raw| && Identifies(raw[t], r)
  {
    var all, key := raw + [r], CallKey(r.step, r.stream);
    assert all[|raw|] == r && forall i :: 0 <= i < |raw| ==> all[i] == raw[i];
    forall i: nat, u: nat | Binds(raw, places, i, key, u) ensures u == i && Identifies(raw[i], r) {
      assert all[i] in all && r in all;
      if raw[i].kind.ToolResult? { SameEvent(all[i], r); }
    }
    if t < |raw| && Identifies(raw[t], r) {
      assert Binds(raw, places, t, key, t);
      forall j: nat, u: nat | t < j ensures !Binds(raw, places, j, key, u) {
        if Binds(raw, places, j, key, u) {
          assert all[t] in all && all[j] in all;
          SameEvent(all[t], all[j]);
        }
      }
      assert NoneAfter(raw, places, t, key);
    }
  }

  /** Two calls, or two results, of one step with one identifier have one key. */
  lemma SameEvent(a: Record, b: Record)
    requires ToolKeyed(a) && ToolKeyed(b) && a.step == b.step && a.stream == b.stream != "" && a.kind == b.kind
    ensures a.kind.ToolUse? || a.kind.ToolResult? ==> a.key == b.key
  {
  }

  /** In a listing of a transcript, while calls cannot be told apart, a result reaches a call
      exactly when the call made its identifier: never one of the calls without identifiers. */
  lemma NoGuessing(raw: seq<Record>, r: Record, t: nat)
    requires Listed(raw + [r]) && r.kind.ToolResult? && r.step in Scan(raw).ambiguous
    ensures Target(Scan(raw), r) == Some(t) <==> t < |raw| && Identifies(raw[t], r)
  {
    hide InRange, Step, BoundLast, Listed, Target;
    Lengths(Scan(raw));
    LastBindingDecides(raw, r, t);
    BoundByItsCall(raw, Scan(raw).places, r, t);
  }

  /** Of the whole listing: what is attached in the end was paired so. */
  lemma PlacedWithoutGuessing(raw: seq<Record>, i: nat, t: nat)
    requires Listed(raw) && i < |raw| == |Scan(raw).places|
    requires raw[i].kind.ToolResult? && raw[i].step in Scan(raw[..i]).ambiguous
    ensures Scan(raw).places[i] == Attached(t) <==> t < i && Identifies(raw[t], raw[i])
  {
    hide InRange, Step, Identifies, Target;
    var st, r := Scan(raw[..i]), raw[i];
    assert raw[..i] + [r] == raw[..i + 1];
    ListedInit(raw, i + 1);
    NoGuessing(raw[..i], r, t);
    PlacesStay(raw, i + 1);
    assert raw[..i + 1][..i] == raw[..i];
    Lengths(st);
    var p := StepOnCells(st, r);
  }

  lemma ListedInit(raw: seq<Record>, n: nat)
    requires Listed(raw) && n <= |raw|
    ensures Listed(raw[..n])
  {
  }

  lemma {:induction false} PlacesStay(raw: seq<Record>, n: nat)
    requires n <= |raw|
    ensures |Scan(raw).places| == |raw| && |Scan(raw[..n]).places| == n
    ensures Scan(raw).places[..n] == Scan(raw[..n]).places
    decreases |raw|
  {
    hide InRange, Step;
    Lengths(Scan(raw));
    Lengths(Scan(raw[..n]));
    if n == |raw| {
      assert raw[..n] == raw;
    } else {
      var k := |raw| - 1;
      PlacesStay(raw[..k], n);
      assert raw[..k][..n] == raw[..n];
      var p := StepOnCells(Scan(raw[..k]), raw[k]);
    }
  }

  // ---------- What the items show ----------

  /** The last queue notice of a step. */
  ghost predicate LastNotice(raw: seq<Record>, step: string, l: nat) {
    && l < |raw| && raw[l].kind.QueueStatus? && raw[l].step == step
    && forall i :: l < i < |raw| && raw[i].kind.QueueStatus? ==> raw[i].step != step
  }

  ghost predicate FirstNotice(raw: seq<Record>, step: string, q: nat) {
    && q < |raw| && raw[q].kind.QueueStatus? && raw[q].step == step
    && forall i :: 0 <= i < q && raw[i].kind.QueueStatus? ==> raw[i].step != step
  }

  /** A cell shows its record; a call is settled by its last result and failed if it or any of
      its results did. */
  ghost predicate ShowsOutcome(raw: seq<Record>, i: nat, c: Cell)
    requires i < |raw|
  {
    && (forall k :: 0 <= k < |c.details| ==> c.details[k] < |raw|)
    && c.settled == (c.details != [] && !raw[c.details[|c.details| - 1]].streaming)
    && c.record.failed == (raw[i].failed || exists k :: 0 <= k < |c.details| && raw[c.details[k]].failed)
    && c.record.(key := raw[i].key, text := raw[i].text, revision := raw[i].revision,
                 queueUpdatedAt := raw[i].queueUpdatedAt, failed := raw[i].failed) == raw[i]
    && (!raw[i].kind.QueueStatus? ==>
          c.record.key == raw[i].key && c.record.text == raw[i].text && c.record.revision == raw[i].revision &&
          c.record.queueUpdatedAt == raw[i].queueUpdatedAt)
  }

  /** A queue row stands where its step's first notice stood and says what the last one says. */
  ghost predicate ShowsQueue(raw: seq<Record>, q: nat, c: Cell)
    requires q < |raw|
  {
    && FirstNotice(raw, raw[q].step, q)
    && c.record.key == "queue/" + raw[q].step
    && exists l: nat :: LastNotice(raw, raw[q].step, l) && c.record.text == raw[l].text && c.record.revision == raw[l].revision &&
                   c.record.queueUpdatedAt == if l == q || raw[l].queueUpdatedAt != 0 then raw[l].queueUpdatedAt else raw[l].at
  }

  ghost predicate Rendered(raw: seq<Record>, st: State) {
    && |raw| == |st.cells| == |st.places|
    && (forall i :: 0 <= i < |raw| ==> ShowsOutcome(raw, i, st.cells[i]))
    && (forall i :: 0 <= i < |raw| && st.places[i].Shown? && raw[i].kind.QueueStatus? ==> ShowsQueue(raw, i, st.cells[i]))
    && NoticeSteps(raw, st.queues)
    && NoticeRows(raw, st.places, st.queues)
  }

  /** The steps with a queue row are those with a notice; the row stands at the first one. */
  ghost predicate NoticeSteps(raw: seq<Record>, queues: map<string, nat>) {
    forall s :: s in queues <==> exists i :: 0 <= i < |raw| && raw[i].kind.QueueStatus? && raw[i].step == s
  }

  ghost predicate NoticeRows(raw: seq<Record>, places: seq<Place>, queues: map<string, nat>)
    requires |raw| == |places|
  {
    forall s :: s in queues ==> FirstNotice(raw, s, queues[s]) && places[queues[s]].Shown?
  }

  lemma OutcomeNext(raw: seq<Record>, i: nat, c: Cell, r: Record)
    requires i < |raw| && ShowsOutcome(raw, i, c)
    ensures ShowsOutcome(raw + [r], i, c)
    ensures raw[i].kind.ToolUse? ==> ShowsOutcome(raw + [r], i, Joined(c, |raw|, r))
    ensures raw[i].kind.QueueStatus? ==> ShowsOutcome(raw + [r], i, Refreshed(c, r))
  {
    var all, d := raw + [r], Joined(c, |raw|, r);
    assert forall k :: 0 <= k < |c.details| ==> all[c.details[k]] == raw[c.details[k]] && d.details[k] == c.details[k];
    assert d.details[|c.details|] == |raw| && all[|raw|] == r;
    assert all[i] == raw[i];
  }

  lemma QueueNext(raw: seq<Record>, q: nat, c: Cell, r: Record)
    requires q < |raw| && ShowsQueue(raw, q, c)
    ensures r.kind.QueueStatus? && r.step == raw[q].step ==> ShowsQueue(raw + [r], q, Refreshed(c, r))
    ensures !(r.kind.QueueStatus? && r.step == raw[q].step) ==> ShowsQueue(raw + [r], q, c)
  {
    var all := raw + [r];
    assert forall i :: 0 <= i < |raw| ==> all[i] == raw[i];
    var l: nat :| LastNotice(raw, raw[q].step, l) && c.record.text == raw[l].text && c.record.revision == raw[l].revision &&
                  c.record.queueUpdatedAt == if l == q || raw[l].queueUpdatedAt != 0 then raw[l].queueUpdatedAt else raw[l].at;
    if r.kind.QueueStatus? && r.step == raw[q].step {
      assert LastNotice(all, raw[q].step, |raw|);
    } else {
      assert LastNotice(all, raw[q].step, l);
    }
  }

  lemma NewRow(raw: seq<Record>, st: State, r: Record)
    requires Rendered(raw, st)
    ensures ShowsOutcome(raw + [r], |raw|, Cell(Own(r, st), false, []))
    ensures r.kind.QueueStatus? && r.step !in st.queues ==>
              ShowsQueue(raw + [r], |raw|, Cell(Own(r, st), false, [])) && FirstNotice(raw + [r], r.step, |raw|)
  {
    var all, n := raw + [r], |raw|;
    assert all[n] == r && forall i :: 0 <= i < n ==> all[i] == raw[i];
    if r.kind.QueueStatus? && r.step !in st.queues {
      assert FirstNotice(all, r.step, n) && LastNotice(all, r.step, n);
    }
  }

  lemma OldRow(raw: seq<Record>, st: State, r: Record, p: Place, j: nat)
    requires Rendered(raw, st) && Matched(raw, st) && StepPlace(st, r, p) && j < |raw|
    requires CellsAfter(st, Step(st, r), p, r, Own(r, st))
    ensures ShowsOutcome(raw + [r], j, Step(st, r).cells[j])
    ensures st.places[j].Shown? && raw[j].kind.QueueStatus? ==> ShowsQueue(raw + [r], j, Step(st, r).cells[j])
  {
    hide Step, ShowsOutcome, ShowsQueue, Joined, Refreshed, Target, InRange, Batched;
    OutcomeNext(raw, j, st.cells[j], r);
    if p == Attached(j) { TargetMatches(raw, st, r); }
    if raw[j].kind.QueueStatus? { RowOfStep(raw, st, j); }
    hide Matched;
    if st.places[j].Shown? && raw[j].kind.QueueStatus? {
      QueueNext(raw, j, st.cells[j], r);
    }
  }

  lemma RowOfStep(raw: seq<Record>, st: State, j: nat)
    requires Rendered(raw, st) && j < |raw| && raw[j].kind.QueueStatus?
    ensures raw[j].step in st.queues && FirstNotice(raw, raw[j].step, st.queues[raw[j].step])
    ensures st.places[j].Shown? ==> ShowsQueue(raw, j, st.cells[j]) && st.queues[raw[j].step] == j
  {
    hide ShowsOutcome;
  }

  function QueuesAfter(queues: map<string, nat>, r: Record, n: nat): map<string, nat> {
    if r.kind.QueueStatus? && r.step !in queues then queues[r.step := n] else queues
  }

  lemma NoticeStepsNext(raw: seq<Record>, queues: map<string, nat>, r: Record)
    requires NoticeSteps(raw, queues)
    ensures NoticeSteps(raw + [r], QueuesAfter(queues, r, |raw|))
  {
    var all, n := raw + [r], |raw|;
    assert all[n] == r && forall i :: 0 <= i < n ==> all[i] == raw[i];
    forall s | s in queues ensures exists i :: 0 <= i < |all| && all[i].kind.QueueStatus? && all[i].step == s {
      var i :| 0 <= i < |raw| && raw[i].kind.QueueStatus? && raw[i].step == s;
      assert all[i].kind.QueueStatus?;
    }
  }

  lemma FirstNoticeNext(raw: seq<Record>, s: string, q: nat, r: Record)
    requires FirstNotice(raw, s, q)
    ensures FirstNotice(raw + [r], s, q)
  {
    assert forall i :: 0 <= i <= q ==> (raw + [r])[i] == raw[i];
  }

  lemma NoticeRowsNext(raw: seq<Record>, places: seq<Place>, queues: map<string, nat>, r: Record, p: Place)
    requires |raw| == |places| && NoticeSteps(raw, queues) && NoticeRows(raw, places, queues)
    requires r.kind.QueueStatus? && r.step !in queues ==> p.Shown?
    ensures NoticeRows(raw + [r], places + [p], QueuesAfter(queues, r, |raw|))
  {
    hide FirstNotice, NoticeSteps;
    forall s | s in queues
      ensures FirstNotice(raw + [r], s, queues[s]) && queues[s] < |raw| && places[queues[s]].Shown?
    {
      FirstNoticeNext(raw, s, queues[s], r);
      assert queues[s] < |raw| by { FirstInRange(raw, s, queues[s]); }
    }
    if r.kind.QueueStatus? && r.step !in queues { NoticeStarts(raw, queues, r); }
  }

  lemma FirstInRange(raw: seq<Record>, s: string, q: nat)
    requires FirstNotice(raw, s, q)
    ensures q < |raw|
  {
  }

  lemma NoticeStarts(raw: seq<Record>, queues: map<string, nat>, r: Record)
    requires NoticeSteps(raw, queues) && r.kind.QueueStatus? && r.step !in queues
    ensures FirstNotice(raw + [r], r.step, |raw|)
  {
    assert forall i :: 0 <= i < |raw| ==> (raw + [r])[i] == raw[i];
  }

  lemma RenderedNext(raw: seq<Record>, st: State, r: Record)
    requires Rendered(raw, st) && Matched(raw, st) && InRange(st)
    ensures Rendered(raw + [r], Step(st, r))
  {
    hide Step, Matched, ShowsOutcome, ShowsQueue, InRange, Target, Joined, Refreshed, FirstNotice, NoticeSteps, NoticeRows;
    var p := StepOnCells(st, r);
    NoticeStepsNext(raw, st.queues, r);
    NoticeRowsNext(raw, st.places, st.queues, r, p);
    NewRow(raw, st, r);
    forall j | 0 <= j < |raw|
      ensures ShowsOutcome(raw + [r], j, Step(st, r).cells[j])
      ensures st.places[j].Shown? && raw[j].kind.QueueStatus? ==> ShowsQueue(raw + [r], j, Step(st, r).cells[j])
    {
      OldRow(raw, st, r, p, j);
    }
  }

  /** Every row shows its own record; calls carry the outcome of their results, queue rows the
      last notice of their step. */
  lemma {:induction false} RowsAreFaithful(raw: seq<Record>)
    ensures Rendered(raw, Scan(raw))
  {
    hide Step, Matched, Rendered, InRange;
    if raw == [] {
      NothingRendered();
    } else {
      var n := |raw| - 1;
      RowsAreFaithful(raw[..n]);
      ResultsStayWithCalls(raw[..n]);
      assert raw == raw[..n] + [raw[n]];
      RenderedNext(raw[..n], Scan(raw[..n]), raw[n]);
    }
  }

  lemma NothingRendered()
    ensures Rendered([], BLANK)
  {
  }
}
