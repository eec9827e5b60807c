/** Where every record of a listing ends, told from the records alone: a second account of the
    scan in Conversation.dfy, which that scan is proved to agree with. */
module Pairing {
  import opened Transcript
  import opened Conversation

  // ---------- The calls of a step that wait for a result ----------

  /** How many calls without identifiers wait, whether they can no longer be told apart, and the
      position of the last one made. */
  datatype Waiting = Waiting(open: nat, mixed: bool, last: nat)

  const NONE_WAITING := Waiting(0, false, 0)

  /** Some call of the listing made the identifier that the result carries. */
  ghost predicate Identified(raw: seq<Record>, r: Record) {
    exists t :: 0 <= t < |raw| && Identifies(raw[t], r)
  }

  /** Prose, what a person said, a question and a request for permission end a step's calls. */
  predicate Ends(r: Record) {
    r.kind.Message? || r.user || r.question.Some? || r.permission.Some?
  }

  predicate Nameless(r: Record, step: string) {
    r.kind.ToolUse? && r.step == step && r.stream == ""
  }

  /** The position of the first queue notice of a step. */
  predicate Noticed(raw: seq<Record>, step: string) {
    exists i :: 0 <= i < |raw| && raw[i].kind.QueueStatus? && raw[i].step == step
  }

  predicate Alone(w: Waiting) {
    w.open == 1 && !w.mixed
  }

  /** After one more record of the step: a call without identifier waits too; a finished result
      takes one off, unless a call made its identifier; and what ends the calls forgets them. */
  ghost function Heard(raw: seq<Record>, w: Waiting, r: Record): Waiting {
    if r.kind.ToolUse? then
      if r.stream == "" then Waiting(w.open + 1, w.mixed || w.open > 0, |raw|) else w
    else if r.kind.ToolResult? && (Identified(raw, r) || Alone(w) || !Ends(r)) then
      if r.streaming || Identified(raw, r) || w.open == 0 then w
      else Waiting(w.open - 1, w.mixed && w.open > 1, w.last)
    else if (r.kind.QueueStatus? && Noticed(raw, r.step)) || !Ends(r) then w
    else Waiting(0, false, w.last)
  }

  ghost function Open(raw: seq<Record>, step: string): Waiting {
    if raw == [] then NONE_WAITING else
      var n := |raw| - 1;
      if raw[n].step == step then Heard(raw[..n], Open(raw[..n], step), raw[n]) else Open(raw[..n], step)
  }

  // ---------- Where a record ends ----------

  /** The call a result belongs to: the one that made its identifier, or, if none did, the one
      call without identifier that alone waits. */
  ghost predicate Belongs(raw: seq<Record>, r: Record, t: nat) {
    || (t < |raw| && Identifies(raw[t], r))
    || (!Identified(raw, r) && Alone(Open(raw, r.step)) && t == Open(raw, r.step).last)
  }

  ghost predicate EndsAt(raw: seq<Record>, r: Record, p: Place) {
    match p
    case Attached(t) => r.kind.ToolResult? && Belongs(raw, r, t)
    case Folded(q) => r.kind.QueueStatus? && FirstNotice(raw, r.step, q)
    case Shown => !(r.kind.ToolResult? && exists t: nat :: Belongs(raw, r, t)) && !(r.kind.QueueStatus? && Noticed(raw, r.step))
  }

  // ---------- The scan agrees ----------

  ghost predicate Agrees(st: State, step: string, w: Waiting) {
    && |Outstanding(st, step)| == w.open && (step in st.ambiguous <==> w.mixed)
    && (Alone(w) ==> Outstanding(st, step) == [w.last])
  }

  lemma CallFound(raw: seq<Record>, r: Record, t: nat)
    requires Listed(raw + [r]) && r.kind.ToolResult?
    ensures var key, st := CallKey(r.step, r.stream), Scan(raw);
            key in st.calls && st.calls[key] == t <==> t < |raw| && Identifies(raw[t], r)
  {
    hide InRange, Step, BoundLast, Listed;
    Lengths(Scan(raw));
    CallsAreLastBindings(raw, CallKey(r.step, r.stream), t);
    BoundByItsCall(raw, Scan(raw).places, r, t);
  }

  lemma CallFoundIf(raw: seq<Record>, r: Record)
    requires Listed(raw + [r]) && r.kind.ToolResult?
    ensures CallKey(r.step, r.stream) in Scan(raw).calls <==> Identified(raw, r)
  {
    hide InRange, Step, Listed, Identifies, Scan;
    var key, st := CallKey(r.step, r.stream), Scan(raw);
    if key in st.calls { CallFound(raw, r, st.calls[key]); }
    if t :| 0 <= t < |raw| && Identifies(raw[t], r) { CallFound(raw, r, t); }
  }

  /** The scan finds the call a result belongs to. */
  lemma TargetBelongs(raw: seq<Record>, r: Record, t: nat)
    requires Listed(raw + [r]) && r.kind.ToolResult? && Agrees(Scan(raw), r.step, Open(raw, r.step))
    ensures Target(Scan(raw), r) == Some(t) <==> Belongs(raw, r, t)
  {
    hide InRange, Step, Listed, Identifies, Scan, Open;
    CallFound(raw, r, t);
    CallFoundIf(raw, r);
  }

  lemma CellStream(raw: seq<Record>, t: nat)
    requires t < |raw|
    ensures |Scan(raw).cells| == |raw| && Scan(raw).cells[t].record.stream == raw[t].stream
  {
    RowsAreFaithful(raw);
    hide Step, ShowsQueue, NoticeSteps, NoticeRows;
    assert ShowsOutcome(raw, t, Scan(raw).cells[t]);
  }

  lemma WaitingNameless(raw: seq<Record>, step: string, t: nat)
    requires t in Outstanding(Scan(raw), step)
    ensures t < |raw| && raw[t].stream == ""
  {
    ResultsStayWithCalls(raw);
    hide Step, InRange, Batched;
    assert Anonymous(raw, Outstanding(Scan(raw), step), step);
  }

  /** A result takes a waiting call off exactly when it is finished and no call made its identifier. */
  lemma DrainsExactly(raw: seq<Record>, r: Record)
    requires Listed(raw + [r]) && r.kind.ToolResult? && Agrees(Scan(raw), r.step, Open(raw, r.step))
    ensures Target(Scan(raw), r).Some? ==> Target(Scan(raw), r).value < |Scan(raw).cells|
    ensures var st := Scan(raw);
            Drains(st, r, Target(st, r)) <==> !r.streaming && Outstanding(st, r.step) != [] && !Identified(raw, r)
  {
    hide Step, InRange, Scan, Open, Listed, Outstanding, Identifies, Target;
    var st := Scan(raw);
    TargetInRange(st, r);
    if Target(st, r).Some? {
      var t := Target(st, r).value;
      TargetBelongs(raw, r, t);
      TargetStream(raw, r, t);
    } else {
      NotIdentified(raw, r);
    }
  }

  lemma NotIdentified(raw: seq<Record>, r: Record)
    requires Listed(raw + [r]) && r.kind.ToolResult? && Agrees(Scan(raw), r.step, Open(raw, r.step))
    requires Target(Scan(raw), r) == None
    ensures !Identified(raw, r)
  {
    hide Step, InRange, Scan, Open, Listed, Identifies, Target;
    if t :| 0 <= t < |raw| && Identifies(raw[t], r) { TargetBelongs(raw, r, t); }
  }

  lemma TargetStream(raw: seq<Record>, r: Record, t: nat)
    requires Belongs(raw, r, t) && Agrees(Scan(raw), r.step, Open(raw, r.step))
    ensures t < |raw| == |Scan(raw).cells| && (Scan(raw).cells[t].record.stream == "" <==> !Identified(raw, r))
  {
    hide Step, InRange, Scan, Open, Outstanding;
    if t < |raw| && Identifies(raw[t], r) {
      CellStream(raw, t);
    } else {
      WaitingNameless(raw, r.step, t);
      CellStream(raw, t);
    }
  }

  lemma NoticedIf(raw: seq<Record>, step: string)
    ensures step in Scan(raw).queues <==> Noticed(raw, step)
  {
    RowsAreFaithful(raw);
    hide Step, ShowsOutcome, ShowsQueue, NoticeRows, Scan;
  }

  lemma AgreesNext(raw: seq<Record>, r: Record, step: string)
    requires Listed(raw + [r]) && Agrees(Scan(raw), step, Open(raw, step))
    ensures Agrees(Scan(raw + [r]), step, Open(raw + [r], step))
  {
    hide Step, InRange, Listed, Heard;
    var st := Scan(raw);
    assert (raw + [r])[..|raw|] == raw;
    Batches(raw);
    StepOnBatches(st, r);
    hide Scan, NextBatch;
    if r.step == step { BatchHeard(raw, r); }
  }

  /** The batch after the record is the waiting calls after it. */
  lemma BatchHeard(raw: seq<Record>, r: Record)
    requires Listed(raw + [r]) && Agrees(Scan(raw), r.step, Open(raw, r.step)) && Batched(Scan(raw))
    ensures var st, w := Scan(raw), Heard(raw, Open(raw, r.step), r);
            var batch := NextBatch(st, r);
            && |batch| == w.open && (w.mixed <==> batch != [] && (r.step in st.ambiguous || |batch| > 1))
            && (Alone(w) ==> batch == [w.last])
  {
    hide Step, InRange, Listed, Scan, Open, Identified, Target, Drains;
    var st := Scan(raw);
    CellsCount(raw);
    NoticedIf(raw, r.step);
    if r.kind.ToolResult? {
      DrainsExactly(raw, r);
      TargetSome(raw, r);
    }
    hide Noticed;
    assert |Outstanding(st, r.step)| > 1 ==> r.step in st.ambiguous;
    assert r.step in st.ambiguous ==> Outstanding(st, r.step) != [];
  }

  lemma CellsCount(raw: seq<Record>)
    ensures |Scan(raw).cells| == |raw|
  {
  }

  lemma TargetSome(raw: seq<Record>, r: Record)
    requires Listed(raw + [r]) && r.kind.ToolResult? && Agrees(Scan(raw), r.step, Open(raw, r.step))
    ensures Target(Scan(raw), r).Some? <==> Identified(raw, r) || Alone(Open(raw, r.step))
  {
    hide Step, InRange, Scan, Open, Listed, Identifies, Target;
    var w := Open(raw, r.step);
    if Target(Scan(raw), r).Some? { TargetBelongs(raw, r, Target(Scan(raw), r).value); }
    if t :| 0 <= t < |raw| && Identifies(raw[t], r) { TargetBelongs(raw, r, t); }
    TargetBelongs(raw, r, w.last);
  }

  lemma {:induction false} AgreesAlways(raw: seq<Record>, step: string)
    requires Listed(raw)
    ensures Agrees(Scan(raw), step, Open(raw, step))
  {
    hide Step, InRange, Listed, Heard;
    if raw == [] {
      NoBatches(step);
    } else {
      var n := |raw| - 1;
      ListedInit(raw, n);
      AgreesAlways(raw[..n], step);
      assert raw == raw[..n] + [raw[n]];
      hide Scan, Open;
      AgreesNext(raw[..n], raw[n], step);
    }
  }

  /** Of every listing of a transcript: where each record ends. */
  lemma PlacedExactly(raw: seq<Record>, i: nat)
    requires Listed(raw) && i < |raw|
    ensures |Scan(raw).places| == |raw| && EndsAt(raw[..i], raw[i], Scan(raw).places[i])
  {
    hide Step, InRange, Listed, Scan, EndsAt;
    PlacesStay(raw, i + 1);
    assert raw[..i + 1] == raw[..i] + [raw[i]];
    ListedInit(raw, i + 1);
    LastPlaced(raw[..i], raw[i]);
  }

  lemma LastPlaced(raw: seq<Record>, r: Record)
    requires Listed(raw + [r])
    ensures |Scan(raw + [r]).places| == |raw| + 1 && EndsAt(raw, r, Scan(raw + [r]).places[|raw|])
  {
    hide Step, InRange, Listed, Belongs, Noticed, FirstNotice, Target;
    assert (raw + [r])[..|raw|] == raw;
    Lengths(Scan(raw));
    var p := StepOnCells(Scan(raw), r);
    hide Scan;
    NoticedIf(raw, r.step);
    if r.kind.ToolResult? { ResultEnds(raw, r); }
    if r.kind.QueueStatus? && r.step in Scan(raw).queues { RowFirst(raw, r.step); }
  }

  lemma ResultEnds(raw: seq<Record>, r: Record)
    requires Listed(raw + [r]) && r.kind.ToolResult?
    ensures forall t: nat :: Target(Scan(raw), r) == Some(t) <==> Belongs(raw, r, t)
  {
    hide Step, InRange, Belongs, Target, Scan, Open;
    assert (raw + [r])[..|raw|] == raw;
    ListedInit(raw + [r], |raw|);
    AgreesAlways(raw, r.step);
    forall t: nat ensures Target(Scan(raw), r) == Some(t) <==> Belongs(raw, r, t) { TargetBelongs(raw, r, t); }
  }

  lemma RowFirst(raw: seq<Record>, step: string)
    requires step in Scan(raw).queues
    ensures FirstNotice(raw, step, Scan(raw).queues[step])
  {
    RowsAreFaithful(raw);
    hide Step, ShowsOutcome, ShowsQueue, NoticeSteps, FirstNotice, Scan;
  }

  // ---------- A call on its own ----------

  /** Nothing of the step since the call at `t` was made another such call, finished without an
      identifier of its own, or ended the step's calls. */
  ghost predicate Undisturbed(raw: seq<Record>, t: nat) {
    t < |raw| && forall j :: t < j < |raw| && raw[j].step == raw[t].step ==>
      && !Nameless(raw[j], raw[t].step)
      && (raw[j].kind.ToolResult? ==> raw[j].streaming || Identified(raw[..j], raw[j]))
      && (!raw[j].kind.ToolUse? && !raw[j].kind.ToolResult? && !(raw[j].kind.QueueStatus? && Noticed(raw[..j], raw[j].step)) ==>
            !Ends(raw[j]))
  }

  lemma {:induction false} WaitsAlone(raw: seq<Record>, t: nat)
    requires t < |raw| && Nameless(raw[t], raw[t].step) && Open(raw[..t], raw[t].step).open == 0
    requires !Open(raw[..t], raw[t].step).mixed && Undisturbed(raw, t)
    ensures Open(raw, raw[t].step) == Waiting(1, false, t)
  {
    hide Identified, Noticed;
    var n, step := |raw| - 1, raw[t].step;
    assert raw == raw[..n] + [raw[n]];
    if t < n {
      assert raw[..n][..t] == raw[..t];
      forall j | t < j < n ensures raw[..n][..j] == raw[..j] {}
      WaitsAlone(raw[..n], t);
    }
  }

  /** A call without identifier that is made while none waits, and that nothing has disturbed,
      gets the next result of its step that no call made the identifier of. */
  lemma LoneCallGetsResult(raw: seq<Record>, t: nat, r: Record)
    requires Listed(raw + [r]) && t < |raw| && Nameless(raw[t], r.step) && Open(raw[..t], r.step).open == 0
    requires Undisturbed(raw, t) && r.kind.ToolResult? && !Identified(raw, r)
    ensures |Scan(raw + [r]).places| == |raw| + 1 && Scan(raw + [r]).places[|raw|] == Attached(t)
  {
    hide Step, InRange, Scan, Open, Identified, Undisturbed;
    assert (raw + [r])[..t] == raw[..t] && (raw + [r])[..|raw|] == raw;
    ListedInit(raw + [r], t);
    AgreesAlways(raw[..t], r.step);
    NotMixed(raw[..t], r.step);
    WaitsAlone(raw, t);
    LastPlaced(raw, r);
    ResultEnds(raw, r);
    Settles(raw, r, t);
  }

  lemma NotMixed(raw: seq<Record>, step: string)
    requires Agrees(Scan(raw), step, Open(raw, step)) && Open(raw, step).open == 0
    ensures !Open(raw, step).mixed
  {
    Batches(raw);
    hide Step, Scan, Open, InRange;
  }

  /** A result belongs to one call at most. */
  lemma Settles(raw: seq<Record>, r: Record, t: nat)
    requires Open(raw, r.step) == Waiting(1, false, t) && r.kind.ToolResult? && !Identified(raw, r)
    requires |Scan(raw + [r]).places| == |raw| + 1 && EndsAt(raw, r, Scan(raw + [r]).places[|raw|])
    ensures Scan(raw + [r]).places[|raw|] == Attached(t)
  {
    hide Step, Scan, Open;
    assert Belongs(raw, r, t);
    assert forall u: nat :: Belongs(raw, r, u) ==> u == t;
  }

  lemma {:induction false} NoneOpen(raw: seq<Record>, step: string)
    requires forall j :: 0 <= j < |raw| ==> !Nameless(raw[j], step)
    ensures Open(raw, step).open == 0
  {
    hide Identified, Noticed;
    if raw != [] {
      var n := |raw| - 1;
      NoneOpen(raw[..n], step);
      assert !Nameless(raw[n], step);
    }
  }

  /** In particular the first such call of a step. */
  lemma FirstCallGetsResult(raw: seq<Record>, r: Record, t: nat)
    requires Listed(raw + [r]) && t < |raw| && Nameless(raw[t], r.step) && forall j :: 0 <= j < t ==> !Nameless(raw[j], r.step)
    requires Undisturbed(raw, t) && r.kind.ToolResult? && !Identified(raw, r)
    ensures |Scan(raw + [r]).places| == |raw| + 1 && Scan(raw + [r]).places[|raw|] == Attached(t)
  {
    hide Step, InRange, Scan, Open, Identified, Undisturbed;
    assert forall j :: 0 <= j < t ==> raw[..t][j] == raw[j];
    NoneOpen(raw[..t], r.step);
    LoneCallGetsResult(raw, t, r);
  }
}
