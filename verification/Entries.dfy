/** The conversation's entries as objects (conversation.go): building them anew, or reusing the
    copies and cards of the last build. */
module Entries {
  import opened Collections
  import opened Transcript
  import opened Conversation
  import opened Grouping

  /** A transcript record, the conversation's copy of one, or a card of copies. */
  class Entry {
    var record: Record
    var settled: bool
    var heading: string
    var details: seq<Entry>
    var process: seq<Entry>

    constructor (record: Record)
      ensures this.record == record && !settled && heading == "" && details == [] && process == []
    {
      this.record, settled, heading, details, process := record, false, "", [], [];
    }
  }

  /** A card carries its first record's key, step and time, and nothing else of it. */
  function CardRecord(first: Record): Record {
    Record("process/" + first.key, first.step, "", 0, Plain(""), "", first.at, 0, 0, false, false, false, None, None, None, 0)
  }

  lemma CardStandsForFirst(first: Record)
    ensures var card := CardRecord(first);
            && card.key == "process/" + first.key && card.step == first.step && card.at == first.at
            && card.text == "" && card.stream == "" && card.kind == Plain("") && !card.failed && !card.user && !card.streaming
            && card.permission == card.question == card.answer == None
            && card.revision == 0 && card.seqNo == 0 && card.queueUpdatedAt == 0 && card.attachments == 0
  {
  }

  ghost predicate Injective<K, V>(m: map<K, V>) {
    forall a, b :: a in m && b in m && m[a] == m[b] ==> a == b
  }

  /** Copies and cards are distinct objects, and the card found by a copy is the card of the
      record the copy stands for. */
  ghost predicate Fit(copies: map<Entry, Entry>, groups: map<Entry, Entry>)
    reads copies.Keys, groups.Values
  {
    && Injective(copies) && Injective(groups)
    && copies.Values !! groups.Values
    && forall o :: o in copies && copies[o] in groups ==> groups[copies[o]].record.key == "process/" + o.record.key
  }

  /** The copies and cards of the last build and of the one under way. */
  class EntryCopies {
    var copies: map<Entry, Entry>
    var groups: map<Entry, Entry>
    var next: map<Entry, Entry>
    var nextGroups: map<Entry, Entry>

    constructor ()
      ensures Valid() && Owned() == {}
    {
      copies, groups, next, nextGroups := map[], map[], map[], map[];
    }

    ghost function Owned(): set<Entry>
      reads this
    {
      copies.Values + groups.Values
    }

    ghost predicate Valid()
      reads this, copies.Keys, groups.Values
    {
      Fit(copies, groups)
    }
  }

  ghost function OwnedBy(c: EntryCopies?): set<Entry>
    reads c
  {
    if c == null then {} else c.Owned()
  }

  /** A record as the transcript holds it. */
  ghost predicate InTranscript(o: Entry)
    reads o
  {
    !o.settled && o.process == []
  }

  // ---------- The cache ----------

  method Begin(c: EntryCopies?)
    modifies c
    ensures c != null ==> c.next == map[] && c.nextGroups == map[] && c.copies == old(c.copies) && c.groups == old(c.groups)
  {
    if c != null { c.next, c.nextGroups := map[], map[]; }
  }

  method Finish(c: EntryCopies?)
    modifies c
    ensures c != null ==> c.copies == old(c.next) && c.next == old(c.copies)
    ensures c != null ==> c.groups == old(c.nextGroups) && c.nextGroups == old(c.groups)
  {
    if c != null {
      c.copies, c.next := c.next, c.copies;
      c.groups, c.nextGroups := c.nextGroups, c.groups;
    }
  }

  /** The copy standing for a record: the one of the last build, or a new one, with the record's
      present content and no details. */
  method CopyOf(c: EntryCopies?, original: Entry) returns (e: Entry)
    requires c != null && original in c.copies ==> c.copies[original] != original
    modifies if c != null then {c} else {}, if c != null && original in c.copies then {c.copies[original]} else {}
    ensures if c != null && original in old(c.copies) then e == old(c.copies)[original] else fresh(e)
    ensures e.record == original.record && e.settled == original.settled && e.heading == original.heading
    ensures e.process == original.process && e.details == []
    ensures c != null ==> c.next == old(c.next)[original := e]
    ensures c != null ==> c.copies == old(c.copies) && c.groups == old(c.groups) && c.nextGroups == old(c.nextGroups)
  {
    if c != null && original in c.copies { e := c.copies[original]; } else { e := new Entry(original.record); }
    e.record, e.settled, e.heading, e.process := original.record, original.settled, original.heading, original.process;
    e.details := [];
    if c != null { c.next := c.next[original := e]; }
  }

  /** The card starting with a copy: the one the copy started in the last build, or a new one. */
  method CardOf(c: EntryCopies?, first: Entry) returns (g: Entry)
    requires c != null && first in c.groups ==>
               c.groups[first] != first && c.groups[first].record.key == "process/" + first.record.key
    modifies if c != null then {c} else {}, if c != null && first in c.groups then {c.groups[first]} else {}
    ensures if c != null && first in old(c.groups) then g == old(c.groups)[first] else fresh(g)
    ensures g.record == CardRecord(first.record) && !g.settled && g.heading == "" && g.details == []
    ensures g.process == [first]
    ensures c != null ==> c.nextGroups == old(c.nextGroups)[first := g]
    ensures c != null ==> c.copies == old(c.copies) && c.groups == old(c.groups) && c.next == old(c.next)
  {
    if c != null && first in c.groups { g := c.groups[first]; } else { g := new Entry(CardRecord(first.record)); }
    g.record := CardRecord(first.record).(key := g.record.key);
    g.settled, g.heading, g.details, g.process := false, "", [], [first];
    if c != null { c.nextGroups := c.nextGroups[first := g]; }
  }

  // ---------- Entries standing for positions ----------

  /** The copies at some positions. */
  ghost function Pick(copyOf: seq<Entry>, at: seq<nat>): (out: seq<Entry>)
    requires forall k :: 0 <= k < |at| ==> at[k] < |copyOf|
    ensures |out| == |at| && forall k :: 0 <= k < |at| ==> out[k] == copyOf[at[k]]
  {
    seq(|at|, k requires 0 <= k < |at| => copyOf[at[k]])
  }

  lemma PickLater(copyOf: seq<Entry>, e: Entry, at: seq<nat>)
    requires forall k :: 0 <= k < |at| ==> at[k] < |copyOf|
    ensures Pick(copyOf + [e], at) == Pick(copyOf, at)
    ensures Pick(copyOf + [e], at + [|copyOf|]) == Pick(copyOf, at) + [e]
    ensures at != [] ==> Pick(copyOf, at[1..]) == Pick(copyOf, at)[1..]
  {
  }

  /** An entry shows a cell, its details being the copies at the cell's positions. */
  ghost predicate Shows(e: Entry, heading: string, cell: Cell, copyOf: seq<Entry>)
    reads e
  {
    && e.record == cell.record && e.settled == cell.settled && e.heading == heading && e.process == []
    && (forall k :: 0 <= k < |cell.details| ==> cell.details[k] < |copyOf|)
    && e.details == Pick(copyOf, cell.details)
  }

  ghost predicate AllShow(copyOf: seq<Entry>, headings: seq<string>, cells: seq<Cell>)
    reads copyOf
  {
    && |copyOf| == |cells| == |headings| && NoRepeats(copyOf)
    && forall i :: 0 <= i < |copyOf| ==> Shows(copyOf[i], headings[i], cells[i], copyOf)
  }

  /** What the scan remembers, as entries. */
  datatype Tables = Tables(
    items: seq<Entry>,
    calls: map<CallKey, Entry>,
    legacy: map<string, seq<Entry>>,
    ambiguous: set<string>,
    queues: map<string, Entry>)

  function Batch(t: Tables, step: string): seq<Entry> {
    if step in t.legacy then t.legacy[step] else []
  }

  ghost predicate ItemsLinked(copyOf: seq<Entry>, st: State, t: Tables) {
    && (forall k :: 0 <= k < |st.items| ==> st.items[k] < |copyOf|)
    && t.items == Pick(copyOf, st.items)
  }

  ghost predicate CallsLinked(copyOf: seq<Entry>, st: State, t: Tables) {
    && t.calls.Keys == st.calls.Keys
    && forall k :: k in st.calls ==> st.calls[k] < |copyOf| && t.calls[k] == copyOf[st.calls[k]]
  }

  ghost predicate BatchesLinked(copyOf: seq<Entry>, st: State, t: Tables) {
    && t.ambiguous == st.ambiguous
    && forall s :: (forall k :: 0 <= k < |Outstanding(st, s)| ==> Outstanding(st, s)[k] < |copyOf|) &&
                   Batch(t, s) == Pick(copyOf, Outstanding(st, s))
  }

  ghost predicate QueuesLinked(copyOf: seq<Entry>, st: State, t: Tables) {
    && t.queues.Keys == st.queues.Keys
    && forall s :: s in st.queues ==> st.queues[s] < |copyOf| && t.queues[s] == copyOf[st.queues[s]]
  }

  ghost predicate Linked(copyOf: seq<Entry>, st: State, t: Tables) {
    && |copyOf| == |st.cells|
    && ItemsLinked(copyOf, st, t) && CallsLinked(copyOf, st, t) && BatchesLinked(copyOf, st, t) && QueuesLinked(copyOf, st, t)
  }

  // ---------- The steps of the scan ----------

  /** A result joins its call. */
  method Join(target: Entry, e: Entry)
    requires target != e
    modifies target
    ensures target.details == old(target.details) + [e] && target.settled == !e.record.streaming
    ensures target.record == old(target.record).(failed := old(target.record.failed) || e.record.failed)
    ensures target.heading == old(target.heading) && target.process == old(target.process)
  {
    target.details := target.details + [e];
    target.settled := !e.record.streaming;
    target.record := target.record.(failed := target.record.failed || e.record.failed);
  }

  /** A queue row takes over a later notice. */
  method Refresh(row: Entry, e: Entry)
    requires row != e
    modifies row
    ensures row.record == old(row.record).(text := e.record.text, revision := e.record.revision,
              queueUpdatedAt := if e.record.queueUpdatedAt == 0 then e.record.at else e.record.queueUpdatedAt)
    ensures row.details == old(row.details) && row.settled == old(row.settled)
    ensures row.heading == old(row.heading) && row.process == old(row.process)
  {
    row.record := row.record.(text := e.record.text, revision := e.record.revision);
    row.record := row.record.(queueUpdatedAt := e.record.queueUpdatedAt);
    if row.record.queueUpdatedAt == 0 { row.record := row.record.(queueUpdatedAt := e.record.at); }
  }

  /** The tables after an entry that becomes an item. */
  function WithEntry(t: Tables, e: Entry, r: Record): Tables {
    var t1 := t.(items := t.items + [e]);
    if r.kind.ToolUse? then
      if r.stream != "" then t1.(calls := t.calls[CallKey(r.step, r.stream) := e])
      else
        var batch := Batch(t, r.step) + [e];
        t1.(legacy := t.legacy[r.step := batch], ambiguous := if |batch| > 1 then t.ambiguous + {r.step} else t.ambiguous)
    else if Interrupts(r) then t1.(legacy := t.legacy - {r.step}, ambiguous := t.ambiguous - {r.step})
    else t1
  }

  lemma LinkedLater(copyOf: seq<Entry>, e: Entry, st: State, t: Tables)
    requires ItemsLinked(copyOf, st, t) && CallsLinked(copyOf, st, t) && BatchesLinked(copyOf, st, t)
    requires QueuesLinked(copyOf, st, t)
    ensures ItemsLinked(copyOf + [e], st, t) && CallsLinked(copyOf + [e], st, t)
    ensures BatchesLinked(copyOf + [e], st, t) && QueuesLinked(copyOf + [e], st, t)
  {
    PickLater(copyOf, e, st.items);
    forall s ensures forall k :: 0 <= k < |Outstanding(st, s)| ==> Outstanding(st, s)[k] < |copyOf| + 1
      ensures Batch(t, s) == Pick(copyOf + [e], Outstanding(st, s))
    {
      PickLater(copyOf, e, Outstanding(st, s));
    }
  }

  /** The tables and the scan stay together when an entry becomes an item. */
  lemma LinkedShow(copyOf: seq<Entry>, e: Entry, st: State, t: Tables, r: Record)
    requires |copyOf| == |st.cells| && ItemsLinked(copyOf, st, t) && CallsLinked(copyOf, st, t)
    requires BatchesLinked(copyOf, st, t)
    requires QueuesLinked(copyOf + [e], st, t)
    ensures Linked(copyOf + [e], Show(st, r), WithEntry(t, e, r))
  {
    hide Show, BatchesLinked, CallsLinked, QueuesLinked, Interrupts, Batch;
    ShowCalls(copyOf, e, st, t, r);
    ShowBatches(copyOf, e, st, t, r);
    ShownCells(st, r);
    PickLater(copyOf, e, st.items);
    SameQueues(copyOf + [e], st, t, Show(st, r), WithEntry(t, e, r));
  }

  lemma SameQueues(copyOf: seq<Entry>, st: State, t: Tables, st': State, t': Tables)
    requires QueuesLinked(copyOf, st, t) && st'.queues == st.queues && t'.queues == t.queues
    ensures QueuesLinked(copyOf, st', t')
  {
  }

  lemma SameCalls(copyOf: seq<Entry>, st: State, t: Tables, st': State, t': Tables)
    requires CallsLinked(copyOf, st, t) && st'.calls == st.calls && t'.calls == t.calls
    ensures CallsLinked(copyOf, st', t')
  {
  }

  lemma SameBatches(copyOf: seq<Entry>, st: State, t: Tables, st': State, t': Tables)
    requires BatchesLinked(copyOf, st, t) && st'.legacy == st.legacy && t'.legacy == t.legacy
    requires st'.ambiguous == st.ambiguous && t'.ambiguous == t.ambiguous
    ensures BatchesLinked(copyOf, st', t')
  {
    assert forall s :: Outstanding(st', s) == Outstanding(st, s) && Batch(t', s) == Batch(t, s);
  }

  lemma ShowCalls(copyOf: seq<Entry>, e: Entry, st: State, t: Tables, r: Record)
    requires |copyOf| == |st.cells| && CallsLinked(copyOf, st, t)
    ensures CallsLinked(copyOf + [e], Show(st, r), WithEntry(t, e, r))
  {
  }

  lemma ShowBatches(copyOf: seq<Entry>, e: Entry, st: State, t: Tables, r: Record)
    requires |copyOf| == |st.cells| && BatchesLinked(copyOf, st, t)
    ensures BatchesLinked(copyOf + [e], Show(st, r), WithEntry(t, e, r))
  {
    hide Show, WithEntry, Outstanding, Batch, Interrupts;
    var st', t' := Show(st, r), WithEntry(t, e, r);
    assert Batch(t, r.step) == Pick(copyOf, Outstanding(st, r.step));
    ShownAmbiguous(st, t, e, r);
    forall s ensures forall k :: 0 <= k < |Outstanding(st', s)| ==> Outstanding(st', s)[k] < |copyOf| + 1
      ensures Batch(t', s) == Pick(copyOf + [e], Outstanding(st', s))
    {
      ShownBatch(st, t, e, r, s);
      assert Batch(t, s) == Pick(copyOf, Outstanding(st, s));
      PickLater(copyOf, e, Outstanding(st, s));
    }
  }

  lemma ShownAmbiguous(st: State, t: Tables, e: Entry, r: Record)
    requires t.ambiguous == st.ambiguous && |Batch(t, r.step)| == |Outstanding(st, r.step)|
    ensures WithEntry(t, e, r).ambiguous == Show(st, r).ambiguous
  {
    hide Interrupts;
  }

  lemma ShownBatch(st: State, t: Tables, e: Entry, r: Record, s: string)
    ensures Outstanding(Show(st, r), s) ==
            if s != r.step then Outstanding(st, s)
            else if r.kind.ToolUse? then if r.stream == "" then Outstanding(st, s) + [|st.cells|] else Outstanding(st, s)
            else if Interrupts(r) then [] else Outstanding(st, s)
    ensures Batch(WithEntry(t, e, r), s) ==
            if s != r.step then Batch(t, s)
            else if r.kind.ToolUse? then if r.stream == "" then Batch(t, s) + [e] else Batch(t, s)
            else if Interrupts(r) then [] else Batch(t, s)
  {
    hide Interrupts;
  }

  /** The tables after a finished result took a call off its step's batch. */
  function WithoutFirst(t: Tables, step: string): Tables
    requires Batch(t, step) != []
  {
    var rest := Batch(t, step)[1..];
    t.(legacy := t.legacy[step := rest], ambiguous := if rest == [] then t.ambiguous - {step} else t.ambiguous)
  }

  lemma LinkedDrained(copyOf: seq<Entry>, st: State, t: Tables, step: string)
    requires Linked(copyOf, st, t) && Outstanding(st, step) != []
    ensures Batch(t, step) != [] && Linked(copyOf, Drained(st, step), WithoutFirst(t, step))
  {
    var batch := Outstanding(st, step);
    if |copyOf| > 0 { PickLater(copyOf, copyOf[0], batch); }
    assert Batch(t, step) == Pick(copyOf, batch);
    var st', t' := Drained(st, step), WithoutFirst(t, step);
    assert forall s :: s != step ==> Outstanding(st', s) == Outstanding(st, s) && Batch(t', s) == Batch(t, s);
    assert Outstanding(st', step) == batch[1..] && Batch(t', step) == Batch(t, step)[1..];
    assert BatchesLinked(copyOf, st', t');
  }

  lemma ShowsLater(x: Entry, heading: string, cell: Cell, copyOf: seq<Entry>, e: Entry)
    requires Shows(x, heading, cell, copyOf)
    ensures Shows(x, heading, cell, copyOf + [e])
  {
    PickLater(copyOf, e, cell.details);
  }

  lemma ShowsJoined(x: Entry, heading: string, cell: Cell, copyOf: seq<Entry>, e: Entry, r: Record)
    requires forall k :: 0 <= k < |cell.details| ==> cell.details[k] < |copyOf|
    requires x.record == cell.record.(failed := cell.record.failed || r.failed) && x.settled == !r.streaming
    requires x.heading == heading && x.process == [] && x.details == Pick(copyOf, cell.details) + [e]
    ensures Shows(x, heading, Joined(cell, |copyOf|, r), copyOf + [e])
  {
    PickLater(copyOf, e, cell.details);
  }

  /** All copies show their cells after a record placed at `p`. */
  lemma AllShowNext(copyOf: seq<Entry>, headings: seq<string>, st: State, st': State, p: Place, e: Entry, r: Record,
                    own: Record)
    requires |copyOf| == |headings| == |st.cells| && NoRepeats(copyOf + [e])
    requires CellsAfter(st, st', p, r, own)
    requires Shows(e, e.heading, Cell(own, false, []), copyOf)
    requires forall j :: 0 <= j < |copyOf| ==> Shows(copyOf[j], headings[j],
               if p == Attached(j) then Joined(st.cells[j], |copyOf|, r)
               else if p == Folded(j) then Refreshed(st.cells[j], r) else st.cells[j], copyOf + [e])
    ensures AllShow(copyOf + [e], headings + [e.heading], st'.cells)
  {
    hide Joined, Refreshed;
    ShowsLater(e, e.heading, Cell(own, false, []), copyOf, e);
    forall j | 0 <= j <= |copyOf| ensures Shows((copyOf + [e])[j], (headings + [e.heading])[j], st'.cells[j], copyOf + [e]) {
      hide Shows;
      if j < |copyOf| { assert (copyOf + [e])[j] == copyOf[j] && (headings + [e.heading])[j] == headings[j]; }
    }
  }

  ghost predicate Fresh(e: Entry, r: Record)
    reads e
  {
    e.record == r && !e.settled && e.process == [] && e.details == []
  }

  /** The tables stay as they are when an entry does not become an item. */
  lemma LinkedSame(copyOf: seq<Entry>, e: Entry, st: State, t: Tables, st': State)
    requires Linked(copyOf, st, t) && |st'.cells| == |copyOf| + 1
    requires st'.items == st.items && st'.calls == st.calls && st'.queues == st.queues
    requires st'.legacy == st.legacy && st'.ambiguous == st.ambiguous
    ensures Linked(copyOf + [e], st', t)
  {
    LinkedLater(copyOf, e, st, t);
    hide CallsLinked, BatchesLinked, QueuesLinked;
    SameCalls(copyOf + [e], st, t, st', t);
    SameBatches(copyOf + [e], st, t, st', t);
    SameQueues(copyOf + [e], st, t, st', t);
  }

  lemma NoRepeatsMore(copyOf: seq<Entry>, e: Entry)
    requires NoRepeats(copyOf) && e !in copyOf
    ensures NoRepeats(copyOf + [e])
  {
  }

  lemma FoldCells(st: State, q: nat, r: Record)
    requires InRange(st) && q < |st.cells|
    ensures CellsAfter(st, Fold(st, q, r), Folded(q), r, r)
  {
  }

  lemma AttachCells(st: State, i: nat, r: Record)
    requires InRange(st) && i < |st.cells|
    ensures CellsAfter(st, Attach(st, i, r), Attached(i), r, r)
  {
  }

  /** A queue notice of a step that has a row. */
  method FoldEntry(t: Tables, row: Entry, e: Entry, ghost copyOf: seq<Entry>, ghost headings: seq<string>,
                   ghost st: State, ghost q: nat)
    requires AllShow(copyOf, headings, st.cells) && Linked(copyOf, st, t) && InRange(st) && e !in copyOf
    requires Fresh(e, e.record) && q < |copyOf| && row == copyOf[q]
    modifies row
    ensures AllShow(copyOf + [e], headings + [e.heading], Fold(st, q, e.record).cells)
    ensures Linked(copyOf + [e], Fold(st, q, e.record), t)
  {
    hide InRange, Linked;
    ghost var r := e.record;
    assert Shows(row, headings[q], st.cells[q], copyOf);
    Refresh(row, e);
    forall j | 0 <= j < |copyOf|
      ensures Shows(copyOf[j], headings[j], if Folded(q) == Folded(j) then Refreshed(st.cells[j], r) else st.cells[j], copyOf + [e])
    {
      if j != q { assert Shows(copyOf[j], headings[j], st.cells[j], copyOf); ShowsLater(copyOf[j], headings[j], st.cells[j], copyOf, e); }
      else { PickLater(copyOf, e, st.cells[q].details); }
    }
    NoRepeatsMore(copyOf, e);
    FoldCells(st, q, r);
    AllShowNext(copyOf, headings, st, Fold(st, q, r), Folded(q), e, r, r);
    LinkedSame(copyOf, e, st, t, Fold(st, q, r));
  }

  /** A result with a target. */
  method AttachEntry(t0: Tables, target: Entry, e: Entry, ghost copyOf: seq<Entry>, ghost headings: seq<string>,
                     ghost st: State, ghost i: nat)
    returns (t: Tables)
    requires AllShow(copyOf, headings, st.cells) && Linked(copyOf, st, t0) && InRange(st) && e !in copyOf
    requires Fresh(e, e.record) && i < |copyOf| && target == copyOf[i]
    modifies target
    ensures AllShow(copyOf + [e], headings + [e.heading], Attach(st, i, e.record).cells)
    ensures Linked(copyOf + [e], Attach(st, i, e.record), t)
  {
    hide InRange, Linked;
    ghost var r := e.record;
    assert Shows(target, headings[i], st.cells[i], copyOf);
    Join(target, e);
    t := t0;
    if e.record.stream != "" { t := t.(calls := t.calls[CallKey(e.record.step, e.record.stream) := target]); }
    forall j | 0 <= j < |copyOf|
      ensures Shows(copyOf[j], headings[j], if Attached(i) == Attached(j) then Joined(st.cells[j], |copyOf|, r) else st.cells[j], copyOf + [e])
    {
      if j != i { assert Shows(copyOf[j], headings[j], st.cells[j], copyOf); ShowsLater(copyOf[j], headings[j], st.cells[j], copyOf, e); }
      else { ShowsJoined(target, headings[i], st.cells[i], copyOf, e, r); }
    }
    NoRepeatsMore(copyOf, e);
    AttachCells(st, i, r);
    AllShowNext(copyOf, headings, st, Attach(st, i, r), Attached(i), e, r, r);
    LinkedAttach(copyOf, e, st, t0, i, r, t);
  }

  lemma LinkedAttach(copyOf: seq<Entry>, e: Entry, st: State, t0: Tables, i: nat, r: Record, t: Tables)
    requires Linked(copyOf, st, t0) && InRange(st) && i < |copyOf|
    requires t == if r.stream != "" then t0.(calls := t0.calls[CallKey(r.step, r.stream) := copyOf[i]]) else t0
    ensures Linked(copyOf + [e], Attach(st, i, r), t)
  {
    hide InRange;
    var st' := Attach(st, i, r);
    LinkedLater(copyOf, e, st, t0);
    hide BatchesLinked, QueuesLinked;
    SameBatches(copyOf + [e], st, t0, st', t);
    SameQueues(copyOf + [e], st, t0, st', t);
    assert CallsLinked(copyOf + [e], st', t);
  }

  /** An entry that becomes an item. */
  lemma ShowEntry(copyOf: seq<Entry>, e: Entry, headings: seq<string>, st: State)
    requires AllShow(copyOf, headings, st.cells) && e !in copyOf && Fresh(e, e.record)
    ensures AllShow(copyOf + [e], headings + [e.heading], Show(st, e.record).cells)
  {
    ShownCells(st, e.record);
    NoRepeatsMore(copyOf, e);
    hide Show;
    forall j | 0 <= j < |copyOf| ensures Shows(copyOf[j], headings[j], st.cells[j], copyOf + [e]) {
      ShowsLater(copyOf[j], headings[j], st.cells[j], copyOf, e);
    }
    AllShowNext(copyOf, headings, st, Show(st, e.record), Shown, e, e.record, e.record);
  }

  /** The call a result belongs to, if it can be told. */
  method TargetEntry(t: Tables, e: Entry, ghost copyOf: seq<Entry>, ghost st: State) returns (target: Entry?)
    requires Linked(copyOf, st, t) && InRange(st)
    ensures var found := Target(st, e.record);
            if found.Some? then found.value < |copyOf| && target == copyOf[found.value] else target == null
  {
    hide InRange;
    target := null;
    var key, waiting := CallKey(e.record.step, e.record.stream), Batch(t, e.record.step);
    assert waiting == Pick(copyOf, Outstanding(st, e.record.step));
    if key in t.calls { target := t.calls[key]; }
    else if |waiting| == 1 && e.record.step !in t.ambiguous { target := waiting[0]; }
  }

  /** A result is attached to its target; either way a finished one may shorten its batch. */
  method ResultEntry(t0: Tables, e: Entry, ghost copyOf: seq<Entry>, ghost headings: seq<string>, ghost st: State)
    returns (t: Tables, attached: bool, ghost st1: State)
    requires AllShow(copyOf, headings, st.cells) && Linked(copyOf, st, t0) && InRange(st) && e !in copyOf
    requires Fresh(e, e.record) && e.record.kind.ToolResult?
    modifies copyOf
    ensures attached ==> AllShow(copyOf + [e], headings + [e.heading], Step(st, e.record).cells)
    ensures attached ==> Linked(copyOf + [e], Step(st, e.record), t)
    ensures !attached ==> AllShow(copyOf, headings, st1.cells) && Linked(copyOf, st1, t) && Step(st, e.record) == Show(st1, e.record)
  {
    hide InRange, Linked, Target, Show, Attach, AllShow, Drained;
    ghost var r := e.record;
    var target := TargetEntry(t0, e, copyOf, st);
    ghost var found := Target(st, r);
    TargetInRange(st, r);
    t, st1 := t0, if Drains(st, r, found) then Drained(st, r.step) else st;
    StreamShown(copyOf, headings, st, found, target);
    BatchShown(copyOf, st, t0, r.step);
    if !e.record.streaming && Batch(t, e.record.step) != [] && (target == null || target.record.stream == "") {
      LinkedDrained(copyOf, st, t, r.step);
      DrainedCells(st, r.step);
      DrainedInRange(st, r.step);
      t := WithoutFirst(t, e.record.step);
    }
    attached := target != null;
    if target != null {
      t := AttachEntry(t, target, e, copyOf, headings, st1, found.value);
    }
  }

  lemma StreamShown(copyOf: seq<Entry>, headings: seq<string>, st: State, found: Option<nat>, target: Entry?)
    requires AllShow(copyOf, headings, st.cells)
    requires if found.Some? then found.value < |copyOf| && target == copyOf[found.value] else target == null
    ensures target != null ==> target.record == st.cells[found.value].record
  {
    if target != null { assert Shows(copyOf[found.value], headings[found.value], st.cells[found.value], copyOf); }
  }

  lemma BatchShown(copyOf: seq<Entry>, st: State, t: Tables, step: string)
    requires Linked(copyOf, st, t)
    ensures |Batch(t, step)| == |Outstanding(st, step)|
  {
    assert forall k :: 0 <= k < |Outstanding(st, step)| ==> Outstanding(st, step)[k] < |copyOf|;
    assert Batch(t, step) == Pick(copyOf, Outstanding(st, step));
  }

  /** One round of the scan. */
  method ScanEntry(t0: Tables, e: Entry, ghost copyOf: seq<Entry>, ghost headings: seq<string>, ghost st: State)
    returns (t: Tables)
    requires AllShow(copyOf, headings, st.cells) && Linked(copyOf, st, t0) && InRange(st) && e !in copyOf
    requires Fresh(e, e.record)
    modifies e, copyOf
    ensures e.heading == old(e.heading)
    ensures AllShow(copyOf + [e], headings + [e.heading], Step(st, old(e.record)).cells)
    ensures Linked(copyOf + [e], Step(st, old(e.record)), t)
  {
    hide InRange, Show, Target, Drained, Attach, Fold;
    t := t0;
    ghost var st1 := st;
    if e.record.kind.QueueStatus? {
      if e.record.step in t.queues {
        FoldEntry(t, t.queues[e.record.step], e, copyOf, headings, st, st.queues[e.record.step]);
        return;
      }
      QueueLinked(copyOf, e, st, t, e.record.step);
      st1 := st.(queues := st.queues[e.record.step := |st.cells|]);
      e.record := e.record.(key := "queue/" + e.record.step);
      t := t.(queues := t.queues[e.record.step := e]);
    } else {
      if e.record.kind.ToolResult? {
        var attached;
        t, attached, st1 := ResultEntry(t, e, copyOf, headings, st);
        if attached { return; }
      }
      LinkedLater(copyOf, e, st1, t);
    }
    hide AllShow;
    assert AllShow(copyOf, headings, st1.cells);
    ShowEntry(copyOf, e, headings, st1);
    LinkedShow(copyOf, e, st1, t, e.record);
    t := WithEntry(t, e, e.record);
  }

  lemma QueueLinked(copyOf: seq<Entry>, e: Entry, st: State, t: Tables, step: string)
    requires Linked(copyOf, st, t)
    ensures var st', t' := st.(queues := st.queues[step := |st.cells|]), t.(queues := t.queues[step := e]);
            && ItemsLinked(copyOf, st', t') && CallsLinked(copyOf, st', t') && BatchesLinked(copyOf, st', t')
            && QueuesLinked(copyOf + [e], st', t')
  {
    var st', t' := st.(queues := st.queues[step := |st.cells|]), t.(queues := t.queues[step := e]);
    SameBatches(copyOf, st, t, st', t');
    SameCalls(copyOf, st, t, st', t');
  }

  // ---------- The items ----------

  ghost function Records(raw: seq<Entry>): (rs: seq<Record>)
    reads raw
    ensures |rs| == |raw| && forall i :: 0 <= i < |raw| ==> rs[i] == raw[i].record
  {
    seq(|raw|, i requires 0 <= i < |raw| reads raw => raw[i].record)
  }

  ghost function Headings(raw: seq<Entry>): (hs: seq<string>)
    reads raw
    ensures |hs| == |raw| && forall i :: 0 <= i < |raw| ==> hs[i] == raw[i].heading
  {
    seq(|raw|, i requires 0 <= i < |raw| reads raw => raw[i].heading)
  }

  lemma ScanNext(rs: seq<Record>, i: nat)
    requires i < |rs|
    ensures Scan(rs[..i + 1]) == Step(Scan(rs[..i]), rs[i])
  {
    assert rs[..i + 1][..i] == rs[..i];
  }

  lemma NothingLinked()
    ensures AllShow([], [], BLANK.cells) && Linked([], BLANK, Tables([], map[], map[], {}, map[]))
  {
  }

  /** Each copy was made in this build, or kept from the last one for the same record. */
  ghost predicate Copied(raw: seq<Entry>, copyOf: seq<Entry>, kept: map<Entry, Entry>, made: set<Entry>) {
    && |copyOf| <= |raw|
    && forall k :: 0 <= k < |copyOf| ==> copyOf[k] in made || (raw[k] in kept && copyOf[k] == kept[raw[k]])
  }

  lemma CopiedNext(raw: seq<Entry>, copyOf: seq<Entry>, kept: map<Entry, Entry>, made: set<Entry>, e: Entry)
    requires Copied(raw, copyOf, kept, made) && |copyOf| < |raw|
    ensures Copied(raw, copyOf + [e], kept, made + {e})
    ensures raw[|copyOf|] in kept && e == kept[raw[|copyOf|]] ==> Copied(raw, copyOf + [e], kept, made)
  {
  }

  /** A kept copy is not yet in use. */
  lemma NotYetUsed(raw: seq<Entry>, copyOf: seq<Entry>, kept: map<Entry, Entry>, made: set<Entry>)
    requires Copied(raw, copyOf, kept, made) && |copyOf| < |raw| && NoRepeats(raw) && Injective(kept)
    requires made !! kept.Values
    ensures raw[|copyOf|] in kept ==> kept[raw[|copyOf|]] !in copyOf
  {
  }

  lemma CopiedWithin(raw: seq<Entry>, copyOf: seq<Entry>, kept: map<Entry, Entry>, made: set<Entry>)
    requires Copied(raw, copyOf, kept, made)
    ensures forall k :: 0 <= k < |copyOf| ==> copyOf[k] in made + kept.Values
  {
  }

  ghost predicate Registered(next: map<Entry, Entry>, raw: seq<Entry>, copyOf: seq<Entry>) {
    && |copyOf| <= |raw|
    && next.Keys == Elements(raw[..|copyOf|])
    && forall k :: 0 <= k < |copyOf| ==> next[raw[k]] == copyOf[k]
  }

  lemma RegisteredNext(next: map<Entry, Entry>, raw: seq<Entry>, copyOf: seq<Entry>, e: Entry)
    requires Registered(next, raw, copyOf) && |copyOf| < |raw| && NoRepeats(raw)
    ensures Registered(next[raw[|copyOf|] := e], raw, copyOf + [e])
  {
    assert raw[..|copyOf| + 1] == raw[..|copyOf|] + [raw[|copyOf|]];
  }

  /** Copies a record and scans the copy. */
  method ScanRound(c: EntryCopies?, original: Entry, t0: Tables, ghost copyOf: seq<Entry>,
                   ghost headings: seq<string>, ghost st: State)
    returns (t: Tables, e: Entry)
    requires InTranscript(original) && original !in copyOf
    requires c != null && original in c.copies ==> c.copies[original] != original && c.copies[original] !in copyOf
    requires AllShow(copyOf, headings, st.cells) && Linked(copyOf, st, t0) && InRange(st)
    modifies if c != null then {c} else {}, if c != null && original in c.copies then {c.copies[original]} else {}, copyOf
    ensures if c != null && original in old(c.copies) then e == old(c.copies)[original] else fresh(e)
    ensures AllShow(copyOf + [e], headings + [original.heading], Step(st, original.record).cells)
    ensures Linked(copyOf + [e], Step(st, original.record), t)
    ensures c != null ==> c.next == old(c.next)[original := e]
    ensures c != null ==> c.copies == old(c.copies) && c.groups == old(c.groups) && c.nextGroups == old(c.nextGroups)
  {
    hide InRange, Step, AllShow, Linked;
    e := CopyOf(c, original);
    t := ScanEntry(t0, e, copyOf, headings, st);
  }

  /** The scan after the first records of `raw`, whose contents were `rs` and `hs`. */
  ghost predicate ScanState(c: EntryCopies?, kept: map<Entry, Entry>, made: set<Entry>, raw: seq<Entry>,
                            copyOf: seq<Entry>,
                            t: Tables, rs: seq<Record>, hs: seq<string>)
    reads c, copyOf
  {
    && |copyOf| <= |raw| == |rs| == |hs|
    && (c != null ==> c.copies == kept && Registered(c.next, raw, copyOf))
    && Copied(raw, copyOf, kept, made)
    && AllShow(copyOf, hs[..|copyOf|], Scan(rs[..|copyOf|]).cells)
    && Linked(copyOf, Scan(rs[..|copyOf|]), t)
  }

  method ScanMore(c: EntryCopies?, ghost kept: map<Entry, Entry>, ghost made0: set<Entry>, raw: seq<Entry>, i: nat,
                  ghost copyOf0: seq<Entry>,
                  t0: Tables, ghost rs: seq<Record>, ghost hs: seq<string>)
    returns (t: Tables, ghost copyOf: seq<Entry>, ghost made: set<Entry>)
    requires NoRepeats(raw) && Injective(kept) && made0 !! kept.Values && (c == null ==> kept == map[])
    requires ScanState(c, kept, made0, raw, copyOf0, t0, rs, hs) && i == |copyOf0| < |raw|
    requires InTranscript(raw[i]) && raw[i].record == rs[i] && raw[i].heading == hs[i] && raw[i] !in made0 + kept.Values
    modifies if c != null then {c} else {}, made0, kept.Values
    ensures ScanState(c, kept, made, raw, copyOf, t, rs, hs) && |copyOf| == i + 1 && fresh(made - made0)
    ensures c != null ==> c.groups == old(c.groups) && c.nextGroups == old(c.nextGroups)
  {
    hide InRange, Step, AllShow, Linked, Copied, Registered, Injective, NoRepeats;
    ScanNext(rs, i);
    assert hs[..i + 1] == hs[..i] + [hs[i]];
    NotYetUsed(raw, copyOf0, kept, made0);
    CopiedWithin(raw, copyOf0, kept, made0);
    var e;
    t, e := ScanRound(c, raw[i], t0, copyOf0, hs[..i], Scan(rs[..i]));
    CopiedNext(raw, copyOf0, kept, made0, e);
    if c != null { RegisteredNext(old(c.next), raw, copyOf0, e); }
    made := if raw[i] in kept then made0 else made0 + {e};
    copyOf := copyOf0 + [e];
  }

  method BuildItems(raw: seq<Entry>, c: EntryCopies?)
    returns (items: seq<Entry>, ghost copyOf: seq<Entry>, ghost made: set<Entry>)
    requires NoRepeats(raw) && forall o :: o in raw ==> InTranscript(o)
    requires c != null ==> Injective(c.copies) && c.next == map[] && forall o :: o in raw ==> o !in c.copies.Values
    modifies if c != null then {c} else {}, if c != null then c.copies.Values else {}
    ensures c != null ==> c.copies == old(c.copies) && c.groups == old(c.groups) && c.nextGroups == old(c.nextGroups)
    ensures AllShow(copyOf, Headings(raw), Scan(Records(raw)).cells)
    ensures ItemsLinked(copyOf, Scan(Records(raw)), Tables(items, map[], map[], {}, map[]))
    ensures fresh(made) && |copyOf| == |raw| && Copied(raw, copyOf, if c != null then c.copies else map[], made)
    ensures c != null ==> Registered(c.next, raw, copyOf)
  {
    hide AllShow, ItemsLinked, Copied, Registered, Injective, NoRepeats, ScanState, Scan;
    ghost var rs, hs, kept := Records(raw), Headings(raw), if c != null then c.copies else map[];
    var t := Tables([], map[], map[], {}, map[]);
    copyOf, made := [], {};
    NothingScanned(c, kept, raw, rs, hs);
    for i: nat := 0 to |raw|
      invariant ScanState(c, kept, made, raw, copyOf, t, rs, hs) && |copyOf| == i && fresh(made)
      invariant c != null ==> c.groups == old(c.groups) && c.nextGroups == old(c.nextGroups)
    {
      assert raw[i] in raw;
      t, copyOf, made := ScanMore(c, kept, made, raw, i, copyOf, t, rs, hs);
    }
    items := t.items;
    AllScanned(c, kept, made, raw, copyOf, t, rs, hs);
  }

  lemma NothingScanned(c: EntryCopies?, kept: map<Entry, Entry>, raw: seq<Entry>, rs: seq<Record>, hs: seq<string>)
    requires |raw| == |rs| == |hs| && (c != null ==> c.copies == kept && c.next == map[])
    ensures ScanState(c, kept, {}, raw, [], Tables([], map[], map[], {}, map[]), rs, hs)
    ensures kept == map[] ==> Injective(kept)
  {
    hide AllShow, Linked, Copied, Registered;
    NothingLinked();
    NothingCopied(raw, kept);
    assert rs[..0] == [] && hs[..0] == [];
  }

  lemma AllScanned(c: EntryCopies?, kept: map<Entry, Entry>, made: set<Entry>, raw: seq<Entry>, copyOf: seq<Entry>,
                   t: Tables, rs: seq<Record>, hs: seq<string>)
    requires ScanState(c, kept, made, raw, copyOf, t, rs, hs) && |copyOf| == |raw|
    ensures AllShow(copyOf, hs, Scan(rs).cells) && Copied(raw, copyOf, kept, made)
    ensures ItemsLinked(copyOf, Scan(rs), Tables(t.items, map[], map[], {}, map[]))
    ensures c != null ==> c.copies == kept && Registered(c.next, raw, copyOf)
  {
    hide AllShow, Linked, ItemsLinked, Copied, Registered, Scan;
    assert rs[..|raw|] == rs && hs[..|raw|] == hs;
    SameItems(copyOf, Scan(rs), t);
  }

  lemma NothingCopied(raw: seq<Entry>, kept: map<Entry, Entry>)
    ensures Copied(raw, [], kept, {}) && Registered(map[], raw, []) && Injective<Entry, Entry>(map[])
  {
  }

  lemma SameItems(copyOf: seq<Entry>, st: State, t: Tables)
    requires Linked(copyOf, st, t)
    ensures ItemsLinked(copyOf, st, Tables(t.items, map[], map[], {}, map[]))
  {
  }

  // ---------- The rows ----------

  /** An entry shows a row: the copy itself, or a card of the copies of its members. */
  ghost predicate RowShows(e: Entry, row: Row, copyOf: seq<Entry>, cells: seq<Cell>)
    reads e
  {
    match row
    case Single(i) => i < |copyOf| && e == copyOf[i]
    case Group(m) =>
      && m != [] && m[0] < |cells| && (forall k :: 0 <= k < |m| ==> m[k] < |copyOf|)
      && e !in copyOf && e.record == CardRecord(cells[m[0]].record)
      && !e.settled && e.heading == "" && e.details == [] && e.process == Pick(copyOf, m)
  }

  ghost predicate Apart(out: seq<Entry>, rows: seq<Row>)
    requires |out| == |rows|
  {
    forall j, k :: 0 <= j < k < |rows| && rows[j].Group? && rows[k].Group? ==> out[j] != out[k]
  }

  ghost predicate RowsShow(out: seq<Entry>, rows: seq<Row>, copyOf: seq<Entry>, cells: seq<Cell>)
    reads out
  {
    && |out| == |rows| && Apart(out, rows)
    && forall k :: 0 <= k < |rows| ==> RowShows(out[k], rows[k], copyOf, cells)
  }

  /** The copy a card starts with. */
  ghost predicate StartsWith(row: Row, copyOf: seq<Entry>, x: Entry) {
    row.Group? && row.members != [] && row.members[0] < |copyOf| && copyOf[row.members[0]] == x
  }

  /** Each card was made in this build, or kept from the last one for the same first copy. */
  ghost predicate CardsFrom(out: seq<Entry>, rows: seq<Row>, copyOf: seq<Entry>, kept: map<Entry, Entry>,
                            made: set<Entry>) {
    && |out| == |rows|
    && forall k :: 0 <= k < |rows| && rows[k].Group? ==>
         out[k] in made || (exists x :: x in kept && StartsWith(rows[k], copyOf, x) && out[k] == kept[x])
  }

  /** The cards are registered under their first copies. */
  ghost predicate CardsRegistered(next: map<Entry, Entry>, out: seq<Entry>, rows: seq<Row>, copyOf: seq<Entry>) {
    && |out| == |rows|
    && forall x :: x in next ==> exists k :: 0 <= k < |rows| && StartsWith(rows[k], copyOf, x) && next[x] == out[k]
  }

  /** Cells keep what grouping looks at. */
  ghost predicate KindsKept(cells: seq<Cell>, rs: seq<Record>) {
    && |cells| == |rs|
    && forall i :: 0 <= i < |rs| ==>
         cells[i].record.kind == rs[i].kind && cells[i].record.user == rs[i].user && cells[i].record.step == rs[i].step
  }

  ghost predicate RowsState(c: EntryCopies?, kept: map<Entry, Entry>, made: set<Entry>, out: seq<Entry>, rows: seq<Row>,
                            copyOf: seq<Entry>, cells: seq<Cell>)
    reads c, out
  {
    && (c != null ==> c.groups == kept && CardsRegistered(c.nextGroups, out, rows, copyOf))
    && CardsFrom(out, rows, copyOf, kept, made)
    && RowsShow(out, rows, copyOf, cells)
  }

  /** Whether the last row is a card that takes the entry. */
  method TakesEntry(out: seq<Entry>, e: Entry, ghost rows: seq<Row>, ghost copyOf: seq<Entry>, ghost hs: seq<string>,
                    ghost cells: seq<Cell>, ghost rs: seq<Record>, ghost x: nat) returns (takes: bool)
    requires RowsShow(out, rows, copyOf, cells) && AllShow(copyOf, hs, cells) && KindsKept(cells, rs)
    requires x < |copyOf| && e == copyOf[x] && Process(rs[x])
    ensures takes <==> Takes(rs, rows, x)
  {
    hide Process, Apart, CardRecord;
    takes := false;
    assert Shows(e, hs[x], cells[x], copyOf);
    if |out| > 0 {
      var previous := out[|out| - 1];
      assert RowShows(previous, rows[|rows| - 1], copyOf, cells);
      assert rows[|rows| - 1].Single? ==> Shows(previous, hs[rows[|rows| - 1].item], cells[rows[|rows| - 1].item], copyOf);
      if |previous.process| > 0 {
        CardLooks(previous, rows[|rows| - 1], copyOf, hs, cells, rs);
        takes := previous.record.step == e.record.step && previous.process[0].record.kind.Reasoning? == e.record.kind.Reasoning?;
      }
    }
  }

  lemma CardLooks(card: Entry, row: Row, copyOf: seq<Entry>, hs: seq<string>, cells: seq<Cell>, rs: seq<Record>)
    requires RowShows(card, row, copyOf, cells) && row.Group? && AllShow(copyOf, hs, cells) && KindsKept(cells, rs)
    ensures var f := row.members[0];
            card.record.step == rs[f].step && card.process != [] && card.process[0].record.kind == rs[f].kind
  {
    var f := row.members[0];
    assert Shows(copyOf[f], hs[f], cells[f], copyOf);
  }

  lemma RowGrown(card: Entry, m: seq<nat>, copyOf: seq<Entry>, cells: seq<Cell>, x: nat)
    requires m != [] && m[0] < |cells| && (forall k :: 0 <= k < |m| ==> m[k] < |copyOf|) && x < |copyOf|
    requires card !in copyOf && card.record == CardRecord(cells[m[0]].record)
    requires !card.settled && card.heading == "" && card.details == [] && card.process == Pick(copyOf, m) + [copyOf[x]]
    ensures RowShows(card, Group(m + [x]), copyOf, cells)
  {
    assert Pick(copyOf, m + [x]) == Pick(copyOf, m) + [copyOf[x]];
  }

  lemma CardsGrown(out: seq<Entry>, rows: seq<Row>, copyOf: seq<Entry>, kept: map<Entry, Entry>, made: set<Entry>,
                   x: nat)
    requires CardsFrom(out, rows, copyOf, kept, made) && rows != [] && rows[|rows| - 1].Group?
    requires rows[|rows| - 1].members != []
    ensures CardsFrom(out, rows[..|rows| - 1] + [Group(rows[|rows| - 1].members + [x])], copyOf, kept, made)
  {
    var n := |rows| - 1;
    forall y ensures StartsWith(rows[n], copyOf, y) ==> StartsWith(Group(rows[n].members + [x]), copyOf, y) {}
  }

  lemma RegisteredGrown(next: map<Entry, Entry>, out: seq<Entry>, rows: seq<Row>, copyOf: seq<Entry>, x: nat)
    requires CardsRegistered(next, out, rows, copyOf) && rows != [] && rows[|rows| - 1].Group?
    requires rows[|rows| - 1].members != []
    ensures CardsRegistered(next, out, rows[..|rows| - 1] + [Group(rows[|rows| - 1].members + [x])], copyOf)
  {
    var n := |rows| - 1;
    var grown := rows[..n] + [Group(rows[n].members + [x])];
    forall y | y in next ensures exists k :: 0 <= k < |grown| && StartsWith(grown[k], copyOf, y) && next[y] == out[k] {
      var k :| 0 <= k < |rows| && StartsWith(rows[k], copyOf, y) && next[y] == out[k];
      assert StartsWith(grown[k], copyOf, y);
    }
  }

  /** The last card takes the entry. */
  method GrowCard(c: EntryCopies?, out: seq<Entry>, e: Entry, ghost kept: map<Entry, Entry>, ghost made: set<Entry>,
                  ghost rows: seq<Row>,
                  ghost copyOf: seq<Entry>, ghost cells: seq<Cell>, ghost x: nat)
    requires RowsState(c, kept, made, out, rows, copyOf, cells) && x < |copyOf| && e == copyOf[x]
    requires rows != [] && rows[|rows| - 1].Group?
    modifies out[|out| - 1]
    ensures RowsState(c, kept, made, out, rows[..|rows| - 1] + [Group(rows[|rows| - 1].members + [x])], copyOf, cells)
    ensures out[|out| - 1].record == old(out[|out| - 1].record)
  {
    hide CardsFrom, CardsRegistered;
    ghost var n := |rows| - 1;
    ghost var m := rows[n].members;
    var card := out[|out| - 1];
    assert RowShows(card, rows[n], copyOf, cells);
    CardsGrown(out, rows, copyOf, kept, made, x);
    if c != null { RegisteredGrown(c.nextGroups, out, rows, copyOf, x); }
    card.process := card.process + [e];
    RowGrown(card, m, copyOf, cells, x);
    ghost var grown := rows[..n] + [Group(m + [x])];
    forall k | 0 <= k < |grown| ensures RowShows(out[k], grown[k], copyOf, cells) {
      if k < n { assert old(RowShows(out[k], rows[k], copyOf, cells)); }
    }
  }

  /** A row is added at the end. */
  lemma RowAdded(out: seq<Entry>, rows: seq<Row>, e: Entry, row: Row, copyOf: seq<Entry>, cells: seq<Cell>)
    requires RowsShow(out, rows, copyOf, cells) && RowShows(e, row, copyOf, cells)
    requires row.Group? ==> forall k :: 0 <= k < |rows| && rows[k].Group? ==> out[k] != e
    ensures RowsShow(out + [e], rows + [row], copyOf, cells)
  {
    hide RowShows;
  }

  lemma CardAdded(out: seq<Entry>, rows: seq<Row>, e: Entry, row: Row, copyOf: seq<Entry>, kept: map<Entry, Entry>,
                  made: set<Entry>)
    requires CardsFrom(out, rows, copyOf, kept, made)
    ensures row.Single? ==> CardsFrom(out + [e], rows + [row], copyOf, kept, made)
    ensures CardsFrom(out + [e], rows + [row], copyOf, kept, made + {e})
    ensures forall x :: x in kept && e == kept[x] && StartsWith(row, copyOf, x) ==> CardsFrom(out + [e], rows + [row], copyOf, kept, made)
  {
  }

  lemma RegisteredAdded(next: map<Entry, Entry>, out: seq<Entry>, rows: seq<Row>, e: Entry, row: Row,
                        copyOf: seq<Entry>)
    requires CardsRegistered(next, out, rows, copyOf)
    ensures CardsRegistered(next, out + [e], rows + [row], copyOf)
    ensures forall x :: StartsWith(row, copyOf, x) ==> CardsRegistered(next[x := e], out + [e], rows + [row], copyOf)
  {
    var more, rows' := out + [e], rows + [row];
    forall y | y in next ensures exists k :: 0 <= k < |rows'| && StartsWith(rows'[k], copyOf, y) && next[y] == more[k] {
      var k :| 0 <= k < |rows| && StartsWith(rows[k], copyOf, y) && next[y] == out[k];
      assert rows'[k] == rows[k] && more[k] == out[k];
    }
    assert rows'[|rows|] == row && more[|rows|] == e;
  }

  /** Kept cards carry the keys of the records their first copies stand for. */
  ghost predicate KeysFit(kept: map<Entry, Entry>, copyOf: seq<Entry>, rs: seq<Record>)
    reads kept.Values
  {
    && |copyOf| == |rs|
    && forall k :: 0 <= k < |copyOf| && copyOf[k] in kept ==> kept[copyOf[k]].record.key == "process/" + rs[k].key
  }

  /** Kept cards are distinct, and neither copies nor made in this build. */
  ghost predicate CardsApart(kept: map<Entry, Entry>, made: set<Entry>, copyOf: seq<Entry>) {
    && Injective(kept) && made !! kept.Values
    && forall k :: 0 <= k < |copyOf| ==> copyOf[k] !in kept.Values && copyOf[k] !in made
  }

  ghost predicate NoCardStartsAt(rows: seq<Row>, x: nat) {
    forall k :: 0 <= k < |rows| && rows[k].Group? && rows[k].members != [] ==> rows[k].members[0] != x
  }

  /** The card kept for a copy is not in use before the copy is placed. */
  lemma CardUnused(out: seq<Entry>, rows: seq<Row>, copyOf: seq<Entry>, kept: map<Entry, Entry>, made: set<Entry>,
                   x: nat)
    requires CardsFrom(out, rows, copyOf, kept, made) && CardsApart(kept, made, copyOf) && NoRepeats(copyOf)
    requires NoCardStartsAt(rows, x)
    requires x < |copyOf| && copyOf[x] in kept
    ensures forall k :: 0 <= k < |rows| && rows[k].Group? ==> out[k] != kept[copyOf[x]]
  {
    forall k | 0 <= k < |rows| && rows[k].Group? ensures out[k] != kept[copyOf[x]] {
      if out[k] !in made {
        var y :| y in kept && StartsWith(rows[k], copyOf, y) && out[k] == kept[y];
        assert y != copyOf[x];
      }
    }
  }

  lemma CardsWithin(out: seq<Entry>, rows: seq<Row>, copyOf: seq<Entry>, kept: map<Entry, Entry>, made: set<Entry>)
    requires CardsFrom(out, rows, copyOf, kept, made)
    ensures forall k :: 0 <= k < |rows| && rows[k].Group? ==> out[k] in made + kept.Values
  {
  }

  /** A new card, or the one kept for the entry, starts a row. */
  method StartCard(c: EntryCopies?, out0: seq<Entry>, e: Entry, ghost kept: map<Entry, Entry>,
                   ghost made0: set<Entry>, ghost rows: seq<Row>,
                   ghost copyOf: seq<Entry>, ghost cells: seq<Cell>, ghost x: nat, ghost rs: seq<Record>)
    returns (out: seq<Entry>, ghost made: set<Entry>)
    requires RowsState(c, kept, made0, out0, rows, copyOf, cells) && x < |copyOf| == |cells| && e == copyOf[x]
    requires c == null ==> kept == map[]
    requires CardsApart(kept, made0, copyOf) && NoRepeats(copyOf) && NoCardStartsAt(rows, x)
    requires KeysFit(kept, copyOf, rs) && cells[x].record.key == rs[x].key && e.record == cells[x].record
    modifies if c != null then {c} else {}, if e in kept then {kept[e]} else {}
    ensures RowsState(c, kept, made, out, rows + [Group([x])], copyOf, cells)
    ensures fresh(made - made0) && CardsApart(kept, made, copyOf) && KeysFit(kept, copyOf, rs)
    ensures c != null ==> c.copies == old(c.copies) && c.next == old(c.next)
  {
    hide CardsFrom, CardsRegistered, StartsWith;
    CardsWithin(out0, rows, copyOf, kept, made0);
    if e in kept { CardUnused(out0, rows, copyOf, kept, made0, x); }
    var g := CardOf(c, e);
    out := out0 + [g];
    made := if e in kept then made0 else made0 + {g};
    assert Pick(copyOf, [x]) == [e];
    CardAdded(out0, rows, g, Group([x]), copyOf, kept, made0);
    assert StartsWith(Group([x]), copyOf, e) by { StartsSelf(copyOf, x); }
    if c != null { RegisteredAdded(old(c.nextGroups), out0, rows, g, Group([x]), copyOf); }
    forall k | 0 <= k < |rows| ensures RowShows(out0[k], rows[k], copyOf, cells) {
      assert old(RowShows(out0[k], rows[k], copyOf, cells));
    }
    RowAdded(out0, rows, g, Group([x]), copyOf, cells);
  }

  lemma StartsSelf(copyOf: seq<Entry>, x: nat)
    requires x < |copyOf|
    ensures StartsWith(Group([x]), copyOf, copyOf[x])
  {
  }

  /** What placing the items needs to know, apart from the rows themselves. */
  ghost predicate PlacingState(kept: map<Entry, Entry>, made: set<Entry>, copyOf: seq<Entry>, hs: seq<string>,
                               st: State, rs: seq<Record>)
    reads copyOf, kept.Values
  {
    && AllShow(copyOf, hs, st.cells) && KindsKept(st.cells, rs) && KeysFit(kept, copyOf, rs) && CardsApart(kept, made, copyOf)
    && forall k :: 0 <= k < |rs| && Process(rs[k]) ==> st.cells[k].record.key == rs[k].key
  }

  lemma ProcessKept(cells: seq<Cell>, rs: seq<Record>, x: nat)
    requires KindsKept(cells, rs) && x < |rs|
    ensures Process(cells[x].record) == Process(rs[x])
  {
  }

  /** One item takes its place in the rows. */
  method PlaceEntry(c: EntryCopies?, out0: seq<Entry>, e: Entry, ghost kept: map<Entry, Entry>,
                    ghost made0: set<Entry>, ghost rows: seq<Row>,
                    ghost copyOf: seq<Entry>, ghost hs: seq<string>, ghost st: State, ghost x: nat,
                    ghost rs: seq<Record>)
    returns (out: seq<Entry>, ghost made: set<Entry>)
    requires RowsState(c, kept, made0, out0, rows, copyOf, st.cells) && PlacingState(kept, made0, copyOf, hs, st, rs)
    requires x < |copyOf| && e == copyOf[x] && NoCardStartsAt(rows, x) && (c == null ==> kept == map[])
    modifies if c != null then {c} else {}, made0 + kept.Values
    ensures RowsState(c, kept, made, out, WithItem(rs, rows, x), copyOf, st.cells)
    ensures PlacingState(kept, made, copyOf, hs, st, rs)
    ensures fresh(made - made0)
    ensures c != null ==> c.copies == old(c.copies) && c.next == old(c.next)
  {
    hide CardsFrom, CardsRegistered, Process, Together, RowShows, Apart;
    assert Shows(e, hs[x], st.cells[x], copyOf);
    ProcessKept(st.cells, rs, x);
    CardsWithin(out0, rows, copyOf, kept, made0);
    made := made0;
    if !Process(e.record) {
      out := out0 + [e];
      SingleAdded(c, kept, made, out0, rows, copyOf, st.cells, x);
      return;
    }
    var takes := TakesEntry(out0, e, rows, copyOf, hs, st.cells, rs, x);
    if takes {
      out := out0;
      GrowCard(c, out, e, kept, made, rows, copyOf, st.cells, x);
    } else {
      out, made := StartCard(c, out0, e, kept, made, rows, copyOf, st.cells, x, rs);
    }
  }

  lemma SingleAdded(c: EntryCopies?, kept: map<Entry, Entry>, made: set<Entry>, out: seq<Entry>, rows: seq<Row>,
                    copyOf: seq<Entry>, cells: seq<Cell>, x: nat)
    requires RowsState(c, kept, made, out, rows, copyOf, cells) && x < |copyOf|
    ensures RowsState(c, kept, made, out + [copyOf[x]], rows + [Single(x)], copyOf, cells)
  {
    hide CardsFrom, CardsRegistered;
    RowAdded(out, rows, copyOf[x], Single(x), copyOf, cells);
    CardAdded(out, rows, copyOf[x], Single(x), copyOf, kept, made);
    if c != null { RegisteredAdded(c.nextGroups, out, rows, copyOf[x], Single(x), copyOf); }
  }

  lemma ItemsInside(rs: seq<Record>)
    ensures AllIn(rs, Scan(rs).items) && Sorted(Scan(rs).items)
  {
    EveryRecordOnce(rs);
    var st := Scan(rs);
    assert forall k :: 0 <= k < |st.items| ==> st.items[k] in st.items;
  }

  /** The rows of the conversation of some records. */
  ghost function Rows(rs: seq<Record>): seq<Row> {
    ItemsInside(rs);
    Grouped(rs, Scan(rs).items)
  }

  lemma CellsKept(rs: seq<Record>)
    ensures KindsKept(Scan(rs).cells, rs)
    ensures forall k :: 0 <= k < |rs| && Process(rs[k]) ==> Scan(rs).cells[k].record.key == rs[k].key
  {
    RowsAreFaithful(rs);
    var st := Scan(rs);
    forall k | 0 <= k < |rs|
      ensures st.cells[k].record.kind == rs[k].kind && st.cells[k].record.user == rs[k].user
      ensures st.cells[k].record.step == rs[k].step
      ensures Process(rs[k]) ==> st.cells[k].record.key == rs[k].key
    {
      assert ShowsOutcome(rs, k, st.cells[k]);
    }
  }

  /** No card placed so far starts at the next item. */
  lemma NextUnused(rs: seq<Record>, items: seq<nat>, n: nat)
    requires AllIn(rs, items) && Sorted(items) && n < |items|
    ensures AllIn(rs, items[..n]) && NoCardStartsAt(Grouped(rs, items[..n]), items[n])
    ensures Grouped(rs, items[..n + 1]) == WithItem(rs, Grouped(rs, items[..n]), items[n])
  {
    hide WithItem, Arrangement;
    assert items[..n + 1][..n] == items[..n];
    GroupsAreMaximal(rs, items[..n]);
    var rows := Grouped(rs, items[..n]);
    forall k | 0 <= k < |rows| && rows[k].Group? && rows[k].members != [] ensures rows[k].members[0] != items[n] {
      MembersInside(rows, k);
      assert rows[k].members[0] in Members(rows[k]);
    }
  }

  method BuildRows(items: seq<Entry>, c: EntryCopies?, ghost kept: map<Entry, Entry>, ghost copyOf: seq<Entry>,
                   ghost hs: seq<string>,
                   ghost rs: seq<Record>)
    returns (out: seq<Entry>, ghost made: set<Entry>)
    requires PlacingState(kept, {}, copyOf, hs, Scan(rs), rs) && (c == null ==> kept == map[])
    requires ItemsLinked(copyOf, Scan(rs), Tables(items, map[], map[], {}, map[]))
    requires c != null ==> c.groups == kept && c.nextGroups == map[]
    modifies if c != null then {c} else {}, kept.Values
    ensures RowsState(c, kept, made, out, Rows(rs), copyOf, Scan(rs).cells)
    ensures PlacingState(kept, made, copyOf, hs, Scan(rs), rs)
    ensures fresh(made)
    ensures c != null ==> c.copies == old(c.copies) && c.next == old(c.next)
  {
    hide CardsFrom, CardsRegistered, PlacingState, RowsShow, WithItem, NoCardStartsAt;
    ghost var st := Scan(rs);
    ItemsInside(rs);
    out, made := [], {};
    NoRows(copyOf, kept, st.cells);
    for n: nat := 0 to |items|
      invariant RowsState(c, kept, made, out, Grouped(rs, st.items[..n]), copyOf, st.cells)
      invariant PlacingState(kept, made, copyOf, hs, st, rs)
      invariant fresh(made)
      invariant c != null ==> c.copies == old(c.copies) && c.next == old(c.next)
    {
      NextUnused(rs, st.items, n);
      ghost var more;
      out, more := PlaceEntry(c, out, items[n], kept, made, Grouped(rs, st.items[..n]), copyOf, hs, st, st.items[n], rs);
      made := more;
    }
    assert st.items[..|items|] == st.items;
  }

  lemma NoRows(copyOf: seq<Entry>, kept: map<Entry, Entry>, cells: seq<Cell>)
    ensures CardsFrom([], [], copyOf, kept, {}) && CardsRegistered(map[], [], [], copyOf)
    ensures RowsShow([], [], copyOf, cells)
  {
  }

  // ---------- The build ----------

  /** The entries show the conversation of the records, with the given headings. */
  ghost predicate Built(out: seq<Entry>, copyOf: seq<Entry>, rs: seq<Record>, hs: seq<string>)
    reads out, copyOf
  {
    AllShow(copyOf, hs, Scan(rs).cells) && RowsShow(out, Rows(rs), copyOf, Scan(rs).cells)
  }

  lemma NothingMade(raw: seq<Entry>, copyOf: seq<Entry>, kept: map<Entry, Entry>, groups: map<Entry, Entry>,
                    made: set<Entry>)
    requires Copied(raw, copyOf, kept, made) && Injective(groups) && kept.Values !! groups.Values
    requires made !! groups.Values
    ensures CardsApart(groups, {}, copyOf)
  {
  }

  /** The kept cards of the kept copies carry the keys of the records. */
  ghost predicate KeysReady(raw: seq<Entry>, kept: map<Entry, Entry>, groups: map<Entry, Entry>, rs: seq<Record>)
    reads groups.Values
  {
    && |raw| == |rs|
    && forall k :: 0 <= k < |raw| && raw[k] in kept && kept[raw[k]] in groups ==>
         groups[kept[raw[k]]].record.key == "process/" + rs[k].key
  }

  lemma NothingFits()
    ensures Fit(map[], map[])
  {
  }

  lemma FitKeys(raw: seq<Entry>, kept: map<Entry, Entry>, groups: map<Entry, Entry>, rs: seq<Record>)
    requires Fit(kept, groups) && |raw| == |rs| && forall k :: 0 <= k < |raw| ==> rs[k] == raw[k].record
    ensures KeysReady(raw, kept, groups, rs) && Injective(kept) && Injective(groups) && kept.Values !! groups.Values
  {
    hide Injective;
  }

  lemma KeysKept(raw: seq<Entry>, copyOf: seq<Entry>, kept: map<Entry, Entry>, groups: map<Entry, Entry>,
                 made: set<Entry>, rs: seq<Record>)
    requires Copied(raw, copyOf, kept, made) && |copyOf| == |raw| && made !! groups.Keys
    requires KeysReady(raw, kept, groups, rs)
    ensures KeysFit(groups, copyOf, rs)
  {
  }

  lemma FirstIsProcess(rs: seq<Record>, k: nat)
    requires k < |Rows(rs)| && Rows(rs)[k].Group?
    ensures var m := Rows(rs)[k].members; m != [] && m[0] < |rs| && Process(rs[m[0]])
  {
    ItemsInside(rs);
    GroupsAreMaximal(rs, Scan(rs).items);
    assert ProperRow(rs, Rows(rs)[k]);
  }

  /** After a build the copies and cards are again fit for the next one. */
  lemma CacheValid(copies: map<Entry, Entry>, groups: map<Entry, Entry>, raw: seq<Entry>, out: seq<Entry>,
                   copyOf: seq<Entry>,
                   rs: seq<Record>, hs: seq<string>)
    requires Registered(copies, raw, copyOf) && |copyOf| == |raw| == |rs|
    requires CardsRegistered(groups, out, Rows(rs), copyOf) && Built(out, copyOf, rs, hs)
    requires forall k :: 0 <= k < |raw| ==> raw[k].record == rs[k]
    ensures Fit(copies, groups)
    ensures forall e :: e in copies.Values + groups.Values ==> e in copyOf || e in out
  {
    hide Injective, CardsRegistered, Registered, Built, Rows;
    BuiltApart(out, copyOf, rs, hs);
    CopiesDistinct(copies, raw, copyOf);
    CardsDistinct(groups, raw, out, copyOf, rs, hs);
    forall o | o in copies && copies[o] in groups ensures groups[copies[o]].record.key == "process/" + o.record.key {
      var i := CopyIndex(copies, raw, copyOf, o);
      CardOfCopy(groups, out, copyOf, rs, hs, i);
    }
  }

  lemma BuiltApart(out: seq<Entry>, copyOf: seq<Entry>, rs: seq<Record>, hs: seq<string>)
    requires Built(out, copyOf, rs, hs)
    ensures NoRepeats(copyOf)
  {
    hide Rows, NoRepeats, RowsShow, Scan;
  }

  lemma CopyIndex(copies: map<Entry, Entry>, raw: seq<Entry>, copyOf: seq<Entry>, o: Entry) returns (i: nat)
    requires Registered(copies, raw, copyOf) && |copyOf| == |raw| && o in copies
    ensures i < |raw| && raw[i] == o && copies[o] == copyOf[i]
  {
    i :| 0 <= i < |raw| && raw[i] == o;
  }

  lemma CopiesDistinct(copies: map<Entry, Entry>, raw: seq<Entry>, copyOf: seq<Entry>)
    requires Registered(copies, raw, copyOf) && |copyOf| == |raw| && NoRepeats(copyOf)
    ensures Injective(copies)
    ensures forall o :: o in copies ==> copies[o] in copyOf
  {
    forall a | a in copies ensures copies[a] in copyOf {
      var i :| 0 <= i < |raw| && raw[i] == a;
    }
    forall a, b | a in copies && b in copies && copies[a] == copies[b] ensures a == b {
      var i :| 0 <= i < |raw| && raw[i] == a;
      var j :| 0 <= j < |raw| && raw[j] == b;
    }
  }

  lemma CardsDistinct(groups: map<Entry, Entry>, raw: seq<Entry>, out: seq<Entry>, copyOf: seq<Entry>,
                      rs: seq<Record>, hs: seq<string>)
    requires CardsRegistered(groups, out, Rows(rs), copyOf) && Built(out, copyOf, rs, hs)
    ensures Injective(groups)
    ensures forall g :: g in groups.Values ==> g !in copyOf && g in out
  {
    hide AllShow, Rows;
    var rows := Rows(rs);
    forall a, b | a in groups && b in groups && groups[a] == groups[b] ensures a == b {
      var i :| 0 <= i < |rows| && StartsWith(rows[i], copyOf, a) && groups[a] == out[i];
      var j :| 0 <= j < |rows| && StartsWith(rows[j], copyOf, b) && groups[b] == out[j];
    }
    forall a | a in groups ensures groups[a] !in copyOf && groups[a] in out {
      var i :| 0 <= i < |rows| && StartsWith(rows[i], copyOf, a) && groups[a] == out[i];
      assert RowShows(out[i], rows[i], copyOf, Scan(rs).cells);
    }
  }

  lemma CardOfCopy(groups: map<Entry, Entry>, out: seq<Entry>, copyOf: seq<Entry>, rs: seq<Record>, hs: seq<string>,
                   i: nat)
    requires CardsRegistered(groups, out, Rows(rs), copyOf) && Built(out, copyOf, rs, hs)
    requires i < |copyOf| == |rs| && copyOf[i] in groups
    ensures groups[copyOf[i]].record.key == "process/" + rs[i].key
  {
    hide Rows, Shows, Scan, KindsKept, Process, CardsRegistered;
    var k := CardIndex(groups, out, Rows(rs), copyOf, copyOf[i]);
    hide StartsWith;
    FirstIsProcess(rs, k);
    CellsKept(rs);
    assert RowShows(out[k], Rows(rs)[k], copyOf, Scan(rs).cells);
    StartIndex(Rows(rs)[k], copyOf, i);
  }

  lemma CardIndex(groups: map<Entry, Entry>, out: seq<Entry>, rows: seq<Row>, copyOf: seq<Entry>, x: Entry)
    returns (k: nat)
    requires CardsRegistered(groups, out, rows, copyOf) && x in groups
    ensures k < |rows| == |out| && rows[k].Group? && StartsWith(rows[k], copyOf, x) && groups[x] == out[k]
  {
    k :| 0 <= k < |rows| && StartsWith(rows[k], copyOf, x) && groups[x] == out[k];
  }

  lemma StartIndex(row: Row, copyOf: seq<Entry>, i: nat)
    requires i < |copyOf| && NoRepeats(copyOf) && StartsWith(row, copyOf, copyOf[i])
    ensures row.Group? && row.members != [] && row.members[0] == i
  {
  }

  lemma OutWithin(out: seq<Entry>, rs: seq<Record>, hs: seq<string>, copyOf: seq<Entry>, raw: seq<Entry>,
                  kept: map<Entry, Entry>,
                  made: set<Entry>, groups: map<Entry, Entry>, cards: set<Entry>)
    requires Built(out, copyOf, rs, hs) && Copied(raw, copyOf, kept, made)
    requires CardsFrom(out, Rows(rs), copyOf, groups, cards)
    ensures forall k :: 0 <= k < |out| ==> out[k] in made + cards + kept.Values + groups.Values
    ensures forall k :: 0 <= k < |copyOf| ==> copyOf[k] in made + kept.Values
  {
    hide Rows, AllShow;
    CopiedWithin(raw, copyOf, kept, made);
    CardsWithin(out, Rows(rs), copyOf, groups, cards);
    forall k | 0 <= k < |out| ensures out[k] in made + cards + kept.Values + groups.Values {
      assert RowShows(out[k], Rows(rs)[k], copyOf, Scan(rs).cells);
    }
  }

  /** Both passes over the records, into the maps of the build under way. */
  method BuildPasses(raw: seq<Entry>, c: EntryCopies?, ghost kept: map<Entry, Entry>, ghost groups: map<Entry, Entry>,
                     ghost rs: seq<Record>, ghost hs: seq<string>)
    returns (out: seq<Entry>, ghost copyOf: seq<Entry>, ghost made: set<Entry>)
    requires NoRepeats(raw) && rs == Records(raw) && hs == Headings(raw)
    requires forall o :: o in raw ==> InTranscript(o) && o !in kept.Values + groups.Values
    requires Injective(kept) && Injective(groups) && kept.Values !! groups.Values
    requires KeysReady(raw, kept, groups, rs)
    requires if c == null then kept == map[] && groups == map[]
             else c.copies == kept && c.groups == groups && c.next == map[] && c.nextGroups == map[]
    modifies if c != null then {c} else {}, kept.Values, groups.Values
    ensures Built(out, copyOf, rs, hs) && |copyOf| == |raw|
    ensures forall k :: 0 <= k < |out| ==> out[k] in made + kept.Values + groups.Values
    ensures forall k :: 0 <= k < |copyOf| ==> copyOf[k] in made + kept.Values
    ensures c != null ==> c.copies == kept && c.groups == groups
    ensures c != null ==> Registered(c.next, raw, copyOf) && CardsRegistered(c.nextGroups, out, Rows(rs), copyOf)
    ensures fresh(made)
  {
    hide InRange, AllShow, ItemsLinked, Copied, Registered, Injective, NoRepeats, KeysFit, CardsApart, CardsFrom,
         CardsRegistered, RowsShow, Rows, Scan, KindsKept, Process, KeysReady;
    var items;
    items, copyOf, made := BuildItems(raw, c);
    NothingMade(raw, copyOf, kept, groups, made);
    KeysKept(raw, copyOf, kept, groups, made, rs);
    CellsKept(rs);
    ghost var cards;
    out, cards := BuildRows(items, c, groups, copyOf, hs, rs);
    OutWithin(out, rs, hs, copyOf, raw, kept, made, groups, cards);
    made := made + cards;
  }

  /** The build under way becomes the last one. */
  method FinishBuild(c: EntryCopies?, ghost raw: seq<Entry>, ghost out: seq<Entry>, ghost copyOf: seq<Entry>,
                     ghost rs: seq<Record>, ghost hs: seq<string>)
    requires |copyOf| == |raw| == |rs| && Built(out, copyOf, rs, hs)
    requires c != null ==> Registered(c.next, raw, copyOf) && CardsRegistered(c.nextGroups, out, Rows(rs), copyOf)
    requires forall k :: 0 <= k < |raw| ==> raw[k].record == rs[k]
    modifies c
    ensures c != null ==> c.Valid() && forall e :: e in c.Owned() ==> e in copyOf || e in out
  {
    hide Registered, Injective, CardsRegistered, Built, Rows, Scan;
    if c != null { CacheValid(c.next, c.nextGroups, raw, out, copyOf, rs, hs); }
    Finish(c);
  }

  /** A whole build, from the copies and the cards of the last one. */
  method BuildFrom(raw: seq<Entry>, c: EntryCopies?, ghost kept: map<Entry, Entry>, ghost groups: map<Entry, Entry>,
                   ghost rs: seq<Record>, ghost hs: seq<string>)
    returns (out: seq<Entry>, ghost copyOf: seq<Entry>, ghost made: set<Entry>)
    requires NoRepeats(raw) && rs == Records(raw) && hs == Headings(raw)
    requires forall o :: o in raw ==> InTranscript(o) && o !in kept.Values + groups.Values
    requires Fit(kept, groups)
    requires if c == null then kept == map[] && groups == map[] else c.copies == kept && c.groups == groups
    modifies if c != null then {c} else {}, kept.Values, groups.Values
    ensures Built(out, copyOf, rs, hs)
    ensures forall k :: 0 <= k < |out| ==> out[k] in made + kept.Values + groups.Values
    ensures forall k :: 0 <= k < |copyOf| ==> copyOf[k] in made + kept.Values
    ensures fresh(made)
    ensures c != null ==> c.Valid() && forall e :: e in c.Owned() ==> e in copyOf || e in out
  {
    hide Registered, Injective, NoRepeats, CardsRegistered, Built, Rows, Scan, Fit, KeysReady;
    FitKeys(raw, kept, groups, rs);
    Begin(c);
    out, copyOf, made := BuildPasses(raw, c, kept, groups, rs, hs);
    forall k | 0 <= k < |raw| ensures raw[k].record == rs[k] { assert raw[k] in raw; }
    FinishBuild(c, raw, out, copyOf, rs, hs);
  }

  /** The conversation, built with or without a cache: the entries show the same conversation
      either way, no record of the transcript is written, and the cache is fit for the next build. */
  method BuildConversation(raw: seq<Entry>, c: EntryCopies?) returns (out: seq<Entry>, ghost copyOf: seq<Entry>)
    requires NoRepeats(raw) && forall o :: o in raw ==> InTranscript(o) && o !in OwnedBy(c)
    requires c != null ==> c.Valid()
    modifies if c != null then {c} else {}, OwnedBy(c)
    ensures Built(out, copyOf, Records(raw), Headings(raw))
    ensures c != null ==> c.Valid() && fresh(c.Owned() - old(c.Owned()))
    ensures forall k :: 0 <= k < |out| ==> fresh(out[k]) || out[k] in old(OwnedBy(c))
    ensures forall k :: 0 <= k < |copyOf| ==> fresh(copyOf[k]) || copyOf[k] in old(OwnedBy(c))
  {
    hide Injective, NoRepeats, Built, Fit;
    ghost var rs, hs := Records(raw), Headings(raw);
    ghost var kept := if c != null then c.copies else map[];
    ghost var groups := if c != null then c.groups else map[];
    NothingFits();
    ghost var made;
    out, copyOf, made := BuildFrom(raw, c, kept, groups, rs, hs);
  }

  // ---------- The same conversation either way ----------

  /** Two copies show the same: their own content and, one for one, that of their details. */
  ghost predicate AlikeCopies(a: Entry, b: Entry)
    reads a, b, a.details, b.details
  {
    && a.record == b.record && a.settled == b.settled && a.heading == b.heading && a.process == [] == b.process
    && |a.details| == |b.details|
    && forall k :: 0 <= k < |a.details| ==>
         var x, y := a.details[k], b.details[k];
         x.record == y.record && x.settled == y.settled && x.heading == y.heading
  }

  /** Two rows show the same: alike copies, or equal cards with alike copies in them. */
  ghost predicate AlikeRows(a: Entry, b: Entry)
    reads *
  {
    || AlikeCopies(a, b)
    || (&& a.record == b.record && a.settled == b.settled && a.heading == b.heading && a.details == [] == b.details
        && 0 < |a.process| == |b.process|
        && forall k :: 0 <= k < |a.process| ==> AlikeCopies(a.process[k], b.process[k]))
  }

  lemma CopiesAlike(copyOf: seq<Entry>, copyOf': seq<Entry>, hs: seq<string>, cells: seq<Cell>, i: nat)
    requires AllShow(copyOf, hs, cells) && AllShow(copyOf', hs, cells) && i < |cells|
    ensures AlikeCopies(copyOf[i], copyOf'[i])
  {
    hide NoRepeats;
    var a, b := copyOf[i], copyOf'[i];
    assert Shows(a, hs[i], cells[i], copyOf) && Shows(b, hs[i], cells[i], copyOf');
    forall k | 0 <= k < |a.details|
      ensures a.details[k].record == b.details[k].record && a.details[k].settled == b.details[k].settled
      ensures a.details[k].heading == b.details[k].heading
    {
      var d := cells[i].details[k];
      assert Shows(copyOf[d], hs[d], cells[d], copyOf) && Shows(copyOf'[d], hs[d], cells[d], copyOf');
    }
  }

  /** Whatever caches two builds of the same records used, or none, their lists are alike row
      by row. */
  lemma CacheIsInvisible(out: seq<Entry>, copyOf: seq<Entry>, out': seq<Entry>, copyOf': seq<Entry>, rs: seq<Record>,
                         hs: seq<string>)
    requires Built(out, copyOf, rs, hs) && Built(out', copyOf', rs, hs)
    ensures |out| == |out'| && forall k :: 0 <= k < |out| ==> AlikeRows(out[k], out'[k])
  {
    hide AllShow, AlikeCopies, Rows, Scan, Shows, Apart;
    var rows, cells := Rows(rs), Scan(rs).cells;
    forall k | 0 <= k < |out| ensures AlikeRows(out[k], out'[k]) {
      var a, b := out[k], out'[k];
      assert RowShows(a, rows[k], copyOf, cells) && RowShows(b, rows[k], copyOf', cells);
      SameLength(copyOf, copyOf', hs, cells);
      if rows[k].Single? {
        CopiesAlike(copyOf, copyOf', hs, cells, rows[k].item);
      } else {
        forall j | 0 <= j < |a.process| ensures AlikeCopies(a.process[j], b.process[j]) {
          CopiesAlike(copyOf, copyOf', hs, cells, rows[k].members[j]);
        }
      }
    }
  }

  lemma SameLength(copyOf: seq<Entry>, copyOf': seq<Entry>, hs: seq<string>, cells: seq<Cell>)
    requires AllShow(copyOf, hs, cells) && AllShow(copyOf', hs, cells)
    ensures |copyOf| == |copyOf'| == |cells|
  {
  }

  /** Between builds a heading is written on a row; the cache does not mind. */
  method SetHeading(c: EntryCopies, e: Entry, text: string)
    requires c.Valid()
    modifies e`heading
    ensures c.Valid() && c.Owned() == old(c.Owned()) && e.heading == text
  {
    e.heading := text;
  }

  /** Writes headings on the rows of a build, in any number. */
  method SetHeadings(c: EntryCopies, rows: seq<Entry>, texts: seq<string>)
    requires c.Valid()
    modifies set k | 0 <= k < |rows| :: rows[k]
    ensures c.Valid() && c.Owned() == old(c.Owned())
    ensures forall k :: 0 <= k < |rows| && k < |texts| && rows[k] !in rows[k + 1..] ==> rows[k].heading == texts[k]
  {
    for k := 0 to |rows|
      invariant c.Valid() && c.Owned() == old(c.Owned())
      invariant forall j :: 0 <= j < k && j < |texts| && rows[j] !in rows[j + 1..k] ==> rows[j].heading == texts[j]
    {
      if k < |texts| { SetHeading(c, rows[k], texts[k]); }
    }
  }

  /** Records a transcript may hand over: distinct, and none of the cache's own entries. */
  ghost predicate Listing(raw: seq<Entry>, owned: set<Entry>)
    reads raw
  {
    NoRepeats(raw) && forall k :: 0 <= k < |raw| ==> InTranscript(raw[k]) && raw[k] !in owned
  }

  /** A build with the cache, and then headings written on its rows. */
  method BuildAndLabel(c: EntryCopies, raw: seq<Entry>, texts: seq<string>)
    requires c.Valid() && Listing(raw, c.Owned())
    modifies c, c.Owned()
    ensures c.Valid() && fresh(c.Owned() - old(c.Owned()))
  {
    hide EntryCopies.Valid, Built, NoRepeats, InTranscript;
    var rows;
    ghost var copyOf;
    rows, copyOf := BuildConversation(raw, c);
    SetHeadings(c, rows, texts);
  }

  /** The build with the cache beside one without. */
  method BuildBeside(c: EntryCopies, raw: seq<Entry>) returns (out: seq<Entry>, plain: seq<Entry>)
    requires c.Valid() && Listing(raw, c.Owned())
    modifies c, c.Owned()
    ensures c.Valid() && fresh(c.Owned() - old(c.Owned()))
    ensures |out| == |plain| && forall k :: 0 <= k < |out| ==> AlikeRows(out[k], plain[k])
    ensures forall k :: 0 <= k < |plain| ==> fresh(plain[k])
  {
    hide Built, AlikeRows, NoRepeats, Records, Headings;
    ghost var copyOf, copyOf', rs, hs := [], [], Records(raw), Headings(raw);
    out, copyOf := BuildConversation(raw, c);
    plain, copyOf' := BuildConversation(raw, null);
    CacheIsInvisible(out, copyOf, plain, copyOf', rs, hs);
  }

  /** However often the conversation was rebuilt with the cache, from whatever records and with
      whatever headings written in between, the next build is alike one without a cache. */
  method RebuildMany(c: EntryCopies, raws: seq<seq<Entry>>, texts: seq<seq<string>>, raw: seq<Entry>)
    returns (out: seq<Entry>, plain: seq<Entry>)
    requires c.Valid() && Listing(raw, c.Owned())
    requires |texts| == |raws| && forall i :: 0 <= i < |raws| ==> Listing(raws[i], c.Owned())
    modifies c, c.Owned()
    ensures c.Valid() && fresh(c.Owned() - old(c.Owned()))
    ensures |out| == |plain| && forall k :: 0 <= k < |out| ==> AlikeRows(out[k], plain[k])
    ensures forall k :: 0 <= k < |plain| ==> fresh(plain[k])
  {
    hide EntryCopies.Valid, AlikeRows, NoRepeats, InTranscript;
    ghost var owned := c.Owned();
    for i := 0 to |raws|
      invariant c.Valid() && fresh(c.Owned() - owned)
      invariant Listing(raw, c.Owned())
      invariant forall j :: i <= j < |raws| ==> Listing(raws[j], c.Owned())
    {
      ghost var before := c.Owned();
      assert fresh(before - owned);
      BuildAndLabel(c, raws[i], texts[i]);
      assert forall e :: e in c.Owned() - owned ==> e in c.Owned() - before || e in before - owned;
      assert fresh(c.Owned() - before);
      assert fresh(before - owned);
    }
    ghost var before := c.Owned();
    out, plain := BuildBeside(c, raw);
    assert forall e :: e in c.Owned() - owned ==> e in c.Owned() - before || e in before - owned;
    assert fresh(c.Owned() - before);
    assert fresh(before - owned);
  }
}
