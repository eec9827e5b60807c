/** The rows that spread the conversation of a run over the lanes of its parallel executions
    (conversation_timeline.go). */
module TimelineRows {
  import opened Timeline

  // ---------- Rows ----------

  datatype Entry = Entry(key: string, step: string, user: bool, transition: bool)

  datatype Row = Direct(e: Entry) | Header(lanes: seq<string>) | Body(group: string, columns: seq<seq<Entry>>)

  /** Where an entry belongs: nowhere special, or a lane of a group. */
  datatype Place = Alone | Lane(group: string, lane: nat)

  function PlaceOf(layout: Layout, e: Entry): Place {
    if e.user || e.transition || e.step !in layout.groups || layout.groups[e.step] == [] || e.step !in layout.laneIndexes then Alone
    else Lane(layout.groups[e.step][0], layout.laneIndexes[e.step])
  }

  /** The entries of one place, in the order of the conversation. */
  function Belonging(layout: Layout, entries: seq<Entry>, p: Place): seq<Entry> {
    if entries == [] then [] else
      var n := |entries| - 1;
      Belonging(layout, entries[..n], p) + if PlaceOf(layout, entries[n]) == p then [entries[n]] else []
  }

  function InRow(r: Row, p: Place): seq<Entry> {
    match r
    case Direct(e) => if p.Alone? then [e] else []
    case Header(_) => []
    case Body(g, columns) => if p.Lane? && p.group == g && p.lane < |columns| then columns[p.lane] else []
  }

  /** What the rows show at one place, read from the top. */
  function Shown(rows: seq<Row>, p: Place): seq<Entry> {
    if rows == [] then [] else Shown(rows[..|rows| - 1], p) + InRow(rows[|rows| - 1], p)
  }

  /** A body of lanes stands right below a header that names its lanes. */
  ghost predicate Headed(rows: seq<Row>) {
    forall r :: 0 <= r < |rows| && rows[r].Body? ==>
      r > 0 && rows[r - 1].Header? && rows[r - 1].lanes != [] && rows[r - 1].lanes[0] == rows[r].group &&
      |rows[r - 1].lanes| == |rows[r].columns|
  }

  ghost predicate ProperLayout(layout: Layout) {
    WellSized(layout) && GroupsDistinct(layout) && forall x :: x in layout.groups ==> layout.groups[x] != [] && layout.groups[x][0] != ""
  }

  /** What grouping the runs yields is a layout the rows can be built from. */
  lemma GroupedIsProper(runs: seq<StepRun>, layout: Layout)
    requires LaidOut(runs, |runs|, layout) && forall k :: 0 <= k < |runs| ==> runs[k].id != ""
    ensures ProperLayout(layout)
  {
    hide Needed, Splits, ApartFromRest;
    forall x | x in layout.groups ensures layout.groups[x] != [] && layout.groups[x][0] != "" {
      assert FromFirst(runs, |runs|, layout.groups[x][0]);
    }
  }

  lemma ShownAppend(rows: seq<Row>, r: Row, p: Place)
    ensures Shown(rows + [r], p) == Shown(rows, p) + InRow(r, p)
  {
    assert (rows + [r])[..|rows|] == rows;
  }

  /** Adding an entry to the last body shows it at its place, after what was there. */
  lemma ShownInLast(rows: seq<Row>, e: Entry, lane: nat, p: Place)
    requires rows != [] && rows[|rows| - 1].Body? && lane < |rows[|rows| - 1].columns|
    ensures var last := rows[|rows| - 1];
            var grown := last.(columns := last.columns[lane := last.columns[lane] + [e]]);
            Shown(rows[..|rows| - 1] + [grown], p) ==
            Shown(rows, p) + if p == Lane(last.group, lane) then [e] else []
  {
    var last := rows[|rows| - 1];
    ShownAppend(rows[..|rows| - 1], last.(columns := last.columns[lane := last.columns[lane] + [e]]), p);
  }

  /** The open body: the last row, with one column for each lane of `current`. */
  ghost predicate OpenRow(rows: seq<Row>, current: string, layout: Layout) {
    if rows != [] && rows[|rows| - 1].Body? then rows[|rows| - 1].group == current && Fits(layout, rows[|rows| - 1])
    else current == ""
  }

  ghost predicate Fits(layout: Layout, body: Row)
    requires body.Body?
  {
    forall x :: x in layout.groups && layout.groups[x] != [] && layout.groups[x][0] == body.group ==>
      (|layout.groups[x]| == |body.columns|)
  }

  /** A header stands above a body of its group and not below one, and names a known group. */
  ghost predicate Opens(rows: seq<Row>, layout: Layout, r: nat)
    requires r < |rows| && rows[r].Header?
  {
    && r + 1 < |rows| && rows[r + 1].Body? && KnownGroup(layout, rows[r].lanes)
    && (r > 0 && rows[r - 1].Body? ==> rows[r].lanes != [] && rows[r - 1].group != rows[r].lanes[0])
  }

  ghost predicate KnownGroup(layout: Layout, lanes: seq<string>) {
    exists x :: x in layout.groups && layout.groups[x] == lanes
  }

  ghost predicate Turns(rows: seq<Row>, layout: Layout) {
    forall r :: 0 <= r < |rows| && rows[r].Header? ==> Opens(rows, layout, r)
  }

  lemma TurnsDirect(rows: seq<Row>, layout: Layout, e: Entry)
    requires Turns(rows, layout)
    ensures Turns(rows + [Direct(e)], layout)
  {
    hide KnownGroup;
    var more := rows + [Direct(e)];
    forall r | 0 <= r < |more| && more[r].Header? ensures Opens(more, layout, r) { assert Opens(rows, layout, r); }
  }

  lemma TurnsOpen(rows: seq<Row>, layout: Layout, lanes: seq<string>, body: Row)
    requires Turns(rows, layout) && body.Body? && KnownGroup(layout, lanes) && lanes != []
    requires rows != [] && rows[|rows| - 1].Body? ==> rows[|rows| - 1].group != lanes[0]
    ensures Turns(rows + [Header(lanes)] + [body], layout)
  {
    hide KnownGroup;
    var more := rows + [Header(lanes)] + [body];
    forall r | 0 <= r < |more| && more[r].Header? ensures Opens(more, layout, r) {
      if r < |rows| { assert Opens(rows, layout, r); }
    }
  }

  lemma TurnsPut(rows: seq<Row>, layout: Layout, body: Row)
    requires Turns(rows, layout) && rows != [] && rows[|rows| - 1].Body? && body.Body? && body.group == rows[|rows| - 1].group
    ensures Turns(rows[..|rows| - 1] + [body], layout)
  {
    hide KnownGroup;
    var more := rows[..|rows| - 1] + [body];
    forall r | 0 <= r < |more| && more[r].Header? ensures Opens(more, layout, r) { assert Opens(rows, layout, r); }
  }

  ghost predicate ShowsAll(rows: seq<Row>, layout: Layout, entries: seq<Entry>) {
    forall p :: Shown(rows, p) == Belonging(layout, entries, p)
  }

  /** A row shows a stretch of the conversation: one entry by itself, or entries of one group,
      each lane those that belong there. */
  ghost predicate RowShows(row: Row, layout: Layout, stretch: seq<Entry>) {
    match row
    case Direct(e) => stretch == [e] && PlaceOf(layout, e).Alone?
    case Header(_) => stretch == []
    case Body(g, columns) =>
      && stretch != [] && (forall k :: 0 <= k < |stretch| ==> InGroup(layout, stretch[k], g, |columns|))
      && forall l :: 0 <= l < |columns| ==> columns[l] == Belonging(layout, stretch, Lane(g, l))
  }

  predicate InGroup(layout: Layout, e: Entry, g: string, lanes: nat) {
    PlaceOf(layout, e).Lane? && PlaceOf(layout, e).group == g && PlaceOf(layout, e).lane < lanes
  }

  /** Read from the top, the rows cut the conversation into consecutive stretches. */
  ghost predicate Cuts(rows: seq<Row>, layout: Layout, entries: seq<Entry>) {
    if rows == [] then entries == [] else
      var n := |rows| - 1;
      exists k :: 0 <= k <= |entries| && Cuts(rows[..n], layout, entries[..k]) && RowShows(rows[n], layout, entries[k..])
  }

  lemma CutsMore(rows: seq<Row>, row: Row, layout: Layout, entries: seq<Entry>, stretch: seq<Entry>)
    requires Cuts(rows, layout, entries) && RowShows(row, layout, stretch)
    ensures Cuts(rows + [row], layout, entries + stretch)
  {
    hide RowShows;
    var all := entries + stretch;
    assert (rows + [row])[..|rows|] == rows;
    assert all[..|entries|] == entries && all[|entries|..] == stretch;
  }

  function EmptyLanes(lanes: nat): (columns: seq<seq<Entry>>)
    ensures |columns| == lanes && forall l :: 0 <= l < lanes ==> columns[l] == []
  {
    seq(lanes, _ => [])
  }

  function SoleIn(lanes: nat, lane: nat, e: Entry): seq<seq<Entry>>
    requires lane < lanes
  {
    EmptyLanes(lanes)[lane := [e]]
  }

  lemma BelongingOne(layout: Layout, e: Entry, p: Place)
    ensures Belonging(layout, [e], p) == if PlaceOf(layout, e) == p then [e] else []
  {
    assert [e][..0] == [];
  }

  /** A new header and body show their first entry. */
  lemma CutsOpen(rows: seq<Row>, lanes: seq<string>, layout: Layout, entries: seq<Entry>, e: Entry, lane: nat)
    requires Cuts(rows, layout, entries) && lane < |lanes| && PlaceOf(layout, e) == Lane(lanes[0], lane)
    ensures Cuts(rows + [Header(lanes)] + [Body(lanes[0], SoleIn(|lanes|, lane, e))], layout, entries + [e])
  {
    hide RowShows, Cuts;
    HeaderShows(lanes, layout);
    BodyOpens(lanes, layout, e, lane);
    CutsMore(rows, Header(lanes), layout, entries, []);
    assert entries + [] == entries;
    CutsMore(rows + [Header(lanes)], Body(lanes[0], SoleIn(|lanes|, lane, e)), layout, entries, [e]);
  }

  lemma HeaderShows(lanes: seq<string>, layout: Layout)
    ensures RowShows(Header(lanes), layout, [])
  {
  }

  lemma BodyOpens(lanes: seq<string>, layout: Layout, e: Entry, lane: nat)
    requires lane < |lanes| && PlaceOf(layout, e) == Lane(lanes[0], lane)
    ensures RowShows(Body(lanes[0], SoleIn(|lanes|, lane, e)), layout, [e])
  {
    hide PlaceOf, Belonging;
    forall l | 0 <= l < |lanes| ensures SoleIn(|lanes|, lane, e)[l] == Belonging(layout, [e], Lane(lanes[0], l)) {
      BelongingOne(layout, e, Lane(lanes[0], l));
    }
  }

  /** The last body takes one more entry of its group. */
  lemma CutsPut(rows: seq<Row>, layout: Layout, entries: seq<Entry>, e: Entry, lane: nat)
    requires Cuts(rows, layout, entries) && rows != [] && rows[|rows| - 1].Body? && lane < |rows[|rows| - 1].columns|
    requires PlaceOf(layout, e) == Lane(rows[|rows| - 1].group, lane)
    ensures var last := rows[|rows| - 1];
            Cuts(rows[..|rows| - 1] + [last.(columns := last.columns[lane := last.columns[lane] + [e]])], layout, entries + [e])
  {
    hide PlaceOf, RowShows, Cuts;
    var n, last := |rows| - 1, rows[|rows| - 1];
    var k := LastStretch(rows, layout, entries);
    RowTakes(last, layout, entries[k..], e, lane);
    CutsMore(rows[..n], last.(columns := last.columns[lane := last.columns[lane] + [e]]), layout, entries[..k], entries[k..] + [e]);
    assert entries[..k] + (entries[k..] + [e]) == entries + [e];
  }

  lemma LastStretch(rows: seq<Row>, layout: Layout, entries: seq<Entry>) returns (k: nat)
    requires Cuts(rows, layout, entries) && rows != []
    ensures k <= |entries| && Cuts(rows[..|rows| - 1], layout, entries[..k])
    ensures RowShows(rows[|rows| - 1], layout, entries[k..])
  {
    hide RowShows;
    k :| 0 <= k <= |entries| && Cuts(rows[..|rows| - 1], layout, entries[..k]) &&
         RowShows(rows[|rows| - 1], layout, entries[k..]);
  }

  lemma RowTakes(last: Row, layout: Layout, stretch: seq<Entry>, e: Entry, lane: nat)
    requires last.Body? && lane < |last.columns| && RowShows(last, layout, stretch)
    requires PlaceOf(layout, e) == Lane(last.group, lane)
    ensures RowShows(last.(columns := last.columns[lane := last.columns[lane] + [e]]), layout, stretch + [e])
  {
    hide PlaceOf;
    assert (stretch + [e])[..|stretch|] == stretch;
  }

  lemma ShowDirect(rows: seq<Row>, layout: Layout, entries: seq<Entry>, e: Entry)
    requires ShowsAll(rows, layout, entries) && PlaceOf(layout, e).Alone?
    ensures ShowsAll(rows + [Direct(e)], layout, entries + [e])
  {
    assert (entries + [e])[..|entries|] == entries;
    forall p ensures Shown(rows + [Direct(e)], p) == Belonging(layout, entries + [e], p) { ShownAppend(rows, Direct(e), p); }
  }

  method OpenBody(rows0: seq<Row>, lanes: seq<string>, layout: Layout, ghost entries: seq<Entry>)
    returns (rows: seq<Row>)
    requires ShowsAll(rows0, layout, entries) && Headed(rows0) && lanes != []
    requires forall x :: x in layout.groups && layout.groups[x] != [] && layout.groups[x][0] == lanes[0] ==> layout.groups[x] == lanes
    ensures ShowsAll(rows, layout, entries) && Headed(rows) && OpenRow(rows, lanes[0], layout) && rows != []
    ensures rows == rows0 + [Header(lanes)] + [Body(lanes[0], EmptyLanes(|lanes|))]
  {
    var body := Body(lanes[0], EmptyLanes(|lanes|));
    rows := rows0 + [Header(lanes)] + [body];
    forall p ensures Shown(rows, p) == Belonging(layout, entries, p) {
      ShownAppend(rows0, Header(lanes), p);
      ShownAppend(rows0 + [Header(lanes)], body, p);
    }
  }

  method PutInLast(rows0: seq<Row>, lane: nat, e: Entry, layout: Layout, ghost entries: seq<Entry>)
    returns (rows: seq<Row>)
    requires ShowsAll(rows0, layout, entries) && Headed(rows0) && rows0 != [] && rows0[|rows0| - 1].Body?
    requires lane < |rows0[|rows0| - 1].columns| && PlaceOf(layout, e) == Lane(rows0[|rows0| - 1].group, lane)
    requires OpenRow(rows0, rows0[|rows0| - 1].group, layout)
    ensures ShowsAll(rows, layout, entries + [e]) && Headed(rows)
    ensures OpenRow(rows, rows0[|rows0| - 1].group, layout)
    ensures var last := rows0[|rows0| - 1];
            rows == rows0[..|rows0| - 1] + [last.(columns := last.columns[lane := last.columns[lane] + [e]])]
  {
    var last := rows0[|rows0| - 1];
    rows := rows0[..|rows0| - 1] + [last.(columns := last.columns[lane := last.columns[lane] + [e]])];
    assert (entries + [e])[..|entries|] == entries;
    forall p ensures Shown(rows, p) == Belonging(layout, entries + [e], p) { ShownInLast(rows0, e, lane, p); }
  }

  method SpreadEntry(rows0: seq<Row>, current0: string, e: Entry, layout: Layout, ghost entries: seq<Entry>)
    returns (rows: seq<Row>, current: string)
    requires ProperLayout(layout) && OpenRow(rows0, current0, layout) && Headed(rows0)
    requires ShowsAll(rows0, layout, entries) && Cuts(rows0, layout, entries) && Turns(rows0, layout)
    ensures OpenRow(rows, current, layout) && Headed(rows) && Turns(rows, layout)
    ensures ShowsAll(rows, layout, entries + [e]) && Cuts(rows, layout, entries + [e])
  {
    hide ShowsAll, Headed, Cuts, Turns;
    if e.user || e.transition || e.step !in layout.groups {
      ShowDirect(rows0, layout, entries, e);
      HeadedDirect(rows0, e);
      TurnsDirect(rows0, layout, e);
      CutsMore(rows0, Direct(e), layout, entries, [e]);
      return rows0 + [Direct(e)], "";
    }
    var lanes, lane := layout.groups[e.step], layout.laneIndexes[e.step];
    rows, current := rows0, lanes[0];
    assert forall x :: x in layout.groups && layout.groups[x] != [] && layout.groups[x][0] == lanes[0] ==> SameHead(layout, x, e.step);
    if current0 != lanes[0] {
      rows := OpenBody(rows0, lanes, layout, entries);
      CutsOpen(rows0, lanes, layout, entries, e, lane);
      TurnsOpen(rows0, layout, lanes, Body(lanes[0], SoleIn(|lanes|, lane, e)));
      assert rows[..|rows| - 1] == rows0 + [Header(lanes)];
      assert EmptyLanes(|lanes|)[lane] + [e] == [e];
    } else {
      CutsPut(rows0, layout, entries, e, lane);
      var last := rows0[|rows0| - 1];
      TurnsPut(rows0, layout, last.(columns := last.columns[lane := last.columns[lane] + [e]]));
    }
    rows := PutInLast(rows, lane, e, layout, entries);
    assert current0 != lanes[0] ==> rows == rows0 + [Header(lanes)] + [Body(lanes[0], SoleIn(|lanes|, lane, e))];
  }

  lemma HeadedDirect(rows: seq<Row>, e: Entry)
    requires Headed(rows)
    ensures Headed(rows + [Direct(e)])
  {
  }

  /** Spreading loses, repeats and reorders nothing: read from the top the rows cut the entries
      into consecutive stretches, at every place they show exactly the entries that belong there,
      in order, and every body of lanes has its header. */
  method SpreadEntries(entries: seq<Entry>, layout: Layout) returns (rows: seq<Row>)
    requires ProperLayout(layout)
    ensures ShowsAll(rows, layout, entries) && Headed(rows) && Cuts(rows, layout, entries) && Turns(rows, layout)
  {
    hide Headed, OpenRow, Cuts, ShowsAll, Turns;
    NoRowsYet(layout);
    rows := [];
    var current := "";
    for i := 0 to |entries|
      invariant OpenRow(rows, current, layout) && Headed(rows) && ShowsAll(rows, layout, entries[..i])
      invariant Cuts(rows, layout, entries[..i]) && Turns(rows, layout)
    {
      assert entries[..i + 1] == entries[..i] + [entries[i]];
      rows, current := SpreadEntry(rows, current, entries[i], layout, entries[..i]);
    }
    assert entries[..|entries|] == entries;
  }

  lemma NoRowsYet(layout: Layout)
    ensures OpenRow([], "", layout) && Headed([]) && ShowsAll([], layout, []) && Cuts([], layout, []) && Turns([], layout)
  {
  }

  /** Every entry is shown at one place only, its own. */
  lemma {:induction false} ShownOnce(layout: Layout, entries: seq<Entry>, p: Place, e: Entry)
    ensures multiset(Belonging(layout, entries, p))[e] == if PlaceOf(layout, e) == p then multiset(entries)[e] else 0
  {
    if entries != [] {
      var n := |entries| - 1;
      assert entries == entries[..n] + [entries[n]];
      ShownOnce(layout, entries[..n], p, e);
    }
  }

  // ---------- The whole timeline ----------

  /** The library's stable sort by starting time. */
  function SortByStart(runs: seq<StepRun>): (r: seq<StepRun>)
    ensures Sorted(r) && |r| == |runs| && multiset(r) == multiset(runs)
  {
    if runs == [] then [] else
      assert runs == runs[..|runs| - 1] + [runs[|runs| - 1]];
      InsertByStart(SortByStart(runs[..|runs| - 1]), runs[|runs| - 1])
  }

  function InsertByStart(runs: seq<StepRun>, x: StepRun): (r: seq<StepRun>)
    requires Sorted(runs)
    ensures Sorted(r) && |r| == |runs| + 1 && multiset(r) == multiset(runs) + multiset{x}
    ensures forall y :: y in r <==> y in runs || y == x
  {
    if runs == [] || !Before(x.started, runs[|runs| - 1].started) then runs + [x] else
      var n := |runs| - 1;
      assert runs == runs[..n] + [runs[n]];
      var rest := InsertByStart(runs[..n], x);
      assert forall y :: y in runs[..n] ==> !Before(runs[n].started, y.started);
      assert forall y :: y in rest ==> !Before(runs[n].started, y.started);
      assert forall i :: 0 <= i < |rest| ==> rest[i] in rest;
      rest + [runs[n]]
  }

  lemma {:induction false} InsertKeepsUnique(runs: seq<StepRun>, x: StepRun)
    requires Sorted(runs) && UniqueIds(runs) && forall y :: y in runs ==> y.id != x.id
    ensures UniqueIds(InsertByStart(runs, x))
  {
    if runs != [] && Before(x.started, runs[|runs| - 1].started) {
      var n := |runs| - 1;
      InsertKeepsUnique(runs[..n], x);
      var rest := InsertByStart(runs[..n], x);
      assert runs[n].id != x.id && forall y :: y in runs[..n] ==> y.id != runs[n].id;
      hide Sorted;
      AppendKeepsUnique(rest, runs[n]);
    } else {
      AppendKeepsUnique(runs, x);
    }
  }

  lemma AppendKeepsUnique(runs: seq<StepRun>, x: StepRun)
    requires UniqueIds(runs) && forall y :: y in runs ==> y.id != x.id
    ensures UniqueIds(runs + [x])
  {
    assert forall i :: 0 <= i < |runs| ==> runs[i] in runs;
  }

  lemma {:induction false} SortKeepsUnique(runs: seq<StepRun>)
    requires UniqueIds(runs)
    ensures UniqueIds(SortByStart(runs)) && forall y :: y in SortByStart(runs) <==> y in runs
  {
    if runs != [] {
      var n := |runs| - 1;
      SortKeepsUnique(runs[..n]);
      assert runs == runs[..n] + [runs[n]];
      InsertKeepsUnique(SortByStart(runs[..n]), runs[n]);
    }
  }

  lemma {:induction false} InsertPlace(runs: seq<StepRun>, x: StepRun) returns (k: nat)
    requires Sorted(runs)
    ensures k <= |runs| && InsertByStart(runs, x) == runs[..k] + [x] + runs[k..]
    ensures forall m :: 0 <= m < |runs| ==> (Before(x.started, runs[m].started) <==> k <= m)
  {
    hide Before, Sorted, InsertByStart;
    k := |runs|;
    var n := |runs| - 1;
    InsertStep(runs, x);
    if runs == [] || !Before(x.started, runs[n].started) {
      NoneLater(runs, x);
    } else {
      k := InsertPlace(runs[..n], x);
      PlaceGrows(runs, x, k);
      LaterFrom(runs, x, k);
    }
  }

  lemma LaterFrom(runs: seq<StepRun>, x: StepRun, k: nat)
    requires runs != [] && k < |runs| && Before(x.started, runs[|runs| - 1].started)
    requires var front := runs[..|runs| - 1]; forall m :: 0 <= m < |front| ==> (Before(x.started, front[m].started) <==> k <= m)
    ensures forall m :: 0 <= m < |runs| ==> (Before(x.started, runs[m].started) <==> k <= m)
  {
    hide Before;
    var front := runs[..|runs| - 1];
    forall m | 0 <= m < |runs| ensures Before(x.started, runs[m].started) <==> k <= m {
      if m < |front| { assert front[m] == runs[m]; }
    }
  }

  lemma InsertStep(runs: seq<StepRun>, x: StepRun)
    requires Sorted(runs)
    ensures runs != [] ==> Sorted(runs[..|runs| - 1])
    ensures InsertByStart(runs, x) ==
            if runs == [] || !Before(x.started, runs[|runs| - 1].started) then runs + [x]
            else InsertByStart(runs[..|runs| - 1], x) + [runs[|runs| - 1]]
  {
  }

  lemma PlaceGrows(runs: seq<StepRun>, x: StepRun, k: nat)
    requires runs != [] && k < |runs|
    ensures var n := |runs| - 1;
            runs[..n][..k] + [x] + runs[..n][k..] + [runs[n]] == runs[..k] + [x] + runs[k..]
  {
    var n := |runs| - 1;
    assert runs[..n][..k] == runs[..k] && runs[k..] == runs[..n][k..] + [runs[n]];
  }

  lemma NoneLater(runs: seq<StepRun>, x: StepRun)
    requires Sorted(runs) && (runs == [] || !Before(x.started, runs[|runs| - 1].started))
    ensures forall m :: 0 <= m < |runs| ==> !Before(x.started, runs[m].started)
  {
    forall m | 0 <= m < |runs| ensures !Before(x.started, runs[m].started) {
      assert m == |runs| - 1 || !Before(runs[|runs| - 1].started, runs[m].started);
    }
  }

  lemma InsertedAt(s: seq<StepRun>, x: StepRun, k: nat, i: nat)
    requires k <= |s| && i <= |s|
    ensures (s[..k] + [x] + s[k..])[i] == if i < k then s[i] else if i == k then x else s[i - 1]
  {
  }

  /** Which of the listed runs a sorted one is: the last listed, or one of those before it. */
  lemma ListedAt(runs: seq<StepRun>, x: StepRun, a: nat)
    requires UniqueIds(runs) && a < |runs| && runs[a] == x
    ensures x == runs[|runs| - 1] <==> a == |runs| - 1
  {
  }

  /** Sorting is stable: of two runs that start at once the one listed first stays first. */
  lemma {:induction false} SortStable(runs: seq<StepRun>, i: nat, j: nat, a: nat, b: nat)
    requires UniqueIds(runs) && i < j < |runs| && a < |runs| && b < |runs|
    requires SortByStart(runs)[i] == runs[a] && SortByStart(runs)[j] == runs[b]
    ensures Earlier(runs, a, b)
  {
    hide Sorted, SortByStart, InsertByStart, UniqueIds, Before;
    var n := |runs| - 1;
    var s, x := SortByStart(runs[..n]), runs[n];
    assert UniqueIds(runs[..n]) by { FrontUnique(runs, n); }
    var k := InsertPlace(s, x);
    var sorted := SortedMore(runs);
    InsertedAt(s, x, k, i);
    InsertedAt(s, x, k, j);
    ListedAt(runs, runs[a], a);
    ListedAt(runs, runs[b], b);
    LastNotBefore(runs, s);
    if i == k {
      assert Before(x.started, s[j - 1].started);
    } else if j == k {
      assert !Before(x.started, s[i].started);
      StartOrder(runs[a].started, x.started);
    } else {
      var i', j' := if i < k then i else i - 1, if j < k then j else j - 1;
      assert s[i'] in s && s[j'] in s;
      assert runs[a] == runs[..n][a] && runs[b] == runs[..n][b];
      SortStable(runs[..n], i', j', a, b);
    }
  }

  lemma FrontUnique(runs: seq<StepRun>, n: nat)
    requires UniqueIds(runs) && n <= |runs|
    ensures UniqueIds(runs[..n])
  {
  }

  lemma LastNotBefore(runs: seq<StepRun>, s: seq<StepRun>)
    requires runs != [] && UniqueIds(runs) && s == SortByStart(runs[..|runs| - 1])
    ensures forall m :: 0 <= m < |s| ==> s[m] != runs[|runs| - 1]
  {
    hide SortByStart;
    var n := |runs| - 1;
    FrontUnique(runs, n);
    SortKeepsUnique(runs[..n]);
    forall m | 0 <= m < |s| ensures s[m] != runs[n] {
      assert s[m] in s;
      assert s[m] in runs[..n];
    }
  }

  lemma StartOrder(x: Time, y: Time)
    ensures Before(x, y) || Before(y, x) || x == y
  {
  }

  lemma SortedMore(runs: seq<StepRun>) returns (sorted: seq<StepRun>)
    requires runs != []
    ensures sorted == SortByStart(runs)
    ensures sorted == InsertByStart(SortByStart(runs[..|runs| - 1]), runs[|runs| - 1])
  {
    sorted := SortByStart(runs);
  }

  /** Two runs going on side by side are two overlapping runs of the sorted list. */
  lemma ClashSorted(runs: seq<StepRun>, a: nat, b: nat) returns (i: nat, j: nat)
    requires UniqueIds(runs) && Clash(runs, a, b)
    ensures var sorted := SortByStart(runs);
            && i < j < |sorted| && sorted[i].started.At? && Overlaps(sorted, i, j)
            && ((sorted[i] == runs[a] && sorted[j] == runs[b]) || (sorted[i] == runs[b] && sorted[j] == runs[a]))
  {
    hide SortByStart, UniqueIds;
    var sorted := SortByStart(runs);
    SortKeepsUnique(runs);
    assert runs[a] in sorted && runs[b] in sorted;
    i :| 0 <= i < |sorted| && sorted[i] == runs[a];
    j :| 0 <= j < |sorted| && sorted[j] == runs[b];
    ApartInList(runs, a, b);
    if i < j {
      SortStable(runs, i, j, a, b);
    } else {
      SortStable(runs, j, i, b, a);
      i, j := j, i;
    }
  }

  lemma ApartInList(runs: seq<StepRun>, a: nat, b: nat)
    requires UniqueIds(runs) && a < |runs| && b < |runs| && a != b
    ensures runs[a] != runs[b]
  {
  }

  lemma SortedClash(runs: seq<StepRun>, i: nat, j: nat) returns (a: nat, b: nat)
    requires UniqueIds(runs) && i < j < |runs|
    requires var sorted := SortByStart(runs); sorted[i].started.At? && Overlaps(sorted, i, j)
    ensures a < |runs| && b < |runs| && runs[a] == SortByStart(runs)[i] && runs[b] == SortByStart(runs)[j]
    ensures Clash(runs, a, b) && Clash(runs, b, a)
  {
    var sorted := SortByStart(runs);
    assert !Before(sorted[j].started, sorted[i].started);
    hide SortByStart, UniqueIds;
    SortKeepsUnique(runs);
    ApartInList(sorted, i, j);
    assert sorted[i] in sorted && sorted[j] in sorted;
    a :| 0 <= a < |runs| && runs[a] == sorted[i];
    b :| 0 <= b < |runs| && runs[b] == sorted[j];
    SortStable(runs, i, j, a, b);
  }

  /** Runs going on side by side are in one group, in lanes of their own; no other is in a group. */
  ghost predicate ClashesApart(runs: seq<StepRun>, layout: Layout) {
    && (forall a: nat, b: nat :: Clash(runs, a, b) ==> SideBySide(layout, runs[a], runs[b]))
    && (forall x :: x in layout.groups ==> InClash(runs, x))
  }

  lemma LaidOutApart(runs: seq<StepRun>, layout: Layout)
    requires UniqueIds(runs) && LaidOut(SortByStart(runs), |runs|, layout)
    ensures ClashesApart(runs, layout)
  {
    hide UniqueIds, SortByStart, Covers, WellSized, GroupsDistinct, Splits, ApartFromRest, Named, Greedy, Clash, InClash, SideBySide, Crowd,
         OverlapsSome;
    forall a: nat, b: nat | Clash(runs, a, b) ensures a < |runs| && b < |runs| && SideBySide(layout, runs[a], runs[b]) {
      ClashSplit(runs, layout, a, b);
    }
    forall x | x in layout.groups ensures InClash(runs, x) { GroupedClash(runs, x); }
  }

  lemma ClashSplit(runs: seq<StepRun>, layout: Layout, a: nat, b: nat)
    requires UniqueIds(runs) && Splits(SortByStart(runs), |runs|, layout) && Clash(runs, a, b)
    ensures a < |runs| && b < |runs| && SideBySide(layout, runs[a], runs[b])
  {
    hide UniqueIds, Sorted, SortByStart, Clash, Overlaps;
    var i, j := ClashSorted(runs, a, b);
    assert SideBySide(layout, SortByStart(runs)[i], SortByStart(runs)[j]);
    ClashInside(runs, a, b);
  }

  lemma GroupedClash(runs: seq<StepRun>, x: string)
    requires UniqueIds(runs) && OverlapsSome(SortByStart(runs), x)
    ensures InClash(runs, x)
  {
    hide UniqueIds, Sorted, SortByStart, Clash, Overlaps;
    var sorted := SortByStart(runs);
    var i, j :| 0 <= i < j < |sorted| && sorted[i].started.At? && Overlaps(sorted, i, j) && x in {sorted[i].id, sorted[j].id};
    var a, b := SortedClash(runs, i, j);
    ClashInside(runs, a, b);
  }

  lemma ClashInside(runs: seq<StepRun>, a: nat, b: nat)
    requires Clash(runs, a, b)
    ensures a < |runs| && b < |runs|
  {
  }

  // ---------- What the rows show, in terms of the runs ----------

  /** An entry of a run that goes on beside another. */
  ghost predicate Parallel(runs: seq<StepRun>, steps: nat, e: Entry) {
    steps >= 2 && !e.user && !e.transition && InClash(runs, e.step)
  }

  /** The entry stands in this column of this row. */
  predicate Stands(rows: seq<Row>, r: nat, l: nat, e: Entry) {
    r < |rows| && rows[r].Body? && l < |rows[r].columns| && e in rows[r].columns[l]
  }

  /** Exactly the entries of parallel runs stand in bodies. */
  ghost predicate OwnRows(rows: seq<Row>, runs: seq<StepRun>, steps: nat) {
    && (forall r :: 0 <= r < |rows| && rows[r].Direct? ==> !Parallel(runs, steps, rows[r].e))
    && (forall r: nat, l: nat, e :: Stands(rows, r, l, e) ==> Parallel(runs, steps, e))
  }

  /** Entries of runs that go on side by side stand in bodies of one group, in different columns. */
  ghost predicate ColumnsApart(rows: seq<Row>, runs: seq<StepRun>) {
    forall r: nat, l: nat, e, q: nat, m: nat, f, a: nat, b: nat ::
      Stands(rows, r, l, e) && Stands(rows, q, m, f) && Clash(runs, a, b) && runs[a].id == e.step && runs[b].id == f.step ==>
      rows[r].group == rows[q].group && l != m
  }

  /** Entries of one run stand in one column. */
  ghost predicate OneColumn(rows: seq<Row>) {
    forall r: nat, l: nat, e, q: nat, m: nat, f ::
      Stands(rows, r, l, e) && Stands(rows, q, m, f) && e.step == f.step ==> rows[r].group == rows[q].group && l == m
  }

  /** The columns deal out a stretch of the conversation: each entry in one of them, in order. */
  ghost predicate Dealt(columns: seq<seq<Entry>>, stretch: seq<Entry>)
    decreases |stretch|
  {
    if stretch == [] then forall l :: 0 <= l < |columns| ==> columns[l] == [] else
      var n := |stretch| - 1;
      exists l :: 0 <= l < |columns| && EndsWith(columns[l], stretch[n]) &&
                  Dealt(columns[l := columns[l][..|columns[l]| - 1]], stretch[..n])
  }

  predicate EndsWith(s: seq<Entry>, e: Entry) {
    s != [] && s[|s| - 1] == e
  }

  /** Read from the top, the rows give every entry of the conversation once, in order. */
  ghost predicate Reads(rows: seq<Row>, entries: seq<Entry>) {
    if rows == [] then entries == [] else
      var n := |rows| - 1;
      exists k :: 0 <= k <= |entries| && Reads(rows[..n], entries[..k]) && RowReads(rows[n], entries[k..])
  }

  ghost predicate RowReads(row: Row, stretch: seq<Entry>) {
    match row
    case Direct(e) => stretch == [e]
    case Header(_) => stretch == []
    case Body(_, columns) => stretch != [] && Dealt(columns, stretch)
  }

  lemma {:induction false} BelongingDealt(layout: Layout, g: string, columns: seq<seq<Entry>>, stretch: seq<Entry>)
    requires forall k :: 0 <= k < |stretch| ==> InGroup(layout, stretch[k], g, |columns|)
    requires forall l :: 0 <= l < |columns| ==> columns[l] == Belonging(layout, stretch, Lane(g, l))
    ensures Dealt(columns, stretch)
    decreases |stretch|
  {
    hide PlaceOf;
    if stretch != [] {
      var n := |stretch| - 1;
      assert InGroup(layout, stretch[n], g, |columns|);
      var l := PlaceOf(layout, stretch[n]).lane;
      var rest := columns[l := columns[l][..|columns[l]| - 1]];
      assert columns[l] == Belonging(layout, stretch[..n], Lane(g, l)) + [stretch[n]];
      BelongingDealt(layout, g, rest, stretch[..n]);
    }
  }

  lemma {:induction false} CutsRead(rows: seq<Row>, layout: Layout, entries: seq<Entry>)
    requires Cuts(rows, layout, entries)
    ensures Reads(rows, entries)
  {
    hide RowShows, RowReads;
    if rows != [] {
      var n := |rows| - 1;
      var k := LastStretch(rows, layout, entries);
      CutsRead(rows[..n], layout, entries[..k]);
      RowShown(rows[n], layout, entries[k..]);
    }
  }

  lemma RowShown(row: Row, layout: Layout, stretch: seq<Entry>)
    requires RowShows(row, layout, stretch)
    ensures RowReads(row, stretch) && RowPlaced(row, layout)
  {
    hide PlaceOf, Belonging, Dealt;
    if row.Body? {
      BelongingDealt(layout, row.group, row.columns, stretch);
      forall l, x | 0 <= l < |row.columns| && 0 <= x < |row.columns[l]|
        ensures PlaceOf(layout, row.columns[l][x]) == Lane(row.group, l)
      {
        BelongingPlaced(layout, stretch, Lane(row.group, l), x);
      }
    }
  }

  lemma {:induction false} BelongingPlaced(layout: Layout, entries: seq<Entry>, p: Place, x: nat)
    requires x < |Belonging(layout, entries, p)|
    ensures PlaceOf(layout, Belonging(layout, entries, p)[x]) == p
  {
    hide PlaceOf;
    if entries != [] {
      var n := |entries| - 1;
      if x < |Belonging(layout, entries[..n], p)| { BelongingPlaced(layout, entries[..n], p, x); }
    }
  }

  ghost predicate RowPlaced(row: Row, layout: Layout) {
    match row
    case Direct(e) => PlaceOf(layout, e).Alone?
    case Header(_) => true
    case Body(g, columns) => forall l, x :: 0 <= l < |columns| && 0 <= x < |columns[l]| ==> PlaceOf(layout, columns[l][x]) == Lane(g, l)
  }

  lemma {:induction false} CutsPlaced(rows: seq<Row>, layout: Layout, entries: seq<Entry>, r: nat)
    requires Cuts(rows, layout, entries) && r < |rows|
    ensures RowPlaced(rows[r], layout)
  {
    hide RowShows, RowPlaced, RowReads;
    var n := |rows| - 1;
    var k := LastStretch(rows, layout, entries);
    if r < n { CutsPlaced(rows[..n], layout, entries[..k], r); } else { RowShown(rows[n], layout, entries[k..]); }
  }

  lemma StandsAt(rows: seq<Row>, layout: Layout, entries: seq<Entry>, r: nat, l: nat, e: Entry)
    requires Cuts(rows, layout, entries) && Stands(rows, r, l, e)
    ensures PlaceOf(layout, e) == Lane(rows[r].group, l)
  {
    hide Cuts, PlaceOf;
    CutsPlaced(rows, layout, entries, r);
  }

  lemma DirectAlone(layout: Layout, runs: seq<StepRun>, steps: nat, e: Entry)
    requires ProperLayout(layout) && PlaceOf(layout, e).Alone? && (steps >= 2 ==> ClashesApart(runs, layout))
    ensures !Parallel(runs, steps, e)
  {
    hide Clash;
  }

  lemma PlacedParallel(layout: Layout, runs: seq<StepRun>, steps: nat, e: Entry)
    requires PlaceOf(layout, e).Lane?
    requires if steps < 2 then layout == Layout(map[], map[]) else ClashesApart(runs, layout)
    ensures Parallel(runs, steps, e)
  {
    hide Clash, InClash;
  }

  /** Two places of runs that go on side by side. */
  lemma PlacesApart(layout: Layout, runs: seq<StepRun>, steps: nat, e: Entry, f: Entry, a: nat, b: nat)
    requires ProperLayout(layout) && Clash(runs, a, b)
    requires if steps < 2 then layout == Layout(map[], map[]) else ClashesApart(runs, layout)
    requires a < |runs| && b < |runs| && runs[a].id == e.step && runs[b].id == f.step
    requires PlaceOf(layout, e).Lane? && PlaceOf(layout, f).Lane?
    ensures PlaceOf(layout, e).group == PlaceOf(layout, f).group && PlaceOf(layout, e).lane != PlaceOf(layout, f).lane
  {
    hide Clash;
    assert steps >= 2 ==> SideBySide(layout, runs[a], runs[b]);
  }

  lemma SamePlace(layout: Layout, e: Entry, f: Entry)
    requires e.step == f.step && PlaceOf(layout, e).Lane? && PlaceOf(layout, f).Lane?
    ensures PlaceOf(layout, e) == PlaceOf(layout, f)
  {
  }

  /** The rows in terms of the runs alone. */
  lemma RowsKeepApart(rows: seq<Row>, layout: Layout, entries: seq<Entry>, runs: seq<StepRun>, steps: nat)
    requires Cuts(rows, layout, entries) && ProperLayout(layout)
    requires if steps < 2 then layout == Layout(map[], map[]) else ClashesApart(runs, layout)
    ensures OwnRows(rows, runs, steps) && ColumnsApart(rows, runs) && OneColumn(rows)
  {
    hide Cuts, Clash, InClash;
    forall r | 0 <= r < |rows| && rows[r].Direct? ensures !Parallel(runs, steps, rows[r].e) {
      CutsPlaced(rows, layout, entries, r);
      DirectAlone(layout, runs, steps, rows[r].e);
    }
    forall r: nat, l: nat, e | Stands(rows, r, l, e) ensures Parallel(runs, steps, e) {
      StandsAt(rows, layout, entries, r, l, e);
      PlacedParallel(layout, runs, steps, e);
    }
    RowsApart(rows, layout, entries, runs, steps);
  }

  lemma RowsApart(rows: seq<Row>, layout: Layout, entries: seq<Entry>, runs: seq<StepRun>, steps: nat)
    requires Cuts(rows, layout, entries) && ProperLayout(layout)
    requires if steps < 2 then layout == Layout(map[], map[]) else ClashesApart(runs, layout)
    ensures ColumnsApart(rows, runs) && OneColumn(rows)
  {
    hide Cuts, Earlier, StillGoing, InClash, ClashesApart, ProperLayout, PlaceOf;
    forall r: nat, l: nat, e, q: nat, m: nat, f, a: nat, b: nat |
      Stands(rows, r, l, e) && Stands(rows, q, m, f) && Clash(runs, a, b) && a < |runs| && b < |runs| &&
      runs[a].id == e.step && runs[b].id == f.step
      ensures r < |rows| && q < |rows| && rows[r].Body? && rows[q].Body? && rows[r].group == rows[q].group && l != m
    {
      StandsAt(rows, layout, entries, r, l, e);
      StandsAt(rows, layout, entries, q, m, f);
      PlacesApart(layout, runs, steps, e, f, a, b);
    }
    forall r: nat, l: nat, e, q: nat, m: nat, f | Stands(rows, r, l, e) && Stands(rows, q, m, f) && e.step == f.step
      ensures rows[r].group == rows[q].group && l == m
    {
      StandsAt(rows, layout, entries, r, l, e);
      StandsAt(rows, layout, entries, q, m, f);
      SamePlace(layout, e, f);
    }
  }

  /** What a timeline shows, whatever the order its runs are listed in: every entry once and in
      order; those of parallel runs, and no others, in bodies of columns; runs that go on side by
      side in different columns of one group, and one run in one column. */
  ghost predicate Timely(rows: seq<Row>, entries: seq<Entry>, runs: seq<StepRun>, steps: nat) {
    Reads(rows, entries) && OwnRows(rows, runs, steps) && ColumnsApart(rows, runs) && OneColumn(rows)
  }

  method BuildWorkflowTimeline(entries: seq<Entry>, stepRuns: seq<StepRun>, steps: nat)
    returns (rows: seq<Row>, layout: Layout)
    requires UniqueIds(stepRuns) && forall r :: r in stepRuns ==> r.id != ""
    ensures Timely(rows, entries, stepRuns, steps)
    ensures Headed(rows) && Turns(rows, layout)
    ensures ShowsAll(rows, layout, entries) && Cuts(rows, layout, entries)
    ensures steps < 2 ==> layout == Layout(map[], map[])
    ensures steps >= 2 ==> ClashesApart(stepRuns, layout) && LaidOut(SortByStart(stepRuns), |stepRuns|, layout)
  {
    hide UniqueIds, LaidOut, Sorted, SortByStart, Reads, OwnRows, ColumnsApart, OneColumn, Headed, Turns, ShowsAll, Cuts,
         ProperLayout, ClashesApart;
    if steps < 2 {
      layout := Layout(map[], map[]);
      NoLayout();
    } else {
      SortKeepsUnique(stepRuns);
      var runs := SortByStart(stepRuns);
      layout := GroupRuns(runs);
      forall k | 0 <= k < |runs| ensures runs[k].id != "" { assert runs[k] in runs; }
      GroupedIsProper(runs, layout);
      LaidOutApart(stepRuns, layout);
    }
    rows := SpreadEntries(entries, layout);
    CutsRead(rows, layout, entries);
    RowsKeepApart(rows, layout, entries, stepRuns, steps);
  }

  lemma NoLayout()
    ensures ProperLayout(Layout(map[], map[]))
  {
  }
}
