/** Grouping the items of a conversation (conversation.go): neighbouring process records of one
    step, all thoughts or all tools, share a card. */
module Grouping {
  import opened Transcript

  /** A row of the conversation, naming its records by their positions. */
  datatype Row = Single(item: nat) | Group(members: seq<nat>)

  /** What is shown inside a card rather than as a row of its own. */
  predicate Process(r: Record) {
    !r.user && !r.kind.Message? && !r.kind.Error? && !r.kind.Transition? && !r.kind.QueueStatus? && !r.kind.FileChange?
  }

  /** A card holds either reasoning or tools of one step. */
  predicate Together(a: Record, b: Record) {
    a.step == b.step && a.kind.Reasoning? == b.kind.Reasoning?
  }

  ghost predicate AllIn(raw: seq<Record>, items: seq<nat>) {
    forall k :: 0 <= k < |items| ==> items[k] < |raw|
  }

  function Members(row: Row): seq<nat> {
    match row
    case Single(i) => [i]
    case Group(m) => m
  }

  function Flatten(rows: seq<Row>): seq<nat> {
    if rows == [] then [] else Flatten(rows[..|rows| - 1]) + Members(rows[|rows| - 1])
  }

  /** The last row is a card that takes the record. */
  ghost predicate Takes(raw: seq<Record>, rows: seq<Row>, e: nat)
    requires e < |raw|
  {
    && rows != [] && rows[|rows| - 1].Group? && Process(raw[e])
    && var m := rows[|rows| - 1].members; m != [] && m[0] < |raw| && Together(raw[m[0]], raw[e])
  }

  /** The rows after one more item. */
  ghost function WithItem(raw: seq<Record>, rows: seq<Row>, e: nat): seq<Row>
    requires e < |raw|
  {
    if !Process(raw[e]) then rows + [Single(e)]
    else if Takes(raw, rows, e) then rows[..|rows| - 1] + [Group(rows[|rows| - 1].members + [e])]
    else rows + [Group([e])]
  }

  ghost function Grouped(raw: seq<Record>, items: seq<nat>): seq<Row>
    requires AllIn(raw, items)
  {
    if items == [] then [] else
      var n := |items| - 1;
      WithItem(raw, Grouped(raw, items[..n]), items[n])
  }

  ghost predicate ProperRow(raw: seq<Record>, row: Row) {
    match row
    case Single(i) => i < |raw| && !Process(raw[i])
    case Group(m) =>
      m != [] && m[0] < |raw| && forall k :: 0 <= k < |m| ==> m[k] < |raw| && Process(raw[m[k]]) && Together(raw[m[0]], raw[m[k]])
  }

  ghost predicate Split(raw: seq<Record>, a: Row, b: Row)
    requires ProperRow(raw, a) && ProperRow(raw, b)
  {
    a.Group? && b.Group? ==> !Together(raw[a.members[0]], raw[b.members[0]])
  }

  /** Rows in which no card could be longer. */
  ghost predicate Arrangement(raw: seq<Record>, rows: seq<Row>) {
    && (forall k :: 0 <= k < |rows| ==> ProperRow(raw, rows[k]))
    && (forall k :: 0 < k < |rows| ==> Split(raw, rows[k - 1], rows[k]))
  }

  lemma FlattenAppend(rows: seq<Row>, row: Row)
    ensures Flatten(rows + [row]) == Flatten(rows) + Members(row)
  {
    assert (rows + [row])[..|rows|] == rows;
  }

  lemma FlattenInit(rows: seq<Row>)
    requires rows != []
    ensures Flatten(rows) == Flatten(rows[..|rows| - 1]) + Members(rows[|rows| - 1])
  {
  }

  lemma Appended(raw: seq<Record>, rows: seq<Row>, row: Row)
    requires Arrangement(raw, rows) && ProperRow(raw, row)
    requires rows != [] ==> Split(raw, rows[|rows| - 1], row)
    ensures Arrangement(raw, rows + [row])
  {
    hide Process, Together, ProperRow, Split;
  }

  lemma GrownRow(raw: seq<Record>, m: seq<nat>, e: nat)
    requires ProperRow(raw, Group(m)) && e < |raw| && Process(raw[e]) && Together(raw[m[0]], raw[e])
    ensures ProperRow(raw, Group(m + [e]))
  {
    hide Process, Together;
  }

  lemma WithItemArranged(raw: seq<Record>, rows: seq<Row>, e: nat)
    requires e < |raw| && Arrangement(raw, rows)
    ensures Arrangement(raw, WithItem(raw, rows, e)) && Flatten(WithItem(raw, rows, e)) == Flatten(rows) + [e]
  {
    hide Process, Flatten;
    if Takes(raw, rows, e) {
      TakenArranged(raw, rows, e);
    } else if Process(raw[e]) {
      FlattenAppend(rows, Group([e]));
      hide Together;
      Appended(raw, rows, Group([e])) by { assert rows != [] ==> ProperRow(raw, rows[|rows| - 1]); SelfTogether(raw[e]); }
    } else {
      hide Together;
      FlattenAppend(rows, Single(e));
      Appended(raw, rows, Single(e)) by { assert rows != [] ==> ProperRow(raw, rows[|rows| - 1]); }
    }
  }

  lemma SelfTogether(a: Record)
    ensures Together(a, a)
  {
  }

  lemma TakenArranged(raw: seq<Record>, rows: seq<Row>, e: nat)
    requires e < |raw| && Arrangement(raw, rows) && Takes(raw, rows, e)
    ensures Arrangement(raw, WithItem(raw, rows, e)) && Flatten(WithItem(raw, rows, e)) == Flatten(rows) + [e]
  {
    hide Process, Together, Flatten;
    var n := |rows| - 1;
    var m := rows[n].members;
    assert ProperRow(raw, rows[n]) && (n > 0 ==> Split(raw, rows[n - 1], rows[n]));
    GrownRow(raw, m, e);
    FlattenInit(rows);
    FlattenAppend(rows[..n], Group(m + [e]));
    ArrangedInit(raw, rows);
    assert n > 0 ==> rows[..n][n - 1] == rows[n - 1] && ProperRow(raw, rows[n - 1]);
    Appended(raw, rows[..n], Group(m + [e]));
  }

  lemma ArrangedInit(raw: seq<Record>, rows: seq<Row>)
    requires Arrangement(raw, rows) && rows != []
    ensures Arrangement(raw, rows[..|rows| - 1])
  {
    hide Process, Together, ProperRow, Split;
  }

  /** The cards flatten back to the items in their order, and no card could be longer. */
  lemma {:induction false} GroupsAreMaximal(raw: seq<Record>, items: seq<nat>)
    requires AllIn(raw, items)
    ensures Arrangement(raw, Grouped(raw, items)) && Flatten(Grouped(raw, items)) == items
  {
    hide WithItem, Arrangement;
    if items == [] {
      NothingArranged(raw);
    } else {
      var n := |items| - 1;
      GroupsAreMaximal(raw, items[..n]);
      WithItemArranged(raw, Grouped(raw, items[..n]), items[n]);
      assert items == items[..n] + [items[n]];
    }
  }

  lemma NothingArranged(raw: seq<Record>)
    ensures Arrangement(raw, [])
  {
  }

  /** No other arrangement of the items has longest cards. */
  lemma {:induction false} OnlyArrangement(raw: seq<Record>, rows: seq<Row>)
    requires Arrangement(raw, rows)
    ensures AllIn(raw, Flatten(rows)) && rows == Grouped(raw, Flatten(rows))
    decreases |Flatten(rows)|
  {
    if rows != [] {
      var shorter, e := Shorter(raw, rows);
      OnlyArrangement(raw, shorter);
      assert Flatten(rows)[..|Flatten(rows)| - 1] == Flatten(shorter);
    }
  }

  /** An arrangement without its last item. */
  lemma Shorter(raw: seq<Record>, rows: seq<Row>) returns (shorter: seq<Row>, e: nat)
    requires Arrangement(raw, rows) && rows != []
    ensures Arrangement(raw, shorter) && e < |raw|
    ensures Flatten(rows) == Flatten(shorter) + [e] && rows == WithItem(raw, shorter, e)
  {
    hide Process, Together, Flatten, Arrangement, WithItem;
    var n := |rows| - 1;
    var m := Members(rows[n]);
    LastRow(raw, rows);
    ArrangedInit(raw, rows);
    FlattenInit(rows);
    e := m[|m| - 1];
    assert m == m[..|m| - 1] + [e];
    if |m| == 1 {
      shorter := rows[..n];
      StartsRow(raw, rows, e);
    } else {
      shorter := rows[..n] + [Group(m[..|m| - 1])];
      FlattenAppend(rows[..n], Group(m[..|m| - 1]));
      ShorterCard(raw, rows, m, e);
    }
  }

  lemma LastRow(raw: seq<Record>, rows: seq<Row>)
    requires Arrangement(raw, rows) && rows != []
    ensures ProperRow(raw, rows[|rows| - 1])
    ensures |rows| > 1 ==> ProperRow(raw, rows[|rows| - 2]) && Split(raw, rows[|rows| - 2], rows[|rows| - 1])
  {
    hide ProperRow, Split;
  }

  /** The last row holds one item, which started it. */
  lemma StartsRow(raw: seq<Record>, rows: seq<Row>, e: nat)
    requires Arrangement(raw, rows) && rows != [] && Members(rows[|rows| - 1]) == [e]
    ensures e < |raw| && rows == WithItem(raw, rows[..|rows| - 1], e)
  {
    hide Process, Together, Arrangement;
    LastRow(raw, rows);
    assert rows == rows[..|rows| - 1] + [rows[|rows| - 1]];
  }

  /** The last row is a card that took its last item. */
  lemma ShorterCard(raw: seq<Record>, rows: seq<Row>, m: seq<nat>, e: nat)
    requires Arrangement(raw, rows) && rows != [] && rows[|rows| - 1] == Group(m) && |m| > 1 && e == m[|m| - 1]
    ensures var shorter := rows[..|rows| - 1] + [Group(m[..|m| - 1])];
            Arrangement(raw, shorter) && e < |raw| && rows == WithItem(raw, shorter, e)
  {
    hide Process, Together, Arrangement;
    var n, cut := |rows| - 1, Group(m[..|m| - 1]);
    LastRow(raw, rows);
    ArrangedInit(raw, rows);
    Appended(raw, rows[..n], cut);
    assert m == cut.members + [e] && rows == rows[..n] + [Group(m)];
  }

  lemma {:induction false} MembersInside(rows: seq<Row>, k: nat)
    requires k < |rows|
    ensures forall i :: i in Members(rows[k]) ==> i in Flatten(rows)
  {
    FlattenInit(rows);
    if k < |rows| - 1 { MembersInside(rows[..|rows| - 1], k); }
  }

  // ---------- The cards, in terms of the records ----------

  const OWN_ROWS := {Kind.Message, Kind.Error, Kind.Transition, Kind.QueueStatus, Kind.FileChange}

  /** What a person said, and what is no step's inner working, stands alone; a card holds the
      thoughts of one step, or what else one step did; and neighbouring cards differ in that. */
  lemma CardsExactly(raw: seq<Record>, items: seq<nat>, k: nat)
    requires AllIn(raw, items) && k < |Grouped(raw, items)|
    ensures match Grouped(raw, items)[k]
            case Single(i) => i < |raw| && (raw[i].user || raw[i].kind in OWN_ROWS)
            case Group(m) =>
              && m != [] && m[0] < |raw|
              && forall j :: 0 <= j < |m| ==> m[j] < |raw| && !raw[m[j]].user && raw[m[j]].kind !in OWN_ROWS &&
                                              raw[m[j]].step == raw[m[0]].step &&
                                              (raw[m[j]].kind == Kind.Reasoning <==> raw[m[0]].kind == Kind.Reasoning)
    ensures var rows := Grouped(raw, items);
            k > 0 && rows[k - 1].Group? && rows[k].Group? ==>
              var a, b := rows[k - 1].members, rows[k].members;
              a != [] && b != [] && a[0] < |raw| && b[0] < |raw| &&
              (raw[a[0]].step != raw[b[0]].step || (raw[a[0]].kind == Kind.Reasoning) != (raw[b[0]].kind == Kind.Reasoning))
  {
    hide Grouped;
    GroupsAreMaximal(raw, items);
    var rows := Grouped(raw, items);
    assert ProperRow(raw, rows[k]);
    if k > 0 { assert ProperRow(raw, rows[k - 1]) && Split(raw, rows[k - 1], rows[k]); }
  }
}
