/** The transcript of a run (transcript.go): merging disk history with live frames by
    revision, and the order in which records are shown. */
module Transcript {
  import opened Collections
  import Text

  datatype Kind =
    | Started | Usage | Result | PermissionResolved | UserInputResolved
    | ToolUse | ToolResult | Message | Reasoning | Error | QueueStatus | FileChange | Transition
    | Plain(name: string)

  datatype Option<T> = None | Some(value: T)

  /** Times are counted from the zero time. `answer` holds the text of the answers a person
      gave, if any may be shown. */
  datatype Record = Record(
    key: string,
    step: string,
    stream: string,
    seqNo: int,
    kind: Kind,
    text: string,
    at: int,
    queueUpdatedAt: int,
    revision: nat,
    streaming: bool,
    failed: bool,
    user: bool,
    permission: Option<string>,
    question: Option<string>,
    answer: Option<string>,
    attachments: nat)

  // ---------- Merging ----------

  function RequestKey(step: string, id: string): string {
    step + "/request/" + id
  }

  /** An answered question is shown as the person's own message. */
  function Presented(e: Record): Record {
    if e.kind.UserInputResolved? && e.question.Some? && e.answer.Some?
    then e.(text := e.answer.value, user := true, kind := Message, question := None)
    else e
  }

  predicate Fresher(items: map<string, Record>, e: Record) {
    e.key in items ==> e.revision > items[e.key].revision
  }

  /** The record kept under a key: a delta continues the text, anything else replaces it, and
      a record stays where it first appeared. */
  function Kept(items: map<string, Record>, e: Record, delta: bool): Record {
    if e.key in items
    then e.(text := if delta then items[e.key].text + e.text else e.text, at := items[e.key].at)
    else e
  }

  function Merged(items: map<string, Record>, e: Record, delta: bool): map<string, Record> {
    if Fresher(items, e) then items[e.key := Kept(items, e, delta)] else items
  }

  class Transcript {
    var items: map<string, Record>
    var resolvedPermissions: set<string>
    var resolvedQuestions: set<string>
    /** The builders of records receiving deltas: what each has written so far. */
    var streams: map<string, string>

    constructor ()
      ensures Valid() && items == map[] && streams == map[] && resolvedPermissions == {} && resolvedQuestions == {}
    {
      items, resolvedPermissions, resolvedQuestions, streams := map[], {}, {}, map[];
    }

    /** Records lie under their own keys, and a builder as long as its record's text holds that text. */
    ghost predicate Valid()
      reads this
    {
      && Keyed(items)
      && (forall k :: k in streams && k in items && |streams[k]| == |items[k].text| ==> streams[k] == items[k].text)
    }

    /** Writes a delta into the record's builder, restarting it when its length is not the text's. */
    method Extend(key: string, oldText: string, delta: string) returns (joined: string)
      requires key in streams && |streams[key]| == |oldText| ==> streams[key] == oldText
      modifies this`streams
      ensures joined == oldText + delta && streams == old(streams)[key := joined]
    {
      var b := if key in streams then streams[key] else "";
      if key !in streams || |b| != |oldText| {
        b := "";
        b := b + oldText;
      }
      b := b + delta;
      streams := streams[key := b];
      joined := b;
    }

    /** Notes a request as resolved; what was answered becomes the person's own message. */
    method Resolve(e0: Record) returns (e: Record)
      modifies this`resolvedPermissions, this`resolvedQuestions
      ensures e == Presented(e0)
      ensures resolvedPermissions == old(resolvedPermissions) +
              if e0.kind.PermissionResolved? && e0.permission.Some? then {RequestKey(e0.step, e0.permission.value)} else {}
      ensures resolvedQuestions == old(resolvedQuestions) +
              if e0.kind.UserInputResolved? && e0.question.Some? then {RequestKey(e0.step, e0.question.value)} else {}
    {
      e := e0;
      if e.kind.PermissionResolved? && e.permission.Some? {
        resolvedPermissions := resolvedPermissions + {RequestKey(e.step, e.permission.value)};
      }
      if e.kind.UserInputResolved? && e.question.Some? {
        resolvedQuestions := resolvedQuestions + {RequestKey(e.step, e.question.value)};
        if e.answer.Some? {
          e := e.(text := e.answer.value, user := true, kind := Message, question := None);
        }
      }
    }

    /** The builder path gives plain concatenation, whatever was merged before. */
    method Merge(e0: Record, delta: bool) returns (changed: bool)
      requires Valid()
      modifies this
      ensures Valid()
      ensures items == Merged(old(items), Presented(e0), delta)
      ensures changed == Fresher(old(items), Presented(e0))
      ensures resolvedPermissions == old(resolvedPermissions) +
              if e0.kind.PermissionResolved? && e0.permission.Some? then {RequestKey(e0.step, e0.permission.value)} else {}
      ensures resolvedQuestions == old(resolvedQuestions) +
              if e0.kind.UserInputResolved? && e0.question.Some? then {RequestKey(e0.step, e0.question.value)} else {}
    {
      hide Presented, RequestKey;
      var e := Resolve(e0);
      if e.key in items && e.revision <= items[e.key].revision { return false; }
      ghost var kept := Kept(items, e, delta);
      if delta && e.key in items {
        var joined := Extend(e.key, items[e.key].text, e.text);
        e := e.(text := joined);
      } else {
        streams := streams - {e.key};
      }
      if e.key in items { e := e.(at := items[e.key].at); }
      assert e == kept;
      items := items[e.key := e];
      return true;
    }

    /** A history is merged record by record. */
    method History(es: seq<Record>)
      requires Valid()
      modifies this
      ensures Valid() && items == Arrived(old(items), Snapshots(es))
    {
      hide Presented, RequestKey, Merged, Fresher;
      ghost var arrivals := Snapshots(es);
      for i := 0 to |es|
        invariant Valid() && items == Arrived(old(items), arrivals[..i])
      {
        assert arrivals[..i + 1][..i] == arrivals[..i];
        var changed := Merge(es[i], false);
      }
      assert arrivals[..|es|] == arrivals;
    }
  }

  // ---------- Convergence ----------

  /** Snapshots merged one after the other. */
  function MergedAll(items: map<string, Record>, es: seq<Record>): map<string, Record> {
    if es == [] then items else Merged(MergedAll(items, es[..|es| - 1]), es[|es| - 1], false)
  }

  /** What a record says, apart from where it stands in time. */
  function Content(e: Record): Record {
    e.(at := 0)
  }

  ghost predicate BestOf(es: seq<Record>, k: string, best: Record) {
    best in es && best.key == k && forall e :: e in es && e.key == k ==> e.revision <= best.revision
  }

  /** The time of the first arrival under a key. */
  function FirstAt(es: seq<Record>, k: string): int {
    if es == [] then 0 else if es[0].key == k then es[0].at else FirstAt(es[1..], k)
  }

  lemma {:induction false} FirstAtAppend(es: seq<Record>, e: Record, k: string)
    requires exists x :: x in es && x.key == k
    ensures FirstAt(es + [e], k) == FirstAt(es, k)
  {
    if es[0].key != k {
      assert (es + [e])[1..] == es[1..] + [e];
      FirstAtAppend(es[1..], e, k);
    }
  }

  lemma {:induction false} FirstAtNew(es: seq<Record>, e: Record)
    requires forall x :: x in es ==> x.key != e.key
    ensures FirstAt(es + [e], e.key) == e.at
  {
    assert e in es + [e];
    if es != [] {
      assert es[0] in es;
      assert (es + [e])[1..] == es[1..] + [e];
      FirstAtNew(es[1..], e);
    }
  }

  /** Merging snapshots into an empty transcript keeps, for every key, a record of the
      highest revision that arrived, at the time of the first that arrived. */
  lemma {:induction false} MergedAllKeepsBest(es: seq<Record>, k: string)
    ensures k in MergedAll(map[], es) <==> exists e :: e in es && e.key == k
    ensures k in MergedAll(map[], es) ==>
              && (exists best :: BestOf(es, k, best) && Content(MergedAll(map[], es)[k]) == Content(best))
              && MergedAll(map[], es)[k].at == FirstAt(es, k)
  {
    if es != [] {
      var n := |es| - 1;
      var before, e := es[..n], es[n];
      assert es == before + [e];
      MergedAllKeepsBest(before, k);
      var items := MergedAll(map[], before);
      if e.key == k {
        if k in items {
          var best :| BestOf(before, k, best) && Content(items[k]) == Content(best);
          FirstAtAppend(before, e, k);
          assert items[k].revision == best.revision;
          if Fresher(items, e) { assert BestOf(es, k, e); } else { assert BestOf(es, k, best); }
        } else {
          FirstAtNew(before, e);
          assert BestOf(es, k, e);
        }
      } else if k in items {
        var best :| BestOf(before, k, best) && Content(items[k]) == Content(best);
        FirstAtAppend(before, e, k);
        assert BestOf(es, k, best);
      }
    }
  }

  /** Snapshots of one key and revision say the same thing. */
  ghost predicate Consistent(es: seq<Record>) {
    forall a, b :: a in es && b in es && a.key == b.key && a.revision == b.revision ==> Content(a) == Content(b)
  }

  /** Any two arrival orders, with any repetitions, end with the same content under every
      key, and with the very same records exactly when each key's first arrivals agree on the time. */
  lemma Convergent(es: seq<Record>, fs: seq<Record>)
    requires Consistent(es) && Elements(es) == Elements(fs)
    ensures MergedAll(map[], es).Keys == MergedAll(map[], fs).Keys
    ensures forall k :: k in MergedAll(map[], es) ==> Content(MergedAll(map[], es)[k]) == Content(MergedAll(map[], fs)[k])
    ensures MergedAll(map[], es) == MergedAll(map[], fs) <==>
            forall k :: k in MergedAll(map[], es) ==> FirstAt(es, k) == FirstAt(fs, k)
  {
    var a, b := MergedAll(map[], es), MergedAll(map[], fs);
    assert forall e :: e in es <==> e in fs by {
      assert forall e :: e in es <==> e in Elements(es);
      assert forall e :: e in fs <==> e in Elements(fs);
    }
    forall k
      ensures k in a <==> k in b
      ensures k in a ==> Content(a[k]) == Content(b[k]) && a[k].at == FirstAt(es, k) && b[k].at == FirstAt(fs, k)
    {
      MergedAllKeepsBest(es, k);
      MergedAllKeepsBest(fs, k);
      if k in a {
        var x :| BestOf(es, k, x) && Content(a[k]) == Content(x);
        var y :| BestOf(fs, k, y) && Content(b[k]) == Content(y);
        assert x.revision == y.revision;
      }
    }
    forall k | k in a ensures a[k] == b[k] <==> FirstAt(es, k) == FirstAt(fs, k) {
      assert a[k].(at := b[k].at) == b[k] by { assert Content(a[k]) == Content(b[k]); SameContent(a[k], b[k]); }
    }
  }

  /** Two revisions of one record that carry different times: the record stays where the one
      that arrived first stood. */
  lemma FirstArrivalShows(r: Record, later: Record)
    requires later.key == r.key && later.revision > r.revision && later.at != r.at
    ensures var a, b := MergedAll(map[], [r, later]), MergedAll(map[], [later, r]);
            a.Keys == b.Keys == {r.key} && a[r.key].at == r.at && b[r.key].at == later.at && a != b
  {
    assert [r, later][..1] == [r] && [later, r][..1] == [later] && [r][..0] == [] && [later][..0] == [];
    assert MergedAll(map[], [r]) == map[r.key := r] && MergedAll(map[], [later]) == map[r.key := later];
  }

  /** The records of a history as they arrive: each is a snapshot. */
  function Snapshots(es: seq<Record>): seq<Arrival> {
    seq(|es|, i requires 0 <= i < |es| => Arrival(es[i], false))
  }

  function PresentedAll(es: seq<Record>): (ps: seq<Record>)
    ensures |ps| == |es| && forall i :: 0 <= i < |es| ==> ps[i] == Presented(es[i])
  {
    seq(|es|, i requires 0 <= i < |es| => Presented(es[i]))
  }

  lemma {:induction false} HistoryMerged(es: seq<Record>)
    ensures Arrived(map[], Snapshots(es)) == MergedAll(map[], PresentedAll(es))
  {
    if es != [] {
      var n := |es| - 1;
      HistoryMerged(es[..n]);
      assert Snapshots(es)[..n] == Snapshots(es[..n]) && PresentedAll(es)[..n] == PresentedAll(es[..n]);
    }
  }

  lemma {:induction false} FirstAtPresented(es: seq<Record>, k: string)
    ensures FirstAt(PresentedAll(es), k) == FirstAt(es, k)
  {
    if es != [] {
      assert PresentedAll(es)[1..] == PresentedAll(es[1..]);
      FirstAtPresented(es[1..], k);
    }
  }

  lemma PresentedConsistent(es: seq<Record>, fs: seq<Record>)
    requires Consistent(es) && Elements(es) == Elements(fs)
    ensures Consistent(PresentedAll(es)) && Elements(PresentedAll(es)) == Elements(PresentedAll(fs))
  {
    PresentedWithin(es, fs);
    PresentedWithin(fs, es);
    var ps := PresentedAll(es);
    forall a, b | a in ps && b in ps && a.key == b.key && a.revision == b.revision ensures Content(a) == Content(b) {
      var i :| 0 <= i < |ps| && ps[i] == a;
      var j :| 0 <= j < |ps| && ps[j] == b;
      assert Content(es[i]) == Content(es[j]);
      SameContent(es[i], es[j]);
    }
  }

  lemma PresentedWithin(es: seq<Record>, fs: seq<Record>)
    requires Elements(es) <= Elements(fs)
    ensures Elements(PresentedAll(es)) <= Elements(PresentedAll(fs))
  {
    hide Presented;
    forall a | a in PresentedAll(es) ensures a in PresentedAll(fs) {
      var i :| 0 <= i < |es| && PresentedAll(es)[i] == a;
      assert es[i] in Elements(es);
      var j :| 0 <= j < |fs| && fs[j] == es[i];
      assert PresentedAll(fs)[j] == a;
    }
  }

  /** The same of the transcript itself, which presents answers before it merges them: any two
      orders in which the records of a run arrive end with the same content under every key, and
      with the same transcript exactly when the first arrivals agree on the time. */
  lemma TranscriptConverges(es: seq<Record>, fs: seq<Record>)
    requires Consistent(es) && Elements(es) == Elements(fs)
    ensures var a, b := Arrived(map[], Snapshots(es)), Arrived(map[], Snapshots(fs));
            && a.Keys == b.Keys && (forall k :: k in a ==> Content(a[k]) == Content(b[k]))
            && (a == b <==> forall k :: k in a ==> FirstAt(es, k) == FirstAt(fs, k))
  {
    hide Presented, Consistent, Content;
    HistoryMerged(es);
    HistoryMerged(fs);
    PresentedConsistent(es, fs);
    Convergent(PresentedAll(es), PresentedAll(fs));
    forall k
      ensures FirstAt(PresentedAll(es), k) == FirstAt(es, k) && FirstAt(PresentedAll(fs), k) == FirstAt(fs, k)
    {
      FirstAtPresented(es, k);
      FirstAtPresented(fs, k);
    }
  }

  lemma SameContent(a: Record, b: Record)
    requires Content(a) == Content(b)
    ensures a.(at := b.at) == b
  {
    assert Content(a).(at := b.at) == Content(b).(at := b.at);
  }

  datatype Arrival = Arrival(record: Record, delta: bool)

  /** Snapshots from disk and live deltas, merged as they come. */
  function Arrived(items: map<string, Record>, arrivals: seq<Arrival>): map<string, Record> {
    if arrivals == [] then items else
      var n := |arrivals| - 1;
      Merged(Arrived(items, arrivals[..n]), Presented(arrivals[n].record), arrivals[n].delta)
  }

  ghost predicate Keyed(items: map<string, Record>) {
    forall k :: k in items ==> items[k].key == k
  }

  /** A late read never rolls a response back: whatever arrives, a record's revision only
      grows, a record whose revision stayed is untouched, and deltas alone only add text. */
  lemma {:induction false} NeverRollsBack(items: map<string, Record>, arrivals: seq<Arrival>, k: string)
    requires Keyed(items) && k in items
    ensures k in Arrived(items, arrivals) && Keyed(Arrived(items, arrivals))
    ensures Arrived(items, arrivals)[k].revision >= items[k].revision
    ensures Arrived(items, arrivals)[k].revision == items[k].revision ==> Arrived(items, arrivals)[k] == items[k]
    ensures Arrived(items, arrivals)[k].at == items[k].at
    ensures (forall a :: a in arrivals ==> a.delta) ==> items[k].text <= Arrived(items, arrivals)[k].text
  {
    if arrivals != [] {
      var n := |arrivals| - 1;
      assert arrivals == arrivals[..n] + [arrivals[n]];
      NeverRollsBack(items, arrivals[..n], k);
    }
  }

  /** The highest revision under a key once these have arrived on top of revision `from`. */
  function LastTaken(arrivals: seq<Arrival>, k: string, from: nat): nat {
    if arrivals == [] then from else
      var n := |arrivals| - 1;
      var r, before := arrivals[n].record, LastTaken(arrivals[..n], k, from);
      if r.key == k && r.revision > before then r.revision else before
  }

  /** The texts of the arrivals under a key that are new when they arrive, one after the other. */
  function NewTexts(arrivals: seq<Arrival>, k: string, from: nat): string {
    if arrivals == [] then "" else
      var n := |arrivals| - 1;
      var r := arrivals[n].record;
      NewTexts(arrivals[..n], k, from) + if r.key == k && r.revision > LastTaken(arrivals[..n], k, from) then r.text else ""
  }

  /** Since a record last was written whole, each delta that is new has been put at its end;
      late and repeated ones and all other records leave it alone. */
  lemma {:induction false} GrowsByDeltas(items: map<string, Record>, arrivals: seq<Arrival>, k: string)
    requires k in items
    requires forall a :: a in arrivals && a.record.key == k ==> a.delta && !a.record.kind.UserInputResolved?
    ensures var out := Arrived(items, arrivals);
            && k in out && out[k].revision == LastTaken(arrivals, k, items[k].revision)
            && out[k].text == items[k].text + NewTexts(arrivals, k, items[k].revision)
  {
    if arrivals != [] {
      var n := |arrivals| - 1;
      assert arrivals == arrivals[..n] + [arrivals[n]];
      GrowsByDeltas(items, arrivals[..n], k);
    }
  }

  /** A new snapshot and deltas of rising revision behind it. */
  predicate Stream(arrivals: seq<Arrival>, k: string, from: nat) {
    forall i: nat :: i < |arrivals| ==> NextDelta(arrivals, k, from, i)
  }

  predicate NextDelta(arrivals: seq<Arrival>, k: string, from: nat, i: nat)
    requires i < |arrivals|
  {
    arrivals[i].delta && arrivals[i].record.key == k && !arrivals[i].record.kind.UserInputResolved? &&
    arrivals[i].record.revision > (if i == 0 then from else arrivals[i - 1].record.revision)
  }

  function Texts(arrivals: seq<Arrival>): string {
    if arrivals == [] then "" else Texts(arrivals[..|arrivals| - 1]) + arrivals[|arrivals| - 1].record.text
  }

  /** A response that is streamed ends as its snapshot and all its deltas, joined. */
  lemma StreamedText(items: map<string, Record>, whole: Record, deltas: seq<Arrival>)
    requires Fresher(items, whole) && !whole.kind.UserInputResolved? && Stream(deltas, whole.key, whole.revision)
    ensures var out := Arrived(Arrived(items, [Arrival(whole, false)]), deltas);
            && whole.key in out && out[whole.key].text == whole.text + Texts(deltas)
            && out[whole.key].revision == if deltas == [] then whole.revision else deltas[|deltas| - 1].record.revision
  {
    assert [Arrival(whole, false)][..0] == [];
    var start := Arrived(items, [Arrival(whole, false)]);
    forall a | a in deltas ensures a.delta && !a.record.kind.UserInputResolved? {
      var i: nat :| i < |deltas| && deltas[i] == a;
      assert NextDelta(deltas, whole.key, whole.revision, i);
    }
    GrowsByDeltas(start, deltas, whole.key);
    AllTaken(deltas, whole.key, whole.revision);
  }

  lemma {:induction false} AllTaken(deltas: seq<Arrival>, k: string, from: nat)
    requires Stream(deltas, k, from)
    ensures LastTaken(deltas, k, from) == if deltas == [] then from else deltas[|deltas| - 1].record.revision
    ensures NewTexts(deltas, k, from) == Texts(deltas)
  {
    if deltas != [] {
      var front := deltas[..|deltas| - 1];
      forall i: nat | i < |front| ensures NextDelta(front, k, from, i) { assert NextDelta(deltas, k, from, i); }
      assert NextDelta(deltas, k, from, |front|);
      AllTaken(front, k, from);
    }
  }

  // ---------- Keys ----------

  function Digit(n: nat): char
    requires n < 10
  {
    ['0', '1', '2', '3', '4', '5', '6', '7', '8', '9'][n]
  }

  function Decimal(n: nat): string {
    if n < 10 then [Digit(n)] else Decimal(n / 10) + [Digit(n % 10)]
  }

  /** The names the kinds are stored under; those the conversation treats alike go by their own. */
  function KindName(kind: Kind): string {
    match kind
    case Started => "started"
    case Usage => "usage"
    case Result => "result"
    case PermissionResolved => "permission_resolved"
    case UserInputResolved => "user_input_resolved"
    case ToolUse => "tool_use"
    case ToolResult => "tool_result"
    case Message => "message"
    case Reasoning => "reasoning"
    case Error => "error"
    case QueueStatus => "queue_status"
    case FileChange => "file_change"
    case Transition => "workflow_transition"
    case Plain(name) => name
  }

  function EventKey(step: string, stream: string, seqNo: int, kind: Kind): string {
    if stream != "" then
      if kind.ToolUse? || kind.ToolResult? then step + "/stream/" + stream + "/" + KindName(kind) else step + "/stream/" + stream
    else step + "/event/" + (if seqNo < 0 then "-" + Decimal(-seqNo) else Decimal(seqNo)) + "/" + KindName(kind)
  }

  /** The keys of rows that no step produced. */
  predicate BuiltIn(key: string) {
    key == "prompt" || "resume/" <= key || "instruction/" <= key || "transition/" <= key
  }

  /** A step-run id as the store makes them: not empty, without a slash, and not one of the
      names that built-in keys start with. */
  predicate ProperStep(step: string) {
    step != "" && '/' !in step && step != "resume" && step != "instruction" && step != "transition"
  }

  /** Calls and results of tools come from events only, under the keys made for them. */
  predicate ToolKeyed(r: Record) {
    r.kind.ToolUse? || r.kind.ToolResult? ==> r.key == EventKey(r.step, r.stream, r.seqNo, r.kind)
  }

  /** Whatever arrives under its own key lies in the transcript under that key, whole or grown. */
  lemma {:induction false} ArrivedKeyed(items: map<string, Record>, arrivals: seq<Arrival>)
    requires Keyed(items) && forall k :: k in items ==> ToolKeyed(items[k])
    requires forall a :: a in arrivals ==> ToolKeyed(a.record)
    ensures Keyed(Arrived(items, arrivals))
    ensures forall k :: k in Arrived(items, arrivals) ==> ToolKeyed(Arrived(items, arrivals)[k])
  {
    hide EventKey;
    if arrivals != [] {
      var n := |arrivals| - 1;
      assert arrivals == arrivals[..n] + [arrivals[n]];
      ArrivedKeyed(items, arrivals[..n]);
    }
  }

  /** A record under a key of its own step, or a built-in row. */
  predicate WellKeyed(r: Record) {
    (ProperStep(r.step) && r.step + "/" <= r.key) || (r.step == "" && r.seqNo == 0 && BuiltIn(r.key))
  }

  /** Every key made for an event starts with its step and a slash. */
  lemma EventKeyOfStep(step: string, stream: string, seqNo: int, kind: Kind)
    ensures step + "/" <= EventKey(step, stream, seqNo, kind)
  {
    hide Decimal, KindName;
    if stream != "" {
      StartsWithStep(step, "/stream/", stream);
      StartsWithStep(step, "/stream/", stream + "/" + KindName(kind));
      assert step + "/stream/" + stream + "/" + KindName(kind) == step + "/stream/" + (stream + "/" + KindName(kind));
    } else {
      var number := if seqNo < 0 then "-" + Decimal(-seqNo) else Decimal(seqNo);
      StartsWithStep(step, "/event/", number + "/" + KindName(kind));
      assert step + "/event/" + number + "/" + KindName(kind) == step + "/event/" + (number + "/" + KindName(kind));
    }
  }

  /** The first slash cuts a text in one way only. */
  lemma FirstSlash(a: string, b: string, c: string, d: string)
    requires '/' !in a && '/' !in c && a + "/" + b == c + "/" + d
    ensures a == c && b == d
  {
    var s, t := a + "/" + b, c + "/" + d;
    if |a| < |c| {
      SlashAt(c, d, a, b);
    } else if |c| < |a| {
      SlashAt(a, b, c, d);
    } else {
      assert a == s[..|a|] && c == t[..|a|] && b == s[|a| + 1..] && d == t[|a| + 1..];
    }
  }

  lemma SlashAt(a: string, b: string, c: string, d: string)
    requires |c| < |a| && a + "/" + b == c + "/" + d
    ensures '/' in a
  {
    assert a[|c|] == (a + "/" + b)[|c|] == (c + "/" + d)[|c|] == '/';
  }

  lemma {:induction false} DecimalDigits(n: nat)
    ensures Decimal(n) != "" && '/' !in Decimal(n) && Decimal(n)[0] != '-'
  {
    if n >= 10 { DecimalDigits(n / 10); }
  }

  lemma {:induction false} DecimalInjective(m: nat, n: nat)
    requires Decimal(m) == Decimal(n)
    ensures m == n
  {
    hide Decimal, Digit;
    DecimalLast(m);
    DecimalLast(n);
    SameDigit(m % 10, n % 10);
    if m >= 10 && n >= 10 { DecimalInjective(m / 10, n / 10); }
  }

  lemma DecimalLast(n: nat)
    ensures var s := Decimal(n);
            && s != "" && s[|s| - 1] == Digit(n % 10) && (|s| == 1 <==> n < 10) && (n >= 10 ==> s[..|s| - 1] == Decimal(n / 10))
  {
    DecimalDigits(n / 10);
  }

  lemma SameDigit(m: nat, n: nat)
    requires m < 10 && n < 10
    ensures Digit(m) == Digit(n) <==> m == n
  {
  }

  function Signed(n: int): string {
    if n < 0 then "-" + Decimal(-n) else Decimal(n)
  }

  lemma SignedInjective(m: int, n: int)
    ensures '/' !in Signed(m) && (Signed(m) == Signed(n) <==> m == n)
  {
    DecimalDigits(if m < 0 then -m else m);
    DecimalDigits(if n < 0 then -n else n);
    if Signed(m) == Signed(n) {
      assert m < 0 <==> n < 0;
      if m < 0 { assert Decimal(-m) == Signed(m)[1..] == Decimal(-n); }
      DecimalInjective(if m < 0 then -m else m, if n < 0 then -n else n);
    }
  }

  /** What is behind the step in an event's key. */
  function EventTail(stream: string, seqNo: int, kind: Kind): string {
    if stream == "" then "event" + "/" + (Signed(seqNo) + "/" + KindName(kind))
    else "stream" + "/" + (if kind.ToolUse? || kind.ToolResult? then stream + "/" + KindName(kind) else stream)
  }

  lemma EventKeyTail(step: string, stream: string, seqNo: int, kind: Kind)
    ensures EventKey(step, stream, seqNo, kind) == step + "/" + EventTail(stream, seqNo, kind)
  {
    hide Decimal, KindName;
    if stream == "" {
      assert step + "/event/" + Signed(seqNo) + "/" + KindName(kind) ==
             step + "/" + ("event" + "/" + (Signed(seqNo) + "/" + KindName(kind)));
    } else if kind.ToolUse? || kind.ToolResult? {
      assert step + "/stream/" + stream + "/" + KindName(kind) == step + "/" + ("stream" + "/" + (stream + "/" + KindName(kind)));
    } else {
      assert step + "/stream/" + stream == step + "/" + ("stream" + "/" + stream);
    }
  }

  /** The records of one stream are one record, but for calls and results, which are two more;
      events without a stream are told apart by number and kind. */
  predicate SameRecord(a: Record, b: Record) {
    && a.step == b.step && a.stream == b.stream
    && if a.stream != "" then (a.kind.ToolUse? <==> b.kind.ToolUse?) && (a.kind.ToolResult? <==> b.kind.ToolResult?)
       else a.seqNo == b.seqNo && KindName(a.kind) == KindName(b.kind)
  }

  lemma EventKeysExactly(a: Record, b: Record)
    requires ProperStep(a.step) && ProperStep(b.step) && '/' !in a.stream && '/' !in b.stream
    ensures EventKey(a.step, a.stream, a.seqNo, a.kind) == EventKey(b.step, b.stream, b.seqNo, b.kind) <==> SameRecord(a, b)
  {
    hide Decimal, EventKey, ProperStep;
    assert '/' !in a.step && '/' !in b.step by { StepNoSlash(a.step); StepNoSlash(b.step); }
    EventKeyTail(a.step, a.stream, a.seqNo, a.kind);
    EventKeyTail(b.step, b.stream, b.seqNo, b.kind);
    var s, t := EventTail(a.stream, a.seqNo, a.kind), EventTail(b.stream, b.seqNo, b.kind);
    if a.step + "/" + s == b.step + "/" + t {
      FirstSlash(a.step, s, b.step, t);
      TailsExactly(a, b);
    }
    if SameRecord(a, b) { SameTails(a, b); }
  }

  lemma StepNoSlash(step: string)
    requires ProperStep(step)
    ensures '/' !in step
  {
  }

  lemma SameTails(a: Record, b: Record)
    requires SameRecord(a, b)
    ensures EventTail(a.stream, a.seqNo, a.kind) == EventTail(b.stream, b.seqNo, b.kind)
  {
    hide Decimal;
  }

  lemma TailsExactly(a: Record, b: Record)
    requires '/' !in a.stream && '/' !in b.stream && a.step == b.step
    requires EventTail(a.stream, a.seqNo, a.kind) == EventTail(b.stream, b.seqNo, b.kind)
    ensures SameRecord(a, b)
  {
    hide Decimal, KindName;
    SignedInjective(a.seqNo, b.seqNo);
    SignedInjective(b.seqNo, a.seqNo);
    var x := if a.stream == "" then "event" else "stream";
    var y := if b.stream == "" then "event" else "stream";
    FirstSlash(x, Behind(a), y, Behind(b));
    if a.stream == "" {
      FirstSlash(Signed(a.seqNo), KindName(a.kind), Signed(b.seqNo), KindName(b.kind));
    } else {
      StreamTails(a, b);
    }
  }

  function Behind(a: Record): string {
    if a.stream == "" then Signed(a.seqNo) + "/" + KindName(a.kind)
    else if a.kind.ToolUse? || a.kind.ToolResult? then a.stream + "/" + KindName(a.kind) else a.stream
  }

  lemma StreamTails(a: Record, b: Record)
    requires '/' !in a.stream && '/' !in b.stream && a.stream != "" && b.stream != "" && Behind(a) == Behind(b)
    ensures a.stream == b.stream && (a.kind.ToolUse? <==> b.kind.ToolUse?) && (a.kind.ToolResult? <==> b.kind.ToolResult?)
  {
    var p, q := a.kind.ToolUse? || a.kind.ToolResult?, b.kind.ToolUse? || b.kind.ToolResult?;
    if p && q {
      FirstSlash(a.stream, KindName(a.kind), b.stream, KindName(b.kind));
    } else if p {
      SlashInside(a.stream, KindName(a.kind));
    } else if q {
      SlashInside(b.stream, KindName(b.kind));
    }
  }

  lemma SlashInside(a: string, b: string)
    ensures '/' in a + "/" + b
  {
    assert (a + "/" + b)[|a|] == '/';
  }

  /** The ids the store makes for step runs. */
  function StepRunId(random: string): string {
    "step_" + random
  }

  predicate Hexadecimal(s: string) {
    forall i :: 0 <= i < |s| ==> '0' <= s[i] <= '9' || 'a' <= s[i] <= 'f'
  }

  /** Such ids are proper, so every event of the code's own step runs is well keyed and the
      order below holds for them. */
  lemma GeneratedWellKeyed(r: Record, random: string)
    requires Hexadecimal(random) && r.step == StepRunId(random)
    requires r.key == EventKey(r.step, r.stream, r.seqNo, r.kind)
    ensures ProperStep(r.step) && WellKeyed(r)
  {
    hide Decimal, KindName, EventKey;
    EventKeyOfStep(r.step, r.stream, r.seqNo, r.kind);
    GeneratedProper(random);
  }

  lemma GeneratedProper(random: string)
    requires Hexadecimal(random)
    ensures ProperStep(StepRunId(random))
  {
    var id := StepRunId(random);
    assert id[4] == '_';
    forall i | 5 <= i < |id| ensures id[i] != '/' { assert id[i] == random[i - 5]; }
  }

  lemma StartsWithStep(step: string, part: string, rest: string)
    requires part != "" && part[0] == '/'
    ensures step + "/" <= step + part + rest
  {
    assert (step + part + rest)[|step|] == '/';
  }

  // ---------- The order of the conversation ----------

  /** The comparison of the sort: by time, then within a step by sequence number, then by key. */
  predicate Precedes(a: Record, b: Record) {
    if a.at == b.at then
      if a.step == b.step && a.seqNo != b.seqNo then a.seqNo < b.seqNo else Text.Less(a.key, b.key)
    else a.at < b.at
  }

  /** One key comes before another: it ends first, or the first character they differ in is lower. */
  ghost predicate KeyBefore(a: string, b: string) {
    exists i :: 0 <= i < |b| && i <= |a| && a[..i] == b[..i] && (i == |a| || a[i] < b[i])
  }

  lemma {:induction false} KeyOrder(a: string, b: string)
    ensures Text.Less(a, b) <==> KeyBefore(a, b)
  {
    if a != [] && b != [] && a[0] == b[0] {
      hide KeyBefore;
      KeyOrder(a[1..], b[1..]);
      if KeyBefore(a[1..], b[1..]) { LongerKeys(a, b); }
      if KeyBefore(a, b) { ShorterKeys(a, b); }
    } else if b != [] {
      assert a[..0] == b[..0];
      if a != [] { HeadsDiffer(a, b); }
    }
  }

  lemma LongerKeys(a: string, b: string)
    requires a != [] && b != [] && a[0] == b[0] && KeyBefore(a[1..], b[1..])
    ensures KeyBefore(a, b)
  {
    var s, t := a[1..], b[1..];
    var i :| 0 <= i < |t| && i <= |s| && s[..i] == t[..i] && (i == |s| || s[i] < t[i]);
    assert a[..i + 1] == [a[0]] + s[..i] && b[..i + 1] == [b[0]] + t[..i];
  }

  lemma ShorterKeys(a: string, b: string)
    requires a != [] && b != [] && a[0] == b[0] && KeyBefore(a, b)
    ensures KeyBefore(a[1..], b[1..])
  {
    var s, t := a[1..], b[1..];
    var i :| 0 <= i < |b| && i <= |a| && a[..i] == b[..i] && (i == |a| || a[i] < b[i]);
    assert s[..i - 1] == a[..i][1..] && t[..i - 1] == b[..i][1..];
  }

  lemma HeadsDiffer(a: string, b: string)
    requires a != [] && b != [] && a[0] != b[0]
    ensures forall i :: 0 < i <= |a| && i <= |b| ==> a[..i] != b[..i]
  {
    forall i | 0 < i <= |a| && i <= |b| ensures a[..i] != b[..i] { assert a[..i][0] == a[0] && b[..i][0] == b[0]; }
  }

  /** How a listing is read: by time; at one time, a step's records by number, all others by key. */
  lemma ListingOrder(s: seq<Record>, i: nat, j: nat)
    requires InOrder(s) && i < j < |s|
    ensures s[i].at <= s[j].at
    ensures s[i].at == s[j].at && s[i].step == s[j].step ==> s[i].seqNo <= s[j].seqNo
    ensures s[i].at == s[j].at && (s[i].step == s[j].step ==> s[i].seqNo == s[j].seqNo) ==> KeyBefore(s[i].key, s[j].key)
  {
    assert Precedes(s[i], s[j]);
    KeyOrder(s[i].key, s[j].key);
  }

  lemma PrefixStep(s: string, t: string, key: string)
    requires '/' !in s && '/' !in t && s + "/" <= key && t + "/" <= key
    ensures s == t
  {
    assert key[|s|] == '/' && key[|t|] == '/';
    assert forall i :: 0 <= i < |s| ==> key[i] == s[i] && s[i] in s;
    assert forall i :: 0 <= i < |t| ==> key[i] == t[i] && t[i] in t;
    assert |s| == |t|;
    assert s == key[..|s|] && t == key[..|t|];
  }

  lemma NoSlash(step: string, key: string)
    requires '/' !in key
    ensures !(step + "/" <= key)
  {
    if step + "/" <= key { HasSlash(step, key); }
  }

  lemma HasSlash(step: string, key: string)
    requires step + "/" <= key
    ensures '/' in key
  {
    assert key[|step|] == '/';
  }

  /** Only a step's own records have keys that start with the step. */
  lemma OwnKeys(step: string, r: Record)
    requires ProperStep(step) && WellKeyed(r) && step + "/" <= r.key
    ensures r.step == step
  {
    if r.step != "" {
      PrefixStep(step, r.step, r.key);
    } else if r.key == "prompt" {
      NoSlash(step, r.key);
    } else {
      var name := if "resume/" <= r.key then "resume" else if "instruction/" <= r.key then "instruction" else "transition";
      assert name + "/" == "resume/" || name + "/" == "instruction/" || name + "/" == "transition/";
      PrefixStep(step, name, r.key);
    }
  }

  /** A record of another step lies on one side of all records of a step. */
  lemma Outside(a: Record, b: Record, c: Record)
    requires WellKeyed(a) && WellKeyed(b) && WellKeyed(c) && a.step == b.step && ProperStep(a.step) && c.step != a.step
    ensures Text.Less(a.key, c.key) <==> Text.Less(b.key, c.key)
  {
    if Text.Less(a.key, c.key) && !Text.Less(b.key, c.key) { Beyond(a, b, c); }
    if Text.Less(b.key, c.key) && !Text.Less(a.key, c.key) { Beyond(b, a, c); }
  }

  lemma Beyond(a: Record, b: Record, c: Record)
    requires WellKeyed(a) && WellKeyed(b) && WellKeyed(c) && a.step == b.step && ProperStep(a.step) && c.step != a.step
    requires Text.Less(a.key, c.key)
    ensures Text.Less(b.key, c.key)
  {
    Text.LessTotal(b.key, c.key);
    if b.key == c.key {
      OwnKeys(a.step, c);
    } else if Text.Less(c.key, b.key) {
      Text.Between(a.step + "/", a.key, c.key, b.key);
      OwnKeys(a.step, c);
    }
  }

  lemma PrecedesTransitive(a: Record, b: Record, c: Record)
    requires WellKeyed(a) && WellKeyed(b) && WellKeyed(c) && Precedes(a, b) && Precedes(b, c)
    ensures Precedes(a, c)
  {
    if a.at == b.at == c.at {
      if a.step == b.step == c.step {
        if a.seqNo == b.seqNo == c.seqNo { Text.LessTransitive(a.key, b.key, c.key); }
      } else if a.step == b.step && a.step != "" {
        Outside(a, b, c);
      } else if b.step == c.step && b.step != "" {
        OutsideAbove(b, c, a);
      } else if a.step == c.step && a.step != "" {
        Outside(a, c, b);
        Text.LessTransitive(c.key, b.key, c.key);
        Text.LessIrreflexive(c.key);
      } else {
        Text.LessTransitive(a.key, b.key, c.key);
      }
    }
  }

  lemma OutsideAbove(b: Record, c: Record, a: Record)
    requires WellKeyed(a) && WellKeyed(b) && WellKeyed(c) && b.step == c.step && ProperStep(b.step) && a.step != b.step
    requires Text.Less(a.key, b.key)
    ensures Text.Less(a.key, c.key)
  {
    Text.LessTotal(a.key, c.key);
    if a.key == c.key { OwnKeys(b.step, a); }
    else if Text.Less(c.key, a.key) {
      Text.Between(b.step + "/", c.key, a.key, b.key);
      OwnKeys(b.step, a);
    }
  }

  lemma PrecedesIrreflexive(a: Record)
    ensures !Precedes(a, a)
  {
    Text.LessIrreflexive(a.key);
  }

  lemma PrecedesTotal(a: Record, b: Record)
    requires a.key != b.key
    ensures Precedes(a, b) || Precedes(b, a)
  {
    Text.LessTotal(a.key, b.key);
  }

  /** The hypothesis is needed: with a slash in a step-run id the comparison could go round
      in a circle. */
  lemma SlashBreaksOrder() returns (a: Record, b: Record, c: Record)
    ensures a.key != b.key && b.key != c.key && a.key != c.key
    ensures Precedes(a, b) && Precedes(b, c) && Precedes(c, a)
    ensures WellKeyed(a) && WellKeyed(b) && !WellKeyed(c)
    ensures [a.key, b.key, c.key] == [EventKey(a.step, a.stream, a.seqNo, a.kind),
              EventKey(b.step, b.stream, b.seqNo, b.kind), EventKey(c.step, c.stream, c.seqNo, c.kind)]
  {
    a, b, c := Sample("s", "b", 1), Sample("s", "a", 2), Sample("s/stream/a", "z", 1);
    SampleKeys();
    SampleOrder();
    hide Text.Less, EventKey;
    assert c.step[1] == '/';
    EventKeyOfStep("s", "a", 2, Message);
    EventKeyOfStep("s", "b", 1, Message);
    Text.LessIrreflexive(a.key);
    Text.LessIrreflexive(c.key);
  }

  lemma SampleOrder()
    ensures Text.Less("s/stream/" + "a", "s/stream/" + "a/stream/z")
    ensures Text.Less("s/stream/" + "a/stream/z", "s/stream/" + "b")
    ensures "s/stream/" + "a" != "s/stream/" + "b"
  {
    LessAfter("s/stream/", "a", "a/stream/z");
    LessAfter("s/stream/", "a/stream/z", "b");
    assert ("s/stream/" + "a")[9] == 'a';
  }

  function Sample(step: string, stream: string, seqNo: int): Record {
    Record(EventKey(step, stream, seqNo, Message), step, stream, seqNo, Message, "", 0, 0, 0, false, false, false, None, None, None, 0)
  }

  lemma SampleKeys()
    ensures EventKey("s", "b", 1, Message) == "s/stream/" + "b"
    ensures EventKey("s", "a", 2, Message) == "s/stream/" + "a"
    ensures EventKey("s/stream/a", "z", 1, Message) == "s/stream/" + "a/stream/z"
  {
  }

  lemma {:induction false} LessAfter(p: string, x: string, y: string)
    requires Text.Less(x, y)
    ensures Text.Less(p + x, p + y)
  {
    if p == "" { assert p + x == x && p + y == y; } else {
      assert (p + x)[1..] == p[1..] + x && (p + y)[1..] == p[1..] + y;
      LessAfter(p[1..], x, y);
    }
  }

  // ---------- The visible records ----------

  ghost predicate InOrder(s: seq<Record>) {
    forall i, j :: 0 <= i < j < |s| ==> Precedes(s[i], s[j])
  }

  ghost predicate Distinct(s: seq<Record>) {
    forall i, j :: 0 <= i < j < |s| ==> s[i].key != s[j].key
  }

  /** What a transcript can list: no key twice, and calls and results under the keys of their events. */
  ghost predicate Listed(s: seq<Record>) {
    Distinct(s) && forall r :: r in s ==> ToolKeyed(r)
  }

  ghost predicate AllWellKeyed(s: seq<Record>) {
    forall r :: r in s ==> WellKeyed(r)
  }

  /** Two ordered listings of the same records are the same listing. */
  lemma {:induction false} OneOrder(s: seq<Record>, t: seq<Record>)
    requires InOrder(s) && InOrder(t) && AllWellKeyed(s) && AllWellKeyed(t) && (forall r :: r in s <==> r in t)
    ensures s == t
  {
    assert t == [] || t[0] in t;
    if s != [] {
      assert s[0] in t;
      assert t[0] in s;
      if s[0] != t[0] {
        var i :| 0 < i < |t| && t[i] == s[0];
        var j :| 0 < j < |s| && s[j] == t[0];
        assert Precedes(t[0], t[i]) && Precedes(s[0], s[j]);
        PrecedesTransitive(s[0], t[0], s[0]);
        PrecedesIrreflexive(s[0]);
      }
      TailsSame(s, t);
      OneOrder(s[1..], t[1..]);
      assert s == [s[0]] + s[1..] && t == [t[0]] + t[1..];
    }
  }

  lemma TailsSame(s: seq<Record>, t: seq<Record>)
    requires InOrder(s) && InOrder(t) && s != [] && t != [] && s[0] == t[0] && (forall r :: r in s <==> r in t)
    ensures forall r :: r in s[1..] <==> r in t[1..]
  {
    hide Precedes;
    forall r ensures r in s[1..] <==> r in t[1..] {
      InTail(s, r);
      InTail(t, r);
    }
  }

  lemma InTail(s: seq<Record>, r: Record)
    requires InOrder(s) && s != []
    ensures r in s[1..] <==> r in s && r != s[0]
  {
    hide Precedes;
    PrecedesIrreflexive(s[0]);
    assert s == [s[0]] + s[1..];
    if r in s[1..] {
      var i :| 0 <= i < |s| - 1 && s[1..][i] == r;
      assert Precedes(s[0], s[i + 1]);
    }
  }

  function Insert(s: seq<Record>, r: Record): (out: seq<Record>)
    ensures forall x :: x in out <==> x in s || x == r
  {
    if s == [] || !Precedes(r, s[|s| - 1]) then s + [r]
    else
      var n := |s| - 1;
      assert s == s[..n] + [s[n]];
      Insert(s[..n], r) + [s[n]]
  }

  lemma {:induction false} InsertInOrder(s: seq<Record>, r: Record)
    requires InOrder(s) && AllWellKeyed(s + [r]) && forall x :: x in s ==> x.key != r.key
    ensures InOrder(Insert(s, r))
  {
    assert forall x :: x in s ==> x in s + [r];
    assert r in s + [r];
    if s == [] {
    } else if !Precedes(r, s[|s| - 1]) {
      var last := s[|s| - 1];
      PrecedesTotal(r, last);
      forall i | 0 <= i < |s| ensures Precedes(s[i], r) {
        if i < |s| - 1 { PrecedesTransitive(s[i], last, r); }
      }
    } else {
      var n := |s| - 1;
      assert s == s[..n] + [s[n]];
      InsertInOrder(s[..n], r);
      var front := Insert(s[..n], r);
      forall i | 0 <= i < |front| ensures Precedes(front[i], s[n]) {
        assert front[i] in front;
      }
    }
  }

  /** The library sort, with the comparison above. */
  function SortRecords(s: seq<Record>): (out: seq<Record>)
    ensures forall x :: x in out <==> x in s
  {
    if s == [] then [] else
      assert s == s[..|s| - 1] + [s[|s| - 1]];
      Insert(SortRecords(s[..|s| - 1]), s[|s| - 1])
  }

  lemma {:induction false} SortInOrder(s: seq<Record>)
    requires Distinct(s) && AllWellKeyed(s)
    ensures InOrder(SortRecords(s))
  {
    if s != [] {
      var n := |s| - 1;
      assert s == s[..n] + [s[n]];
      SortInOrder(s[..n]);
      InsertInOrder(SortRecords(s[..n]), s[n]);
    }
  }

  /** The displayed order does not depend on the order in which the map lists its records. */
  lemma DisplayIndependent(s: seq<Record>, t: seq<Record>)
    requires Distinct(s) && Distinct(t) && AllWellKeyed(s) && AllWellKeyed(t) && (forall r :: r in s <==> r in t)
    ensures SortRecords(s) == SortRecords(t) && InOrder(SortRecords(s))
  {
    SortInOrder(s);
    SortInOrder(t);
    OneOrder(SortRecords(s), SortRecords(t));
  }

  predicate Hidden(k: Kind) {
    k.Started? || k.Usage? || k.Result? || k.PermissionResolved? || k.UserInputResolved?
  }

  predicate Showable(t: map<string, Record>, permissions: set<string>, questions: set<string>, r: Record) {
    && !Hidden(r.kind)
    && !(r.permission.Some? && RequestKey(r.step, r.permission.value) in permissions)
    && !(r.question.Some? && RequestKey(r.step, r.question.value) in questions)
    && !(r.text == "" && r.attachments == 0 && r.permission.None? && r.question.None? && !r.kind.ToolResult?)
  }

  /** Shown are records that say or ask something, and results of tools: no notes about a run's
      start, end or cost, no answers on their own, and no question that has been answered. */
  lemma ShowableExactly(t: map<string, Record>, permissions: set<string>, questions: set<string>, r: Record)
    ensures Showable(t, permissions, questions, r) <==>
            && r.kind !in {Started, Usage, Result, PermissionResolved, UserInputResolved}
            && (match r.permission case None => true case Some(id) => r.step + "/request/" + id !in permissions)
            && (match r.question case None => true case Some(id) => r.step + "/request/" + id !in questions)
            && (r.text != "" || r.attachments > 0 || r.permission.Some? || r.question.Some? || r.kind == ToolResult)
  {
  }

  /** Only an answered question is presented as something else: the answer, said by the person. */
  lemma PresentedExactly(e: Record)
    ensures var p := Presented(e);
            if e.kind == UserInputResolved && e.question.Some? && e.answer.Some?
            then p.text == e.answer.value && p.user && p.kind == Message && p.question == None &&
                 p.(text := e.text, user := e.user, kind := e.kind, question := e.question) == e
            else p == e
  {
  }

  /** The list shown is the one ordered listing of the showable records. */
  method Visible(t: Transcript) returns (out: seq<Record>)
    requires t.Valid() && forall k :: k in t.items ==> WellKeyed(t.items[k])
    ensures InOrder(out) && Distinct(out) && ((forall k :: k in t.items ==> ToolKeyed(t.items[k])) ==> Listed(out))
    ensures forall r :: r in out <==> r.key in t.items && t.items[r.key] == r &&
                                      Showable(t.items, t.resolvedPermissions, t.resolvedQuestions, r)
  {
    var listed: seq<Record> := [];
    var rest := t.items.Keys;
    while rest != {}
      invariant rest <= t.items.Keys && Distinct(listed)
      invariant forall r :: r in listed <==> r.key in t.items && r.key !in rest && t.items[r.key] == r &&
                                             Showable(t.items, t.resolvedPermissions, t.resolvedQuestions, r)
      decreases rest
    {
      var k :| k in rest;
      var r := t.items[k];
      if Showable(t.items, t.resolvedPermissions, t.resolvedQuestions, r) {
        assert forall i :: 0 <= i < |listed| ==> listed[i] in listed;
        listed := listed + [r];
      }
      rest := rest - {k};
    }
    SortInOrder(listed);
    out := SortRecords(listed);
    ListedOnce(t.items, out);
  }

  /** An ordered listing of records under their own keys lists no key twice. */
  lemma ListedOnce(items: map<string, Record>, s: seq<Record>)
    requires InOrder(s) && forall r :: r in s ==> r.key in items && items[r.key] == r
    ensures Distinct(s)
  {
    hide Precedes;
    forall i, j | 0 <= i < j < |s| ensures s[i].key != s[j].key {
      assert s[i] in s && s[j] in s;
      PrecedesIrreflexive(s[i]);
    }
  }
}
