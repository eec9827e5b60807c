/** The side-by-side diff (review_controls.go): pairing the lines of a hunk and hiding changes
    of white space only. */
module Review {
  import Text

  datatype LineKind = Add | Delete | Other(name: string)

  datatype Line = Line(kind: LineKind, text: string, oldNumber: int, newNumber: int)

  datatype Option<T> = None | Some(value: T)

  /** A row of the two columns: one line standing in both, or what was deleted beside what was
      added. */
  datatype Pair = Both(line: Line) | Sides(before: Option<Line>, after: Option<Line>)

  predicate Changed(line: Line) {
    line.kind.Add? || line.kind.Delete?
  }

  function OldOf(line: Line): seq<Line> {
    if line.kind.Add? then [] else [line]
  }

  function NewOf(line: Line): seq<Line> {
    if line.kind.Delete? then [] else [line]
  }

  function OldSide(lines: seq<Line>): seq<Line> {
    if lines == [] then [] else OldOf(lines[0]) + OldSide(lines[1..])
  }

  function NewSide(lines: seq<Line>): seq<Line> {
    if lines == [] then [] else NewOf(lines[0]) + NewSide(lines[1..])
  }

  function At(lines: seq<Line>, j: nat): Option<Line> {
    if j < |lines| then Some(lines[j]) else None
  }

  function Zip(deleted: seq<Line>, added: seq<Line>): seq<Pair> {
    seq(if |deleted| < |added| then |added| else |deleted|, j requires 0 <= j => Sides(At(deleted, j), At(added, j)))
  }

  /** The length of the block of changes at the start. */
  function Block(lines: seq<Line>): (n: nat)
    ensures n <= |lines|
    ensures forall k :: 0 <= k < n ==> Changed(lines[k])
    ensures n < |lines| ==> !Changed(lines[n])
  {
    if lines == [] || !Changed(lines[0]) then 0 else 1 + Block(lines[1..])
  }

  /** In each block the j-th deleted line stands beside the j-th added line. */
  function Pairs(lines: seq<Line>): seq<Pair>
    decreases |lines|
  {
    if lines == [] then []
    else if !Changed(lines[0]) then [Both(lines[0])] + Pairs(lines[1..])
    else
      var n := Block(lines);
      Zip(OldSide(lines[..n]), NewSide(lines[..n])) + Pairs(lines[n..])
  }

  lemma OneMore(lines: seq<Line>, start: nat, i: nat)
    requires start <= i < |lines|
    ensures OldSide(lines[start..i + 1]) == OldSide(lines[start..i]) + OldOf(lines[i])
    ensures NewSide(lines[start..i + 1]) == NewSide(lines[start..i]) + NewOf(lines[i])
  {
    assert lines[start..i + 1] == lines[start..i] + [lines[i]];
    SidesAppend(lines[start..i], [lines[i]]);
  }

  /** The deleted and the added lines of the block that starts at `start`. */
  method TakeBlock(lines: seq<Line>, start: nat) returns (deleted: seq<Line>, added: seq<Line>, i: nat)
    requires start < |lines|
    ensures i == start + Block(lines[start..]) <= |lines|
    ensures deleted == OldSide(lines[start..i]) && added == NewSide(lines[start..i])
  {
    hide OldSide, NewSide, Block;
    ghost var n := Block(lines[start..]);
    NoLinesYet(lines, start);
    assert forall k :: start <= k < |lines| ==> lines[k] == lines[start..][k - start];
    i, deleted, added := start, [], [];
    while i < |lines| && Changed(lines[i])
      invariant start <= i <= start + n <= |lines|
      invariant deleted == OldSide(lines[start..i]) && added == NewSide(lines[start..i])
    {
      OneMore(lines, start, i);
      if lines[i].kind.Delete? { deleted := deleted + [lines[i]]; } else { added := added + [lines[i]]; }
      i := i + 1;
    }
  }

  lemma NoLinesYet(lines: seq<Line>, start: nat)
    requires start < |lines|
    ensures OldSide(lines[start..start]) == [] && NewSide(lines[start..start]) == []
  {
  }

  method ZipLines(deleted: seq<Line>, added: seq<Line>) returns (pairs: seq<Pair>)
    ensures pairs == Zip(deleted, added)
  {
    pairs := [];
    var n := if |deleted| < |added| then |added| else |deleted|;
    for j := 0 to n
      invariant pairs == Zip(deleted, added)[..j]
    {
      pairs := pairs + [Sides(if j < |deleted| then Some(deleted[j]) else None, if j < |added| then Some(added[j]) else None)];
    }
  }

  lemma PairsFrom(lines: seq<Line>, i: nat, next: nat)
    requires i < |lines|
    requires next == if Changed(lines[i]) then i + Block(lines[i..]) else i + 1
    ensures next <= |lines|
    ensures Pairs(lines[i..]) ==
            (if Changed(lines[i]) then Zip(OldSide(lines[i..next]), NewSide(lines[i..next])) else [Both(lines[i])]) + Pairs(lines[next..])
  {
    hide Zip, OldSide, NewSide;
    assert lines[i..][..next - i] == lines[i..next] && lines[i..][next - i..] == lines[next..];
  }

  method PairedLines(lines: seq<Line>) returns (pairs: seq<Pair>)
    ensures pairs == Pairs(lines)
  {
    hide Zip, OldSide, NewSide, Pairs, Changed, Block;
    pairs := [];
    var i := 0;
    assert lines[0..] == lines;
    while i < |lines|
      invariant i <= |lines| && pairs + Pairs(lines[i..]) == Pairs(lines)
    {
      var more, next;
      if !Changed(lines[i]) {
        more, next := [Both(lines[i])], i + 1;
      } else {
        var deleted, added;
        deleted, added, next := TakeBlock(lines, i);
        more := ZipLines(deleted, added);
        BlockAdvances(lines, i);
      }
      PairsFrom(lines, i, next);
      assert pairs + (more + Pairs(lines[next..])) == pairs + more + Pairs(lines[next..]);
      pairs, i := pairs + more, next;
    }
    NoPairs(lines[i..]);
  }

  lemma BlockAdvances(lines: seq<Line>, i: nat)
    requires i < |lines| && Changed(lines[i])
    ensures Block(lines[i..]) > 0
  {
  }

  lemma NoPairs(lines: seq<Line>)
    requires lines == []
    ensures Pairs(lines) == []
  {
  }

  lemma {:induction false} SidesAppend(a: seq<Line>, b: seq<Line>)
    ensures OldSide(a + b) == OldSide(a) + OldSide(b) && NewSide(a + b) == NewSide(a) + NewSide(b)
  {
    hide OldOf, NewOf;
    if a == [] {
      assert a + b == b;
    } else {
      assert (a + b)[1..] == a[1..] + b;
      SidesAppend(a[1..], b);
    }
  }

  // ---------- The columns ----------

  function Held(line: Option<Line>): seq<Line> {
    if line.Some? then [line.value] else []
  }

  function LeftOf(pair: Pair): seq<Line> {
    if pair.Both? then [pair.line] else Held(pair.before)
  }

  function RightOf(pair: Pair): seq<Line> {
    if pair.Both? then [pair.line] else Held(pair.after)
  }

  function Left(pairs: seq<Pair>): seq<Line> {
    if pairs == [] then [] else LeftOf(pairs[0]) + Left(pairs[1..])
  }

  function Right(pairs: seq<Pair>): seq<Line> {
    if pairs == [] then [] else RightOf(pairs[0]) + Right(pairs[1..])
  }

  lemma {:induction false} ColumnsAppend(a: seq<Pair>, b: seq<Pair>)
    ensures Left(a + b) == Left(a) + Left(b) && Right(a + b) == Right(a) + Right(b)
  {
    hide LeftOf, RightOf;
    if a == [] {
      assert a + b == b;
    } else {
      assert (a + b)[1..] == a[1..] + b;
      ColumnsAppend(a[1..], b);
    }
  }

  lemma ZipTail(deleted: seq<Line>, added: seq<Line>, d: seq<Line>, a: seq<Line>)
    requires deleted != [] || added != []
    requires d == (if deleted == [] then [] else deleted[1..]) && a == (if added == [] then [] else added[1..])
    ensures Zip(deleted, added) == [Sides(At(deleted, 0), At(added, 0))] + Zip(d, a)
    ensures deleted == Held(At(deleted, 0)) + d && added == Held(At(added, 0)) + a
  {
    AtTail(deleted, d);
    AtTail(added, a);
    hide At, Held;
    assert |Zip(deleted, added)| == 1 + |Zip(d, a)|;
  }

  lemma AtTail(lines: seq<Line>, tail: seq<Line>)
    requires tail == if lines == [] then [] else lines[1..]
    ensures forall j: nat :: At(tail, j) == At(lines, j + 1)
    ensures lines == Held(At(lines, 0)) + tail
  {
  }

  lemma {:induction false} ZipColumns(deleted: seq<Line>, added: seq<Line>)
    ensures Left(Zip(deleted, added)) == deleted && Right(Zip(deleted, added)) == added
    decreases |deleted| + |added|
  {
    if deleted != [] || added != [] {
      var d, a := if deleted == [] then [] else deleted[1..], if added == [] then [] else added[1..];
      ZipTail(deleted, added, d, a);
      hide Zip, Held;
      ZipColumns(d, a);
      assert ([Sides(At(deleted, 0), At(added, 0))] + Zip(d, a))[1..] == Zip(d, a);
    }
  }

  /** The left column is the lines that were not added, the right column those that were not
      deleted, each in its order. */
  lemma {:induction false} ColumnsComplete(lines: seq<Line>)
    ensures Left(Pairs(lines)) == OldSide(lines) && Right(Pairs(lines)) == NewSide(lines)
    decreases |lines|
  {
    if lines == [] {
    } else if !Changed(lines[0]) {
      ColumnsComplete(lines[1..]);
      SameColumns(lines);
    } else {
      var n := Block(lines);
      ColumnsComplete(lines[n..]);
      BlockColumns(lines, n);
    }
  }

  lemma SameColumns(lines: seq<Line>)
    requires lines != [] && !Changed(lines[0])
    requires Left(Pairs(lines[1..])) == OldSide(lines[1..]) && Right(Pairs(lines[1..])) == NewSide(lines[1..])
    ensures Left(Pairs(lines)) == OldSide(lines) && Right(Pairs(lines)) == NewSide(lines)
  {
    var pairs := [Both(lines[0])] + Pairs(lines[1..]);
    assert pairs[1..] == Pairs(lines[1..]);
    assert Pairs(lines) == pairs;
    hide Pairs;
  }

  lemma BlockColumns(lines: seq<Line>, n: nat)
    requires lines != [] && Changed(lines[0]) && n == Block(lines) > 0
    requires Left(Pairs(lines[n..])) == OldSide(lines[n..]) && Right(Pairs(lines[n..])) == NewSide(lines[n..])
    ensures Left(Pairs(lines)) == OldSide(lines) && Right(Pairs(lines)) == NewSide(lines)
  {
    hide Left, Right, OldSide, NewSide, Zip, Block;
    var d, a := OldSide(lines[..n]), NewSide(lines[..n]);
    assert Pairs(lines) == Zip(d, a) + Pairs(lines[n..]);
    ZipColumns(d, a);
    ColumnsAppend(Zip(d, a), Pairs(lines[n..]));
    assert lines == lines[..n] + lines[n..];
    SidesAppend(lines[..n], lines[n..]);
  }

  // ---------- White space ----------

  /** A text without its white space. */
  function Squeezed(text: string): string {
    if text == "" then "" else (if Text.IsSpace(text[0]) then "" else [text[0]]) + Squeezed(text[1..])
  }

  /** The positions, in order, of all characters of a text that are no white space. */
  ghost predicate Inked(text: string, places: seq<nat>) {
    && (forall i, j :: 0 <= i < j < |places| ==> places[i] < places[j])
    && (forall k :: 0 <= k < |places| ==> places[k] < |text| && !Text.IsSpace(text[places[k]]))
    && (forall i: nat :: i < |text| && !Text.IsSpace(text[i]) ==> i in places)
  }

  ghost predicate Reads(text: string, places: seq<nat>, s: string) {
    |s| == |places| && forall k :: 0 <= k < |places| ==> places[k] < |text| && s[k] == text[places[k]]
  }

  lemma {:induction false} SqueezedAppend(a: string, c: char)
    ensures Squeezed(a + [c]) == Squeezed(a) + if Text.IsSpace(c) then "" else [c]
  {
    hide Text.IsSpace, Squeezed;
    SqueezedFirst(a + [c]);
    NothingSqueezed();
    if a == "" {
      assert a + [c] == [c] && [c][1..] == "";
    } else {
      assert (a + [c])[1..] == a[1..] + [c];
      SqueezedAppend(a[1..], c);
      SqueezedFirst(a);
    }
  }

  lemma SqueezedFirst(text: string)
    requires text != ""
    ensures Squeezed(text) == (if Text.IsSpace(text[0]) then "" else [text[0]]) + Squeezed(text[1..])
  {
  }

  lemma {:induction false} SqueezedReads(text: string) returns (places: seq<nat>)
    ensures Inked(text, places) && Reads(text, places, Squeezed(text))
  {
    hide Text.IsSpace, Squeezed;
    places := [];
    if text == "" {
      NothingSqueezed();
    } else {
      var n := |text| - 1;
      var front := SqueezedReads(text[..n]);
      assert text == text[..n] + [text[n]];
      SqueezedAppend(text[..n], text[n]);
      places := front + if Text.IsSpace(text[n]) then [] else [n];
      forall i: nat | i < |text| && !Text.IsSpace(text[i]) ensures i in places {
        if i < n { assert text[..n][i] == text[i]; } else { assert places[|front|] == n; }
      }
    }
  }

  lemma NothingSqueezed()
    ensures Squeezed("") == ""
  {
  }

  lemma {:induction false} InkedOnce(text: string, p: seq<nat>, q: seq<nat>)
    requires Inked(text, p) && Inked(text, q)
    ensures p == q
  {
    hide Text.IsSpace, Inked;
    if text == "" {
      if p != [] { SomeInk(text, p); }
      if q != [] { SomeInk(text, q); }
    } else {
      LastInk(text, p);
      LastInk(text, q);
      var n := |text| - 1;
      if Text.IsSpace(text[n]) {
        InkedOnce(text[..n], p, q);
      } else {
        InkedOnce(text[..n], p[..|p| - 1], q[..|q| - 1]);
        assert p == p[..|p| - 1] + [n] && q == q[..|q| - 1] + [n];
      }
    }
  }

  lemma SomeInk(text: string, p: seq<nat>)
    requires Inked(text, p) && p != []
    ensures text != ""
  {
    assert p[0] < |text|;
  }

  lemma LastInk(text: string, p: seq<nat>)
    requires Inked(text, p) && text != ""
    ensures var n := |text| - 1;
            if Text.IsSpace(text[n]) then Inked(text[..n], p)
            else p != [] && p[|p| - 1] == n && Inked(text[..n], p[..|p| - 1])
  {
    hide Text.IsSpace;
    var n, m := |text| - 1, |p| - 1;
    if !Text.IsSpace(text[n]) {
      assert n in p;
      assert p[m] == n;
      forall i: nat | i < n && !Text.IsSpace(text[..n][i]) ensures i in p[..m] {
        assert text[i] == text[..n][i] && i in p;
        var k :| 0 <= k < |p| && p[k] == i;
        assert p[..m][k] == i;
      }
    }
  }

  /** Two texts are alike but for white space exactly when their other characters are the same,
      in the same order. */
  lemma SqueezedAlike(a: string, b: string)
    ensures Squeezed(a) == Squeezed(b) <==> SameInk(a, b)
  {
    hide Squeezed, Text.IsSpace, Inked;
    var p := SqueezedReads(a);
    var q := SqueezedReads(b);
    if SameInk(a, b) {
      var x, y :| Inked(a, x) && Inked(b, y) && SameAt(a, x, b, y);
      InkedOnce(a, p, x);
      InkedOnce(b, q, y);
    }
    if Squeezed(a) == Squeezed(b) { assert SameAt(a, p, b, q); }
  }

  ghost predicate SameInk(a: string, b: string) {
    exists p, q :: Inked(a, p) && Inked(b, q) && SameAt(a, p, b, q)
  }

  ghost predicate SameAt(a: string, p: seq<nat>, b: string, q: seq<nat>) {
    |p| == |q| && forall k :: 0 <= k < |p| ==> p[k] < |a| && q[k] < |b| && a[p[k]] == b[q[k]]
  }

  /** A deletion and an addition that differ only in white space become one unchanged line. */
  function Merged(pair: Pair): Pair {
    if pair.Sides? && pair.before.Some? && pair.after.Some? &&
       Squeezed(pair.before.value.text) == Squeezed(pair.after.value.text)
    then Both(pair.after.value.(kind := Other("context"), oldNumber := pair.before.value.oldNumber))
    else pair
  }

  /** The unchanged line is the added one with the number of the deleted one. */
  lemma MergedLine(before: Line, after: Line)
    ensures Merged(Sides(Some(before), Some(after))) ==
            if SameInk(before.text, after.text) then Both(Line(Other("context"), after.text, before.oldNumber, after.newNumber))
            else Sides(Some(before), Some(after))
  {
    hide Squeezed, SameInk;
    SqueezedAlike(before.text, after.text);
  }

  function MergedAll(pairs: seq<Pair>): seq<Pair> {
    seq(|pairs|, k requires 0 <= k < |pairs| => Merged(pairs[k]))
  }

  function LinesOf(pair: Pair): seq<Line> {
    if pair.Both? then [pair.line] else Held(pair.before) + Held(pair.after)
  }

  function Flat(pairs: seq<Pair>): seq<Line> {
    if pairs == [] then [] else LinesOf(pairs[0]) + Flat(pairs[1..])
  }

  function Without(lines: seq<Line>): seq<Line> {
    Flat(MergedAll(Pairs(lines)))
  }

  lemma {:induction false} FlatAppend(a: seq<Pair>, b: seq<Pair>)
    ensures Flat(a + b) == Flat(a) + Flat(b)
  {
    hide LinesOf;
    if a == [] {
      assert a + b == b;
    } else {
      assert (a + b)[1..] == a[1..] + b;
      FlatAppend(a[1..], b);
    }
  }

  method WithoutWhitespaceChanges(lines: seq<Line>) returns (result: seq<Line>)
    ensures result == Without(lines)
  {
    hide Squeezed, Pairs;
    var pairs := PairedLines(lines);
    result := [];
    for k := 0 to |pairs|
      invariant result == Flat(MergedAll(pairs)[..k])
    {
      var pair := pairs[k];
      ghost var done := MergedAll(pairs)[..k];
      assert MergedAll(pairs)[..k + 1] == done + [Merged(pair)];
      FlatAppend(done, [Merged(pair)]);
      FlatOne(Merged(pair));
      if pair.Sides? && pair.before.Some? && pair.after.Some? &&
         Squeezed(pair.before.value.text) == Squeezed(pair.after.value.text) {
        var line := pair.after.value;
        line := line.(kind := Other("context"));
        line := line.(oldNumber := pair.before.value.oldNumber);
        result := result + [line];
      } else if pair.Both? {
        result := result + [pair.line];
      } else {
        ghost var before := result;
        if pair.before.Some? { result := result + [pair.before.value]; }
        if pair.after.Some? { result := result + [pair.after.value]; }
        assert result == before + (Held(pair.before) + Held(pair.after));
      }
    }
    assert MergedAll(pairs)[..|pairs|] == MergedAll(pairs);
  }

  lemma FlatOne(pair: Pair)
    ensures Flat([pair]) == LinesOf(pair)
  {
    assert [pair][1..] == [];
  }

  // ---------- Both sides are kept ----------

  /** Deletions on the left, additions on the right, other lines in both. */
  predicate Proper(pair: Pair) {
    if pair.Both? then !Changed(pair.line)
    else
      && (pair.before.Some? || pair.after.Some?)
      && (pair.before.Some? ==> pair.before.value.kind.Delete?)
      && (pair.after.Some? ==> pair.after.value.kind.Add?)
  }

  ghost predicate AllProper(pairs: seq<Pair>) {
    forall k :: 0 <= k < |pairs| ==> Proper(pairs[k])
  }

  lemma {:induction false} ColumnsOfFlat(pairs: seq<Pair>)
    requires AllProper(pairs)
    ensures OldSide(Flat(pairs)) == Left(pairs) && NewSide(Flat(pairs)) == Right(pairs)
  {
    if pairs != [] {
      ColumnsOfFlat(pairs[1..]);
      SidesAppend(LinesOf(pairs[0]), Flat(pairs[1..]));
      SidesOfPair(pairs[0]);
      hide LinesOf, LeftOf, RightOf, OldSide, NewSide;
    }
  }

  lemma SidesOfPair(pair: Pair)
    requires Proper(pair)
    ensures OldSide(LinesOf(pair)) == LeftOf(pair) && NewSide(LinesOf(pair)) == RightOf(pair)
  {
    var a, b := if pair.Both? then [pair.line] else Held(pair.before), if pair.Both? then [] else Held(pair.after);
    assert LinesOf(pair) == a + b;
    SidesAppend(a, b);
    assert |a| == 1 ==> a[1..] == [];
    assert |b| == 1 ==> b[1..] == [];
  }

  /** What a reader of the left column sees of a line: its number and its text up to white space. */
  function OldLooks(lines: seq<Line>): seq<(int, string)> {
    seq(|lines|, k requires 0 <= k < |lines| => (lines[k].oldNumber, Squeezed(lines[k].text)))
  }

  function NewLooks(lines: seq<Line>): seq<(int, string)> {
    seq(|lines|, k requires 0 <= k < |lines| => (lines[k].newNumber, lines[k].text))
  }

  lemma LooksAppend(a: seq<Line>, b: seq<Line>)
    ensures OldLooks(a + b) == OldLooks(a) + OldLooks(b) && NewLooks(a + b) == NewLooks(a) + NewLooks(b)
  {
    hide Squeezed;
  }

  lemma {:induction false} MergingKeepsLooks(pairs: seq<Pair>)
    ensures OldLooks(Left(MergedAll(pairs))) == OldLooks(Left(pairs))
    ensures NewLooks(Right(MergedAll(pairs))) == NewLooks(Right(pairs))
  {
    hide Squeezed;
    if pairs != [] {
      assert MergedAll(pairs)[1..] == MergedAll(pairs[1..]);
      MergingKeepsLooks(pairs[1..]);
      LooksAppend(LeftOf(pairs[0]), Left(pairs[1..]));
      LooksAppend(RightOf(pairs[0]), Right(pairs[1..]));
      LooksAppend(LeftOf(Merged(pairs[0])), Left(MergedAll(pairs[1..])));
      LooksAppend(RightOf(Merged(pairs[0])), Right(MergedAll(pairs[1..])));
      MergeKeepsLooks(pairs[0]);
      hide MergedAll, OldLooks, NewLooks, LeftOf, RightOf;
    }
  }

  lemma MergeKeepsLooks(pair: Pair)
    ensures OldLooks(LeftOf(Merged(pair))) == OldLooks(LeftOf(pair))
    ensures NewLooks(RightOf(Merged(pair))) == NewLooks(RightOf(pair))
  {
    hide Squeezed;
  }

  // ---------- Pairs and lines determine each other ----------

  /** Within a block a column that has run out stays empty. */
  predicate Follows(a: Pair, b: Pair) {
    a.Sides? && b.Sides? ==> (b.before.Some? ==> a.before.Some?) && (b.after.Some? ==> a.after.Some?)
  }

  ghost predicate Aligned(pairs: seq<Pair>) {
    AllProper(pairs) && forall k :: 0 < k < |pairs| ==> Follows(pairs[k - 1], pairs[k])
  }

  lemma {:induction false} SidesOfBlock(lines: seq<Line>)
    requires forall k :: 0 <= k < |lines| ==> Changed(lines[k])
    ensures forall k :: 0 <= k < |OldSide(lines)| ==> OldSide(lines)[k].kind.Delete?
    ensures forall k :: 0 <= k < |NewSide(lines)| ==> NewSide(lines)[k].kind.Add?
    ensures |OldSide(lines)| + |NewSide(lines)| == |lines|
  {
    if lines != [] { SidesOfBlock(lines[1..]); }
  }

  lemma ZipAligned(deleted: seq<Line>, added: seq<Line>)
    requires forall k :: 0 <= k < |deleted| ==> deleted[k].kind.Delete?
    requires forall k :: 0 <= k < |added| ==> added[k].kind.Add?
    ensures Aligned(Zip(deleted, added)) && forall k :: 0 <= k < |Zip(deleted, added)| ==> Zip(deleted, added)[k].Sides?
  {
  }

  lemma AlignedAppend(a: seq<Pair>, b: seq<Pair>)
    requires Aligned(a) && Aligned(b) && (a != [] && b != [] ==> Follows(a[|a| - 1], b[0]))
    ensures Aligned(a + b)
  {
    hide Proper, Follows;
    var ab := a + b;
    forall k | 0 < k < |ab| ensures Follows(ab[k - 1], ab[k]) {
      if k < |a| { assert Follows(a[k - 1], a[k]); }
      else if k > |a| { assert Follows(b[k - |a| - 1], b[k - |a|]); }
    }
  }

  lemma {:induction false} PairsAligned(lines: seq<Line>)
    ensures Aligned(Pairs(lines))
    ensures lines != [] && !Changed(lines[0]) ==> Pairs(lines) != [] && Pairs(lines)[0].Both?
    decreases |lines|
  {
    if lines == [] {
    } else if !Changed(lines[0]) {
      PairsAligned(lines[1..]);
      AlignedAppend([Both(lines[0])], Pairs(lines[1..]));
    } else {
      var n := Block(lines);
      var block := lines[..n];
      PairsAligned(lines[n..]);
      SidesOfBlock(block);
      ZipAligned(OldSide(block), NewSide(block));
      hide Zip, OldSide, NewSide, Aligned;
      assert lines[n..] == [] ==> Pairs(lines[n..]) == [];
      AlignedAppend(Zip(OldSide(block), NewSide(block)), Pairs(lines[n..]));
    }
  }

  /** The length of the run of changes at the start. */
  function SidesRun(pairs: seq<Pair>): (n: nat)
    ensures n <= |pairs|
    ensures forall k :: 0 <= k < n ==> pairs[k].Sides?
    ensures n < |pairs| ==> pairs[n].Both?
  {
    if pairs == [] || pairs[0].Both? then 0 else 1 + SidesRun(pairs[1..])
  }

  lemma AlignedPart(pairs: seq<Pair>, n: nat)
    requires Aligned(pairs) && n <= |pairs|
    ensures Aligned(pairs[..n]) && Aligned(pairs[n..])
  {
    hide Proper, Follows;
    forall k | 0 < k < |pairs| - n ensures Follows(pairs[n..][k - 1], pairs[n..][k]) {
      assert Follows(pairs[n + k - 1], pairs[n + k]);
    }
  }

  /** A column that starts empty stays empty through the run. */
  lemma {:induction false} ColumnRunsOut(run: seq<Pair>)
    requires Aligned(run) && run != [] && forall k :: 0 <= k < |run| ==> run[k].Sides?
    ensures run[0].before.None? ==> Left(run) == []
    ensures run[0].after.None? ==> Right(run) == []
  {
    if |run| > 1 {
      assert Follows(run[0], run[1]);
      AlignedPart(run, 1);
      ColumnRunsOut(run[1..]);
    }
  }

  lemma {:induction false} ZipOfRun(run: seq<Pair>)
    requires Aligned(run) && forall k :: 0 <= k < |run| ==> run[k].Sides?
    ensures Zip(Left(run), Right(run)) == run
  {
    if run != [] {
      AlignedPart(run, 1);
      ZipOfRun(run[1..]);
      ColumnRunsOut(run);
      assert Proper(run[0]);
      var d, a := Left(run), Right(run);
      ZipTail(d, a, if d == [] then [] else d[1..], if a == [] then [] else a[1..]);
      HeadOfRun(run);
      hide Zip, Left, Right, Aligned, Proper;
      assert run == [run[0]] + run[1..];
    }
  }

  lemma HeadOfRun(run: seq<Pair>)
    requires run != [] && run[0].Sides? && (run[0].before.None? ==> Left(run) == []) && (run[0].after.None? ==> Right(run) == [])
    ensures run[0] == Sides(At(Left(run), 0), At(Right(run), 0))
    ensures Left(run[1..]) == if Left(run) == [] then [] else Left(run)[1..]
    ensures Right(run[1..]) == if Right(run) == [] then [] else Right(run)[1..]
  {
  }

  lemma {:induction false} FlatChanged(run: seq<Pair>)
    requires AllProper(run) && forall k :: 0 <= k < |run| ==> run[k].Sides?
    ensures forall k :: 0 <= k < |Flat(run)| ==> Changed(Flat(run)[k])
    ensures run != [] ==> Flat(run) != []
  {
    if run != [] {
      assert Proper(run[0]);
      FlatChanged(run[1..]);
    }
  }

  lemma {:induction false} BlockOf(a: seq<Line>, b: seq<Line>)
    requires (forall k :: 0 <= k < |a| ==> Changed(a[k])) && (b != [] ==> !Changed(b[0]))
    ensures Block(a + b) == |a|
  {
    if a == [] { assert a + b == b; } else {
      assert (a + b)[1..] == a[1..] + b;
      BlockOf(a[1..], b);
    }
  }

  lemma FlatStart(pairs: seq<Pair>)
    requires AllProper(pairs) && pairs != [] && pairs[0].Both?
    ensures Flat(pairs) == [pairs[0].line] + Flat(pairs[1..]) && !Changed(pairs[0].line)
  {
    assert Proper(pairs[0]);
  }

  /** Writing aligned pairs out as lines and pairing the lines gives the pairs back. */
  lemma {:induction false} PairsRoundTrip(pairs: seq<Pair>)
    requires Aligned(pairs)
    ensures Pairs(Flat(pairs)) == pairs
    decreases |pairs|
  {
    hide Zip, Left, Right, Proper, Follows, LinesOf, OldSide, NewSide;
    if pairs == [] {
    } else if pairs[0].Both? {
      AlignedPart(pairs, 1);
      FlatStart(pairs);
      PairsRoundTrip(pairs[1..]);
      assert Flat(pairs)[1..] == Flat(pairs[1..]);
      assert pairs == [pairs[0]] + pairs[1..];
    } else {
      var n := SidesRun(pairs);
      var run, rest := pairs[..n], pairs[n..];
      RunRoundTrip(pairs, run, rest);
      PairsRoundTrip(rest);
    }
  }

  lemma RunRoundTrip(pairs: seq<Pair>, run: seq<Pair>, rest: seq<Pair>)
    requires Aligned(pairs) && pairs == run + rest && run != []
    requires (forall k :: 0 <= k < |run| ==> run[k].Sides?) && (rest != [] ==> rest[0].Both?)
    ensures Aligned(rest) && Pairs(Flat(pairs)) == run + Pairs(Flat(rest))
  {
    hide Zip, Left, Right, Proper, Follows, LinesOf, OldSide, NewSide, Flat;
    AlignedPart(pairs, |run|);
    assert pairs[..|run|] == run && pairs[|run|..] == rest;
    FlatAppend(run, rest);
    FlatChanged(run);
    if rest != [] { FlatStart(rest); } else { NoLines(rest); }
    BlockOf(Flat(run), Flat(rest));
    ColumnsOfFlat(run);
    ZipOfRun(run);
    var lines := Flat(pairs);
    assert lines[..|Flat(run)|] == Flat(run) && lines[|Flat(run)|..] == Flat(rest);
    assert Changed(lines[0]) by { assert lines[0] == Flat(run)[0]; }
  }

  lemma NoLines(pairs: seq<Pair>)
    requires pairs == []
    ensures Flat(pairs) == []
  {
  }

  // ---------- Hiding white space ----------

  lemma MergingAligned(pairs: seq<Pair>)
    requires Aligned(pairs)
    ensures Aligned(MergedAll(pairs))
  {
    hide Squeezed;
    var merged := MergedAll(pairs);
    forall k | 0 <= k < |pairs| ensures Proper(merged[k]) {
      assert Proper(pairs[k]);
    }
    forall k | 0 < k < |pairs| ensures Follows(merged[k - 1], merged[k]) {
      assert Follows(pairs[k - 1], pairs[k]);
    }
  }

  /** The left column keeps its numbers and its texts up to white space, the right column its
      numbers and texts. */
  lemma BothSidesKept(lines: seq<Line>)
    ensures OldLooks(OldSide(Without(lines))) == OldLooks(OldSide(lines))
    ensures NewLooks(NewSide(Without(lines))) == NewLooks(NewSide(lines))
  {
    PairsAligned(lines);
    ColumnsComplete(lines);
    var pairs := Pairs(lines);
    MergingAligned(pairs);
    ColumnsOfFlat(MergedAll(pairs));
    MergingKeepsLooks(pairs);
  }

  /** Hiding a second time changes nothing. */
  lemma HidingOnce(lines: seq<Line>)
    ensures Without(Without(lines)) == Without(lines)
  {
    PairsAligned(lines);
    var merged := MergedAll(Pairs(lines));
    MergingAligned(Pairs(lines));
    PairsRoundTrip(merged);
    assert MergedAll(merged) == merged;
  }

  /** No deletion is left beside an addition that differs from it only in white space. */
  lemma NothingLeftToHide(lines: seq<Line>, k: nat)
    requires k < |Pairs(Without(lines))|
    ensures var pair := Pairs(Without(lines))[k];
            pair.Sides? && pair.before.Some? && pair.after.Some? ==>
              Squeezed(pair.before.value.text) != Squeezed(pair.after.value.text)
  {
    PairsAligned(lines);
    MergingAligned(Pairs(lines));
    PairsRoundTrip(MergedAll(Pairs(lines)));
  }
}
