/** The outcome protocol (protocol.go): finding the verdict object at the end of a reply. */
module Protocol {
  import opened Text
  import Json
  import Engine

  // ---------- The terminal object ----------

  /** Decoding yields an object and then the end of the input. */
  predicate SoleObject(s: string) {
    exists k :: 0 <= k <= |s| && Json.IsObject(s[..k]) && Json.Ws(s[k..])
  }

  lemma NoTrailingWs(s: string, k: nat)
    requires Trimmed(s) && k < |s|
    ensures !Json.Ws(s[k..])
  {
    assert s[k..][|s| - k - 1] == s[|s| - 1];
  }

  /** For a candidate without trailing space that is the same as being a complete object. */
  lemma SoleIsObject(s: string)
    requires Trimmed(s)
    ensures SoleObject(s) <==> Json.IsObject(s)
  {
    assert s[..|s|] == s;
    forall k | 0 <= k < |s| ensures !Json.Ws(s[k..]) { NoTrailingWs(s, k); }
    if Json.IsObject(s) { assert Json.Ws(s[|s|..]); }
  }

  /** `i` is a brace from which a complete object runs to the end of the text. */
  predicate ObjectFrom(text: string, i: int) {
    0 <= i < |text| && text[i] == '{' && SoleObject(Trim(text[i..]))
  }

  lemma {:induction false} EndOfSuffix(text: string, i: nat, n: nat)
    requires i < n <= |text| && !IsSpace(text[i])
    ensures TextEnd(text[i..], 0, n - i) + i == TextEnd(text, 0, n) > i
    decreases n
  {
    assert text[i..][n - i - 1] == text[n - 1];
    if IsSpace(text[n - 1]) { EndOfSuffix(text, i, n - 1); }
  }

  /** A suffix that starts with a brace loses only the text's own trailing space to trimming. */
  lemma TrimSuffix(text: string, i: nat)
    requires i < |text| && text[i] == '{'
    ensures i < TextEnd(text, 0, |text|) && Trim(text[i..]) == text[i..TextEnd(text, 0, |text|)]
    ensures Trimmed(Trim(text[i..]))
  {
    hide Trim, TextEnd, IsSpace, Trimmed;
    BraceIsText(text[i..]);
    EndOfSuffix(text, i, |text|);
    TrimIsTrimmed(text[i..]);
    var end := TextEnd(text, 0, |text|);
    assert text[i..][..end - i] == text[i..end];
  }

  lemma BraceIsText(s: string)
    requires s != "" && s[0] == '{'
    ensures !IsSpace(s[0]) && Trim(s) == s[..TextEnd(s, 0, |s|)]
  {
    assert TextStart(s, 0) == 0;
  }

  /** For every text at most one brace starts an object that runs to the end. */
  lemma OneTerminalObject(text: string, i: int, j: int)
    requires ObjectFrom(text, i) && ObjectFrom(text, j)
    ensures i == j
  {
    hide SoleObject, Trim, Trimmed, IsSpace, TextEnd, Json.IsObject;
    if i != j {
      var lo, hi := if i < j then i else j, if i < j then j else i;
      TrimSuffix(text, lo);
      TrimSuffix(text, hi);
      assert Trim(text[hi..]) == Trim(text[lo..])[hi - lo..];
      SoleIsObject(Trim(text[lo..]));
      SoleIsObject(Trim(text[hi..]));
      Json.NoSuffixObject(Trim(text[lo..]), hi - lo);
    }
  }

  method LastBrace(text: string, end: nat) returns (index: int)
    requires end <= |text|
    ensures -1 <= index < end && (index >= 0 ==> text[index] == '{')
    ensures forall i :: index < i < end ==> text[i] != '{'
  {
    index := end - 1;
    while index >= 0 && text[index] != '{'
      invariant -1 <= index < end && forall i :: index < i < end ==> text[i] != '{'
    {
      index := index - 1;
    }
  }

  /** The result does not depend on the direction of the scan: whichever brace starts a
      terminal object, it is that object. */
  method TerminalJSONObject(text: string) returns (r: string)
    ensures r == "" <==> forall i :: !ObjectFrom(text, i)
    ensures forall i :: ObjectFrom(text, i) ==> r == Trim(text[i..]) && Json.IsObject(r)
  {
    var index := LastBrace(text, |text|);
    while index >= 0
      invariant -1 <= index < |text| && (index >= 0 ==> text[index] == '{')
      invariant forall i :: index < i ==> !ObjectFrom(text, i)
      decreases index
    {
      var candidate := Trim(text[index..]);
      if SoleObject(candidate) {
        assert ObjectFrom(text, index);
        TrimSuffix(text, index);
        SoleIsObject(candidate);
        forall i | ObjectFrom(text, i) ensures i == index { OneTerminalObject(text, i, index); }
        return candidate;
      }
      index := LastBrace(text, index);
    }
    return "";
  }

  // ---------- Code fences ----------

  function Lines(s: string): (r: seq<string>)
    ensures |r| > 0
  {
    if s == "" then [""]
    else if s[0] == '\n' then [""] + Lines(s[1..])
    else var rest := Lines(s[1..]); [[s[0]] + rest[0]] + rest[1..]
  }

  function Unlines(lines: seq<string>): string
    requires |lines| > 0
  {
    if |lines| == 1 then lines[0] else lines[0] + "\n" + Unlines(lines[1..])
  }

  lemma {:induction false} LinesRoundTrip(s: string)
    ensures Unlines(Lines(s)) == s && forall i :: 0 <= i < |Lines(s)| ==> '\n' !in Lines(s)[i]
  {
    if s != "" {
      LinesRoundTrip(s[1..]);
      assert s == [s[0]] + s[1..];
      var rest := Lines(s[1..]);
      if s[0] == '\n' { assert ([""] + rest)[1..] == rest; }
      else { assert ([[s[0]] + rest[0]] + rest[1..])[1..] == rest[1..]; }
    }
  }

  function RunOf(line: string, c: char, n: nat): (m: nat)
    requires n <= |line|
    ensures n <= m <= |line| && (forall i :: n <= i < m ==> line[i] == c) && (m < |line| ==> line[m] != c)
    decreases |line| - n
  {
    if n < |line| && line[n] == c then RunOf(line, c, n + 1) else n
  }

  /** The marker a line opens a fence with, or nothing. */
  function Opener(line: string): string {
    if "```" <= line then line[..RunOf(line, '`', 3)]
    else if "~~~" <= line then line[..RunOf(line, '~', 3)]
    else ""
  }

  /** The open fence after one more line; only the very same marker closes it. */
  function FenceStep(fence: string, line: string): string {
    if fence == "" then Opener(Trim(line)) else if Trim(line) == fence then "" else fence
  }

  function FenceAfter(lines: seq<string>, fence: string): string {
    if lines == [] then fence else FenceAfter(lines[1..], FenceStep(fence, lines[0]))
  }

  predicate FenceOpen(text: string) {
    FenceAfter(Lines(text), "") != ""
  }

  method OutcomeFenceOpen(text: string) returns (open: bool)
    ensures open <==> FenceOpen(text)
  {
    var fence := "";
    var lines := Lines(text);
    for i := 0 to |lines|
      invariant FenceAfter(lines[i..], fence) == FenceAfter(lines, "")
    {
      var line := Trim(lines[i]);
      if fence != "" {
        if line == fence { fence := ""; }
      } else if "```" <= line {
        fence := line[..RunOf(line, '`', 3)];
      } else if "~~~" <= line {
        fence := line[..RunOf(line, '~', 3)];
      }
    }
    return fence != "";
  }

  lemma {:induction false} FenceConcat(a: seq<string>, b: seq<string>, fence: string)
    ensures FenceAfter(a + b, fence) == FenceAfter(b, FenceAfter(a, fence))
  {
    if a == [] { assert a + b == b; } else {
      assert (a + b)[1..] == a[1..] + b;
      FenceConcat(a[1..], b, FenceStep(fence, a[0]));
    }
  }

  lemma {:induction false} FenceStays(body: seq<string>, fence: string)
    requires fence != "" && forall l :: l in body ==> Trim(l) != fence
    ensures FenceAfter(body, fence) == fence
  {
    if body != [] {
      assert body[0] in body;
      FenceStays(body[1..], fence);
    }
  }

  /** A fenced block, whatever other markers its body holds, leaves a report as open or
      closed as it found it; without its last line the block stays open. */
  lemma FencedBlock(before: seq<string>, opening: string, body: seq<string>, closing: string)
    requires FenceAfter(before, "") == "" && Opener(Trim(opening)) != ""
    requires (forall l :: l in body ==> Trim(l) != Opener(Trim(opening))) && Trim(closing) == Opener(Trim(opening))
    ensures FenceAfter(before + [opening] + body, "") == Opener(Trim(opening))
    ensures FenceAfter(before + [opening] + body + [closing], "") == ""
  {
    var fence := Opener(Trim(opening));
    FenceConcat(before, [opening], "");
    FenceConcat(before + [opening], body, "");
    FenceConcat(before + [opening] + body, [closing], "");
    FenceStays(body, fence);
    assert [opening][1..] == [] && [closing][1..] == [];
  }

  /** The marker is the whole run of backticks or tildes, three or more, at the start of a line. */
  lemma OpenerIs(line: string)
    ensures var o := Opener(line);
            if |line| >= 3 && (line[..3] == "```" || line[..3] == "~~~")
            then 3 <= |o| && o <= line && (forall i :: 0 <= i < |o| ==> o[i] == line[0]) && (|o| < |line| ==> line[|o|] != line[0])
            else o == ""
  {
    assert |line| >= 3 ==> forall i :: 0 <= i < 3 ==> line[..3][i] == line[i];
  }

  /** Lines outside fences, and fences from an opening line to the next line that is just
      their marker. */
  ghost predicate Sealed(lines: seq<string>) {
    || lines == []
    || (Opener(Trim(lines[0])) == "" && Sealed(lines[1..]))
    || exists k :: 0 < k < |lines| && ClosedAt(lines, k) && Sealed(lines[k + 1..])
  }

  predicate ClosedAt(lines: seq<string>, k: int)
    requires 0 < k < |lines|
  {
    var fence := Opener(Trim(lines[0]));
    fence != "" && Trim(lines[k]) == fence && forall i :: 0 < i < k ==> Trim(lines[i]) != fence
  }

  /** No fence is left open exactly by such texts. */
  lemma OpenExactly(text: string)
    ensures FenceOpen(text) <==> !Sealed(Lines(text))
  {
    SealedExactly(Lines(text));
  }

  lemma {:induction false} SealedExactly(lines: seq<string>)
    ensures FenceAfter(lines, "") == "" <==> Sealed(lines)
    decreases |lines|
  {
    hide Trim, Opener;
    if lines != [] {
      var fence := Opener(Trim(lines[0]));
      if fence == "" {
        SealedExactly(lines[1..]);
        forall k | 0 < k < |lines| ensures !ClosedAt(lines, k) {}
      } else {
        if FenceAfter(lines, "") == "" {
          var k := ClosingLine(lines);
          Closed(lines, k);
          SealedExactly(lines[k + 1..]);
        }
        if Sealed(lines) {
          var k :| 0 < k < |lines| && ClosedAt(lines, k) && Sealed(lines[k + 1..]);
          Closed(lines, k);
          SealedExactly(lines[k + 1..]);
        }
      }
    }
  }

  lemma Closed(lines: seq<string>, k: nat)
    requires 0 < k < |lines| && ClosedAt(lines, k)
    ensures FenceAfter(lines, "") == FenceAfter(lines[k + 1..], "")
  {
    hide Trim, Opener;
    var fence := Opener(Trim(lines[0]));
    var body := lines[1..k];
    assert lines == [lines[0]] + body + [lines[k]] + lines[k + 1..];
    FenceConcat([lines[0]], body, "");
    FenceConcat([lines[0]] + body, [lines[k]], "");
    FenceConcat([lines[0]] + body + [lines[k]], lines[k + 1..], "");
    FenceStays(body, fence);
    assert [lines[0]][1..] == [] && [lines[k]][1..] == [];
  }

  lemma ClosingLine(lines: seq<string>) returns (k: nat)
    requires lines != [] && Opener(Trim(lines[0])) != "" && FenceAfter(lines, "") == ""
    ensures 0 < k < |lines| && ClosedAt(lines, k)
  {
    hide Trim, Opener;
    var fence := Opener(Trim(lines[0]));
    k := 1;
    while k < |lines| && Trim(lines[k]) != fence
      invariant 0 < k <= |lines| && forall i :: 0 < i < k ==> Trim(lines[i]) != fence
    {
      k := k + 1;
    }
    if k == |lines| {
      FenceStays(lines[1..], fence);
    }
  }

  // ---------- Cutting a reply into prose and JSON ----------

  datatype Cut = Empty | Cut(prose: string, raw: string)

  predicate FenceLabel(line: string) {
    Trim(line) == "```json" || Trim(line) == "```"
  }

  predicate FenceAt(text: string, i: int) {
    0 <= i && i + 4 <= |text| && text[i..i + 4] == "\n```"
  }

  method LastFence(text: string, end: nat) returns (index: int)
    requires end <= |text|
    ensures -1 <= index && (index >= 0 ==> index + 4 <= end && FenceAt(text, index))
    ensures forall i :: index < i && i + 4 <= end ==> !FenceAt(text, i)
  {
    index := end - 4;
    if index < 0 { return -1; }
    while index >= 0 && text[index..index + 4] != "\n```"
      invariant -1 <= index <= end - 4
      invariant forall i :: index < i && i + 4 <= end ==> !FenceAt(text, i)
    {
      index := index - 1;
    }
  }

  /** The last fence line before the closing one, or the start of a reply that opens with a fence. */
  ghost predicate OpensAt(text: string, start: int) {
    && 0 <= start && start + 7 <= |text| && text[start..start + 3] == "```" && (start > 0 ==> FenceAt(text, start - 1))
    && forall i :: start <= i && i + 8 <= |text| ==> !FenceAt(text, i)
  }

  /** The reply ends with a fenced block: its opening line, `k` characters long, is labelled as
      JSON, its body is not blank, and no earlier fence encloses it. */
  ghost predicate Fenced(text: string, start: int, k: int, c: Cut) {
    && OpensAt(text, start) && text[|text| - 4..] == "\n```"
    && 0 <= k && start + k < |text| - 4 && text[start + k] == '\n' && '\n' !in text[start..start + k]
    && FenceLabel(text[start..start + k]) && !FenceOpen(text[..start])
    && c == Cut(Trim(text[..start]), Trim(text[start + k + 1..|text| - 4])) && c.raw != ""
  }

  /** From `i` a complete object runs to the end of the reply, outside any fence. */
  ghost predicate Terminal(text: string, i: int) {
    ObjectFrom(text, i) && !FenceOpen(Trim(text[..i]))
  }

  ghost predicate AnyFenced(text: string) {
    exists start, k, c :: Fenced(text, start, k, c)
  }

  ghost predicate AnyTerminal(text: string) {
    exists i :: Terminal(text, i)
  }

  /** How a reply is cut: whole when it opens with a brace, else at its closing fenced block,
      else at its terminal object, else whole. */
  ghost predicate CutOf(text: string, c: Cut) {
    if text == "" then c.Empty?
    else if text[0] == '{' then c == Cut("", text)
    else if AnyFenced(text) then exists start, k :: Fenced(text, start, k, c)
    else if AnyTerminal(text) then exists i :: Terminal(text, i) && c == Cut(Trim(text[..i]), text[i..])
    else c == Cut("", text)
  }

  lemma OneOpening(text: string, a: int, b: int)
    requires OpensAt(text, a) && OpensAt(text, b)
    ensures a == b
  {
    OpeningIsFence(text, a);
    OpeningIsFence(text, b);
  }

  lemma OpeningIsFence(text: string, start: int)
    requires OpensAt(text, start)
    ensures if start == 0 then "```" <= text else FenceAt(text, start - 1)
    ensures start + 7 <= |text|
  {
    assert start == 0 ==> text[..3] == text[start..start + 3];
  }

  lemma OneFirst(s: string, j: nat, k: nat)
    requires j < |s| && k < |s| && s[j] == s[k] == '\n' && '\n' !in s[..j] && '\n' !in s[..k]
    ensures j == k
  {
    forall m | 0 <= m < j ensures s[m] != '\n' { assert s[..j][m] in s[..j]; }
    forall m | 0 <= m < k ensures s[m] != '\n' { assert s[..k][m] in s[..k]; }
  }

  lemma OneFenced(text: string, start: int, k: int, c: Cut, start': int, k': int, c': Cut)
    requires Fenced(text, start, k, c) && Fenced(text, start', k', c')
    ensures start == start' && k == k' && c == c'
  {
    hide Trim, FenceLabel, FenceOpen, OpensAt;
    OpeningIsFence(text, start);
    OneOpening(text, start, start');
    var s := text[start..];
    assert s[..k] == text[start..start + k] && s[..k'] == text[start..start + k'];
    OneFirst(s, k, k');
  }

  /** A reply is cut in one way only. */
  lemma OneCut(text: string, c: Cut, d: Cut)
    requires CutOf(text, c) && CutOf(text, d)
    ensures c == d
  {
    hide Fenced, SoleObject, Trim, FenceOpen;
    if text != "" && text[0] != '{' {
      if AnyFenced(text) {
        var start, k :| Fenced(text, start, k, c);
        var start', k' :| Fenced(text, start', k', d);
        OneFenced(text, start, k, c, start', k', d);
      } else if AnyTerminal(text) {
        var i :| Terminal(text, i) && c == Cut(Trim(text[..i]), text[i..]);
        var j :| Terminal(text, j) && d == Cut(Trim(text[..j]), text[j..]);
        OneTerminalObject(text, i, j);
      }
    }
  }

  method FirstNewline(s: string) returns (k: int)
    ensures -1 <= k < |s| && (k >= 0 ==> s[k] == '\n' && '\n' !in s[..k])
    ensures k < 0 ==> '\n' !in s
  {
    for i := 0 to |s|
      invariant '\n' !in s[..i]
    {
      if s[i] == '\n' { return i; }
    }
    assert s[..|s|] == s;
    return -1;
  }

  /** The fenced form: the last fence line before the closing one opens the block. */
  method SplitFenced(text: string) returns (c: Cut)
    requires Trimmed(text)
    ensures if AnyFenced(text) then c.Cut? && exists start, k :: Fenced(text, start, k, c) else c.Empty?
  {
    hide Trim, FenceOpen, FenceLabel, Trimmed;
    if |text| < 4 || text[|text| - 4..] != "\n```" { return Empty; }
    var end := |text| - 4;
    var start := LastFence(text, end);
    if start >= 0 {
      start := start + 1;
    } else if "```" <= text {
      start := 0;
      PrefixRoom(text);
    } else {
      NoOpening(text);
      return Empty;
    }
    assert text[start..start + 3] == "```" by { FenceText(text, start); }
    assert OpensAt(text, start);
    c := CutBlock(text, start, end);
  }

  lemma FenceText(text: string, start: nat)
    requires start > 0 ==> FenceAt(text, start - 1)
    requires start == 0 ==> "```" <= text
    ensures start + 3 <= |text| && text[start..start + 3] == "```"
  {
    if start > 0 { assert text[start - 1..start + 3][1..] == text[start..start + 3]; }
  }

  lemma PrefixRoom(text: string)
    requires "```" <= text && |text| >= 4 && text[|text| - 4..] == "\n```"
    ensures |text| >= 7
  {
    assert text[|text| - 4] == '\n';
    assert text[0] == '`' && text[1] == '`' && text[2] == '`';
  }

  lemma NoOpening(text: string)
    requires !("```" <= text) && forall i :: -1 < i && i + 8 <= |text| ==> !FenceAt(text, i)
    ensures !AnyFenced(text)
  {
    hide Trim, FenceOpen, FenceLabel;
    forall start | OpensAt(text, start) ensures false { OpeningIsFence(text, start); }
  }

  method CutBlock(text: string, start: nat, end: nat) returns (c: Cut)
    requires OpensAt(text, start) && start <= end && end + 4 == |text| && text[end..] == "\n```"
    ensures if AnyFenced(text) then c.Cut? && exists start, k :: Fenced(text, start, k, c) else c.Empty?
  {
    hide Trim, FenceOpen, FenceLabel, OpensAt;
    var block := text[start..end];
    var k := FirstNewline(block);
    BlockFenced(text, start, end, k);
    if k < 0 || !FenceLabel(block[..k]) { return Empty; }
    var body := Trim(block[k + 1..]);
    var open := OutcomeFenceOpen(text[..start]);
    if body == "" || open { return Empty; }
    c := Cut(Trim(text[..start]), body);
  }

  /** Whether the reply has a fenced form is decided by the first line of its last block. */
  lemma BlockFenced(text: string, start: nat, end: nat, k: int)
    requires OpensAt(text, start) && start <= end && end + 4 == |text| && text[end..] == "\n```"
    requires -1 <= k < end - start
    requires if k < 0 then '\n' !in text[start..end] else text[start..end][k] == '\n' && '\n' !in text[start..end][..k]
    ensures var block := text[start..end];
            if k < 0 || !FenceLabel(block[..k]) || Trim(block[k + 1..]) == "" || FenceOpen(text[..start]) then !AnyFenced(text)
            else Fenced(text, start, k, Cut(Trim(text[..start]), Trim(block[k + 1..])))
  {
    hide Trim, FenceOpen, FenceLabel, OpensAt;
    var block := text[start..end];
    if k >= 0 {
      assert block[..k] == text[start..start + k] && block[k + 1..] == text[start + k + 1..end];
    }
    forall s, j, c | Fenced(text, s, j, c) ensures s == start && j == k { SameBlock(text, start, end, k, s, j, c); }
  }

  lemma SameBlock(text: string, start: nat, end: nat, k: int, s: int, j: int, c: Cut)
    requires OpensAt(text, start) && start <= end && end + 4 == |text| && Fenced(text, s, j, c)
    requires -1 <= k < end - start
    requires if k < 0 then '\n' !in text[start..end] else text[start..end][k] == '\n' && '\n' !in text[start..end][..k]
    ensures s == start && j == k
  {
    hide Trim, FenceOpen, FenceLabel, OpensAt;
    OneOpening(text, s, start);
    var block := text[start..end];
    assert block[j] == text[start + j];
    assert block[..j] == text[start..start + j];
    assert block[j] in block;
    OneFirst(block, j, k);
  }

  method SplitOutcomeJSON(text: string) returns (c: Cut)
    requires Trimmed(text)
    ensures CutOf(text, c)
  {
    hide Fenced, FenceOpen, Trim, SoleObject, Json.IsObject;
    if text == "" { return Empty; }
    if text[0] == '{' { return Cut("", text); }
    c := SplitFenced(text);
    if c.Cut? { return; }
    var terminal := TerminalJSONObject(text);
    if terminal != "" {
      ghost var i := ObjectStart(text, terminal);
      TerminalEnds(text, i);
      var prose := Trim(text[..|text| - |terminal|]);
      var open := OutcomeFenceOpen(prose);
      assert text[..|text| - |terminal|] == text[..i];
      if !open {
        assert Terminal(text, i);
        return Cut(prose, terminal);
      }
      forall j | Terminal(text, j) ensures false { OneTerminalObject(text, i, j); }
    }
    return Cut("", text);
  }

  lemma ObjectStart(text: string, terminal: string) returns (i: nat)
    requires terminal != "" && (terminal == "" <==> forall i :: !ObjectFrom(text, i))
    ensures i < |text| && text[i] == '{' && ObjectFrom(text, i)
  {
    i :| ObjectFrom(text, i);
  }

  /** On a trimmed reply the terminal object is a suffix of the reply itself. */
  lemma TerminalEnds(text: string, i: nat)
    requires Trimmed(text) && i < |text| && text[i] == '{'
    ensures Trim(text[i..]) == text[i..] && text == text[..i] + text[i..]
  {
    assert text[i..][|text| - i - 1] == text[|text| - 1];
    TrimFixed(text[i..]);
  }

  /** What may follow the JSON: space, and the line that closes its fence. */
  ghost predicate OnlyCloses(tail: string) {
    AllSpace(tail) || (|tail| >= 4 && tail[|tail| - 4..] == "\n```" && AllSpace(tail[..|tail| - 4]))
  }

  /** Nothing but space and a closing fence follows the JSON of any cut: control flow is
      never taken from the middle of a reply. */
  lemma NothingAfter(text: string, c: Cut) returns (before: string, tail: string)
    requires Trimmed(text) && CutOf(text, c) && c.Cut?
    ensures text == before + c.raw + tail && OnlyCloses(tail)
  {
    hide Trim, Fenced, Terminal, AnyFenced, AnyTerminal, Trimmed, OnlyCloses;
    if c == Cut("", text) {
      before, tail := "", "";
      NothingCloses();
    } else if AnyFenced(text) {
      var start, k :| Fenced(text, start, k, c);
      before, tail := FencedAfter(text, start, k, c);
    } else {
      before := TerminalAfter(text, c);
      tail := "";
      NothingCloses();
    }
  }

  lemma NothingCloses()
    ensures OnlyCloses("")
  {
  }

  lemma TerminalAfter(text: string, c: Cut) returns (before: string)
    requires exists i :: Terminal(text, i) && c == Cut(Trim(text[..i]), text[i..])
    ensures c.Cut? && text == before + c.raw
  {
    hide Trim, Terminal;
    forall i | Terminal(text, i) ensures 0 <= i < |text| { InsideText(text, i); }
    var i :| Terminal(text, i) && c == Cut(Trim(text[..i]), text[i..]);
    before := text[..i];
  }

  lemma InsideText(text: string, i: int)
    requires Terminal(text, i)
    ensures 0 <= i < |text|
  {
    hide FenceOpen, SoleObject, Trim;
  }

  lemma FencedAfter(text: string, start: int, k: int, c: Cut) returns (before: string, tail: string)
    requires Fenced(text, start, k, c)
    ensures c.Cut? && text == before + c.raw + tail && OnlyCloses(tail)
  {
    hide Trim, FenceOpen, FenceLabel, FenceAt, OnlyCloses;
    FencedPieces(text, start, |text| - 4, k);
    before, tail := FencedTail(text[..start], text[start..start + k], text[start + k + 1..|text| - 4]);
  }

  lemma FencedPieces(text: string, start: nat, end: nat, k: nat)
    requires start + k < end && end + 4 == |text| && text[end..] == "\n```" && text[start + k] == '\n'
    ensures text == text[..start] + text[start..start + k] + "\n" + text[start + k + 1..end] + "\n```"
  {
    assert text[start..end] == text[start..start + k] + "\n" + text[start + k + 1..end];
    assert text == text[..start] + text[start..end] + "\n```";
    calc {
      text;
      text[..start] + (text[start..start + k] + "\n" + text[start + k + 1..end]) + "\n```";
      text[..start] + text[start..start + k] + "\n" + text[start + k + 1..end] + "\n```";
    }
  }

  lemma FencedTail(head: string, mark: string, body: string) returns (before: string, tail: string)
    ensures head + mark + "\n" + body + "\n```" == before + Trim(body) + tail && OnlyCloses(tail)
  {
    hide Trim;
    var lead, pad := TrimParts(body);
    var raw := Trim(body);
    before, tail := head + mark + "\n" + lead, pad + "\n```";
    calc {
      head + mark + "\n" + (lead + raw + pad) + "\n```";
      head + mark + "\n" + lead + raw + pad + "\n```";
      before + raw + (pad + "\n```");
    }
  }

  // ---------- Parsing ----------

  datatype Message = Rejected | Parsed(outcome: Engine.Outcome, prose: string, json: string)

  predicate KnownVerdict(v: Engine.Verdict) {
    v.Pass? || v.Rework? || v.AskHuman?
  }

  /** What a decoded outcome must have to be acted on. */
  predicate Acceptable(r: Engine.Result<Engine.Outcome>) {
    r.Ok? && KnownVerdict(r.value.verdict) && (!Blank(r.value.summary) || !Blank(r.value.feedback))
  }

  lemma AcceptableExactly(r: Engine.Result<Engine.Outcome>)
    ensures Acceptable(r) <==>
            && r.Ok? && r.value.verdict in {Engine.Verdict.Pass, Engine.Verdict.Rework, Engine.Verdict.AskHuman}
            && exists c :: c in r.value.summary + r.value.feedback && !IsSpace(c)
  {
    hide IsSpace;
    if r.Ok? {
      var s, f := r.value.summary, r.value.feedback;
      forall i | 0 <= i < |s| ensures s[i] in s + f { assert (s + f)[i] == s[i]; }
      forall i | 0 <= i < |f| ensures f[i] in s + f { assert (s + f)[|s| + i] == f[i]; }
    }
  }

  /** What the JSON decoder accepts is one value of the grammar with white space around it. */
  ghost predicate Decodes(decode: string -> Engine.Result<Engine.Outcome>) {
    forall s :: decode(s).Ok? ==> Json.IsElement(s)
  }

  /** `decode` stands for the JSON decoder: the fields of the single value in a text, with
      verdict and target already trimmed, or nothing when it does not accept the text. A
      reply is accepted exactly when its one cut decodes to an acceptable outcome; then verdict
      and target are the decoded ones, and a blank summary or rework feedback is taken from
      the other. */
  method ParseOutcomeMessage(text: string, decode: string -> Engine.Result<Engine.Outcome>) returns (m: Message)
    requires Decodes(decode)
    ensures m.Parsed? <==> exists c :: CutOf(Trim(text), c) && c.Cut? && Acceptable(decode(c.raw))
    ensures m.Parsed? ==> CutOf(Trim(text), Cut(m.prose, m.json)) && Acceptable(decode(m.json)) && Json.IsElement(m.json)
    ensures m.Parsed? ==> var got := decode(m.json).value;
              && m.outcome.verdict == got.verdict && m.outcome.target == got.target
              && !Blank(m.outcome.summary) && (got.verdict.Rework? ==> !Blank(m.outcome.feedback))
              && m.outcome.summary in {got.summary, got.feedback} && (!Blank(got.summary) ==> m.outcome.summary == got.summary)
              && m.outcome.feedback in {got.feedback, got.summary}
              && (!Blank(got.feedback) || !got.verdict.Rework? ==> m.outcome.feedback == got.feedback)
  {
    hide Trim, CutOf, Blank, Json.IsElement;
    TrimIsTrimmed(text);
    var c := SplitOutcomeJSON(Trim(text));
    forall d | CutOf(Trim(text), d) ensures d == c { OneCut(Trim(text), c, d); }
    if c.Empty? { return Rejected; }
    var decoded := decode(c.raw);
    if decoded.Err? { return Rejected; }
    var outcome := decoded.value;
    if !KnownVerdict(outcome.verdict) { return Rejected; }
    if Blank(outcome.summary) { outcome := outcome.(summary := outcome.feedback); }
    if Blank(outcome.summary) { return Rejected; }
    if outcome.verdict.Rework? && Blank(outcome.feedback) { outcome := outcome.(feedback := outcome.summary); }
    return Parsed(outcome, c.prose, c.raw);
  }
}
