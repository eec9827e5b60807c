/** What the outcome protocol makes of the replies it is for: a report followed by a JSON
    object, bare or in a fence. The objects are those that JsonText prints. */
module Replies {
  import opened Text
  import opened Protocol
  import JsonText
  import Json
  import Engine

  predicate WrittenObject(v: JsonText.Value) {
    JsonText.Proper(v) && (v.EmptyObject? || v.Object?)
  }

  lemma ObjectEnds(v: JsonText.Value)
    requires WrittenObject(v)
    ensures var o := JsonText.Print(v);
            && |o| >= 2 && o[0] == '{' && o[|o| - 1] == '}' && Json.IsObject(o)
            && Trimmed(o) && SoleObject(o)
  {
    hide JsonText.Proper, SoleObject;
    JsonText.PrintAccepted(v);
    var o := JsonText.Print(v);
    assert o[0] == '{' && o[|o| - 1] == '}';
    SoleIsObject(o);
  }

  // ---------- Space around a text ----------

  /** Space around a text without space at its ends is what trimming takes off. */
  lemma TrimPadded(a: string, s: string, b: string)
    requires AllSpace(a) && AllSpace(b) && Trimmed(s) && s != ""
    ensures Trim(a + s + b) == s
  {
    hide Trim;
    var t := a + s + b;
    var before, after := TrimParts(t);
    var core := Trim(t);
    assert t[|a|] == s[0] && !IsSpace(t[|a|]);
    assert t[|a| + |s| - 1] == s[|s| - 1];
    SameCore(t, |a|, |a| + |s|, |before|, |before| + |core|);
    assert core == t[|before|..|before| + |core|];
    assert s == t[|a|..|a| + |s|];
  }

  lemma SameCore(t: string, i: nat, j: nat, k: nat, m: nat)
    requires i < j <= |t| && k <= m <= |t|
    requires (forall x :: 0 <= x < i ==> IsSpace(t[x])) && (forall x :: j <= x < |t| ==> IsSpace(t[x]))
    requires !IsSpace(t[i]) && !IsSpace(t[j - 1])
    requires (forall x :: 0 <= x < k ==> IsSpace(t[x])) && (forall x :: m <= x < |t| ==> IsSpace(t[x]))
    requires k < m ==> !IsSpace(t[k]) && !IsSpace(t[m - 1])
    ensures i == k && j == m
  {
  }

  // ---------- An object at the end ----------

  /** A text before which there is none, or one that neither starts with a brace nor leaves a fence open. */
  predicate Leads(prose: string) {
    Trim(prose) == "" || (Trim(prose)[0] != '{' && !FenceOpen(Trim(prose)))
  }

  /** The reply is taken as this outcome and no other. */
  ghost predicate Accepted(text: string, decode: string -> Engine.Result<Engine.Outcome>) {
    exists c :: CutOf(Trim(text), c) && c.Cut? && Acceptable(decode(c.raw))
  }

  lemma CutDecides(text: string, c: Cut, decode: string -> Engine.Result<Engine.Outcome>)
    requires CutOf(Trim(text), c) && c.Cut?
    ensures Accepted(text, decode) <==> Acceptable(decode(c.raw))
  {
    hide CutOf, Trim, Acceptable;
    forall d | CutOf(Trim(text), d) ensures d == c { OneCut(Trim(text), c, d); }
  }

  /** What trimming leaves of a reply that ends with an object and space. */
  lemma ReplyTrimmed(prose: string, o: string, tail: string) returns (gap: string)
    requires Trimmed(o) && o != "" && AllSpace(tail)
    ensures AllSpace(gap) && (Trim(prose) == "" ==> gap == "")
    ensures Trim(prose + o + tail) == Trim(prose) + gap + o
  {
    hide Trim;
    var lead, space := TrimParts(prose);
    var core := Trim(prose);
    var text := prose + o + tail;
    if core == "" {
      gap := "";
      TrimPadded(prose, o, tail);
      assert core + gap + o == o;
    } else {
      gap := space;
      var s := core + gap + o;
      assert s[0] == core[0] && s[|s| - 1] == o[|o| - 1];
      TrimPadded(lead, s, tail);
      assert text == lead + s + tail;
    }
  }

  lemma NoFenceAtEnd(text: string)
    requires text != "" && text[|text| - 1] != '`'
    ensures !AnyFenced(text)
  {
    hide FenceLabel, FenceOpen, Trim, FenceAt;
    if |text| >= 4 { LastOfTail(text, |text| - 4); }
    assert forall start, k, c :: !Fenced(text, start, k, c);
  }

  lemma LastOfTail(s: string, j: nat)
    requires j < |s|
    ensures s[j..][|s| - 1 - j] == s[|s| - 1]
  {
  }

  lemma ObjectFound(before: string, o: string)
    requires o != "" && o[0] == '{' && Trimmed(o) && SoleObject(o)
    ensures ObjectFrom(before + o, |before|)
    ensures (before + o)[|before|..] == o && (before + o)[..|before|] == before
  {
    hide SoleObject, Trim;
    TrimFixed(o);
    assert (before + o)[|before|..] == o;
  }

  lemma TrimRight(core: string, gap: string)
    requires Trimmed(core) && core != "" && AllSpace(gap)
    ensures Trim(core + gap) == core
  {
    TrimPadded("", core, gap);
    assert "" + core + gap == core + gap;
  }

  /** An object alone, or one behind a report that leaves no fence open, is cut off there; in
      every other case the reply is taken whole, and is no JSON value. */
  lemma ObjectCut(prose: string, v: JsonText.Value, tail: string)
    requires WrittenObject(v) && AllSpace(tail)
    ensures var t := Trim(prose + JsonText.Print(v) + tail);
            if Leads(prose) then CutOf(t, Cut(Trim(prose), JsonText.Print(v)))
            else CutOf(t, Cut("", t)) && !Json.IsElement(t)
  {
    hide Trim, WrittenObject, SoleObject, FenceOpen, Json.IsElement, CutOf, JsonText.Print, Json.IsObject;
    var o := JsonText.Print(v);
    ObjectEnds(v);
    TrimIsTrimmed(prose);
    var core := Trim(prose);
    var gap := ReplyTrimmed(prose, o, tail);
    var t := core + gap + o;
    if core == "" {
      assert t == o;
      BraceCut(t);
    } else if core[0] == '{' {
      BraceCut(t);
      NotAnElement(core + gap, o);
    } else {
      TrimRight(core, gap);
      TailCut(core + gap, o);
      if FenceOpen(core) { NotAnElement(core + gap, o); }
    }
  }

  lemma BraceCut(t: string)
    requires t != "" && t[0] == '{'
    ensures CutOf(t, Cut("", t))
  {
  }

  lemma TailCut(before: string, o: string)
    requires before != "" && before[0] != '{' && o != "" && o[0] == '{' && o[|o| - 1] == '}' && Trimmed(o) && SoleObject(o)
    ensures var t := before + o;
            CutOf(t, if FenceOpen(Trim(before)) then Cut("", t) else Cut(Trim(before), o))
  {
    hide Trim, SoleObject, FenceOpen, ObjectFrom, Fenced, AnyFenced;
    var t := before + o;
    ObjectFound(before, o);
    NoFenceAtEnd(t);
    if FenceOpen(Trim(before)) {
      forall i | Terminal(t, i) ensures false { OneTerminalObject(t, i, |before|); }
    } else {
      assert Terminal(t, |before|);
    }
  }

  /** Text before an object, with the object, is no JSON value. */
  lemma NotAnElement(before: string, o: string)
    requires before != "" && !IsSpace(before[0]) && o != "" && o[|o| - 1] == '}' && Json.IsObject(o)
    ensures !Json.IsElement(before + o)
  {
    hide Json.IsObject, Json.IsValue, IsSpace;
    var t := before + o;
    if Json.IsValue(t) {
      ClosedValue(t);
      assert t[|before|..] == o;
      Json.NoSuffixObject(t, |before|);
    }
    NotWs(before[0]);
    forall i, j | 0 <= i <= j <= |t| && Json.Ws(t[..i]) && Json.Ws(t[j..]) ensures t[i..j] == t { Unpadded(t, i, j); }
  }

  lemma NotWs(c: char)
    requires !IsSpace(c)
    ensures !Json.IsWs(c)
  {
  }

  lemma Unpadded(t: string, i: nat, j: nat)
    requires t != "" && !Json.IsWs(t[0]) && !Json.IsWs(t[|t| - 1])
    requires i <= j <= |t| && Json.Ws(t[..i]) && Json.Ws(t[j..])
    ensures t[i..j] == t
  {
    if i > 0 { HeadWs(t, i); }
    if j < |t| { TailWs(t, j); }
  }

  lemma HeadWs(t: string, i: nat)
    requires 0 < i <= |t| && Json.Ws(t[..i])
    ensures Json.IsWs(t[0])
  {
    assert t[..i][0] == t[0];
  }

  lemma TailWs(t: string, j: nat)
    requires j < |t| && Json.Ws(t[j..])
    ensures Json.IsWs(t[|t| - 1])
  {
    LastOfTail(t, j);
  }

  /** A value that ends with a brace is an object. */
  lemma ClosedValue(s: string)
    requires Json.IsValue(s) && s != "" && s[|s| - 1] == '}'
    ensures Json.IsObject(s)
  {
    hide Json.IsObject, Json.IsNumber, Json.Characters, Json.IsMembers, Json.IsElements;
    assert !Json.IsPlain(s[|s| - 1]);
    if Json.IsNumber(s) { Json.NumberPlain(s); }
  }

  /** A reply that ends with a JSON object is accepted exactly when the report before it leads
      up to it and the object holds an acceptable outcome. */
  lemma ObjectReply(prose: string, v: JsonText.Value, tail: string, decode: string -> Engine.Result<Engine.Outcome>)
    requires WrittenObject(v) && AllSpace(tail) && Decodes(decode)
    ensures Accepted(prose + JsonText.Print(v) + tail, decode) <==> Leads(prose) && Acceptable(decode(JsonText.Print(v)))
  {
    hide Trim, WrittenObject, CutOf, Acceptable, Json.IsElement, Accepted, Leads, JsonText.Print;
    var text := prose + JsonText.Print(v) + tail;
    var t := Trim(text);
    ObjectCut(prose, v, tail);
    if Leads(prose) {
      CutDecides(text, Cut(Trim(prose), JsonText.Print(v)), decode);
    } else {
      CutDecides(text, Cut("", t), decode);
      NotAcceptable(t, decode);
    }
  }

  lemma NotAcceptable(s: string, decode: string -> Engine.Result<Engine.Outcome>)
    requires Decodes(decode) && !Json.IsElement(s)
    ensures !Acceptable(decode(s))
  {
    hide Json.IsElement;
  }

  // ---------- An object in a fence ----------

  /** No line starts with a backtick. */
  predicate Calm(s: string) {
    forall i :: 0 <= i < |s| && s[i] == '`' ==> i > 0 && s[i - 1] != '\n'
  }

  lemma CalmConcat(a: string, b: string)
    requires Calm(a) && Calm(b)
    ensures Calm(a + b)
  {
    forall i | 0 <= i < |a + b| && (a + b)[i] == '`' ensures i > 0 && (a + b)[i - 1] != '\n' {
      if i < |a| { assert a[i] == '`'; } else { assert b[i - |a|] == '`'; }
    }
  }

  lemma CalmThree(a: string, b: string, c: string)
    requires Calm(a) && Calm(b) && Calm(c)
    ensures Calm(a + b + c)
  {
    hide Calm;
    CalmConcat(a, b);
    CalmConcat(a + b, c);
  }

  lemma NoTicks(s: string)
    requires '`' !in s
    ensures Calm(s)
  {
  }

  lemma SpaceCalm(s: string)
    requires JsonText.Only(s, JsonText.SPACES) || AllSpace(s)
    ensures Calm(s)
  {
  }

  lemma {:induction false} UnitsOneLine(us: seq<JsonText.Unit>)
    requires JsonText.ProperUnits(us)
    ensures '\n' !in JsonText.PrintUnits(us)
  {
    hide JsonText.ProperUnit, JsonText.PrintUnit;
    if us != [] {
      UnitsOneLine(us[1..]);
      UnitOneLine(us[0]);
    }
  }

  lemma UnitOneLine(u: JsonText.Unit)
    requires JsonText.ProperUnit(u)
    ensures '\n' !in JsonText.PrintUnit(u)
  {
  }

  lemma TextCalm(us: seq<JsonText.Unit>)
    requires JsonText.ProperUnits(us)
    ensures Calm(JsonText.PrintText(us))
  {
    UnitsOneLine(us);
  }

  lemma DigitsNoTick(s: string)
    requires JsonText.Only(s, JsonText.DIGITS)
    ensures '`' !in s
  {
  }

  lemma NumberNoTick(v: JsonText.Value)
    requires v.Number? && JsonText.Proper(v)
    ensures '`' !in JsonText.Print(v)
  {
    hide JsonText.Only;
    DigitsNoTick(v.whole);
    if v.point { DigitsNoTick(v.fraction); }
    if v.exponent.Exponent? { DigitsNoTick(v.exponent.digits); }
  }

  lemma {:induction false} ValueCalm(v: JsonText.Value)
    requires JsonText.Proper(v)
    ensures Calm(JsonText.Print(v))
  {
    hide Calm, JsonText.Only, JsonText.ProperUnits, JsonText.PrintText;
    NoTicks("{"); NoTicks("}"); NoTicks("["); NoTicks("]");
    match v
    case EmptyObject(gap) => SpaceCalm(gap); CalmThree("{", gap, "}");
    case Object(ms) => MembersCalm(ms); CalmThree("{", JsonText.PrintMembers(ms), "}");
    case EmptyArray(gap) => SpaceCalm(gap); CalmThree("[", gap, "]");
    case Array(es) => ElementsCalm(es); CalmThree("[", JsonText.PrintElements(es), "]");
    case Text(us) => TextCalm(us);
    case Number(_, _, _, _, _) => NumberNoTick(v); NoTicks(JsonText.Print(v));
    case Literal(name) => NoTicks(name);
  }

  lemma {:induction false} ElementCalm(e: JsonText.Element)
    requires JsonText.ProperElement(e)
    ensures Calm(JsonText.PrintElement(e))
  {
    hide Calm, JsonText.Only, JsonText.Print;
    SpaceCalm(e.before);
    SpaceCalm(e.after);
    ValueCalm(e.value);
    CalmThree(e.before, JsonText.Print(e.value), e.after);
  }

  lemma {:induction false} ElementsCalm(es: JsonText.Elements)
    requires JsonText.ProperElements(es)
    ensures Calm(JsonText.PrintElements(es))
  {
    hide Calm, JsonText.PrintElement, JsonText.ProperElement;
    ElementCalm(es.element);
    if es.MoreElements? {
      ElementsCalm(es.rest);
      NoTicks(",");
      CalmThree(JsonText.PrintElement(es.element), ",", JsonText.PrintElements(es.rest));
    }
  }

  lemma {:induction false} MemberCalm(m: JsonText.Member)
    requires JsonText.ProperMember(m)
    ensures Calm(JsonText.PrintMember(m))
  {
    hide Calm, JsonText.PrintElement, JsonText.ProperElement, JsonText.Only, JsonText.PrintText, JsonText.ProperUnits;
    SpaceCalm(m.before);
    SpaceCalm(m.after);
    TextCalm(m.key);
    ElementCalm(m.element);
    CalmThree(m.before, JsonText.PrintText(m.key), m.after);
    NoTicks(":");
    CalmThree(m.before + JsonText.PrintText(m.key) + m.after, ":", JsonText.PrintElement(m.element));
  }

  lemma {:induction false} MembersCalm(ms: JsonText.Members)
    requires JsonText.ProperMembers(ms)
    ensures Calm(JsonText.PrintMembers(ms))
  {
    hide Calm, JsonText.PrintMember, JsonText.ProperMember;
    MemberCalm(ms.member);
    if ms.MoreMembers? {
      MembersCalm(ms.rest);
      NoTicks(",");
      CalmThree(JsonText.PrintMember(ms.member), ",", JsonText.PrintMembers(ms.rest));
    }
  }

  /** Lines with one character more in front, and with one more behind. */
  function InFront(d: char, l: seq<string>): seq<string>
    requires l != []
  {
    if d == '\n' then [""] + l else [[d] + l[0]] + l[1..]
  }

  function Behind(l: seq<string>, c: char): seq<string>
    requires l != []
  {
    if c == '\n' then l + [""] else l[..|l| - 1] + [l[|l| - 1] + [c]]
  }

  lemma BothEnds(d: char, l: seq<string>, c: char)
    requires l != []
    ensures Behind(InFront(d, l), c) == InFront(d, Behind(l, c))
  {
    if |l| == 1 && d != '\n' && c != '\n' {
      assert [d] + l[0] + [c] == [d] + (l[0] + [c]);
      assert Behind(InFront(d, l), c) == [[d] + l[0] + [c]];
    }
  }

  lemma {:induction false} LinesEnd(s: string, c: char)
    ensures Lines(s + [c]) == Behind(Lines(s), c)
  {
    if s == "" {
      assert s + [c] == [c] && [c][1..] == "";
      assert [c] + "" == [c];
    } else {
      hide InFront, Behind;
      LinesEnd(s[1..], c);
      assert (s + [c])[1..] == s[1..] + [c];
      LinesFront(s);
      LinesFront(s + [c]);
      BothEnds(s[0], Lines(s[1..]), c);
    }
  }

  lemma LinesFront(s: string)
    requires s != ""
    ensures Lines(s) == InFront(s[0], Lines(s[1..]))
  {
  }

  lemma SpaceTrimmedBehind(s: string, c: char)
    requires IsSpace(c)
    ensures Trim(s + [c]) == Trim(s)
  {
    hide Trim, IsSpace;
    var before, after := TrimParts(s);
    var core := Trim(s);
    if core == "" {
      assert AllSpace(s + [c]);
      BlankTrimsAway(s + [c]);
    } else {
      TrimPadded(before, core, after + [c]);
      assert s + [c] == before + core + (after + [c]);
    }
  }

  lemma OneSpaceBehind(s: string, c: char)
    requires IsSpace(c)
    ensures FenceOpen(s + [c]) <==> FenceOpen(s)
  {
    hide Trim, IsSpace, Opener, Lines;
    var l := Lines(s);
    LinesEnd(s, c);
    TrimFixed("");
    NoOpener();
    if c == '\n' {
      FenceConcat(l, [""], "");
      assert [""][1..] == [];
    } else {
      var front, last := l[..|l| - 1], l[|l| - 1];
      assert l == front + [last] && [last][1..] == [] && [last + [c]][1..] == [];
      SpaceTrimmedBehind(last, c);
      FenceConcat(front, [last], "");
      FenceConcat(front, [last + [c]], "");
    }
  }

  /** Space behind a report changes no fence of it. */
  lemma {:induction false} TrailingSpace(s: string, gap: string)
    requires AllSpace(gap)
    ensures FenceOpen(s + gap) <==> FenceOpen(s)
  {
    hide FenceOpen;
    if gap == "" {
      assert s + gap == s;
    } else {
      var n := |gap| - 1;
      TrailingSpace(s, gap[..n]);
      OneSpaceBehind(s + gap[..n], gap[n]);
      assert s + gap == s + gap[..n] + [gap[n]];
    }
  }

  lemma NoOpener()
    ensures Opener("") == ""
  {
  }

  /** The text of a fenced block with an object in it. */
  function Block(opening: string, body: string): string {
    opening + "\n" + body + "\n```"
  }

  /** The opening line of a block: a line that starts with the marker. */
  predicate OpeningLine(opening: string) {
    |opening| >= 3 && opening[..3] == "```" && '\n' !in opening
  }

  /** It is labelled as JSON, or not at all: behind the marker, named or not, there is only space. */
  predicate Label(opening: string) {
    exists k :: 3 <= k <= |opening| && opening[..k] in ["```", "```json"] && AllSpace(opening[k..])
  }

  lemma LabelExactly(opening: string)
    requires OpeningLine(opening)
    ensures Label(opening) <==> FenceLabel(opening)
  {
    hide Trim, IsSpace;
    if Label(opening) {
      var k :| 3 <= k <= |opening| && opening[..k] in ["```", "```json"] && AllSpace(opening[k..]);
      assert opening == opening[..k] + opening[k..];
      TickIsText();
      TrimRight(opening[..k], opening[k..]);
    }
    if FenceLabel(opening) {
      var before, after := TrimParts(opening);
      var mark := Trim(opening);
      assert opening[0] == opening[..3][0] == '`';
      TickIsText();
      assert before == "";
      assert opening[..|mark|] == mark && opening[|mark|..] == after;
    }
  }

  lemma TickIsText()
    ensures !IsSpace('`') && Trimmed("```") && Trimmed("```json")
  {
  }

  /** What stands before a block: nothing, or whole lines. */
  predicate WholeLines(head: string) {
    head == "" || head[|head| - 1] == '\n'
  }

  lemma BlockPieces(head: string, opening: string, body: string)
    ensures var t := head + Block(opening, body); var start, end := |head|, |head + opening + "\n" + body|;
            && |t| == end + 4 && t[..start] == head && t[start..start + |opening|] == opening
            && t[start + |opening|] == '\n' && t[start + |opening| + 1..end] == body && t[end..] == "\n```"
  {
    var t := head + Block(opening, body);
    var end := |head + opening + "\n" + body|;
    assert t == head + opening + "\n" + body + "\n```";
    assert t[..end] == head + opening + "\n" + body;
  }

  lemma NoTickAfterBreak(head: string, opening: string, body: string, i: nat)
    requires '\n' !in opening && Calm(body)
    requires |head| <= i && i + 1 < |head + opening + "\n" + body|
    ensures var t := head + Block(opening, body); t[i] == '\n' ==> t[i + 1] != '`'
  {
    hide Calm;
    BlockPieces(head, opening, body);
    var t := head + Block(opening, body);
    var start := |head|;
    if i < start + |opening| {
      assert t[i] == t[start..start + |opening|][i - start] && t[i] in opening;
    } else {
      var j := i - start - |opening|;
      assert t[i + 1] == body[j];
      assert j > 0 ==> t[i] == body[j - 1];
      CalmAt(body, j);
    }
  }

  lemma CalmAt(s: string, i: nat)
    requires Calm(s) && i < |s|
    ensures s[i] == '`' ==> i > 0 && s[i - 1] != '\n'
  {
  }

  lemma FenceIs(text: string, i: int)
    requires FenceAt(text, i)
    ensures 0 <= i && i + 4 <= |text| && text[i] == '\n' && text[i + 1] == '`'
  {
    assert text[i] == text[i..i + 4][0] && text[i + 1] == text[i..i + 4][1];
  }

  lemma BlockOpens(head: string, opening: string, body: string)
    requires OpeningLine(opening) && WholeLines(head) && Calm(body) && body != ""
    ensures OpensAt(head + Block(opening, body), |head|)
  {
    hide Calm;
    BlockPieces(head, opening, body);
    var t := head + Block(opening, body);
    var start := |head|;
    assert t[start..start + 3] == t[start..start + |opening|][..3];
    if start > 0 {
      assert t[start - 1] == t[..start][start - 1] == '\n';
      assert t[start - 1..start + 3] == [t[start - 1]] + t[start..start + 3];
    }
    forall i | start <= i && i + 8 <= |t| ensures !FenceAt(t, i) {
      NoTickAfterBreak(head, opening, body, i);
      if FenceAt(t, i) { FenceIs(t, i); }
    }
  }

  lemma BlockCut(head: string, opening: string, body: string, o: string)
    requires head == "" || (!IsSpace(head[0]) && head[0] != '{')
    requires OpeningLine(opening) && WholeLines(head) && Calm(body) && body != "" && Trim(body) == o != ""
    ensures var t := head + Block(opening, body);
            CutOf(t, if FenceOpen(head) || !Label(opening) then Cut("", t) else Cut(Trim(head), o))
  {
    hide Trim, Label, Calm, FenceOpen, WholeLines, Fenced, AnyTerminal, Block;
    var t := head + Block(opening, body);
    FirstOfBlock(head, opening, body);
    if FenceOpen(head) || !Label(opening) {
      BlockNotTaken(head, opening, body);
      LastOfBlock(head, opening, body);
      NoObjectBeforeTick(t);
    } else {
      BlockTaken(head, opening, body);
    }
  }

  lemma BlockTaken(head: string, opening: string, body: string)
    requires OpeningLine(opening) && WholeLines(head) && Calm(body) && body != "" && Trim(body) != ""
    requires Label(opening) && !FenceOpen(head)
    ensures Fenced(head + Block(opening, body), |head|, |opening|, Cut(Trim(head), Trim(body)))
  {
    hide Trim, Label, Calm, FenceOpen, WholeLines, FenceLabel, OpensAt, Block;
    LabelExactly(opening);
    BlockPieces(head, opening, body);
    BlockOpens(head, opening, body);
  }

  lemma BlockNotTaken(head: string, opening: string, body: string)
    requires OpeningLine(opening) && WholeLines(head) && Calm(body) && body != ""
    requires FenceOpen(head) || !Label(opening)
    ensures !AnyFenced(head + Block(opening, body))
  {
    hide Trim, Label, Calm, FenceOpen, WholeLines, FenceLabel, OpensAt, Block;
    var t := head + Block(opening, body);
    LabelExactly(opening);
    BlockPieces(head, opening, body);
    BlockOpens(head, opening, body);
    forall start, k, c | Fenced(t, start, k, c) ensures start == |head| && k == |opening| {
      OneOpening(t, start, |head|);
      SameBreak(t, start, k, |opening|);
    }
  }

  lemma SameBreak(t: string, start: nat, j: nat, k: nat)
    requires start + j < |t| && start + k < |t| && t[start + j] == t[start + k] == '\n'
    requires '\n' !in t[start..start + j] && '\n' !in t[start..start + k]
    ensures j == k
  {
    var s := t[start..];
    assert s[..j] == t[start..start + j] && s[..k] == t[start..start + k];
    OneFirst(s, j, k);
  }

  lemma FirstOfBlock(head: string, opening: string, body: string)
    requires |opening| >= 3 && opening[..3] == "```" && (head == "" || head[0] != '{')
    ensures var t := head + Block(opening, body); t != "" && t[0] != '{'
  {
    assert opening[0] == opening[..3][0];
  }

  lemma LastOfBlock(head: string, opening: string, body: string)
    ensures var t := head + Block(opening, body); t != "" && t[|t| - 1] == '`'
  {
  }

  /** No object ends a text that ends with a backtick. */
  lemma NoObjectBeforeTick(t: string)
    requires t != "" && t[|t| - 1] == '`'
    ensures !AnyTerminal(t)
  {
    hide Trim, SoleObject, FenceOpen, Json.IsObject;
    forall i | 0 <= i < |t| && t[i] == '{' ensures !SoleObject(Trim(t[i..])) {
      LastOfTail(t, i);
      TrimFixed(t[i..]);
      SoleIsObject(t[i..]);
      ObjectLast(t[i..]);
    }
  }

  lemma ObjectLast(s: string)
    ensures Json.IsObject(s) ==> s != "" && s[|s| - 1] == '}'
  {
  }

  lemma TickNotElement(t: string)
    requires t != "" && !IsSpace(t[0]) && t[|t| - 1] == '`'
    ensures !Json.IsElement(t)
  {
    hide Json.IsValue, IsSpace;
    NotWs(t[0]);
    forall i, j | 0 <= i <= j <= |t| && Json.Ws(t[..i]) && Json.Ws(t[j..]) ensures t[i..j] == t { Unpadded(t, i, j); }
    ValueNoTick(t);
  }

  lemma ValueNoTick(s: string)
    requires s != "" && s[|s| - 1] == '`'
    ensures !Json.IsValue(s)
  {
    hide Json.IsMembers, Json.IsElements, Json.IsNumber, Json.Characters;
    if Json.IsNumber(s) {
      var v := JsonText.NumberRead(s);
      NumberNoTick(v);
    }
  }

  lemma BodyOfBlock(pad: string, v: JsonText.Value, space: string)
    requires WrittenObject(v) && AllSpace(pad) && AllSpace(space)
    ensures var o := JsonText.Print(v); var body := pad + o + space;
            Calm(body) && body != "" && Trim(body) == o != ""
  {
    hide Calm, Trim, Trimmed, SoleObject, Json.IsObject, AllSpace, JsonText.Proper, JsonText.Print;
    var o := JsonText.Print(v);
    ObjectEnds(v);
    TrimPadded(pad, o, space);
    SpaceCalm(pad);
    SpaceCalm(space);
    ValueCalm(v);
    CalmThree(pad, o, space);
  }

  /** What trimming leaves of a reply that ends with a block: the head without the space before it. */
  lemma BlockTrimmed(head: string, block: string, tail: string) returns (h: string)
    requires block != "" && Trimmed(block) && WholeLines(head) && AllSpace(tail)
    ensures Trim(head + block + tail) == h + block
    ensures WholeLines(h) && Trim(h) == Trim(head)
    ensures if Trim(head) == "" then h == "" else h != "" && h[0] == Trim(head)[0] && !IsSpace(h[0])
    ensures h != "" ==> (FenceOpen(h) <==> FenceOpen(Trim(head)))
  {
    hide Trim, FenceOpen;
    var lead, gap := TrimParts(head);
    var core := Trim(head);
    if core == "" {
      h := "";
      TrimPadded(head, block, tail);
      assert h + block == block;
      TrimFixed("");
    } else {
      h := core + gap;
      TrimPadded(lead, h + block, tail);
      assert head + block + tail == lead + (h + block) + tail;
      assert h[|h| - 1] == head[|head| - 1];
      TrimRight(core, gap);
      TrailingSpace(core, gap);
    }
  }

  lemma BlockTrims(opening: string, body: string)
    requires OpeningLine(opening)
    ensures Block(opening, body) != "" && Trimmed(Block(opening, body))
  {
    assert opening[0] == opening[..3][0];
  }

  /** An object in a fence is cut out of it if the fence is labelled as JSON, or not at all, and
      the report before it leads up to it; otherwise the reply is taken whole, and is no JSON value. */
  lemma FencedCut(head: string, opening: string, pad: string, v: JsonText.Value, space: string, tail: string)
    requires WrittenObject(v) && OpeningLine(opening) && WholeLines(head) && AllSpace(pad) && AllSpace(space) && AllSpace(tail)
    ensures var o := JsonText.Print(v);
            var t := Trim(head + Block(opening, pad + o + space) + tail);
            if Leads(head) && Label(opening) then CutOf(t, Cut(Trim(head), o)) else CutOf(t, Cut("", t)) && !Json.IsElement(t)
  {
    hide WrittenObject, OpeningLine, Label, WholeLines, Calm, Trim, Trimmed, IsSpace, FenceOpen, CutOf, Json.IsElement,
         JsonText.Print, Block, AllSpace;
    var o := JsonText.Print(v);
    var body := pad + o + space;
    BodyOfBlock(pad, v, space);
    BlockTrims(opening, body);
    var block := Block(opening, body);
    var h := BlockTrimmed(head, block, tail);
    LastOfBlock(h, opening, body);
    NothingOpen();
    if h != "" && h[0] == '{' {
      BraceCut(h + block);
      TickNotElement(h + block);
    } else {
      BlockCut(h, opening, body, o);
      if FenceOpen(h) || !Label(opening) {
        BlockStarts(opening, body);
        TickNotElement(h + block);
      }
    }
  }

  lemma BlockStarts(opening: string, body: string)
    requires OpeningLine(opening)
    ensures Block(opening, body) != "" && !IsSpace(Block(opening, body)[0])
  {
    assert opening[0] == opening[..3][0];
  }

  lemma NothingOpen()
    ensures !FenceOpen("")
  {
    TrimFixed("");
    assert Lines("")[1..] == [];
  }

  /** A reply that ends with a JSON object in a fence is accepted exactly when the report before
      the fence leads up to it, the fence has no other label, and the object holds an acceptable
      outcome. */
  lemma FencedReply(head: string, opening: string, pad: string, v: JsonText.Value, space: string, tail: string,
                    decode: string -> Engine.Result<Engine.Outcome>)
    requires WrittenObject(v) && OpeningLine(opening) && WholeLines(head) && AllSpace(pad) && AllSpace(space) && AllSpace(tail)
    requires Decodes(decode)
    ensures Accepted(head + Block(opening, pad + JsonText.Print(v) + space) + tail, decode)
            <==> Leads(head) && Label(opening) && Acceptable(decode(JsonText.Print(v)))
  {
    hide WrittenObject, OpeningLine, Label, WholeLines, Trim, CutOf, Acceptable, Json.IsElement, Accepted, Leads, JsonText.Print, Block;
    var text := head + Block(opening, pad + JsonText.Print(v) + space) + tail;
    FencedCut(head, opening, pad, v, space, tail);
    if Leads(head) && Label(opening) {
      CutDecides(text, Cut(Trim(head), JsonText.Print(v)), decode);
    } else {
      CutDecides(text, Cut("", Trim(text)), decode);
      NotAcceptable(Trim(text), decode);
    }
  }
}
