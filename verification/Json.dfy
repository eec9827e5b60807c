/** The JSON grammar (RFC 8259, sections 2 to 7) over characters, and the theorem that no
    proper suffix of a complete object is itself a complete object. */
module Json {

  // ---------- The grammar ----------

  predicate IsWs(c: char) {
    c == ' ' || c == '\t' || c == '\n' || c == '\r'
  }

  predicate Ws(s: string) {
    forall i :: 0 <= i < |s| ==> IsWs(s[i])
  }

  predicate IsDigit(c: char) {
    '0' <= c <= '9'
  }

  predicate IsHex(c: char) {
    IsDigit(c) || 'a' <= c <= 'f' || 'A' <= c <= 'F'
  }

  predicate Digits(s: string) {
    |s| > 0 && forall i :: 0 <= i < |s| ==> IsDigit(s[i])
  }

  predicate IntPart(s: string) {
    s == "0" || (Digits(s) && s[0] != '0')
  }

  predicate Fraction(s: string) {
    s == "" || (s[0] == '.' && Digits(s[1..]))
  }

  predicate Exponent(s: string) {
    s == "" || ((s[0] == 'e' || s[0] == 'E') &&
                (Digits(s[1..]) || (|s| > 1 && (s[1] == '+' || s[1] == '-') && Digits(s[2..]))))
  }

  predicate Magnitude(s: string) {
    exists i, j :: 0 <= i <= j <= |s| && IntPart(s[..i]) && Fraction(s[i..j]) && Exponent(s[j..])
  }

  predicate IsNumber(s: string) {
    Magnitude(s) || (s != "" && s[0] == '-' && Magnitude(s[1..]))
  }

  predicate IsEscape(c: char) {
    c == '"' || c == '\\' || c == '/' || c == 'b' || c == 'f' || c == 'n' || c == 'r' || c == 't'
  }

  /** The inside of a string: plain characters and complete escapes. */
  predicate Characters(s: string) {
    if s == "" then true
    else if s[0] == '\\' then
      |s| > 1 && ((IsEscape(s[1]) && Characters(s[2..])) ||
                  (s[1] == 'u' && |s| >= 6 && (forall i :: 2 <= i < 6 ==> IsHex(s[i])) && Characters(s[6..])))
    else s[0] != '"' && s[0] >= ' ' && Characters(s[1..])
  }

  predicate IsString(s: string) {
    |s| >= 2 && s[0] == '"' && s[|s| - 1] == '"' && Characters(s[1..|s| - 1])
  }

  predicate IsValue(s: string)
    decreases |s|, 2
  {
    IsObject(s) || IsArray(s) || IsString(s) || IsNumber(s) || s == "true" || s == "false" || s == "null"
  }

  predicate IsObject(s: string)
    decreases |s|, 1
  {
    |s| >= 2 && s[0] == '{' && s[|s| - 1] == '}' && (Ws(s[1..|s| - 1]) || IsMembers(s[1..|s| - 1]))
  }

  predicate IsArray(s: string)
    decreases |s|, 1
  {
    |s| >= 2 && s[0] == '[' && s[|s| - 1] == ']' && (Ws(s[1..|s| - 1]) || IsElements(s[1..|s| - 1]))
  }

  /** A value with white space around it. */
  predicate IsElement(s: string)
    decreases |s|, 3
  {
    exists i, j :: 0 <= i <= j <= |s| && Ws(s[..i]) && Ws(s[j..]) && IsValue(s[i..j])
  }

  predicate IsKey(s: string) {
    exists i, j :: 0 <= i <= j <= |s| && Ws(s[..i]) && Ws(s[j..]) && IsString(s[i..j])
  }

  predicate IsMember(s: string)
    decreases |s|, 3
  {
    exists k :: 0 <= k < |s| && s[k] == ':' && IsKey(s[..k]) && IsElement(s[k + 1..])
  }

  predicate IsMembers(s: string)
    decreases |s|, 4
  {
    IsMember(s) || exists k :: 0 <= k < |s| && s[k] == ',' && IsMember(s[..k]) && IsMembers(s[k + 1..])
  }

  predicate IsElements(s: string)
    decreases |s|, 4
  {
    IsElement(s) || exists k :: 0 <= k < |s| && s[k] == ',' && IsElement(s[..k]) && IsElements(s[k + 1..])
  }

  // ---------- Reading a text character by character ----------

  /** Outside a string at a bracket depth, inside one, or just after a backslash in one. */
  datatype State = Bad | Out(depth: int) | In(depth: int) | Esc(depth: int)

  function Step(q: State, c: char): State {
    match q
    case Bad => Bad
    case Out(d) =>
      if c == '"' then In(d) else if c == '\\' then Bad
      else if c == '{' || c == '[' then Out(d + 1)
      else if c == '}' || c == ']' then Out(d - 1)
      else q
    case In(d) => if c == '"' then Out(d) else if c == '\\' then Esc(d) else q
    case Esc(d) => if c == '{' then Bad else In(d)
  }

  function Run(s: string, q: State): State {
    if s == "" then q else Run(s[1..], Step(q, s[0]))
  }

  lemma {:induction false} RunConcat(a: string, b: string, q: State)
    ensures Run(a + b, q) == Run(b, Run(a, q))
  {
    if a == "" {
      assert a + b == b;
    } else {
      assert (a + b)[1..] == a[1..] + b;
      RunConcat(a[1..], b, Step(q, a[0]));
    }
  }

  predicate AtLeast(q: State, d: int) {
    !q.Bad? && q.depth >= d
  }

  /** Reading `s` outside a string returns to the same depth and never goes below it. */
  ghost predicate Flat(s: string) {
    forall d: int :: FlatAt(s, d)
  }

  ghost predicate FlatAt(s: string, d: int) {
    Run(s, Out(d)) == Out(d) && forall k :: 0 <= k <= |s| ==> AtLeast(Run(s[..k], Out(d)), d)
  }

  lemma FlatConcat(a: string, b: string)
    requires Flat(a) && Flat(b)
    ensures Flat(a + b)
  {
    forall d ensures FlatAt(a + b, d) {
      assert FlatAt(a, d) && FlatAt(b, d);
      RunConcat(a, b, Out(d));
      forall k | 0 <= k <= |a + b| ensures AtLeast(Run((a + b)[..k], Out(d)), d) {
        if k <= |a| {
          assert (a + b)[..k] == a[..k];
        } else {
          assert (a + b)[..k] == a + b[..k - |a|];
          RunConcat(a, b[..k - |a|], Out(d));
        }
      }
    }
  }

  predicate IsPlain(c: char) {
    c != '"' && c != '\\' && c != '{' && c != '[' && c != '}' && c != ']'
  }

  predicate Plain(s: string) {
    forall i :: 0 <= i < |s| ==> IsPlain(s[i])
  }

  lemma {:induction false} PlainRun(s: string, d: int)
    requires Plain(s)
    ensures Run(s, Out(d)) == Out(d)
  {
    if s != "" { PlainRun(s[1..], d); }
  }

  lemma PlainFlat(s: string)
    requires Plain(s)
    ensures Flat(s)
  {
    forall d ensures FlatAt(s, d) {
      PlainRun(s, d);
      forall k | 0 <= k <= |s| ensures AtLeast(Run(s[..k], Out(d)), d) { PlainRun(s[..k], d); }
    }
  }

  /** Inside a string the characters keep the reader in the string. */
  lemma {:induction false} CharactersRun(s: string, d: int, k: nat)
    requires Characters(s) && k <= |s|
    ensures Run(s, In(d)) == In(d) && (Run(s[..k], In(d)) == In(d) || Run(s[..k], In(d)) == Esc(d))
    decreases |s|
  {
    if s != "" {
      var w := if s[0] != '\\' then 1 else if IsEscape(s[1]) && Characters(s[2..]) then 2 else 6;
      UnitRun(s[..w], d, if k < w then k else w);
      assert s == s[..w] + s[w..];
      RunConcat(s[..w], s[w..], In(d));
      if k < w {
        assert s[..k] == s[..w][..k];
        CharactersRun(s[w..], d, 0);
      } else {
        CharactersRun(s[w..], d, k - w);
        assert s[..k] == s[..w] + s[w..][..k - w];
        RunConcat(s[..w], s[w..][..k - w], In(d));
      }
    }
  }

  lemma UnitRun(u: string, d: int, k: nat)
    requires k <= |u|
    requires (|u| == 1 && u[0] != '\\' && u[0] != '"') || (|u| == 2 && u[0] == '\\' && IsEscape(u[1])) ||
             (|u| == 6 && u[0] == '\\' && u[1] == 'u' && forall i :: 2 <= i < 6 ==> IsHex(u[i]))
    ensures Run(u, In(d)) == In(d) && (Run(u[..k], In(d)) == In(d) || Run(u[..k], In(d)) == Esc(d))
  {
    if |u| == 6 {
      var tail := u[2..];
      assert forall i :: 0 <= i < 4 ==> tail[i] == u[i + 2] && IsHex(tail[i]);
      HexRun(tail, d);
      assert u == u[..2] + tail;
      RunConcat(u[..2], tail, In(d));
      PairRun(u[..2], d);
      if k > 2 {
        assert u[..k] == u[..2] + tail[..k - 2];
        RunConcat(u[..2], tail[..k - 2], In(d));
        HexRun(tail[..k - 2], d);
      } else {
        assert k < 2 ==> u[..k] == u[..2][..k];
        if k == 1 { assert u[..1] == [u[0]]; }
      }
    } else if |u| == 2 {
      PairRun(u, d);
      assert k == 2 ==> u[..k] == u;
      assert k == 1 ==> u[..k] == [u[0]];
    } else {
      assert u[..k] == u || u[..k] == "";
      assert u[1..] == "";
    }
  }

  lemma PairRun(u: string, d: int)
    requires |u| == 2 && u[0] == '\\' && u[1] != '{'
    ensures Run(u, In(d)) == In(d) && Run([u[0]], In(d)) == Esc(d)
  {
    assert u[1..] == [u[1]] && u[1..][1..] == "";
    assert Run(u[1..], Esc(d)) == Run("", In(d));
  }

  lemma {:induction false} HexRun(s: string, d: int)
    requires forall i :: 0 <= i < |s| ==> IsHex(s[i])
    ensures Run(s, In(d)) == In(d)
  {
    if s != "" { HexRun(s[1..], d); }
  }

  lemma StringFlat(s: string)
    requires IsString(s)
    ensures Flat(s)
  {
    var inner := s[1..|s| - 1];
    forall d ensures FlatAt(s, d) {
      assert s == ['"'] + (inner + ['"']);
      RunConcat(['"'], inner + ['"'], Out(d));
      RunConcat(inner, ['"'], In(d));
      CharactersRun(inner, d, 0);
      assert Run(['"'], Out(d)) == In(d) && Run(['"'], In(d)) == Out(d) by {
        assert ['"'][1..] == "";
      }
      forall k | 0 <= k <= |s| ensures AtLeast(Run(s[..k], Out(d)), d) {
        if 0 < k < |s| {
          assert s[..k] == ['"'] + inner[..k - 1];
          RunConcat(['"'], inner[..k - 1], Out(d));
          CharactersRun(inner, d, k - 1);
        } else {
          assert s[..k] == s || s[..k] == "";
        }
      }
    }
  }

  ghost predicate Bracketed(s: string) {
    |s| >= 2 && (s[0] == '{' || s[0] == '[') && (s[|s| - 1] == '}' || s[|s| - 1] == ']') && Flat(s[1..|s| - 1])
  }

  lemma OpenBracket(c: char, s: string, d: int)
    requires c == '{' || c == '['
    ensures Run([c] + s, Out(d)) == Run(s, Out(d + 1))
  {
    assert ([c] + s)[1..] == s;
  }

  lemma CloseBracket(c: char, d: int)
    requires c == '}' || c == ']'
    ensures Run([c], Out(d)) == Out(d - 1)
  {
    assert [c][1..] == "";
  }

  /** Inside a bracketed text the reader is one level deeper, or in a string, until the last character. */
  lemma BracketRun(s: string, d: int)
    requires Bracketed(s)
    ensures Run(s, Out(d)) == Out(d)
    ensures forall k :: 0 < k < |s| ==> AtLeast(Run(s[..k], Out(d)), d + 1)
  {
    var inner, close := s[1..|s| - 1], [s[|s| - 1]];
    assert FlatAt(inner, d + 1);
    assert s == [s[0]] + (inner + close);
    OpenBracket(s[0], inner + close, d);
    RunConcat(inner, close, Out(d + 1));
    CloseBracket(close[0], d + 1);
    forall k | 0 < k < |s| ensures AtLeast(Run(s[..k], Out(d)), d + 1) {
      assert s[..k] == [s[0]] + inner[..k - 1];
      OpenBracket(s[0], inner[..k - 1], d);
    }
  }

  lemma BracketFlat(s: string)
    requires Bracketed(s)
    ensures Flat(s)
  {
    forall d ensures FlatAt(s, d) {
      BracketRun(s, d);
      assert s[..|s|] == s && s[..0] == "";
    }
  }

  lemma NumberPlain(s: string)
    requires IsNumber(s)
    ensures Plain(s)
  {
    var m := if Magnitude(s) then s else s[1..];
    MagnitudePlain(m);
    assert m == s || s == [s[0]] + m;
  }

  lemma MagnitudePlain(s: string)
    requires Magnitude(s)
    ensures Plain(s)
  {
    hide IntPart, Fraction, Exponent, IsPlain;
    var i, j :| 0 <= i <= j <= |s| && IntPart(s[..i]) && Fraction(s[i..j]) && Exponent(s[j..]);
    var a, b, c := s[..i], s[i..j], s[j..];
    IntPartPlain(a);
    FractionPlain(b);
    ExponentPlain(c);
    forall k | 0 <= k < |s| ensures IsPlain(s[k]) {
      if k < i { assert s[k] == a[k]; } else if k < j { assert s[k] == b[k - i]; } else { assert s[k] == c[k - j]; }
    }
  }

  lemma IntPartPlain(s: string)
    requires IntPart(s)
    ensures Plain(s)
  {
    assert s != "0" ==> forall k :: 0 <= k < |s| ==> IsDigit(s[k]);
  }

  lemma FractionPlain(s: string)
    requires Fraction(s)
    ensures Plain(s)
  {
    forall k | 0 <= k < |s| ensures IsPlain(s[k]) {
      if k > 0 { assert s[k] == s[1..][k - 1]; }
    }
  }

  lemma ExponentPlain(s: string)
    requires Exponent(s)
    ensures Plain(s)
  {
    forall k | 0 <= k < |s| ensures IsPlain(s[k]) {
      if k > 0 { assert s[k] == s[1..][k - 1]; }
      if k > 1 { assert s[k] == s[2..][k - 2]; }
    }
  }

  // ---------- Every part of a value is flat ----------

  lemma {:induction false} ValueFlat(s: string)
    requires IsValue(s)
    ensures Flat(s)
    decreases |s|, 2
  {
    if IsObject(s) || IsArray(s) {
      InsideFlat(s);
      BracketFlat(s);
    } else if IsString(s) {
      StringFlat(s);
    } else {
      if IsNumber(s) { NumberPlain(s); }
      PlainFlat(s);
    }
  }

  lemma {:induction false} InsideFlat(s: string)
    requires IsObject(s) || IsArray(s)
    ensures Flat(s[1..|s| - 1])
    decreases |s|, 1
  {
    var inner := s[1..|s| - 1];
    if Ws(inner) { PlainFlat(inner); }
    else if IsObject(s) { MembersFlat(inner); }
    else { ElementsFlat(inner); }
  }

  lemma PaddedFlat(s: string, i: nat, j: nat)
    requires i <= j <= |s| && Ws(s[..i]) && Ws(s[j..]) && Flat(s[i..j])
    ensures Flat(s)
  {
    PlainFlat(s[..i]);
    PlainFlat(s[j..]);
    FlatConcat(s[..i], s[i..j]);
    FlatConcat(s[..i] + s[i..j], s[j..]);
    assert s == s[..i] + s[i..j] + s[j..];
  }

  lemma {:induction false} ElementFlat(s: string)
    requires IsElement(s)
    ensures Flat(s)
    decreases |s|, 3
  {
    var i, j :| 0 <= i <= j <= |s| && Ws(s[..i]) && Ws(s[j..]) && IsValue(s[i..j]);
    ValueFlat(s[i..j]);
    PaddedFlat(s, i, j);
  }

  lemma SeparatedFlat(s: string, k: nat)
    requires k < |s| && IsPlain(s[k]) && Flat(s[..k]) && Flat(s[k + 1..])
    ensures Flat(s)
  {
    PlainFlat([s[k]]);
    FlatConcat(s[..k], [s[k]]);
    FlatConcat(s[..k] + [s[k]], s[k + 1..]);
    assert s == s[..k] + [s[k]] + s[k + 1..];
  }

  lemma {:induction false} MemberFlat(s: string)
    requires IsMember(s)
    ensures Flat(s)
    decreases |s|, 3
  {
    var k :| 0 <= k < |s| && s[k] == ':' && IsKey(s[..k]) && IsElement(s[k + 1..]);
    var key := s[..k];
    var i, j :| 0 <= i <= j <= |key| && Ws(key[..i]) && Ws(key[j..]) && IsString(key[i..j]);
    StringFlat(key[i..j]);
    PaddedFlat(key, i, j);
    ElementFlat(s[k + 1..]);
    SeparatedFlat(s, k);
  }

  lemma {:induction false} MembersFlat(s: string)
    requires IsMembers(s)
    ensures Flat(s)
    decreases |s|, 4
  {
    if IsMember(s) {
      MemberFlat(s);
    } else {
      var k :| 0 <= k < |s| && s[k] == ',' && IsMember(s[..k]) && IsMembers(s[k + 1..]);
      MemberFlat(s[..k]);
      MembersFlat(s[k + 1..]);
      SeparatedFlat(s, k);
    }
  }

  lemma {:induction false} ElementsFlat(s: string)
    requires IsElements(s)
    ensures Flat(s)
    decreases |s|, 4
  {
    if IsElement(s) {
      ElementFlat(s);
    } else {
      var k :| 0 <= k < |s| && s[k] == ',' && IsElement(s[..k]) && IsElements(s[k + 1..]);
      ElementFlat(s[..k]);
      ElementsFlat(s[k + 1..]);
      SeparatedFlat(s, k);
    }
  }

  // ---------- No object ends inside another ----------

  /** Read outside and inside a string at once, a text cannot end outside for both: the
      two readings swap at every quote, and a backslash spoils the one outside. */
  lemma {:induction false} Opposite(s: string, a: int, b: int)
    ensures !(Run(s, In(a)).Out? && Run(s, Out(b)).Out?)
  {
    if s != "" {
      var p, q := Step(In(a), s[0]), Step(Out(b), s[0]);
      if s[0] == '"' {
        Opposite(s[1..], b, a);
      } else if s[0] == '\\' {
        BadStays(s[1..]);
      } else {
        Opposite(s[1..], a, q.depth);
      }
    }
  }

  lemma {:induction false} BadStays(s: string)
    ensures Run(s, Bad) == Bad
  {
    if s != "" { BadStays(s[1..]); }
  }

  /** Starting deeper ends deeper by as much. */
  lemma {:induction false} Shifted(s: string, d: int)
    ensures Run(s, Out(0)).Out? ==> Run(s, Out(d)) == Out(Run(s, Out(0)).depth + d)
  {
    ShiftedFrom(s, Out(0), d);
  }

  function Shift(q: State, d: int): State {
    match q
    case Bad => Bad
    case Out(e) => Out(e + d)
    case In(e) => In(e + d)
    case Esc(e) => Esc(e + d)
  }

  lemma {:induction false} ShiftedFrom(s: string, q: State, d: int)
    ensures Run(s, Shift(q, d)) == Shift(Run(s, q), d)
  {
    if s != "" {
      assert Step(Shift(q, d), s[0]) == Shift(Step(q, s[0]), d);
      ShiftedFrom(s[1..], Step(q, s[0]), d);
    }
  }

  /** No proper suffix of a complete object is a complete object: from a brace outside any
      string the closing brackets are one too many, from a brace inside a string the
      quotes do not pair up. */
  lemma NoSuffixObject(s: string, p: nat)
    requires IsObject(s) && 0 < p < |s|
    ensures !IsObject(s[p..])
  {
    if IsObject(s[p..]) {
      InsideFlat(s);
      BracketRun(s, 0);
      var q := Run(s[..p], Out(0));
      assert AtLeast(q, 1);
      assert s == s[..p] + s[p..];
      RunConcat(s[..p], s[p..], Out(0));
      InsideFlat(s[p..]);
      BracketRun(s[p..], 0);
      match q {
        case Out(d) => Shifted(s[p..], d);
        case In(d) => Opposite(s[p..], d, 0);
        case Esc(d) => BadStays(s[p..][1..]);
      }
    }
  }

  /** Nor is a proper prefix, so where the first object ends is never in doubt. */
  lemma NoPrefixObject(s: string, p: nat)
    requires IsObject(s) && p < |s|
    ensures !IsObject(s[..p])
  {
    if IsObject(s[..p]) {
      InsideFlat(s);
      BracketRun(s, 0);
      InsideFlat(s[..p]);
      BracketRun(s[..p], 0);
    }
  }
}
