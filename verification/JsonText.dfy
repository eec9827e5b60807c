/** JSON texts as they are written (RFC 8259, sections 2 to 7): trees that hold every token and
    all the white space between tokens. The grammar of Json.dfy accepts exactly what they print. */
module JsonText {
  import Json

  /** One character of a string, as written. */
  datatype Unit = Bare(c: char) | Escape(c: char) | Code(hex: string)

  /** A number: the digits before the point, those behind it, and the exponent, where written. */
  datatype Exponent = NoExponent | Exponent(letter: char, sign: string, digits: string)

  datatype Value =
    | EmptyObject(gap: string)
    | Object(members: Members)
    | EmptyArray(gap: string)
    | Array(elements: Elements)
    | Text(units: seq<Unit>)
    | Number(minus: bool, whole: string, point: bool, fraction: string, exponent: Exponent)
    | Literal(name: string)

  /** A value with the white space around it. */
  datatype Element = Element(before: string, value: Value, after: string)

  datatype Elements = LastElement(element: Element) | MoreElements(element: Element, rest: Elements)

  datatype Member = Member(before: string, key: seq<Unit>, after: string, element: Element)

  datatype Members = LastMember(member: Member) | MoreMembers(member: Member, rest: Members)

  // ---------- What may be written ----------

  predicate Only(s: string, allowed: string) {
    forall i :: 0 <= i < |s| ==> s[i] in allowed
  }

  const SPACES := " \t\n\r"
  const DIGITS := "0123456789"
  const HEX := "0123456789abcdefABCDEF"
  const ESCAPES := "\"\\/bfnrt"

  predicate ProperUnit(u: Unit) {
    match u
    case Bare(c) => c != '"' && c != '\\' && c >= ' '
    case Escape(c) => c in ESCAPES
    case Code(hex) => |hex| == 4 && Only(hex, HEX)
  }

  predicate ProperUnits(us: seq<Unit>) {
    forall i :: 0 <= i < |us| ==> ProperUnit(us[i])
  }

  predicate ProperExponent(e: Exponent) {
    e.Exponent? ==> e.letter in "eE" && e.sign in ["", "+", "-"] && e.digits != "" && Only(e.digits, DIGITS)
  }

  predicate Proper(v: Value) {
    match v
    case EmptyObject(gap) => Only(gap, SPACES)
    case Object(ms) => ProperMembers(ms)
    case EmptyArray(gap) => Only(gap, SPACES)
    case Array(es) => ProperElements(es)
    case Text(us) => ProperUnits(us)
    case Number(_, whole, point, fraction, e) =>
      && whole != "" && Only(whole, DIGITS) && (whole[0] == '0' ==> whole == "0")
      && (if point then fraction != "" && Only(fraction, DIGITS) else fraction == "")
      && ProperExponent(e)
    case Literal(name) => name in ["true", "false", "null"]
  }

  predicate ProperElement(e: Element) {
    Only(e.before, SPACES) && Proper(e.value) && Only(e.after, SPACES)
  }

  predicate ProperElements(es: Elements) {
    ProperElement(es.element) && (es.MoreElements? ==> ProperElements(es.rest))
  }

  predicate ProperMember(m: Member) {
    Only(m.before, SPACES) && ProperUnits(m.key) && Only(m.after, SPACES) && ProperElement(m.element)
  }

  predicate ProperMembers(ms: Members) {
    ProperMember(ms.member) && (ms.MoreMembers? ==> ProperMembers(ms.rest))
  }

  // ---------- How it is written ----------

  function PrintUnit(u: Unit): string {
    match u
    case Bare(c) => [c]
    case Escape(c) => ['\\', c]
    case Code(hex) => "\\u" + hex
  }

  function PrintUnits(us: seq<Unit>): string {
    if us == [] then "" else PrintUnit(us[0]) + PrintUnits(us[1..])
  }

  function PrintText(us: seq<Unit>): string {
    "\"" + PrintUnits(us) + "\""
  }

  function PrintExponent(e: Exponent): string {
    if e.NoExponent? then "" else [e.letter] + e.sign + e.digits
  }

  function Print(v: Value): string {
    match v
    case EmptyObject(gap) => "{" + gap + "}"
    case Object(ms) => "{" + PrintMembers(ms) + "}"
    case EmptyArray(gap) => "[" + gap + "]"
    case Array(es) => "[" + PrintElements(es) + "]"
    case Text(us) => PrintText(us)
    case Number(minus, whole, point, fraction, e) =>
      (if minus then "-" else "") + (whole + (if point then "." + fraction else "") + PrintExponent(e))
    case Literal(name) => name
  }

  function PrintElement(e: Element): string {
    e.before + Print(e.value) + e.after
  }

  function PrintElements(es: Elements): string {
    if es.LastElement? then PrintElement(es.element) else PrintElement(es.element) + "," + PrintElements(es.rest)
  }

  function PrintMember(m: Member): string {
    (m.before + PrintText(m.key) + m.after) + ":" + PrintElement(m.element)
  }

  function PrintMembers(ms: Members): string {
    if ms.LastMember? then PrintMember(ms.member) else PrintMember(ms.member) + "," + PrintMembers(ms.rest)
  }

  // ---------- Everything printed is accepted ----------

  lemma SpacesAreWs(s: string)
    ensures Only(s, SPACES) <==> Json.Ws(s)
  {
  }

  lemma {:induction false} UnitsAccepted(us: seq<Unit>)
    requires ProperUnits(us)
    ensures Json.Characters(PrintUnits(us))
  {
    if us != [] {
      UnitsAccepted(us[1..]);
      assert ProperUnit(us[0]);
      UnitAccepted(us[0], PrintUnits(us[1..]));
    }
  }

  lemma UnitAccepted(u: Unit, rest: string)
    requires ProperUnit(u) && Json.Characters(rest)
    ensures Json.Characters(PrintUnit(u) + rest)
  {
    hide Json.IsHex, Json.IsEscape;
    var s := PrintUnit(u) + rest;
    match u
    case Bare(c) => assert s[0] == c && s[1..] == rest;
    case Escape(c) =>
      EscapesAre(c);
      assert s[0] == '\\' && s[1] == c && s[2..] == rest;
    case Code(hex) =>
      HexAre(hex);
      assert s[0] == '\\' && s[1] == 'u' && s[6..] == rest;
      assert forall i :: 2 <= i < 6 ==> s[i] == hex[i - 2];
  }

  lemma EscapesAre(c: char)
    ensures c in ESCAPES <==> Json.IsEscape(c)
  {
  }

  lemma HexAre(s: string)
    ensures Only(s, HEX) <==> forall i :: 0 <= i < |s| ==> Json.IsHex(s[i])
  {
  }

  lemma TextAccepted(us: seq<Unit>)
    requires ProperUnits(us)
    ensures Json.IsString(PrintText(us))
  {
    UnitsAccepted(us);
    var s := PrintText(us);
    assert s[1..|s| - 1] == PrintUnits(us);
  }

  lemma Between(a: string, b: string, c: string)
    ensures var s := a + b + c; s[..|a|] == a && s[|a|..|a| + |b|] == b && s[|a| + |b|..] == c
  {
  }

  lemma DigitsAre(s: string)
    ensures s != "" && Only(s, DIGITS) <==> Json.Digits(s)
  {
  }

  lemma ExponentAccepted(e: Exponent)
    requires ProperExponent(e)
    ensures Json.Exponent(PrintExponent(e))
  {
    hide Only, Json.Digits;
    if e.Exponent? {
      DigitsAre(e.digits);
      if e.sign == "" {
        PlainExponent(e.letter, e.digits);
        assert PrintExponent(e) == [e.letter] + e.digits;
      } else {
        SignedExponent(e.letter, e.sign, e.digits);
      }
    }
  }

  lemma PlainExponent(letter: char, digits: string)
    requires letter in "eE" && Json.Digits(digits)
    ensures Json.Exponent([letter] + digits)
  {
    hide Json.Digits;
    assert ([letter] + digits)[1..] == digits;
  }

  lemma SignedExponent(letter: char, sign: string, digits: string)
    requires letter in "eE" && sign in ["+", "-"] && Json.Digits(digits)
    ensures Json.Exponent([letter] + sign + digits)
  {
    hide Json.Digits;
    assert ([letter] + sign + digits)[2..] == digits;
  }

  lemma NumberAccepted(v: Value)
    requires v.Number? && Proper(v)
    ensures Json.IsNumber(Print(v))
  {
    var a, b, c := v.whole, if v.point then "." + v.fraction else "", PrintExponent(v.exponent);
    var m := a + b + c;
    DigitsAre(v.whole);
    DigitsAre(v.fraction);
    ExponentAccepted(v.exponent);
    Between(a, b, c);
    assert Json.IntPart(m[..|a|]);
    assert v.point ==> b[1..] == v.fraction;
    assert Json.Fraction(m[|a|..|a| + |b|]);
    assert Json.Magnitude(m);
    if v.minus { assert Print(v)[1..] == m; } else { assert Print(v) == m; }
  }

  lemma {:induction false} PrintAccepted(v: Value)
    requires Proper(v)
    ensures Json.IsValue(Print(v))
    ensures v.EmptyObject? || v.Object? ==> Json.IsObject(Print(v))
  {
    var s := Print(v);
    match v
    case EmptyObject(gap) => SpacesAreWs(gap); assert s[1..|s| - 1] == gap;
    case Object(ms) => MembersAccepted(ms); assert s[1..|s| - 1] == PrintMembers(ms);
    case EmptyArray(gap) => SpacesAreWs(gap); assert s[1..|s| - 1] == gap;
    case Array(es) => ElementsAccepted(es); assert s[1..|s| - 1] == PrintElements(es);
    case Text(us) => TextAccepted(us);
    case Number(_, _, _, _, _) => NumberAccepted(v);
    case Literal(_) =>
  }

  lemma {:induction false} ElementAccepted(e: Element)
    requires ProperElement(e)
    ensures Json.IsElement(PrintElement(e))
  {
    PrintAccepted(e.value);
    SpacesAreWs(e.before);
    SpacesAreWs(e.after);
    Between(e.before, Print(e.value), e.after);
  }

  lemma {:induction false} ElementsAccepted(es: Elements)
    requires ProperElements(es)
    ensures Json.IsElements(PrintElements(es))
  {
    ElementAccepted(es.element);
    if es.MoreElements? {
      ElementsAccepted(es.rest);
      Between(PrintElement(es.element), ",", PrintElements(es.rest));
    }
  }

  lemma {:induction false} MemberAccepted(m: Member)
    requires ProperMember(m)
    ensures Json.IsMember(PrintMember(m))
  {
    ElementAccepted(m.element);
    TextAccepted(m.key);
    SpacesAreWs(m.before);
    SpacesAreWs(m.after);
    Between(m.before, PrintText(m.key), m.after);
    var key := m.before + PrintText(m.key) + m.after;
    assert Json.IsKey(key);
    Between(key, ":", PrintElement(m.element));
  }

  lemma {:induction false} MembersAccepted(ms: Members)
    requires ProperMembers(ms)
    ensures Json.IsMembers(PrintMembers(ms))
  {
    MemberAccepted(ms.member);
    if ms.MoreMembers? {
      MembersAccepted(ms.rest);
      Between(PrintMember(ms.member), ",", PrintMembers(ms.rest));
    }
  }

  // ---------- Everything accepted is printed ----------

  lemma {:induction false} CharactersRead(s: string) returns (us: seq<Unit>)
    requires Json.Characters(s)
    ensures ProperUnits(us) && PrintUnits(us) == s
    decreases |s|
  {
    us := [];
    if s != "" {
      var u, w := UnitRead(s);
      var rest := CharactersRead(s[w..]);
      us := [u] + rest;
      assert us[1..] == rest && s == s[..w] + s[w..];
    }
  }

  lemma UnitRead(s: string) returns (u: Unit, w: nat)
    requires Json.Characters(s) && s != ""
    ensures 0 < w <= |s| && ProperUnit(u) && PrintUnit(u) == s[..w] && Json.Characters(s[w..])
  {
    hide Json.IsHex, Json.IsEscape;
    if s[0] != '\\' {
      u, w := Bare(s[0]), 1;
    } else if Json.IsEscape(s[1]) && Json.Characters(s[2..]) {
      EscapesAre(s[1]);
      u, w := Escape(s[1]), 2;
    } else {
      HexAre(s[2..6]);
      u, w := Code(s[2..6]), 6;
    }
  }

  lemma StringRead(s: string) returns (us: seq<Unit>)
    requires Json.IsString(s)
    ensures ProperUnits(us) && PrintText(us) == s
  {
    hide Json.Characters, ProperUnits, PrintUnits;
    us := CharactersRead(s[1..|s| - 1]);
    assert s == "\"" + s[1..|s| - 1] + "\"";
  }

  lemma ExponentRead(s: string) returns (e: Exponent)
    requires Json.Exponent(s)
    ensures ProperExponent(e) && PrintExponent(e) == s
  {
    if s == "" {
      e := NoExponent;
    } else if Json.Digits(s[1..]) {
      DigitsAre(s[1..]);
      e := Exponent.Exponent(s[0], "", s[1..]);
    } else {
      DigitsAre(s[2..]);
      e := Exponent.Exponent(s[0], [s[1]], s[2..]);
      assert s == [s[0]] + [s[1]] + s[2..];
    }
  }

  lemma NumberRead(s: string) returns (v: Value)
    requires Json.IsNumber(s)
    ensures v.Number? && Proper(v) && Print(v) == s
  {
    if Json.Magnitude(s) {
      v := MagnitudeRead(s, false);
      assert "" + s == s;
    } else {
      v := MagnitudeRead(s[1..], true);
      assert "-" + s[1..] == s;
    }
  }

  lemma MagnitudeRead(s: string, minus: bool) returns (v: Value)
    requires Json.Magnitude(s)
    ensures v.Number? && Proper(v) && Print(v) == (if minus then "-" else "") + s
  {
    hide Json.IntPart, Json.Fraction, Json.Exponent, Only, ProperExponent, PrintExponent;
    var i, j :| 0 <= i <= j <= |s| && Json.IntPart(s[..i]) && Json.Fraction(s[i..j]) && Json.Exponent(s[j..]);
    Parted(s, i, j);
    v := PartsRead(s[..i], s[i..j], s[j..], minus);
  }

  lemma Parted(s: string, i: nat, j: nat)
    requires i <= j <= |s|
    ensures s == s[..i] + s[i..j] + s[j..]
  {
  }

  lemma PartsRead(whole: string, part: string, tail: string, minus: bool) returns (v: Value)
    requires Json.IntPart(whole) && Json.Fraction(part) && Json.Exponent(tail)
    ensures v.Number? && Proper(v) && Print(v) == (if minus then "-" else "") + (whole + part + tail)
  {
    hide Json.IntPart, Json.Fraction, Json.Exponent, Only, ProperExponent, PrintExponent;
    var e := ExponentRead(tail);
    WholeRead(whole);
    FractionRead(part);
    var point := part != "";
    v := Number(minus, whole, point, if point then part[1..] else "", e);
  }

  lemma WholeRead(s: string)
    requires Json.IntPart(s)
    ensures s != "" && Only(s, DIGITS) && (s[0] == '0' ==> s == "0")
  {
    if s != "0" { DigitsAre(s); }
  }

  lemma FractionRead(s: string)
    requires Json.Fraction(s)
    ensures s != "" ==> s == "." + s[1..] && s[1..] != "" && Only(s[1..], DIGITS)
  {
    if s != "" {
      DigitsAre(s[1..]);
      assert s == [s[0]] + s[1..];
    }
  }

  lemma {:induction false} ValueRead(s: string) returns (v: Value)
    requires Json.IsValue(s)
    ensures Proper(v) && Print(v) == s && (Json.IsObject(s) ==> v.EmptyObject? || v.Object?)
    decreases |s|, 2
  {
    if Json.IsObject(s) { v := ObjectRead(s); }
    else if Json.IsArray(s) { v := ArrayRead(s); }
    else if Json.IsString(s) { var us := StringRead(s); v := Text(us); }
    else if Json.IsNumber(s) { v := NumberRead(s); }
    else { v := Literal(s); }
  }

  lemma {:induction false} ObjectRead(s: string) returns (v: Value)
    requires Json.IsObject(s)
    ensures Proper(v) && Print(v) == s && (v.EmptyObject? || v.Object?)
    decreases |s|, 1
  {
    var inner := s[1..|s| - 1];
    assert s == "{" + inner + "}";
    if Json.Ws(inner) {
      SpacesAreWs(inner);
      v := EmptyObject(inner);
    } else {
      var ms := MembersRead(inner);
      v := Object(ms);
    }
  }

  lemma {:induction false} ArrayRead(s: string) returns (v: Value)
    requires Json.IsArray(s)
    ensures Proper(v) && Print(v) == s
    decreases |s|, 1
  {
    var inner := s[1..|s| - 1];
    assert s == "[" + inner + "]";
    if Json.Ws(inner) {
      SpacesAreWs(inner);
      v := EmptyArray(inner);
    } else {
      var es := ElementsRead(inner);
      v := Array(es);
    }
  }

  lemma {:induction false} ElementRead(s: string) returns (e: Element)
    requires Json.IsElement(s)
    ensures ProperElement(e) && PrintElement(e) == s
    decreases |s|, 3
  {
    var i, j :| 0 <= i <= j <= |s| && Json.Ws(s[..i]) && Json.Ws(s[j..]) && Json.IsValue(s[i..j]);
    SpacesAreWs(s[..i]);
    SpacesAreWs(s[j..]);
    var v := ValueRead(s[i..j]);
    e := Element(s[..i], v, s[j..]);
    assert s == s[..i] + s[i..j] + s[j..];
  }

  lemma Cut(s: string, k: nat, c: char)
    requires k < |s| && s[k] == c
    ensures s == s[..k] + [c] + s[k + 1..]
  {
  }

  lemma {:induction false} ElementsRead(s: string) returns (es: Elements)
    requires Json.IsElements(s)
    ensures ProperElements(es) && PrintElements(es) == s
    decreases |s|, 4
  {
    hide Json.IsElement, ProperElement, PrintElement;
    if Json.IsElement(s) {
      var e := ElementRead(s);
      es := LastElement(e);
    } else {
      var k :| 0 <= k < |s| && s[k] == ',' && Json.IsElement(s[..k]) && Json.IsElements(s[k + 1..]);
      var e := ElementRead(s[..k]);
      var rest := ElementsRead(s[k + 1..]);
      es := MoreElements(e, rest);
      Cut(s, k, ',');
    }
  }

  lemma KeyRead(s: string) returns (before: string, us: seq<Unit>, after: string)
    requires Json.IsKey(s)
    ensures Only(before, SPACES) && ProperUnits(us) && Only(after, SPACES)
    ensures s == before + PrintText(us) + after
  {
    hide Json.Ws, Json.IsString, Only, ProperUnits, PrintText;
    var i, j :| 0 <= i <= j <= |s| && Json.Ws(s[..i]) && Json.Ws(s[j..]) && Json.IsString(s[i..j]);
    before, after := s[..i], s[j..];
    SpacesAreWs(before);
    SpacesAreWs(after);
    us := StringRead(s[i..j]);
    Parted(s, i, j);
  }

  lemma {:induction false} MemberRead(s: string) returns (m: Member)
    requires Json.IsMember(s)
    ensures ProperMember(m) && PrintMember(m) == s
    decreases |s|, 3
  {
    hide Json.IsKey, Json.IsElement, Only, ProperUnits, PrintText, ProperElement, PrintElement;
    var k :| 0 <= k < |s| && s[k] == ':' && Json.IsKey(s[..k]) && Json.IsElement(s[k + 1..]);
    var before, us, after := KeyRead(s[..k]);
    var e := ElementRead(s[k + 1..]);
    m := Member(before, us, after, e);
    Cut(s, k, ':');
  }

  lemma {:induction false} MembersRead(s: string) returns (ms: Members)
    requires Json.IsMembers(s)
    ensures ProperMembers(ms) && PrintMembers(ms) == s
    decreases |s|, 4
  {
    hide Json.IsMember, ProperMember, PrintMember;
    if Json.IsMember(s) {
      var m := MemberRead(s);
      ms := LastMember(m);
    } else {
      var k :| 0 <= k < |s| && s[k] == ',' && Json.IsMember(s[..k]) && Json.IsMembers(s[k + 1..]);
      var m := MemberRead(s[..k]);
      var rest := MembersRead(s[k + 1..]);
      ms := MoreMembers(m, rest);
      Cut(s, k, ',');
    }
  }

  // ---------- The grammar and the printer ----------

  ghost predicate Printed(s: string) {
    exists v :: Proper(v) && Print(v) == s
  }

  ghost predicate PrintedObject(s: string) {
    exists v :: Proper(v) && (v.EmptyObject? || v.Object?) && Print(v) == s
  }

  /** The grammar accepts what the printer can write, and nothing else. */
  lemma GrammarIsPrinter(s: string)
    ensures Json.IsValue(s) <==> Printed(s)
    ensures Json.IsObject(s) <==> PrintedObject(s)
  {
    hide Proper, Print, Json.IsValue, Json.IsObject;
    if Json.IsValue(s) { var v := ValueRead(s); }
    if Json.IsObject(s) { var v := ObjectRead(s); }
    if v :| Proper(v) && Print(v) == s { PrintAccepted(v); }
    if v :| Proper(v) && (v.EmptyObject? || v.Object?) && Print(v) == s { PrintAccepted(v); }
  }
}
