/** White space, trimming and the byte order of strings. */
module Text {

  /** The Unicode White_Space characters, as `strings.TrimSpace` sees them. */
  predicate IsSpace(c: char) {
    c == ' ' || '\t' <= c <= '\r' || c == '\U{85}' || c == '\U{A0}' || c == '\U{1680}' ||
    '\U{2000}' <= c <= '\U{200A}' || c == '\U{2028}' || c == '\U{2029}' || c == '\U{202F}' ||
    c == '\U{205F}' || c == '\U{3000}'
  }

  lemma SpacesAre(c: char)
    ensures IsSpace(c) <==> c in " \t\n\U{0B}\U{0C}\r\U{85}\U{A0}\U{1680}" ||
                              c in "\U{2000}\U{2001}\U{2002}\U{2003}\U{2004}\U{2005}\U{2006}\U{2007}\U{2008}" ||
                              c in "\U{2009}\U{200A}\U{2028}\U{2029}\U{202F}\U{205F}\U{3000}"
  {
  }

  predicate AllSpace(s: string) {
    forall i :: 0 <= i < |s| ==> IsSpace(s[i])
  }

  /** The first position at or after `i` that holds no space. */
  function TextStart(s: string, i: nat): (b: nat)
    requires i <= |s|
    ensures i <= b <= |s| && forall k :: i <= k < b ==> IsSpace(s[k])
    ensures b < |s| ==> !IsSpace(s[b])
    decreases |s| - i
  {
    if i < |s| && IsSpace(s[i]) then TextStart(s, i + 1) else i
  }

  /** The last position at or above `b` and up to `i` with no space before it. */
  function TextEnd(s: string, b: nat, i: nat): (e: nat)
    requires b <= i <= |s|
    ensures b <= e <= i && forall k :: e <= k < i ==> IsSpace(s[k])
    ensures e > b ==> !IsSpace(s[e - 1])
  {
    if b < i && IsSpace(s[i - 1]) then TextEnd(s, b, i - 1) else i
  }

  function Trim(s: string): string {
    var b := TextStart(s, 0);
    s[b..TextEnd(s, b, |s|)]
  }

  predicate Blank(s: string) {
    AllSpace(s)
  }

  /** A string is blank exactly when trimming leaves nothing. */
  lemma BlankTrimsAway(s: string)
    ensures Blank(s) <==> Trim(s) == ""
  {
    var b := TextStart(s, 0);
    var e := TextEnd(s, b, |s|);
    assert Trim(s) == "" ==> b == e;
  }

  lemma TrimNotBlank(s: string)
    requires !Blank(s)
    ensures !Blank(Trim(s))
  {
    BlankTrimsAway(s);
    var before, after := TrimParts(s);
    assert !IsSpace(Trim(s)[0]);
  }

  /** A string with no space at either end. */
  predicate Trimmed(s: string) {
    s != [] ==> !IsSpace(s[0]) && !IsSpace(s[|s| - 1])
  }

  /** Trimming cuts a string into space, a core with no space at its ends, and space. */
  lemma TrimParts(s: string) returns (before: string, after: string)
    ensures s == before + Trim(s) + after && AllSpace(before) && AllSpace(after)
    ensures Trimmed(Trim(s))
  {
    hide IsSpace, TextStart, TextEnd;
    var b := TextStart(s, 0);
    var e := TextEnd(s, b, |s|);
    before, after := s[..b], s[e..];
  }

  lemma TrimIsTrimmed(s: string)
    ensures Trimmed(Trim(s))
  {
    hide Trim, Trimmed;
    var before, after := TrimParts(s);
  }

  lemma TrimFixed(s: string)
    requires Trimmed(s)
    ensures Trim(s) == s
  {
  }

  // ---------- Lexicographic order ----------

  predicate Less(a: string, b: string) {
    if b == [] then false
    else if a == [] then true
    else a[0] < b[0] || (a[0] == b[0] && Less(a[1..], b[1..]))
  }

  lemma {:induction false} LessTransitive(a: string, b: string, c: string)
    requires Less(a, b) && Less(b, c)
    ensures Less(a, c)
  {
    if a != [] && a[0] == b[0] == c[0] {
      LessTransitive(a[1..], b[1..], c[1..]);
    }
  }

  lemma {:induction false} LessIrreflexive(a: string)
    ensures !Less(a, a)
  {
    if a != [] { LessIrreflexive(a[1..]); }
  }

  lemma {:induction false} LessTotal(a: string, b: string)
    ensures a == b || Less(a, b) || Less(b, a)
  {
    if a != [] && b != [] && a[0] == b[0] {
      LessTotal(a[1..], b[1..]);
      assert a == [a[0]] + a[1..] && b == [b[0]] + b[1..];
    }
  }

  /** Whatever sorts between two strings with a common prefix has that prefix. */
  lemma {:induction false} Between(prefix: string, a: string, b: string, c: string)
    requires prefix <= a && prefix <= c && Less(a, b) && Less(b, c)
    ensures prefix <= b
  {
    if prefix != [] {
      Between(prefix[1..], a[1..], b[1..], c[1..]);
      assert prefix == [prefix[0]] + prefix[1..];
      assert b == [b[0]] + b[1..];
    }
  }
}
