/** Sequences without repeats and their element sets. */
module Collections {

  ghost predicate NoRepeats<T>(s: seq<T>) {
    forall i, j :: 0 <= i < j < |s| ==> s[i] != s[j]
  }

  ghost function Elements<T>(s: seq<T>): set<T> {
    set x | x in s
  }

  lemma {:induction false} NoRepeatsCard<T>(s: seq<T>)
    requires NoRepeats(s)
    ensures |Elements(s)| == |s|
  {
    if s != [] {
      var n := |s| - 1;
      NoRepeatsCard(s[..n]);
      assert Elements(s) == Elements(s[..n]) + {s[n]};
    }
  }

  lemma SubsetCard<T>(a: set<T>, b: set<T>)
    requires a <= b
    ensures |a| <= |b|
    ensures |a| == |b| ==> a == b
  {
    assert b == a + (b - a);
  }

  /** Positions in their order. */
  ghost predicate Rising(at: seq<nat>) {
    forall i, j :: 0 <= i < j < |at| ==> at[i] < at[j]
  }

  /** `out` is what `f` makes of the elements at these positions, in their order. */
  ghost predicate Picks<T, U>(at: seq<nat>, source: seq<T>, f: T -> U, out: seq<U>) {
    Rising(at) && |at| == |out| && forall k :: 0 <= k < |at| ==> at[k] < |source| && out[k] == f(source[at[k]])
  }

  lemma PicksMore<T, U>(at: seq<nat>, source: seq<T>, f: T -> U, out: seq<U>, x: T, more: seq<nat>)
    requires Picks(at, source, f, out) && (more == [] || more == [|source|])
    ensures Picks(at + more, source + [x], f, out + if more == [] then [] else [f(x)])
    ensures forall i: nat :: i in at + more <==> i in at || i in more
  {
  }

  lemma PicksNone<T, U>(f: T -> U)
    ensures Picks([], [], f, [])
  {
  }
}
