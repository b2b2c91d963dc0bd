/**
  Order-keeping de-duplication, as the flow performs it with an insertion-ordered
  dictionary or a "seen" set: the first occurrence of each element is kept, in
  the order first occurrences appear.
*/
module Seqs {

  /** No element occurs twice. */
  predicate Distinct<T(==)>(s: seq<T>) {
    forall i, j :: 0 <= i < j < |s| ==> s[i] != s[j]
  }

  /** The position of the first occurrence of `x` in `s`. */
  function FirstIndex<T(==)>(s: seq<T>, x: T): (i: nat)
    requires x in s
    ensures i < |s| && s[i] == x
    ensures forall j :: 0 <= j < i ==> s[j] != x
  {
    if s[0] == x then 0 else 1 + FirstIndex(s[1..], x)
  }

  /** The elements of `s` in order of first occurrence, each once. */
  function Dedupe<T(==)>(s: seq<T>): (d: seq<T>)
    ensures Distinct(d)
    ensures forall i :: 0 <= i < |d| ==> d[i] in s
    ensures forall i :: 0 <= i < |s| ==> s[i] in d
    ensures |d| <= |s|
    decreases |s|
  {
    if |s| == 0 then []
    else
      var prev := Dedupe(s[..|s| - 1]);
      var x := s[|s| - 1];
      if x in prev then prev else prev + [x]
  }

  /** A first occurrence within a prefix is the first occurrence in the whole sequence. */
  lemma {:induction false} FirstIndexPrefix<T>(s: seq<T>, n: nat, x: T)
    requires n <= |s| && x in s[..n]
    ensures x in s && FirstIndex(s[..n], x) == FirstIndex(s, x)
  {
    var i := FirstIndex(s[..n], x);
    assert s[i] == x;
    var k := FirstIndex(s, x);
    assert k <= i;
    assert s[..n][k] == x;
  }

  /** Every element of `d` occurs in `s`, and earlier in `d` means first seen earlier in `s`. */
  predicate InFirstSeenOrder<T(==)>(s: seq<T>, d: seq<T>) {
    && (forall i :: 0 <= i < |d| ==> d[i] in s)
    && forall a, b :: 0 <= a < b < |d| ==>
         d[a] in s && d[b] in s && FirstIndex(s, d[a]) < FirstIndex(s, d[b])
  }

  /** De-duplication lists elements in the order of their first occurrence. */
  lemma {:induction false} DedupeFirstSeenOrder<T>(s: seq<T>)
    ensures InFirstSeenOrder(s, Dedupe(s))
    decreases |s|
  {
    if |s| > 0 {
      var n := |s| - 1;
      var p := s[..n];
      var prev := Dedupe(p);
      var x := s[n];
      DedupeFirstSeenOrder(p);
      var d := Dedupe(s);
      assert d == if x in prev then prev else prev + [x];
      forall a, b | 0 <= a < b < |d|
        ensures d[a] in s && d[b] in s && FirstIndex(s, d[a]) < FirstIndex(s, d[b])
      {
        assert d[a] == prev[a];
        FirstIndexPrefix(s, n, d[a]);
        if b < |prev| {
          assert d[b] == prev[b];
          FirstIndexPrefix(s, n, d[b]);
        } else {
          // `d[b]` is the new element `x`, which does not occur before the last position
          assert d[b] == x && x !in p;
        }
      }
    }
  }

  /** Appending an element that already occurred changes nothing. */
  lemma DedupeAppendSeen<T>(s: seq<T>, x: T)
    requires x in s
    ensures Dedupe(s + [x]) == Dedupe(s)
  {
    assert (s + [x])[..|s|] == s;
  }

  /** Appending a new element adds it at the end. */
  lemma DedupeAppendNew<T>(s: seq<T>, x: T)
    requires x !in s
    ensures Dedupe(s + [x]) == Dedupe(s) + [x]
  {
    assert (s + [x])[..|s|] == s;
  }

  /** A sequence whose two halves are distinct and share nothing is distinct. */
  lemma DistinctSplit<T>(s: seq<T>, k: nat)
    requires k <= |s| && Distinct(s[..k]) && Distinct(s[k..])
    requires forall i, j :: 0 <= i < k <= j < |s| ==> s[i] != s[j]
    ensures Distinct(s)
  {
    forall i, j | 0 <= i < j < |s|
      ensures s[i] != s[j]
    {
      if j < k {
        assert s[..k][i] == s[i] && s[..k][j] == s[j];
      } else if k <= i {
        assert s[k..][i - k] == s[i] && s[k..][j - k] == s[j];
      }
    }
  }
}
