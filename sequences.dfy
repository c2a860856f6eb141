// Generic sequence helpers used by the pool builders: a run of copies of one
// value, and the concatenation of one block per element of a list, built left
// to right the way the source's loops push onto an array.

module Sequences {

  /** n copies of x. */
  function Repeat<T>(x: T, n: nat): (r: seq<T>)
    ensures |r| == n
    ensures forall i :: 0 <= i < n ==> r[i] == x
  {
    seq(n, _ => x)
  }

  lemma RepeatSnoc<T>(x: T, n: nat)
    ensures Repeat(x, n) + [x] == Repeat(x, n + 1)
  {
  }

  /** How many times x occurs in n copies of y. */
  lemma {:induction false} RepeatMultiset<T>(y: T, n: nat, x: T)
    ensures multiset(Repeat(y, n))[x] == if x == y then n else 0
  {
    if n > 0 {
      RepeatMultiset(y, n - 1, x);
      RepeatSnoc(y, n - 1);
      assert multiset(Repeat(y, n)) == multiset(Repeat(y, n - 1)) + multiset{y};
    }
  }

  /** The block f(p) of every element p of ps, concatenated in list order. */
  function Flatten<P, T>(ps: seq<P>, f: P -> seq<T>): seq<T>
  {
    if ps == [] then [] else Flatten(ps[..|ps| - 1], f) + f(ps[|ps| - 1])
  }

  lemma {:induction false} FlattenAppend<P, T>(a: seq<P>, b: seq<P>, f: P -> seq<T>)
    ensures Flatten(a + b, f) == Flatten(a, f) + Flatten(b, f)
  {
    if b != [] {
      var b' := b[..|b| - 1];
      assert (a + b)[..|a + b| - 1] == a + b';
      FlattenAppend(a, b', f);
    } else {
      assert a + b == a;
    }
  }

  /** The block of element j starts where the blocks of the elements before it end. */
  lemma FlattenSlice<P, T>(ps: seq<P>, f: P -> seq<T>, j: nat)
    requires j < |ps|
    ensures |Flatten(ps[..j], f)| + |f(ps[j])| <= |Flatten(ps, f)|
    ensures Flatten(ps, f)[|Flatten(ps[..j], f)| .. |Flatten(ps[..j], f)| + |f(ps[j])|] == f(ps[j])
  {
    assert ps == ps[..j] + ([ps[j]] + ps[j + 1..]);
    FlattenAppend(ps[..j], [ps[j]] + ps[j + 1..], f);
    FlattenAppend([ps[j]], ps[j + 1..], f);
    assert [ps[j]][..0] == [];
  }

  /** Every element of the concatenation comes from the block of some element of ps. */
  lemma {:induction false} FlattenMember<P, T>(ps: seq<P>, f: P -> seq<T>, x: T)
    requires x in Flatten(ps, f)
    ensures exists j :: 0 <= j < |ps| && x in f(ps[j])
  {
    var n := |ps| - 1;
    if x in f(ps[n]) {
    } else {
      FlattenMember(ps[..n], f, x);
      var j :| 0 <= j < n && x in f(ps[..n][j]);
      assert ps[..n][j] == ps[j];
    }
  }

  /** The length of the concatenation is the sum of the block lengths. */
  function SumLengths<P, T>(ps: seq<P>, f: P -> seq<T>): nat
  {
    if ps == [] then 0 else SumLengths(ps[..|ps| - 1], f) + |f(ps[|ps| - 1])|
  }

  lemma {:induction false} FlattenLength<P, T>(ps: seq<P>, f: P -> seq<T>)
    ensures |Flatten(ps, f)| == SumLengths(ps, f)
  {
    if ps != [] {
      FlattenLength(ps[..|ps| - 1], f);
    }
  }

  /** k copies of s, one after the other. */
  function RepeatSeq<T>(s: seq<T>, k: nat): (r: seq<T>)
  {
    if k == 0 then [] else RepeatSeq(s, k - 1) + s
  }

  lemma {:induction false} RepeatSeqLength<T>(s: seq<T>, k: nat)
    ensures |RepeatSeq(s, k)| == k * |s|
  {
    if k > 0 {
      RepeatSeqLength(s, k - 1);
    }
  }

  /** Copy number r of s occupies positions r*|s| up to (r+1)*|s|. */
  lemma {:induction false} RepeatSeqSlice<T>(s: seq<T>, k: nat, r: nat)
    requires r < k
    ensures (r + 1) * |s| <= |RepeatSeq(s, k)|
    ensures RepeatSeq(s, k)[r * |s| .. (r + 1) * |s|] == s
  {
    var prev := RepeatSeq(s, k - 1);
    assert RepeatSeq(s, k) == prev + s;
    RepeatSeqLength(s, k - 1);
    assert (r + 1) * |s| == r * |s| + |s|;
    if r < k - 1 {
      RepeatSeqSlice(s, k - 1, r);
    } else {
      assert r * |s| == |prev|;
    }
  }

  lemma {:induction false} RepeatSeqMultiset<T>(s: seq<T>, k: nat, x: T)
    ensures multiset(RepeatSeq(s, k))[x] == k * multiset(s)[x]
  {
    if k > 0 {
      RepeatSeqMultiset(s, k - 1, x);
      assert multiset(RepeatSeq(s, k)) == multiset(RepeatSeq(s, k - 1)) + multiset(s);
      assert k * multiset(s)[x] == (k - 1) * multiset(s)[x] + multiset(s)[x];
    }
  }

  /** A slice of a copy of b inside a is the same slice of b. */
  lemma SliceOfSlice<T>(a: seq<T>, b: seq<T>, base: nat, lo: nat, len: nat)
    requires base + |b| <= |a| && a[base .. base + |b|] == b && lo + len <= |b|
    ensures base + lo + len <= |a| && a[base + lo .. base + lo + len] == b[lo .. lo + len]
  {
    var c := a[base + lo .. base + lo + len];
    forall i | 0 <= i < len
      ensures c[i] == b[lo .. lo + len][i]
    {
      assert a[base .. base + |b|][lo + i] == a[base + lo + i];
    }
  }
}
