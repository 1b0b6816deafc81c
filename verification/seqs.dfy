/**
 Sequence helpers used across the model: summation, flattening and the
 "append only if absent" list update with the de-duplication it induces.
 */
module Seqs {

  /** Sum of `f` over the elements of `s`, taken left to right. */
  function SumBy<T>(s: seq<T>, f: T -> int): int
    decreases |s|
  {
    if s == [] then 0 else f(s[0]) + SumBy(s[1..], f)
  }

  /** Summation is additive over concatenation. */
  lemma {:induction false} SumByAppend<T>(a: seq<T>, b: seq<T>, f: T -> int)
    ensures SumBy(a + b, f) == SumBy(a, f) + SumBy(b, f)
    decreases |a|
  {
    if a == [] {
      assert a + b == b;
    } else {
      assert (a + b)[1..] == a[1..] + b;
      SumByAppend(a[1..], b, f);
    }
  }

  /** Extending a sequence by one element adds that element's value. */
  lemma SumBySnoc<T>(s: seq<T>, x: T, f: T -> int)
    ensures SumBy(s + [x], f) == SumBy(s, f) + f(x)
  {
    SumByAppend(s, [x], f);
    assert [x][1..] == [];
  }

  /** Summation does not depend on the order of the elements. */
  lemma {:induction false} SumByPermutation<T>(a: seq<T>, b: seq<T>, f: T -> int)
    requires multiset(a) == multiset(b)
    ensures SumBy(a, f) == SumBy(b, f)
    decreases |a|
  {
    if a == [] {
      assert |b| == |multiset(b)| == 0;
    } else {
      var x := a[0];
      assert x in multiset(b);
      var k :| 0 <= k < |b| && b[k] == x;
      var rest := b[..k] + b[k + 1..];
      RemoveAtMultiset(b, k);
      assert a == [x] + a[1..];
      assert multiset(a[1..]) == multiset(a) - multiset{x};
      SumByRemoveAt(b, k, f);
      SumByPermutation(a[1..], rest, f);
    }
  }

  /** Removing the element at `k` removes one copy of it from the multiset. */
  lemma RemoveAtMultiset<T>(b: seq<T>, k: nat)
    requires k < |b|
    ensures multiset(b[..k] + b[k + 1..]) == multiset(b) - multiset{b[k]}
  {
    assert b == b[..k] + [b[k]] + b[k + 1..];
    assert multiset(b) == multiset(b[..k]) + multiset{b[k]} + multiset(b[k + 1..]);
  }

  /** The sum is the removed element's value plus the sum of the rest. */
  lemma SumByRemoveAt<T>(b: seq<T>, k: nat, f: T -> int)
    requires k < |b|
    ensures SumBy(b, f) == f(b[k]) + SumBy(b[..k] + b[k + 1..], f)
  {
    assert b == (b[..k] + [b[k]]) + b[k + 1..];
    SumByAppend(b[..k] + [b[k]], b[k + 1..], f);
    SumBySnoc(b[..k], b[k], f);
    SumByAppend(b[..k], b[k + 1..], f);
  }

  /** The identity on integers, so that `Sum` is `SumBy` with nothing applied. */
  function Id(x: int): int { x }

  /** Sum of a list of integers (0 for the empty list). */
  function Sum(xs: seq<int>): int
  {
    SumBy(xs, Id)
  }

  /** Concatenation of a sequence of sequences, in order. */
  function Flatten<T>(ss: seq<seq<T>>): seq<T>
    decreases |ss|
  {
    if ss == [] then [] else ss[0] + Flatten(ss[1..])
  }

  /** Flattening is a homomorphism from concatenation to concatenation. */
  lemma {:induction false} FlattenAppend<T>(a: seq<seq<T>>, b: seq<seq<T>>)
    ensures Flatten(a + b) == Flatten(a) + Flatten(b)
    decreases |a|
  {
    if a == [] {
      assert a + b == b;
    } else {
      assert (a + b)[1..] == a[1..] + b;
      FlattenAppend(a[1..], b);
    }
  }

  /** Flattening after appending one sequence appends its elements. */
  lemma FlattenSnoc<T>(a: seq<seq<T>>, x: seq<T>)
    ensures Flatten(a + [x]) == Flatten(a) + x
  {
    FlattenAppend(a, [x]);
    assert Flatten([x]) == x + Flatten([x][1..]);
    assert [x][1..] == [];
  }

  /** Concatenation is associative. */
  lemma AppendAssoc<T>(x: seq<T>, y: seq<T>, z: seq<T>)
    ensures x + (y + z) == x + y + z
  {
  }

  /** A prefix of `x` is also a prefix of `x + y`, and what follows it there is the rest of `x` then `y`. */
  lemma SliceOfAppend<T>(x: seq<T>, y: seq<T>, n: nat)
    requires n <= |x|
    ensures (x + y)[..n] == x[..n]
    ensures (x + y)[n..] == x[n..] + y
  {
  }

  /** No element occurs twice. */
  predicate NoDup<T(==)>(xs: seq<T>)
  {
    forall i, j :: 0 <= i < j < |xs| ==> xs[i] != xs[j]
  }

  /**
   Appends `x` unless it is already present (`if x not in xs: xs.append(x)`).
   A present `x` leaves the list exactly as it is, duplicates included; an
   absent one is added at the end. Either way the prior entries and their
   order are kept, the list afterwards holds `x`, and a list without
   duplicates stays without them.
   */
  function AppendIfAbsent<T(==)>(xs: seq<T>, x: T): (r: seq<T>)
    ensures x in xs ==> r == xs
    ensures x !in xs ==> r == xs + [x]
    ensures |xs| <= |r| <= |xs| + 1
    ensures r[..|xs|] == xs
    ensures x in r
    ensures forall i :: 0 <= i < |r| ==> r[i] in xs || r[i] == x
    ensures NoDup(xs) ==> NoDup(r)
  {
    if x in xs then xs else xs + [x]
  }

  /** Adding an element other than `x` in front commutes with `AppendIfAbsent`. */
  lemma AppendIfAbsentCons<T>(k: T, xs: seq<T>, x: T)
    requires k != x
    ensures AppendIfAbsent([k] + xs, x) == [k] + AppendIfAbsent(xs, x)
  {
    assert x in [k] + xs <==> x in xs;
    if x !in xs {
      AppendAssoc([k], xs, [x]);
    }
  }

  /**
   The distinct elements of `xs` in order of first occurrence, obtained by
   folding `AppendIfAbsent` over `xs` from the left.
   */
  function Dedup<T(==)>(xs: seq<T>): (r: seq<T>)
    ensures NoDup(r)
    ensures forall i :: 0 <= i < |r| ==> r[i] in xs
    ensures forall i :: 0 <= i < |xs| ==> xs[i] in r
    ensures |r| <= |xs|
    decreases |xs|
  {
    if xs == [] then [] else AppendIfAbsent(Dedup(xs[..|xs| - 1]), xs[|xs| - 1])
  }

  /** The index of the first occurrence of `x` in `xs` (`xs.index(x)`). */
  function FirstIndex<T(==)>(xs: seq<T>, x: T): (i: nat)
    requires x in xs
    ensures i < |xs| && xs[i] == x
    ensures forall k :: 0 <= k < i ==> xs[k] != x
    decreases |xs|
  {
    if xs[0] == x then 0 else 1 + FirstIndex(xs[1..], x)
  }

  /** An element of a prefix occurs first where it occurs first in the prefix. */
  lemma FirstIndexOfPrefix<T>(xs: seq<T>, m: nat, y: T)
    requires m <= |xs| && y in xs[..m]
    ensures FirstIndex(xs, y) == FirstIndex(xs[..m], y)
  {
    var a := FirstIndex(xs[..m], y);
    assert xs[a] == y;
    var b := FirstIndex(xs, y);
    assert b <= a;
    assert xs[..m][b] == y;
  }

  /**
   `Dedup` lists the distinct elements in the order of their first
   occurrence in the input.
   */
  lemma {:induction false} DedupFirstOccurrenceOrder<T>(xs: seq<T>)
    ensures forall i, j :: 0 <= i < j < |Dedup(xs)| ==> FirstIndex(xs, Dedup(xs)[i]) < FirstIndex(xs, Dedup(xs)[j])
    decreases |xs|
  {
    if xs != [] {
      var init := xs[..|xs| - 1];
      DedupFirstOccurrenceOrder(init);
      OrderedAfterSnoc(xs, Dedup(init), Dedup(xs));
    }
  }

  /**
   A list ordered by first occurrence in all but the last element of `xs`
   stays so ordered in `xs`, also after appending that last element when it
   is new.
   */
  lemma {:induction false} OrderedAfterSnoc<T>(xs: seq<T>, d: seq<T>, r: seq<T>)
    requires xs != []
    requires forall k :: 0 <= k < |d| ==> d[k] in xs[..|xs| - 1]
    requires forall i, j :: 0 <= i < j < |d| ==> FirstIndex(xs[..|xs| - 1], d[i]) < FirstIndex(xs[..|xs| - 1], d[j])
    requires r == d || (r == d + [xs[|xs| - 1]] && xs[|xs| - 1] !in xs[..|xs| - 1])
    ensures forall i, j :: 0 <= i < j < |r| ==> FirstIndex(xs, r[i]) < FirstIndex(xs, r[j])
  {
    FirstIndexInInit(xs, d);
    if r != d {
      FirstIndexOfNewLast(xs);
      forall i, j | 0 <= i < j < |r| ensures FirstIndex(xs, r[i]) < FirstIndex(xs, r[j]) {
        assert r[i] == d[i];
        if j < |d| {
          assert r[j] == d[j];
        }
      }
    }
  }

  /** Elements of all but the last element of `xs` keep their first index there. */
  lemma {:induction false} FirstIndexInInit<T>(xs: seq<T>, d: seq<T>)
    requires xs != []
    requires forall k :: 0 <= k < |d| ==> d[k] in xs[..|xs| - 1]
    ensures forall i :: 0 <= i < |d| ==> FirstIndex(xs, d[i]) == FirstIndex(xs[..|xs| - 1], d[i]) < |xs| - 1
  {
    forall i | 0 <= i < |d| ensures FirstIndex(xs, d[i]) == FirstIndex(xs[..|xs| - 1], d[i]) < |xs| - 1 {
      FirstIndexOfPrefix(xs, |xs| - 1, d[i]);
    }
  }

  /** A last element that does not occur earlier is first found at the end. */
  lemma {:induction false} FirstIndexOfNewLast<T>(xs: seq<T>)
    requires xs != [] && xs[|xs| - 1] !in xs[..|xs| - 1]
    ensures FirstIndex(xs, xs[|xs| - 1]) == |xs| - 1
  {
    forall k | 0 <= k < |xs| - 1 ensures xs[k] != xs[|xs| - 1] {
      assert xs[k] == xs[..|xs| - 1][k];
    }
  }
}
