/**
 * The in-place sort that `sort.Slice` performs in custom_cel/lists.go and
 * custom_cel/unstructured.go. sort.Slice is not stable and promises only a
 * permutation in which no element is "less" than one before it; the model
 * sorts by insertion, which is one such permutation.
 */
module Sorting {
  import opened Wrappers

  /** A `less` that never holds both ways (every strict order, and cel-go's ascSort/descSort). */
  ghost predicate Asymmetric<T(!new)>(less: (T, T) -> bool)
  {
    forall x, y :: less(x, y) ==> !less(y, x)
  }

  /** No element is less than its left neighbour. */
  predicate AdjacentSorted<T>(s: seq<T>, less: (T, T) -> bool)
  {
    forall i :: 0 < i < |s| ==> !less(s[i], s[i - 1])
  }

  /** No element is less than any element before it. */
  predicate Sorted<T>(s: seq<T>, less: (T, T) -> bool)
  {
    forall i, j :: 0 <= i < j < |s| ==> !less(s[j], s[i])
  }

  /** "Not less" is transitive on the elements of s. */
  ghost predicate NotLessTransitiveOn<T>(s: seq<T>, less: (T, T) -> bool)
  {
    forall i, j, k ::
      0 <= i < |s| && 0 <= j < |s| && 0 <= k < |s| && !less(s[j], s[i]) && !less(s[k], s[j])
      ==> !less(s[k], s[i])
  }

  /** Where "not less" is transitive, sorted neighbours make a sorted sequence. */
  lemma {:induction false} AdjacentSortedIsSorted<T>(s: seq<T>, less: (T, T) -> bool)
    requires AdjacentSorted(s, less)
    requires NotLessTransitiveOn(s, less)
    ensures Sorted(s, less)
  {
    forall i, j | 0 <= i < j < |s|
      ensures !less(s[j], s[i])
    {
      var k := i + 1;
      while k < j
        invariant i < k <= j
        invariant !less(s[k], s[i])
      {
        assert !less(s[k + 1], s[k]);
        k := k + 1;
      }
    }
  }

  /**
   * Inserts x into s the way one pass of insertion sort does: x starts at the
   * end and moves left past every element it is less than.
   */
  function Insert<T>(s: seq<T>, x: T, less: (T, T) -> bool): (r: seq<T>)
    ensures |r| == |s| + 1
    decreases |s|
  {
    if s == [] || !less(x, s[|s| - 1]) then s + [x]
    else Insert(s[..|s| - 1], x, less) + [s[|s| - 1]]
  }

  /** The arrangement that sort.Slice produces for slices of up to 12 elements (insertion sort). */
  function InsertionSorted<T>(s: seq<T>, less: (T, T) -> bool): (r: seq<T>)
    ensures |r| == |s|
    decreases |s|
  {
    if s == [] then [] else Insert(InsertionSorted(s[..|s| - 1], less), s[|s| - 1], less)
  }

  lemma {:induction false} InsertPermutation<T>(s: seq<T>, x: T, less: (T, T) -> bool)
    ensures multiset(Insert(s, x, less)) == multiset(s) + multiset{x}
    decreases |s|
  {
    if s != [] && less(x, s[|s| - 1]) {
      var init := s[..|s| - 1];
      InsertPermutation(init, x, less);
      assert s == init + [s[|s| - 1]];
    }
  }

  /** Sorting only rearranges: the result is a permutation of the input. */
  lemma {:induction false} InsertionSortedPermutation<T>(s: seq<T>, less: (T, T) -> bool)
    ensures multiset(InsertionSorted(s, less)) == multiset(s)
    decreases |s|
  {
    if s != [] {
      var init := s[..|s| - 1];
      InsertionSortedPermutation(init, less);
      InsertPermutation(InsertionSorted(init, less), s[|s| - 1], less);
      assert s == init + [s[|s| - 1]];
    }
  }

  /** The last element after an insertion is x itself or the old last element. */
  lemma {:induction false} InsertLast<T>(s: seq<T>, x: T, less: (T, T) -> bool)
    ensures var r := Insert(s, x, less);
      if s != [] && less(x, s[|s| - 1]) then r[|r| - 1] == s[|s| - 1] else r[|r| - 1] == x
  {
  }

  lemma {:induction false} InsertAdjacentSorted<T(!new)>(s: seq<T>, x: T, less: (T, T) -> bool)
    requires Asymmetric(less)
    requires AdjacentSorted(s, less)
    ensures AdjacentSorted(Insert(s, x, less), less)
    decreases |s|
  {
    if s != [] && less(x, s[|s| - 1]) {
      var init := s[..|s| - 1];
      var last := s[|s| - 1];
      InsertAdjacentSorted(init, x, less);
      var front := Insert(init, x, less);
      InsertLast(init, x, less);
      assert !less(last, front[|front| - 1]) by {
        if init != [] && less(x, init[|init| - 1]) {
          assert front[|front| - 1] == s[|s| - 2];
        } else {
          assert front[|front| - 1] == x;
        }
      }
    }
  }

  /** With an asymmetric `less`, no element of the result is less than its left neighbour. */
  lemma {:induction false} InsertionSortedAdjacentSorted<T(!new)>(s: seq<T>, less: (T, T) -> bool)
    requires Asymmetric(less)
    ensures AdjacentSorted(InsertionSorted(s, less), less)
    decreases |s|
  {
    if s != [] {
      InsertionSortedAdjacentSorted(s[..|s| - 1], less);
      InsertAdjacentSorted(InsertionSorted(s[..|s| - 1], less), s[|s| - 1], less);
    }
  }

  /** One step of the bubbling pass: moving x past a greater last element. */
  lemma InsertStep<T>(s: seq<T>, x: T, less: (T, T) -> bool, j: nat)
    requires 0 < j <= |s| && less(x, s[j - 1])
    ensures Insert(s[..j], x, less) == Insert(s[..j - 1], x, less) + [s[j - 1]]
  {
    assert s[..j][..j - 1] == s[..j - 1];
  }

  /** One pass of insertion sort: a[i] moves left into the sorted prefix a[..i]. */
  method InsertAt<T>(a: array<T>, i: int, less: (T, T) -> bool)
    requires 0 <= i < a.Length
    modifies a
    ensures a[..i + 1] == Insert(old(a[..i]), old(a[i]), less)
    ensures a[i + 1..] == old(a[i + 1..])
  {
    ghost var prefix := a[..i];
    ghost var rest := a[i + 1..];
    var x := a[i];
    var j := i;
    while j > 0 && less(a[j], a[j - 1])
      invariant 0 <= j <= i
      invariant a[j] == x
      invariant a[..j] == prefix[..j]
      invariant a[j + 1..i + 1] == prefix[j..i]
      invariant a[i + 1..] == rest
      invariant Insert(prefix, x, less) == Insert(prefix[..j], x, less) + prefix[j..i]
    {
      InsertStep(prefix, x, less, j);
      a[j - 1], a[j] := a[j], a[j - 1];
      j := j - 1;
    }
    assert a[..i + 1] == a[..j] + [a[j]] + a[j + 1..i + 1];
  }

  /** sort.Slice(a, less), by insertion, in place. */
  method InsertionSort<T>(a: array<T>, less: (T, T) -> bool)
    modifies a
    ensures a[..] == InsertionSorted(old(a[..]), less)
  {
    ghost var s0 := a[..];
    var i := 0;
    while i < a.Length
      invariant 0 <= i <= a.Length
      invariant a[..i] == InsertionSorted(s0[..i], less)
      invariant a[i..] == s0[i..]
    {
      assert a[i] == s0[i];
      InsertAt(a, i, less);
      assert s0[..i + 1][..i] == s0[..i];
      i := i + 1;
    }
    assert a[..] == a[..a.Length] && s0 == s0[..a.Length];
  }

  /** The first index whose element satisfies p. */
  function FirstWhere<T>(s: seq<T>, p: T -> bool): (r: Option<nat>)
    ensures r.None? <==> forall i :: 0 <= i < |s| ==> !p(s[i])
    ensures r.Some? ==> r.value < |s| && p(s[r.value]) && forall i :: 0 <= i < r.value ==> !p(s[i])
  {
    if s == [] then None
    else if p(s[0]) then Some(0)
    else match FirstWhere(s[1..], p)
      case None => None
      case Some(k) => Some(k + 1)
  }

  function MapSeq<T, U>(f: T -> U, s: seq<T>): (r: seq<U>)
    ensures |r| == |s|
  {
    if s == [] then [] else [f(s[0])] + MapSeq(f, s[1..])
  }

  lemma {:induction false} MapSeqAt<T, U>(f: T -> U, s: seq<T>, i: nat)
    requires i < |s|
    ensures MapSeq(f, s)[i] == f(s[i])
  {
    if i > 0 {
      MapSeqAt(f, s[1..], i - 1);
    }
  }

  lemma {:induction false} MapSeqAppend<T, U>(f: T -> U, a: seq<T>, b: seq<T>)
    ensures MapSeq(f, a + b) == MapSeq(f, a) + MapSeq(f, b)
  {
    if a == [] {
      assert a + b == b;
    } else {
      assert (a + b)[0] == a[0] && (a + b)[1..] == a[1..] + b;
      MapSeqAppend(f, a[1..], b);
      calc {
        MapSeq(f, a + b);
        [f(a[0])] + MapSeq(f, a[1..] + b);
        [f(a[0])] + (MapSeq(f, a[1..]) + MapSeq(f, b));
        ([f(a[0])] + MapSeq(f, a[1..])) + MapSeq(f, b);
        MapSeq(f, a) + MapSeq(f, b);
      }
    }
  }

  /** Removing one occurrence from both sides keeps two permutations of each other. */
  lemma RemoveOne<T>(s: seq<T>, t: seq<T>, k: nat)
    requires multiset(s) == multiset(t) && s != [] && k < |t| && t[k] == s[0]
    ensures multiset(s[1..]) == multiset(t[..k] + t[k + 1..])
  {
    assert s == [s[0]] + s[1..];
    assert multiset(s) == multiset{s[0]} + multiset(s[1..]);
    assert t == t[..k] + [t[k]] + t[k + 1..];
    assert multiset(t) == multiset(t[..k]) + multiset{t[k]} + multiset(t[k + 1..]);
    assert multiset(t[..k] + t[k + 1..]) == multiset(t[..k]) + multiset(t[k + 1..]);
    calc {
      multiset(s[1..]);
      multiset(s) - multiset{s[0]};
      multiset(t) - multiset{t[k]};
      multiset(t[..k]) + multiset(t[k + 1..]);
    }
  }

  /** Mapping a function over two permutations of each other gives permutations of each other. */
  lemma {:induction false} MapSeqPermutation<T, U>(f: T -> U, s: seq<T>, t: seq<T>)
    requires multiset(s) == multiset(t)
    ensures multiset(MapSeq(f, s)) == multiset(MapSeq(f, t))
    decreases |s|
  {
    if s == [] {
      assert |t| == |multiset(t)| == 0;
    } else {
      assert s[0] in multiset(t);
      var k :| 0 <= k < |t| && t[k] == s[0];
      var rest := t[..k] + t[k + 1..];
      RemoveOne(s, t, k);
      MapSeqPermutation(f, s[1..], rest);
      assert t == t[..k] + ([t[k]] + t[k + 1..]);
      MapSeqAppend(f, t[..k], [t[k]] + t[k + 1..]);
      MapSeqAppend(f, [t[k]], t[k + 1..]);
      MapSeqAppend(f, t[..k], t[k + 1..]);
      assert MapSeq(f, [t[k]]) == [f(s[0])];
      assert multiset(MapSeq(f, t)) == multiset(MapSeq(f, rest)) + multiset{f(s[0])};
      assert multiset(MapSeq(f, s)) == multiset{f(s[0])} + multiset(MapSeq(f, s[1..]));
    }
  }
}
