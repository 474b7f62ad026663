/**
  A functional quicksort over integers: the first element is the pivot, the
  rest is split into the elements below it and those at or above it, each
  part is sorted recursively, and the three are joined.
*/
module QuickSort {

  predicate Sorted(s: seq<int>)
  {
    forall i, j :: 0 <= i < j < |s| ==> s[i] <= s[j]
  }

  /** The elements of `s` below `pivot`, in their order (`filter(x => x < pivot)`). */
  function Below(s: seq<int>, pivot: int): (r: seq<int>)
    ensures |r| <= |s|
    ensures forall x :: multiset(r)[x] == if x < pivot then multiset(s)[x] else 0
    decreases |s|
  {
    if s == [] then []
    else
      assert s == [s[0]] + s[1..];
      (if s[0] < pivot then [s[0]] else []) + Below(s[1..], pivot)
  }

  /** The elements of `s` at or above `pivot`, in their order (`filter(x => x >= pivot)`). */
  function AtLeast(s: seq<int>, pivot: int): (r: seq<int>)
    ensures |r| <= |s|
    ensures forall x :: multiset(r)[x] == if x >= pivot then multiset(s)[x] else 0
    decreases |s|
  {
    if s == [] then []
    else
      assert s == [s[0]] + s[1..];
      (if s[0] >= pivot then [s[0]] else []) + AtLeast(s[1..], pivot)
  }

  /** The sorted arrangement of `s`. */
  function Sort(s: seq<int>): (r: seq<int>)
    ensures multiset(r) == multiset(s)
    ensures Sorted(r)
    decreases |s|
  {
    if |s| <= 1 then s
    else
      var pivot := s[0];
      var left := Below(s[1..], pivot);
      var right := AtLeast(s[1..], pivot);
      var sl, sr := Sort(left), Sort(right);
      PartitionKeepsElements(s[1..], pivot);
      JoinIsPermutation(s, sl, sr);
      SidesRespectPivot(left, right, sl, sr, pivot);
      JoinSorted(sl, pivot, sr);
      sl + [pivot] + sr
  }

  /** Splitting around a pivot loses and adds nothing. */
  lemma PartitionKeepsElements(t: seq<int>, pivot: int)
    ensures multiset(Below(t, pivot)) + multiset(AtLeast(t, pivot)) == multiset(t)
  {
    var m := multiset(Below(t, pivot)) + multiset(AtLeast(t, pivot));
    forall x ensures m[x] == multiset(t)[x] {
    }
  }

  /** Joining permutations of the two parts around the first element is a
      permutation of the whole. */
  lemma JoinIsPermutation(s: seq<int>, sl: seq<int>, sr: seq<int>)
    requires |s| >= 1
    requires multiset(sl) + multiset(sr) == multiset(s[1..])
    ensures multiset(sl + [s[0]] + sr) == multiset(s)
  {
    assert s == [s[0]] + s[1..];
  }

  /** Permutations of the parts still lie on their side of the pivot. */
  lemma SidesRespectPivot(left: seq<int>, right: seq<int>, sl: seq<int>, sr: seq<int>, pivot: int)
    requires multiset(sl) == multiset(left) && multiset(sr) == multiset(right)
    requires forall x :: multiset(left)[x] > 0 ==> x < pivot
    requires forall x :: multiset(right)[x] > 0 ==> x >= pivot
    ensures forall x :: x in sl ==> x < pivot
    ensures forall x :: x in sr ==> x >= pivot
  {
    forall x | x in sl ensures x < pivot {
      assert x in multiset(sl);
    }
    forall x | x in sr ensures x >= pivot {
      assert x in multiset(sr);
    }
  }

  /** Two sorted parts on either side of a pivot they respect form a sorted sequence. */
  lemma JoinSorted(left: seq<int>, pivot: int, right: seq<int>)
    requires Sorted(left) && Sorted(right)
    requires forall x :: x in left ==> x < pivot
    requires forall x :: x in right ==> x >= pivot
    ensures Sorted(left + [pivot] + right)
  {
    var r := left + [pivot] + right;
    forall i, j | 0 <= i < j < |r| ensures r[i] <= r[j] {
      if i < |left| {
        assert r[i] == left[i] && r[i] in left;
      } else if i == |left| {
        assert r[i] == pivot;
      } else {
        assert r[i] == right[i - |left| - 1];
      }
      if j < |left| {
        assert r[j] == left[j];
      } else if j == |left| {
        assert r[j] == pivot;
      } else {
        assert r[j] == right[j - |left| - 1] && r[j] in right;
      }
    }
  }

  /** An input of at most one element comes back as it is. */
  lemma ShortInputUnchanged(s: seq<int>)
    requires |s| <= 1
    ensures Sort(s) == s
  {
  }

  /** In the result, the pivot sits between the sorted elements below it,
      all strictly smaller, and the sorted elements at or above it. */
  lemma PivotSplits(s: seq<int>)
    requires |s| >= 2
    ensures var sl, sr := Sort(Below(s[1..], s[0])), Sort(AtLeast(s[1..], s[0]));
      Sort(s) == sl + [s[0]] + sr
      && (forall x :: x in sl ==> x < s[0])
      && (forall x :: x in sr ==> x >= s[0])
  {
    var pivot := s[0];
    var left, right := Below(s[1..], pivot), AtLeast(s[1..], pivot);
    SidesRespectPivot(left, right, Sort(left), Sort(right), pivot);
  }

  /** Every element of a sorted sequence is at least its first one. */
  lemma HeadIsLeast(a: seq<int>, x: int)
    requires Sorted(a) && x in multiset(a)
    ensures a[0] <= x
  {
    var i :| 0 <= i < |a| && a[i] == x;
  }

  /** A multiset has only one sorted arrangement. */
  lemma {:induction false} SortedArrangementIsUnique(a: seq<int>, b: seq<int>)
    requires Sorted(a) && Sorted(b) && multiset(a) == multiset(b)
    ensures a == b
    decreases |a|
  {
    SameSize(a, b);
    if a != [] {
      HeadIsLeast(a, b[0]);
      HeadIsLeast(b, a[0]);
      SortedTail(a);
      SortedTail(b);
      SameTail(a, b);
      SortedArrangementIsUnique(a[1..], b[1..]);
      assert a == [a[0]] + a[1..] && b == [b[0]] + b[1..];
    }
  }

  lemma SameSize(a: seq<int>, b: seq<int>)
    requires multiset(a) == multiset(b)
    ensures |a| == |b|
  {
    assert |a| == |multiset(a)| && |b| == |multiset(b)|;
  }

  lemma SortedTail(a: seq<int>)
    requires Sorted(a) && a != []
    ensures Sorted(a[1..])
  {
    forall i, j | 0 <= i < j < |a| - 1 ensures a[1..][i] <= a[1..][j] {
      assert a[1..][i] == a[i + 1] && a[1..][j] == a[j + 1];
    }
  }

  /** Equal multisets with equal first elements have equal rests. */
  lemma SameTail(a: seq<int>, b: seq<int>)
    requires a != [] && b != [] && a[0] == b[0] && multiset(a) == multiset(b)
    ensures multiset(a[1..]) == multiset(b[1..])
  {
    assert a == [a[0]] + a[1..] && b == [b[0]] + b[1..];
    assert multiset(a[1..]) == multiset(a) - multiset{a[0]};
    assert multiset(b[1..]) == multiset(b) - multiset{b[0]};
  }

  /** Sorting gives THE sorted permutation: any sorted permutation of the
      input equals the result. */
  lemma SortIsTheSortedPermutation(s: seq<int>, t: seq<int>)
    requires Sorted(t) && multiset(t) == multiset(s)
    ensures Sort(s) == t
  {
    SortedArrangementIsUnique(Sort(s), t);
  }

  /** The usage example: [34, 7, 23, 32, 5, 62] sorts to [5, 7, 23, 32, 34, 62]. */
  lemma UsageExample(s: seq<int>)
    requires s == [34, 7, 23, 32, 5, 62]
    ensures Sort(s) == [5, 7, 23, 32, 34, 62]
  {
    ExampleOrdering(s, [5, 7, 23, 32, 34, 62]);
    SortIsTheSortedPermutation(s, [5, 7, 23, 32, 34, 62]);
  }

  /** The expected output of the example is a sorted permutation of its
      input: it is the input with its first and fifth elements swapped. */
  lemma ExampleOrdering(s: seq<int>, t: seq<int>)
    requires s == [34, 7, 23, 32, 5, 62] && t == [5, 7, 23, 32, 34, 62]
    ensures Sorted(t) && multiset(t) == multiset(s)
  {
    IncreasingIsSorted(t);
    assert t == s[0 := s[4]][4 := s[0]];
    SwapKeepsElements(s, 0, 4);
  }

  /** Swapping two positions keeps the multiset of elements. */
  lemma SwapKeepsElements(s: seq<int>, i: nat, j: nat)
    requires i < j < |s|
    ensures multiset(s[i := s[j]][j := s[i]]) == multiset(s)
  {
  }

  /** Each element below the next one is enough for sortedness. */
  lemma {:induction false} IncreasingIsSorted(t: seq<int>)
    requires forall i :: 0 <= i < |t| - 1 ==> t[i] <= t[i + 1]
    ensures Sorted(t)
    decreases |t|
  {
    if t != [] {
      IncreasingIsSorted(t[1..]);
      forall i, j | 0 <= i < j < |t| ensures t[i] <= t[j] {
        if i > 0 {
          assert t[i] == t[1..][i - 1] && t[j] == t[1..][j - 1];
        } else {
          assert t[1..][0] == t[1] && t[j] == t[1..][j - 1];
        }
      }
    }
  }
}
