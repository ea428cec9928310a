/** `fields.sort_by_key(|(_, binding, subscript)| (binding.binding, *subscript))`
    in `DescriptorSetWriteUpdate::into_vk`: a stable sort of the checked
    entries by binding number, then subscript.

    Keys need not be distinct (an empty binding marks nothing in the seen
    set), so stability is part of the result.  The sort is modelled as an
    in-place insertion sort on an array, proved to compute `SortByKey`, whose
    result is sorted, a permutation of the input, and keeps the order of
    entries with equal keys. */
module WriteSort {
  import opened Types
  import opened Write

  /** The lexicographic order on `(binding, subscript)` keys. */
  predicate KeyLe(a: (u32, u32), b: (u32, u32))
  {
    a.0 < b.0 || (a.0 == b.0 && a.1 <= b.1)
  }

  predicate SortedByKey<E>(s: seq<Entry<E>>)
  {
    forall i, j | 0 <= i < j < |s| :: KeyLe(Key(s[i]), Key(s[j]))
  }

  /** Inserts `x` after every entry whose key is not greater than its own,
      scanning from the right. */
  function InsertSorted<E>(s: seq<Entry<E>>, x: Entry<E>): seq<Entry<E>>
  {
    if s == [] || KeyLe(Key(s[|s| - 1]), Key(x)) then s + [x]
    else InsertSorted(s[..|s| - 1], x) + [s[|s| - 1]]
  }

  /** The stable sort by key: the insertion sort of the input. */
  function SortByKey<E>(s: seq<Entry<E>>): seq<Entry<E>>
  {
    if s == [] then [] else InsertSorted(SortByKey(s[..|s| - 1]), s[|s| - 1])
  }

  /** The entries of `s` with key `k`, in order. */
  function WithKey<E>(s: seq<Entry<E>>, k: (u32, u32)): seq<Entry<E>>
  {
    if s == [] then []
    else WithKey(s[..|s| - 1], k) + (if Key(s[|s| - 1]) == k then [s[|s| - 1]] else [])
  }

  // ---------------------------------------------------------------------
  // Insertion
  // ---------------------------------------------------------------------

  lemma {:induction false} InsertSortedPermutes<E>(s: seq<Entry<E>>, x: Entry<E>)
    ensures multiset(InsertSorted(s, x)) == multiset(s) + multiset{x}
  {
    if s != [] && !KeyLe(Key(s[|s| - 1]), Key(x)) {
      var n := |s| - 1;
      InsertSortedPermutes(s[..n], x);
      assert s == s[..n] + [s[n]];
    }
  }

  lemma {:induction false} InsertSortedSorted<E>(s: seq<Entry<E>>, x: Entry<E>)
    requires SortedByKey(s)
    ensures SortedByKey(InsertSorted(s, x))
  {
    if s != [] && !KeyLe(Key(s[|s| - 1]), Key(x)) {
      var n := |s| - 1;
      InsertSortedSorted(s[..n], x);
      InsertSortedPermutes(s[..n], x);
      var t := InsertSorted(s[..n], x);
      forall i | 0 <= i < |t|
        ensures KeyLe(Key(t[i]), Key(s[n]))
      {
        assert t[i] in multiset(s[..n]) + multiset{x};
        if t[i] != x {
          assert t[i] in s[..n];
        }
      }
    }
  }

  /** Insertion passes over entries with greater keys only, so it keeps the
      order of the entries sharing any one key. */
  lemma {:induction false} InsertSortedStable<E>(s: seq<Entry<E>>, x: Entry<E>, k: (u32, u32))
    ensures WithKey(InsertSorted(s, x), k) == WithKey(s, k) + (if Key(x) == k then [x] else [])
  {
    if s == [] || KeyLe(Key(s[|s| - 1]), Key(x)) {
      assert (s + [x])[..|s|] == s;
    } else {
      var n := |s| - 1;
      var t := InsertSorted(s[..n], x);
      InsertSortedStable(s[..n], x, k);
      assert (t + [s[n]])[..|t|] == t;
      assert Key(s[n]) == k ==> Key(x) != k;
    }
  }

  // ---------------------------------------------------------------------
  // The sort
  // ---------------------------------------------------------------------

  /** `SortByKey` sorts, permutes, and keeps equal keys in their order. */
  lemma {:induction false} SortByKeyFacts<E>(s: seq<Entry<E>>)
    ensures SortedByKey(SortByKey(s))
    ensures multiset(SortByKey(s)) == multiset(s)
    ensures forall k :: WithKey(SortByKey(s), k) == WithKey(s, k)
  {
    if s != [] {
      var n := |s| - 1;
      SortByKeyFacts(s[..n]);
      InsertSortedSorted(SortByKey(s[..n]), s[n]);
      InsertSortedPermutes(SortByKey(s[..n]), s[n]);
      assert s == s[..n] + [s[n]];
      forall k
        ensures WithKey(SortByKey(s), k) == WithKey(s, k)
      {
        InsertSortedStable(SortByKey(s[..n]), s[n], k);
      }
    }
  }

  /** One step of the insertion sort: `a[i]` moves left past the greater
      keys before it by swaps. */
  method InsertAt<E>(a: array<Entry<E>>, i: nat)
    requires i < a.Length
    modifies a
    ensures a[..i + 1] == InsertSorted(old(a[..i]), old(a[i]))
    ensures a[i + 1..] == old(a[i + 1..])
  {
    ghost var p := a[..i];
    ghost var x := a[i];
    var j := i;
    assert p[..j] == p && p[j..] == [];
    while j > 0 && !KeyLe(Key(a[j - 1]), Key(a[j]))
      invariant 0 <= j <= i
      invariant forall k | 0 <= k < j :: a[k] == p[k]
      invariant a[j] == x
      invariant forall k | j < k <= i :: a[k] == p[k - 1]
      invariant a[i + 1..] == old(a[i + 1..])
      invariant InsertSorted(p, x) == InsertSorted(p[..j], x) + p[j..]
    {
      InsertStep(p, x, j);
      a[j - 1], a[j] := a[j], a[j - 1];
      j := j - 1;
    }
    if j > 0 {
      assert a[j - 1] == p[j - 1];
      assert p[..j] + [x] == InsertSorted(p[..j], x);
    }
    assert a[..i + 1] == p[..j] + [x] + p[j..];
  }

  /** Moving `x` one place left past a greater key. */
  lemma {:induction false} InsertStep<E>(p: seq<Entry<E>>, x: Entry<E>, j: nat)
    requires 0 < j <= |p| && !KeyLe(Key(p[j - 1]), Key(x))
    requires InsertSorted(p, x) == InsertSorted(p[..j], x) + p[j..]
    ensures InsertSorted(p, x) == InsertSorted(p[..j - 1], x) + p[j - 1..]
  {
    assert p[..j][..j - 1] == p[..j - 1];
    assert InsertSorted(p[..j], x) == InsertSorted(p[..j - 1], x) + [p[j - 1]];
    assert p[j - 1..] == [p[j - 1]] + p[j..];
  }

  /** The in-place sort of the `fields` vector. */
  method SortEntries<E>(a: array<Entry<E>>)
    modifies a
    ensures a[..] == SortByKey(old(a[..]))
  {
    ghost var s := a[..];
    for i := 0 to a.Length
      invariant a[..i] == SortByKey(s[..i])
      invariant a[i..] == s[i..]
    {
      assert s[..i + 1][..i] == s[..i];
      assert a[i] == s[i];
      InsertAt(a, i);
      assert a[i + 1..] == s[i + 1..];
    }
    assert s[..a.Length] == s;
  }
}
