/** When every binding of the set written to is non-empty and no two of its
    bindings share a binding number, the checked and sorted writes meet
    `PairConditions`, so each `vk::WriteDescriptorSet` of the update stands
    for at most two writes. */
module WritePairs {
  import opened Outcomes
  import opened Types
  import opened Write
  import opened WriteSort
  import opened WriteCoalesce

  /** No two bindings of the set share a binding number. */
  predicate UniqueNumbers(bindings: seq<Binding>)
  {
    forall i, j | 0 <= i < j < |bindings| :: bindings[i].binding != bindings[j].binding
  }

  predicate NonEmpty(bindings: seq<Binding>)
  {
    forall b | b in bindings :: b.descriptorCount > 0
  }

  // ---------------------------------------------------------------------
  // Counting the entries of one key
  // ---------------------------------------------------------------------

  lemma {:induction false} WithKeyNone<E>(s: seq<Entry<E>>, k: (u32, u32))
    requires forall i | 0 <= i < |s| :: Key(s[i]) != k
    ensures WithKey(s, k) == []
  {
    if s != [] {
      var n := |s| - 1;
      assert forall i | 0 <= i < n :: s[..n][i] == s[i];
      WithKeyNone(s[..n], k);
    }
  }

  /** Distinct keys leave at most one entry per key. */
  lemma {:induction false} WithKeyAtMostOne<E>(s: seq<Entry<E>>, k: (u32, u32))
    requires forall i, j | 0 <= i < j < |s| :: Key(s[i]) != Key(s[j])
    ensures |WithKey(s, k)| <= 1
  {
    if s != [] {
      var n := |s| - 1;
      assert forall i | 0 <= i < n :: s[..n][i] == s[i];
      WithKeyAtMostOne(s[..n], k);
      if Key(s[n]) == k {
        WithKeyNone(s[..n], k);
      }
    }
  }

  lemma {:induction false} WithKeyHas<E>(s: seq<Entry<E>>, i: nat)
    requires i < |s|
    ensures |WithKey(s, Key(s[i]))| >= 1
  {
    var n := |s| - 1;
    if i < n {
      assert s[..n][i] == s[i];
      WithKeyHas(s[..n], i);
    }
  }

  /** Two positions with one key give that key two entries. */
  lemma {:induction false} WithKeyTwo<E>(s: seq<Entry<E>>, i: nat, j: nat)
    requires i < j < |s| && Key(s[i]) == Key(s[j])
    ensures |WithKey(s, Key(s[j]))| >= 2
  {
    var n := |s| - 1;
    assert s[..n][i] == s[i];
    if j == n {
      WithKeyHas(s[..n], i);
    } else {
      assert s[..n][j] == s[j];
      WithKeyTwo(s[..n], i, j);
    }
  }

  /** Sorting keeps keys distinct, and a sorted sequence of distinct keys
      is strictly increasing. */
  lemma {:induction false} SortedStrictly<E>(es: seq<Entry<E>>)
    requires forall i, j | 0 <= i < j < |es| :: Key(es[i]) != Key(es[j])
    ensures forall i, j | 0 <= i < j < |SortByKey(es)| :: KeyLt(Key(SortByKey(es)[i]), Key(SortByKey(es)[j]))
  {
    var s := SortByKey(es);
    SortByKeyFacts(es);
    forall i, j | 0 <= i < j < |s|
      ensures KeyLt(Key(s[i]), Key(s[j]))
    {
      if Key(s[i]) == Key(s[j]) {
        WithKeyTwo(s, i, j);
        WithKeyAtMostOne(es, Key(s[j]));
        assert false;
      }
    }
  }

  // ---------------------------------------------------------------------
  // From the checks to the pair conditions
  // ---------------------------------------------------------------------

  /** Every sorted entry comes from the checks: its binding is one of the
      set's and it starts inside it. */
  lemma {:induction false} SortedFromChecks<E>(fields: seq<WriteField<E>>, bindings: seq<Binding>, es: seq<Entry<E>>)
    requires CheckedFields(fields, bindings) == Ok(es) && NonEmpty(bindings)
    ensures forall e | e in SortByKey(es) :: e.binding in bindings && InBounds(e)
    ensures forall i, j | 0 <= i < j < |es| :: Key(es[i]) != Key(es[j])
  {
    CheckedAfterFacts(fields, bindings);
    SortByKeyFacts(es);
    forall e | e in SortByKey(es)
      ensures e.binding in bindings && InBounds(e)
    {
      assert e in multiset(SortByKey(es));
      assert e in es;
      var k :| 0 <= k < |es| && es[k] == e;
      assert BindingNamed(bindings, fields[k].name) == Some(e.binding);
    }
  }

  /** The checked and sorted writes of a set with non-empty bindings and
      unique binding numbers meet `PairConditions`. */
  lemma {:induction false} CheckedSortedPairs<E>(fields: seq<WriteField<E>>, bindings: seq<Binding>, es: seq<Entry<E>>)
    requires CheckedFields(fields, bindings) == Ok(es)
    requires NonEmpty(bindings) && UniqueNumbers(bindings)
    ensures PairConditions(SortByKey(es))
  {
    var s := SortByKey(es);
    SortedFromChecks(fields, bindings, es);
    SortedStrictly(es);
    forall i | 0 <= i < |s|
      ensures InBounds(s[i])
    {
      assert s[i] in s;
    }
    forall i, j | 0 <= i < |s| && 0 <= j < |s| && s[i].binding.binding == s[j].binding.binding
      ensures s[i].binding == s[j].binding
    {
      assert s[i] in s && s[j] in s;
      var a :| 0 <= a < |bindings| && bindings[a] == s[i].binding;
      var b :| 0 <= b < |bindings| && bindings[b] == s[j].binding;
      assert a == b;
    }
  }

  /** Each record of such an update stands for at most two writes. */
  lemma {:induction false} UpdateAtMostTwo<E>(fields: seq<WriteField<E>>, bindings: seq<Binding>, es: seq<Entry<E>>)
    requires CheckedFields(fields, bindings) == Ok(es)
    requires NonEmpty(bindings) && UniqueNumbers(bindings)
    requires Coalesce(SortByKey(es)).Ok?
    ensures forall G | G in Groups(SortByKey(es)) :: |G| <= 2
  {
    CheckedSortedPairs(fields, bindings, es);
    AtMostTwoPerRun(SortByKey(es));
  }
}
