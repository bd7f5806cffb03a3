/** Comparison of two checklists: which URLs changed between them. */
module DiffEngine {
  import opened Pages

  /** URLs present in both maps with the same digest. */
  function Agreeing(first: PageMap, second: PageMap): set<Url> {
    set k | k in first && k in second && first[k] == second[k]
  }

  /** The differences between `first` and `second`, as set algebra: the
      entries of `first` that `second` does not agree with, plus the entries
      of `second` whose URL `first` lacks. The ensures clauses give the same
      map key by key: a URL is reported when it is in one map only or has
      different digests in the two, and its digest comes from `first`
      whenever `first` has it. */
  function Diff(first: PageMap, second: PageMap): (r: PageMap)
    ensures forall k :: k in r <==>
      (k in first || k in second) && !(k in first && k in second && first[k] == second[k])
    ensures forall k :: k in r && k in first ==> r[k] == first[k]
    ensures forall k :: k in r && k !in first ==> r[k] == second[k]
  {
    (first - Agreeing(first, second)) + (second - first.Keys)
  }

  /** Comparing a checklist with itself reports nothing. */
  lemma DiffOfSelfIsEmpty(a: PageMap)
    ensures Diff(a, a) == map[]
  {
    assert Diff(a, a).Keys == {};
  }

  /** Nothing is reported exactly when the two checklists are equal. */
  lemma DiffEmptyIffEqual(a: PageMap, b: PageMap)
    ensures Diff(a, b) == map[] <==> a == b
  {
    if Diff(a, b) == map[] {
      forall k | k in a
        ensures k in b && a[k] == b[k]
      {
        assert k !in Diff(a, b);
      }
      forall k | k in b
        ensures k in a
      {
        assert k !in Diff(a, b);
      }
      assert a.Keys == b.Keys;
    } else if a == b {
      DiffOfSelfIsEmpty(a);
    }
  }

  /** Both directions of a comparison report the same URLs; only the digests
      differ, each taken from the map given first. */
  lemma DiffKeysSymmetric(a: PageMap, b: PageMap)
    ensures Diff(a, b).Keys == Diff(b, a).Keys
    ensures forall k :: k in a && k in b && k in Diff(a, b) ==>
      Diff(a, b)[k] == a[k] && Diff(b, a)[k] == b[k] && a[k] != b[k]
  {
    assert forall k :: k in Diff(a, b) <==> k in Diff(b, a);
  }

  /** Checklists with no URL in common differ everywhere: the result is their
      union, each digest from the map that holds it. */
  lemma DiffOfDisjoint(a: PageMap, b: PageMap)
    requires a.Keys !! b.Keys
    ensures Diff(a, b) == a + b
  {
    assert Diff(a, b).Keys == (a + b).Keys;
  }

  /** When both checklists track the same URLs, the comparison reports
      exactly the URLs whose digest changed, each with the digest of `current`,
      and never more entries than there are URLs. */
  lemma DiffOfSameKeys(current: PageMap, stored: PageMap)
    requires current.Keys == stored.Keys
    ensures Diff(current, stored) == map k | k in stored && current[k] != stored[k] :: current[k]
    ensures |Diff(current, stored)| <= |stored|
  {
    var d := Diff(current, stored);
    assert d.Keys == set k | k in stored && current[k] != stored[k];
    SubsetCardinality(d.Keys, stored.Keys);
    assert |d| == |d.Keys| && |stored| == |stored.Keys|;
  }

  lemma {:induction false} SubsetCardinality<T>(s: set<T>, t: set<T>)
    requires s <= t
    ensures |s| <= |t|
  {
    if s != {} {
      var x :| x in s;
      SubsetCardinality(s - {x}, t - {x});
    }
  }
}
