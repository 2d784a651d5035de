/** When the overlap of two tables, done by compressing their concatenation, is what
a loop of setn or mergen over the second table does. */
module OverlapSpec {
  import opened CStrings
  import opened TableSpec

  function Count(es: seq<Pair>, key: CString): nat {
    if es == [] then 0
    else Count(es[1..], key) + if CaseEq(es[0].key, key) then 1 else 0
  }

  /** No two case-equal keys. */
  ghost predicate Distinct(es: seq<Pair>) {
    forall key: CString :: Count(es, key) <= 1
  }

  predicate Checked(es: seq<Pair>) {
    forall i :: 0 <= i < |es| ==> es[i].checksum == Checksum(es[i].key)
  }

  lemma {:induction false} CountAppend(a: seq<Pair>, b: seq<Pair>, key: CString)
    ensures Count(a + b, key) == Count(a, key) + Count(b, key)
  {
    if a == [] {
      assert a + b == b;
    } else {
      assert (a + b)[1..] == a[1..] + b;
      CountAppend(a[1..], b, key);
    }
  }

  lemma {:induction false} CountIsHas(es: seq<Pair>, key: CString)
    ensures Has(es, key) <==> Count(es, key) > 0
  {
    if es == [] {
    } else {
      CountIsHas(es[1..], key);
      if Has(es[1..], key) {
        var i :| 0 <= i < |es[1..]| && CaseEq(es[1..][i].key, key);
        assert es[i + 1] == es[1..][i];
      }
      if Has(es, key) && !CaseEq(es[0].key, key) {
        var i :| 0 <= i < |es| && CaseEq(es[i].key, key);
        assert es[1..][i - 1] == es[i];
      }
    }
  }

  lemma {:induction false} CountWithout(es: seq<Pair>, key: CString, k: CString)
    ensures Count(Without(es, key), k) == if CaseEq(key, k) then 0 else Count(es, k)
  {
    if es == [] {
    } else {
      CountWithout(es[1..], key, k);
      if CaseEq(es[0].key, key) && CaseEq(key, k) { CaseEqTransitive(es[0].key, key, k); }
      if CaseEq(es[0].key, key) && CaseEq(es[0].key, k) { CaseEqTransitive(key, es[0].key, k); }
      if CaseEq(es[0].key, k) && CaseEq(key, k) { CaseEqTransitive(es[0].key, k, key); }
      if !CaseEq(es[0].key, key) { assert ([es[0]] + Without(es[1..], key))[1..] == Without(es[1..], key); }
    }
  }

  /** A set leaves one pair of its key, a merge adds one only when there was none. */
  lemma {:induction false} CountPut(es: seq<Pair>, e: Pair, merge: bool, k: CString)
    ensures Count(Put(es, e, merge), k) ==
            if !CaseEq(e.key, k) then Count(es, k)
            else if merge && Count(es, k) > 0 then Count(es, k)
            else 1
  {
    if es == [] {
      assert [New(e.key, e.val)][1..] == [];
    } else {
      var t := es[1..];
      if CaseEq(es[0].key, e.key) {
        CountWithout(t, e.key, k);
        var h := es[0].(val := if merge then Join(es[0].val, e.val) else e.val);
        assert ([h] + t)[1..] == t && ([h] + Without(t, e.key))[1..] == Without(t, e.key);
        if CaseEq(e.key, k) { CaseEqTransitive(es[0].key, e.key, k); }
        if CaseEq(es[0].key, k) { CaseEqTransitive(e.key, es[0].key, k); }
      } else {
        CountPut(t, e, merge, k);
        assert ([es[0]] + Put(t, e, merge))[1..] == Put(t, e, merge);
      }
    }
  }

  lemma {:induction false} CountLoop(a: seq<Pair>, b: seq<Pair>, merge: bool, k: CString)
    ensures Count(Loop(a, b, merge), k) ==
            if Count(b, k) == 0 then Count(a, k)
            else if merge && Count(a, k) > 0 then Count(a, k)
            else 1
    decreases |b|
  {
    if b == [] {
    } else {
      CountLoop(Put(a, b[0], merge), b[1..], merge, k);
      CountPut(a, b[0], merge, k);
    }
  }

  /** A table without duplicates is left alone. */
  lemma {:induction false} LoopDistinct(es: seq<Pair>, m: nat, merge: bool)
    requires m <= |es| && Distinct(es) && Checked(es)
    ensures Loop([], es[..m], merge) == es[..m]
    decreases m
  {
    if m == 0 {
    } else {
      var n := m - 1;
      var done, e := es[..n], es[n];
      LoopDistinct(es, n, merge);
      assert es[..m] == done + [e];
      LoopSnoc([], done, e, merge);
      assert es == done + es[n..];
      CountAppend(done, es[n..], e.key);
      CountIsHas(done, e.key);
      assert done[..n] == done;
      SetAt(done, n, e.key, e.val);
    }
  }

  /** APR_OVERLAP_TABLES_MERGE: the overlap is the loop iff `a` has no duplicates. */
  lemma OverlapMergeIsLoop(a: seq<Pair>, b: seq<Pair>)
    requires Checked(a)
    ensures Loop([], a + b, true) == Loop(a, b, true) <==> Distinct(a)
  {
    LoopAppend([], a, b, true);
    if Distinct(a) {
      assert a[..|a|] == a;
      LoopDistinct(a, |a|, true);
    } else {
      var k: CString :| Count(a, k) > 1;
      CountLoop([], a + b, true, k);
      CountLoop(a, b, true, k);
    }
  }

  // ---------- collapsing duplicates by overwriting ----------

  function LastVal(es: seq<Pair>, key: CString, none: CString): CString {
    if es == [] then none
    else LastVal(es[1..], key, if CaseEq(es[0].key, key) then es[0].val else none)
  }

  /** Every first pair of a key with the last value of that key. */
  function Collapse(es: seq<Pair>): seq<Pair>
    decreases |es|
  {
    if es == [] then []
    else [es[0].(val := LastVal(es[1..], es[0].key, es[0].val))] + Collapse(Without(es[1..], es[0].key))
  }

  lemma {:induction false} CountCollapse(es: seq<Pair>, k: CString)
    ensures Count(Collapse(es), k) == if Count(es, k) > 0 then 1 else 0
    decreases |es|
  {
    if es == [] {
    } else {
      var e, rest := es[0], Without(es[1..], es[0].key);
      CountCollapse(rest, k);
      CountWithout(es[1..], e.key, k);
      assert Collapse(es)[1..] == Collapse(rest);
    }
  }

  lemma AbsentAfterCollapse(es: seq<Pair>, key: CString)
    requires Count(es, key) == 0
    ensures Without(Collapse(es), key) == Collapse(es)
  {
    CountCollapse(es, key);
    CountIsHas(Collapse(es), key);
    WithoutAbsent(Collapse(es), key);
  }

  lemma {:induction false} WithoutCaseEq(es: seq<Pair>, a: CString, b: CString)
    requires CaseEq(a, b)
    ensures Without(es, a) == Without(es, b)
  {
    if es == [] {
    } else {
      WithoutCaseEq(es[1..], a, b);
      if CaseEq(es[0].key, a) { CaseEqTransitive(es[0].key, a, b); }
      if CaseEq(es[0].key, b) { CaseEqTransitive(a, b, es[0].key); CaseEqTransitive(es[0].key, b, a); }
    }
  }

  lemma {:induction false} LastValAppend(a: seq<Pair>, b: seq<Pair>, key: CString, none: CString)
    ensures LastVal(a + b, key, none) == LastVal(b, key, LastVal(a, key, none))
  {
    if a == [] {
      assert a + b == b;
    } else {
      assert (a + b)[1..] == a[1..] + b;
      LastValAppend(a[1..], b, key, if CaseEq(a[0].key, key) then a[0].val else none);
    }
  }

  lemma {:induction false} LastValAbsent(es: seq<Pair>, key: CString, none: CString)
    requires Count(es, key) == 0
    ensures LastVal(es, key, none) == none
  {
    if es == [] {
    } else {
      LastValAbsent(es[1..], key, none);
    }
  }

  lemma {:induction false} LastValOtherSet(es: seq<Pair>, key: CString, val: CString, k: CString, none: CString)
    requires !CaseEq(key, k)
    ensures LastVal(Set(es, key, val), k, none) == LastVal(es, k, none)
    ensures LastVal(Without(es, key), k, none) == LastVal(es, k, none)
  {
    if es == [] {
      assert [New(key, val)][1..] == [];
    } else {
      var t := es[1..];
      var none' := if CaseEq(es[0].key, k) then es[0].val else none;
      LastValOtherSet(t, key, val, k, none');
      if CaseEq(es[0].key, key) {
        assert ([es[0].(val := val)] + Without(t, key))[1..] == Without(t, key);
      } else {
        assert ([es[0]] + Set(t, key, val))[1..] == Set(t, key, val);
        assert ([es[0]] + Without(t, key))[1..] == Without(t, key);
      }
    }
  }

  lemma {:induction false} WithoutOtherSet(es: seq<Pair>, key: CString, val: CString, k: CString)
    requires !CaseEq(key, k)
    ensures Without(Set(es, key, val), k) == Set(Without(es, k), key, val)
  {
    if es == [] {
      assert [New(key, val)][1..] == [];
    } else {
      var t := es[1..];
      if CaseEq(es[0].key, key) {
        assert ([es[0].(val := val)] + Without(t, key))[1..] == Without(t, key);
        WithoutSwap(t, key, k);
        assert ([es[0]] + Without(t, k))[1..] == Without(t, k);
      } else {
        WithoutOtherSet(t, key, val, k);
        assert ([es[0]] + Set(t, key, val))[1..] == Set(t, key, val);
        assert ([es[0]] + Without(t, k))[1..] == Without(t, k);
      }
    }
  }

  lemma {:induction false} WithoutSwap(es: seq<Pair>, a: CString, b: CString)
    ensures Without(Without(es, a), b) == Without(Without(es, b), a)
  {
    if es == [] {
    } else {
      WithoutSwap(es[1..], a, b);
      assert ([es[0]] + Without(es[1..], a))[1..] == Without(es[1..], a);
      assert ([es[0]] + Without(es[1..], b))[1..] == Without(es[1..], b);
    }
  }

  /** Collapsing and setting can be exchanged. */
  lemma {:induction false} CollapseSet(es: seq<Pair>, key: CString, val: CString)
    ensures Collapse(Set(es, key, val)) == Set(Collapse(es), key, val)
    decreases |es|
  {
    if es == [] {
      assert [New(key, val)][1..] == [];
    } else if CaseEq(es[0].key, key) {
      CollapseSetHead(es, key, val);
    } else {
      var e, t := es[0], es[1..];
      var rest := Without(t, e.key);
      CollapseSet(rest, key, val);
      WithoutOtherSet(t, key, val, e.key);
      LastValOtherSet(t, key, val, e.key, e.val);
      assert ([e] + Set(t, key, val))[1..] == Set(t, key, val);
      assert Collapse(es)[1..] == Collapse(rest);
    }
  }

  lemma CollapseSetHead(es: seq<Pair>, key: CString, val: CString)
    requires es != [] && CaseEq(es[0].key, key)
    ensures Collapse(Set(es, key, val)) == Set(Collapse(es), key, val)
  {
    var e, t := es[0], es[1..];
    var rest, h := Without(t, key), e.(val := val);
    WithoutCaseEq(t, e.key, key);
    CaseEqTransitive(e.key, key, key);
    CountWithout(t, key, key);
    CountWithout(t, key, e.key);
    AbsentAfterCollapse(rest, key);
    LastValAbsent(rest, e.key, val);
    CountIsHas(rest, e.key);
    WithoutAbsent(rest, e.key);
    assert ([h] + rest)[1..] == rest;
    assert Collapse(es)[1..] == Collapse(rest);
  }

  lemma {:induction false} CollapseSnoc(es: seq<Pair>, e: Pair)
    requires e.checksum == Checksum(e.key)
    ensures Collapse(es + [e]) == Set(Collapse(es), e.key, e.val)
    decreases |es|
  {
    assert [e][1..] == [];
    if es == [] {
      assert es + [e] == [e];
    } else {
      var h, t := es[0], es[1..];
      assert (es + [e])[1..] == t + [e];
      WithoutAppend(t, [e], h.key);
      LastValAppend(t, [e], h.key, h.val);
      var rest := Without(t, h.key);
      assert Collapse(es)[1..] == Collapse(rest);
      if CaseEq(e.key, h.key) {
        CaseEqTransitive(e.key, h.key, h.key);
        CaseEqTransitive(h.key, h.key, e.key);
        CountWithout(t, h.key, e.key);
        AbsentAfterCollapse(rest, e.key);
        assert rest + [] == rest;
      } else {
        CollapseSnoc(rest, e);
        var none: seq<Pair> := [];
        assert Without([e], h.key) == [e] + none == [e];
        assert Collapse(es + [e]) == [h.(val := LastVal(t, h.key, h.val))] + Collapse(rest + [e]);
      }
    }
  }

  lemma {:induction false} CollapseIsLoop(es: seq<Pair>, m: nat)
    requires m <= |es| && Checked(es)
    ensures Collapse(es[..m]) == Loop([], es[..m], false)
    decreases m
  {
    if m == 0 {
    } else {
      CollapseIsLoop(es, m - 1);
      assert es[..m] == es[..m - 1] + [es[m - 1]];
      CollapseSnoc(es[..m - 1], es[m - 1]);
      LoopSnoc([], es[..m - 1], es[m - 1], false);
    }
  }

  lemma {:induction false} CollapseLoop(a: seq<Pair>, b: seq<Pair>)
    ensures Collapse(Loop(a, b, false)) == Loop(Collapse(a), b, false)
    decreases |b|
  {
    if b == [] {
    } else {
      CollapseSet(a, b[0].key, b[0].val);
      CollapseLoop(Put(a, b[0], false), b[1..]);
    }
  }

  lemma {:induction false} CollapseDistinct(es: seq<Pair>)
    requires forall k: CString :: Count(es, k) <= 1
    ensures Collapse(es) == es
  {
    if es == [] {
    } else {
      var e, t := es[0], es[1..];
      forall k: CString ensures Count(t, k) <= 1 { assert Count(es, k) <= 1; }
      CollapseDistinct(t);
      assert CaseEq(e.key, e.key) && Count(es, e.key) <= 1;
      assert Count(t, e.key) == 0;
      CountIsHas(t, e.key);
      WithoutAbsent(t, e.key);
      LastValAbsent(t, e.key, e.val);
    }
  }

  /** APR_OVERLAP_TABLES_SET: the overlap is the loop iff every key that occurs more
      than once in `a` also occurs in `b`. */
  lemma OverlapSetIsLoop(a: seq<Pair>, b: seq<Pair>)
    requires Checked(a)
    ensures Loop([], a + b, false) == Loop(a, b, false) <==>
            forall k: CString :: Count(a, k) > 1 ==> Has(b, k)
  {
    LoopAppend([], a, b, false);
    assert a[..|a|] == a;
    CollapseIsLoop(a, |a|);
    CollapseLoop(a, b);
    var x := Loop(a, b, false);
    assert Loop([], a + b, false) == Collapse(x);
    forall k: CString
      ensures Count(x, k) <= 1 <==> (Count(a, k) > 1 ==> Has(b, k))
      ensures Count(Collapse(x), k) <= 1
    {
      CountLoop(a, b, false, k);
      CountIsHas(b, k);
      CountCollapse(x, k);
    }
    if forall k: CString :: Count(x, k) <= 1 {
      CollapseDistinct(x);
    }
  }

  /** The case the header has in mind: no duplicates in `a`. */
  lemma OverlapOfDistinctIsLoop(a: seq<Pair>, b: seq<Pair>, merge: bool)
    requires Checked(a) && Distinct(a)
    ensures Loop([], a + b, merge) == Loop(a, b, merge)
  {
    if merge { OverlapMergeIsLoop(a, b); } else { OverlapSetIsLoop(a, b); }
  }

  /** With duplicates in `a` the two differ: the loop over an empty table keeps them,
      the overlap does not. */
  lemma OverlapWithDuplicatesDiffers(merge: bool)
    ensures var a: seq<Pair> := [New("k", "1"), New("K", "2")];
            Loop(a, [], merge) == a && |Loop([], a + [], merge)| == 1
  {
    var x, y := New("k", "1"), New("K", "2");
    var a: seq<Pair> := [x, y];
    var none: seq<Pair> := [];
    assert a + none == [x] + [y];
    LoopSnoc([], [x], y, merge);
    LoopSnoc([], [], x, merge);
    assert none + [x] == [x];
    assert Loop(none, [x], merge) == [x];
    assert CaseEq(x.key, y.key);
    assert [x][1..] == none;
  }
}

/** apr_table_cat, apr_table_compress, apr_table_overlap */
module TableOverlap {
  import opened CStrings
  import opened TableSpec
  import opened StableSort
  import opened TableSort
  import opened CompressSpec
  import opened Tables
  import opened OverlapSpec

  const APR_OVERLAP_TABLES_MERGE := 1

  /** apr_array_cat: room for all rows, doubling the allocation, and one copy. */
  method ArrayCat(t: Table, s: Table)
    requires t.nelts <= t.elts.Length && s.nelts <= s.elts.Length && t != s && t.elts != s.elts
    modifies t`elts, t`nelts, t.elts
    ensures t.elts == old(t.elts) || fresh(t.elts)
    ensures t.nelts <= t.elts.Length && t.elts[..t.nelts] == old(t.elts[..t.nelts]) + s.elts[..s.nelts]
  {
    ghost var mine, theirs := t.elts[..t.nelts], s.elts[..s.nelts];
    if t.nelts + s.nelts > t.elts.Length {
      var newSize := if t.elts.Length <= 0 then 1 else t.elts.Length * 2;
      while t.nelts + s.nelts > newSize
        invariant newSize > 0 && newSize >= t.elts.Length
        decreases t.nelts + s.nelts - newSize
      {
        newSize := newSize * 2;
      }
      var grown := new Elt[newSize](_ => Hole);
      forall i | 0 <= i < t.elts.Length { grown[i] := t.elts[i]; }
      t.elts := grown;
    }
    assert t.elts[..t.nelts] == mine;
    forall i | 0 <= i < s.nelts { t.elts[t.nelts + i] := s.elts[i]; }
    t.nelts := t.nelts + s.nelts;
    assert t.elts[..t.nelts] == mine + theirs;
  }

  /** The slot of a concatenation from the slots of its parts. */
  lemma SlotOfCat(a: seq<Elt>, b: seq<Elt>, h: nat, ua: bool, fa: nat, la: nat, ub: bool, fb: nat, lb: nat)
    requires SlotOk(a, h, ua, fa, la) && SlotOk(b, h, ub, fb, lb)
    ensures SlotOk(a + b, h, ua || ub, if ua then fa else fb + |a|, if ub then lb + |a| else la)
  {
    var s := a + b;
    forall i | 0 <= i < |s| && HashesTo(s[i], h)
      ensures i < |a| ==> HashesTo(a[i], h)
      ensures i >= |a| ==> HashesTo(b[i - |a|], h)
    {
    }
  }

  /** apr_table_cat: appends the rows of `s` and extends the index without rehashing. */
  method Cat(t: Table, s: Table)
    requires t.Valid() && s.Valid() && t != s && t.elts != s.elts
    modifies t, t.elts
    ensures t.Valid() && s.Valid() && s.Contents() == old(s.Contents())
    ensures t.elts == old(t.elts) || fresh(t.elts)
    ensures t.Contents() == old(t.Contents()) + s.Contents()
  {
    var n := t.nelts;
    ghost var a, b := t.Contents(), s.Contents();
    ArrayCat(t, s);
    if n == 0 {
      t.first, t.last, t.used := s.first, s.last, s.used;
      assert a + b == b;
      return;
    }
    t.used, t.first, t.last := CatIndex(a, b, n, t.used, t.first, t.last, s.used, s.first, s.last);
  }

  /** Shifts the index of the appended rows by `n`; a slot already in use keeps its
      first row. */
  method CatIndex(ghost a: seq<Elt>, ghost b: seq<Elt>, n: nat, used0: seq<bool>, first0: seq<nat>, last0: seq<nat>,
                  usedB: seq<bool>, firstB: seq<nat>, lastB: seq<nat>)
    returns (used: seq<bool>, first: seq<nat>, last: seq<nat>)
    requires Indexed(a, used0, first0, last0) && Indexed(b, usedB, firstB, lastB) && n == |a|
    ensures Indexed(a + b, used, first, last)
  {
    first, last := first0, last0;
    used := seq(SLOTS, h requires 0 <= h < SLOTS && |used0| == |usedB| == SLOTS => used0[h] || usedB[h]);
    var idx := 0;
    while idx < SLOTS
      invariant 0 <= idx <= SLOTS && |first| == |last| == SLOTS
      invariant forall h :: 0 <= h < idx ==> SlotOk(a + b, h, used[h], first[h], last[h])
      invariant forall h :: idx <= h < SLOTS ==> first[h] == first0[h] && last[h] == last0[h]
    {
      SlotOfCat(a, b, idx, used0[idx], first0[idx], last0[idx], usedB[idx], firstB[idx], lastB[idx]);
      if usedB[idx] {
        last := last[idx := lastB[idx] + n];
        if !used0[idx] {
          first := first[idx := firstB[idx] + n];
        }
      }
      idx := idx + 1;
    }
  }

  // ---------- duplicates ----------

  /** `v` lists every row once, in key order, alike rows in table order. */
  ghost predicate SortedRows(es: seq<Pair>, v: seq<nat>) {
    && Pointers(es, v) && |v| == |es|
    && Sorted(Rank(es), v) && StablePermutation(Rank(es), Upto(|es|), v)
  }

  lemma RankRanksKeys(es: seq<Pair>)
    ensures RanksKeys(es, Rank(es))
  {
    var rank := Rank(es);
    forall x: nat, y: nat {:trigger rank(x), rank(y)} | x < |es| && y < |es|
      ensures rank(x) == rank(y) <==> CaseEq(es[x].key, es[y].key)
    {
      RankIsCompare(es, x, y);
    }
  }

  lemma SortedAt(rank: nat -> int, v: seq<nat>, i: nat, j: nat)
    requires Sorted(rank, v) && i <= j < |v|
    ensures rank(v[i]) <= rank(v[j])
  {
    if i > 0 {
      SortedAt(rank, v[1..], i - 1, j - 1);
    } else if j > 0 {
      assert v[1..][j - 1] == v[j];
    }
  }

  /** The rows `lo..hi` of the sorted list are a whole group of case-equal keys. */
  ghost predicate IsGroup(rank: nat -> int, v: seq<nat>, lo: nat, hi: nat) {
    && lo < hi <= |v|
    && (forall q :: lo <= q < hi ==> rank(v[q]) == rank(v[lo]))
    && (lo > 0 ==> rank(v[lo - 1]) != rank(v[lo]))
    && (hi < |v| ==> rank(v[hi]) != rank(v[lo]))
  }

  lemma GroupIsSlice(rank: nat -> int, v: seq<nat>, lo: nat, hi: nat)
    requires Sorted(rank, v) && IsGroup(rank, v, lo, hi)
    ensures Alike(rank, v, rank(v[lo])) == v[lo..hi]
  {
    hide Sorted, Alike;
    var x, y, z, k := v[..lo], v[lo..hi], v[hi..], rank(v[lo]);
    assert v == x + (y + z);
    forall q | 0 <= q < lo ensures rank(v[q]) != k {
      SortedAt(rank, v, q, lo - 1);
      SortedAt(rank, v, lo - 1, lo);
    }
    forall q | hi <= q < |v| ensures rank(v[q]) != k {
      SortedAt(rank, v, hi, q);
      SortedAt(rank, v, lo, hi);
    }
    forall q | 0 <= q < |z| ensures rank(z[q]) != k { assert z[q] == v[hi + q]; }
    AlikeNone(rank, x, k);
    AlikeNone(rank, z, k);
    AlikeAll(rank, y, k);
    AlikeAppend(rank, x, y + z, k);
    AlikeAppend(rank, y, z, k);
  }

  /** In a group the first row of the table comes first; the others are duplicates. */
  lemma GroupFinal(es: seq<Pair>, v: seq<nat>, lo: nat, hi: nat, q: nat, merge: bool)
    requires SortedRows(es, v) && IsGroup(Rank(es), v, lo, hi) && lo <= q < hi
    ensures Final(es, Rank(es), |es|, v[q], merge) ==
            if q == lo then es[v[lo]].(val := Combined(es, v[lo..hi], merge)) else Hole
  {
    hide CaseEq, Checksum, Rank, Alike, Sorted, Combined;
    var rank := Rank(es);
    GroupIsSlice(rank, v, lo, hi);
    GroupMembers(rank, |es|, v[q]);
    var g := Group(rank, |es|, v[q]);
    assert g == v[lo..hi] && g[q - lo] == v[q] && g[0] == v[lo];
    if q == lo {
      forall j: nat | j < v[lo] ensures rank(j) != rank(v[lo]) {
      }
    } else {
      assert g[0] < g[q - lo];
      assert !IsFirst(rank, v[q]);
    }
  }

  lemma EachRowOnce(es: seq<Pair>, v: seq<nat>)
    requires SortedRows(es, v)
    ensures forall p, q :: 0 <= p < q < |v| ==> v[p] != v[q]
    ensures forall i: nat :: i < |es| ==> i in v
  {
    StablePermutationPermutes(Rank(es), Upto(|es|), v);
    var u := Upto(|es|);
    forall i: nat | i < |es| ensures i in v {
      assert u[i] in u;
      assert i in multiset(u);
    }
    forall p, q | 0 <= p < q < |v| ensures v[p] != v[q] {
      if v[p] == v[q] {
        var x := v[p];
        assert v == v[..p] + [x] + v[p + 1..q] + [x] + v[q + 1..];
        assert multiset(v)[x] >= 2;
        UptoOnce(|es|, x);
        assert false;
      }
    }
  }

  lemma {:induction false} UptoOnce(n: nat, x: nat)
    ensures multiset(Upto(n))[x] <= 1
    ensures multiset(Upto(n))[x] == 1 ==> x < n
  {
    if n == 0 {
    } else {
      UptoOnce(n - 1, x);
      assert Upto(n) == Upto(n - 1) + [n - 1];
    }
  }

  /** Row `i` of the table when the duplicates are gone. */
  ghost function Done(es: seq<Pair>, i: nat, merge: bool): Elt
    requires i < |es|
  {
    Final(es, Rank(es), |es|, i, merge)
  }

  /** The walk over the sorted rows: everything before `last` is done; `last` is the
      first row of its group, which is done up to `next` or not begun. */
  ghost predicate Walking(es: seq<Pair>, s: seq<Elt>, v: seq<nat>, last: nat, next: nat, merge: bool)
    requires SortedRows(es, v)
  {
    && last < next <= |v| && |es| <= |s|
    && (forall q :: next <= q < |v| ==> s[v[q]] == es[v[q]])
    && (forall q :: 0 <= q < last ==> s[v[q]] == Done(es, v[q], merge))
    && (last > 0 ==> Rank(es)(v[last - 1]) != Rank(es)(v[last]))
    && (if next == last + 1 then s[v[last]] == es[v[last]]
        else IsGroup(Rank(es), v, last, next) && forall q :: last <= q < next ==> s[v[q]] == Done(es, v[q], merge))
  }

  lemma LoneRow(es: seq<Pair>, s: seq<Elt>, v: seq<nat>, last: nat, next: nat, merge: bool)
    requires SortedRows(es, v) && Walking(es, s, v, last, next, merge)
    requires next < |v| ==> Rank(es)(v[next]) != Rank(es)(v[last])
    ensures forall q :: last <= q < next ==> s[v[q]] == Done(es, v[q], merge)
  {
    hide CaseEq, Checksum, Rank, Alike;
    if next == last + 1 {
      GroupFinal(es, v, last, next, last, merge);
      assert v[last..next] == [v[last]];
    }
  }

  /** Keys at the head of the group and at another row: the checksum test and
      strcasecmp. */
  method SameKey(ghost es: seq<Pair>, elts: array<Elt>, x: nat, y: nat) returns (same: bool)
    requires x < elts.Length && y < elts.Length && x < |es| && y < |es| && Rows(es)
    requires elts[x] == es[x] && elts[y].Elt? && elts[y].key == es[y].key && elts[y].checksum == es[y].checksum
    ensures same <==> Rank(es)(x) == Rank(es)(y)
  {
    RankIsCompare(es, x, y);
    if CaseEq(es[x].key, es[y].key) { CaseEqKeysShareIndex(es[x].key, es[y].key); }
    same := elts[x].checksum == elts[y].checksum && CaseEq(elts[x].key, elts[y].key);
  }

  /** The end of the group that begins at `last` and contains `next`. */
  method FindGroupEnd(ghost es: seq<Pair>, elts: array<Elt>, v: array<nat>, last: nat, next: nat) returns (end: nat)
    requires Rows(es) && |es| <= elts.Length && SortedRows(es, v[..])
    requires last < next < v.Length && next == last + 1 && Rank(es)(v[next]) == Rank(es)(v[last])
    requires last > 0 ==> Rank(es)(v[last - 1]) != Rank(es)(v[last])
    requires forall q :: last <= q < v.Length ==> elts[v[q]] == es[v[q]]
    ensures next < end <= v.Length && IsGroup(Rank(es), v[..], last, end)
  {
    hide CaseEq, Checksum, Rank, Alike, Sorted;
    end := next + 1;
    while end < v.Length
      invariant next < end <= v.Length
      invariant forall q :: last <= q < end ==> Rank(es)(v[q]) == Rank(es)(v[last])
    {
      var same := SameKey(es, elts, v[end], v[last]);
      if !same { break; }
      end := end + 1;
    }
  }

  function TotalLen(es: seq<Pair>, g: seq<nat>): nat {
    if g == [] then 0 else TotalLen(es, g[..|g| - 1]) + |ValAt(es, g[|g| - 1])| + 2
  }

  lemma {:induction false} JoinedFits(es: seq<Pair>, g: seq<nat>)
    requires g != []
    ensures |Combined(es, g, true)| + 2 == TotalLen(es, g)
  {
    if |g| == 1 {
      assert g[..0] == [];
    } else {
      JoinedFits(es, g[..|g| - 1]);
    }
  }

  lemma CombinedMore(es: seq<Pair>, g: seq<nat>, x: nat)
    requires g != []
    ensures Combined(es, g + [x], true) == Join(Combined(es, g, true), ValAt(es, x))
    ensures TotalLen(es, g + [x]) == TotalLen(es, g) + |ValAt(es, x)| + 2
  {
    assert (g + [x])[..|g|] == g;
  }

  lemma CombinedOne(es: seq<Pair>, x: nat)
    ensures Combined(es, [x], true) == ValAt(es, x) && TotalLen(es, [x]) == |ValAt(es, x)| + 2
  {
    assert [x][..0] == [];
  }

  /** Joins the values of a group in a buffer whose size is counted beforehand; the
      text and its terminator fit. */
  method JoinGroup(ghost es: seq<Pair>, elts: array<Elt>, v: array<nat>, last: nat, end: nat)
    returns (joined: CString, ghost len: nat)
    requires |es| <= elts.Length && Pointers(es, v[..]) && last < end <= v.Length
    requires forall q :: last <= q < end ==> elts[v[q]] == es[v[q]]
    ensures joined == Combined(es, v[last..end], true)
    ensures |joined| + 1 <= len
  {
    hide CaseEq, Checksum, Combined, TotalLen, Join;
    len := |elts[v[last]].val| + 2;
    joined := elts[v[last]].val;
    ghost var g := v[last..last + 1];
    assert g == [v[last]];
    CombinedOne(es, v[last]);
    var next := last + 1;
    while next < end
      invariant last < next <= end && g == v[last..next]
      invariant joined == Combined(es, g, true) && len == TotalLen(es, g)
    {
      ghost var more := g + [v[next]];
      assert more == v[last..next + 1];
      CombinedMore(es, g, v[next]);
      len := len + |elts[v[next]].val| + 2;
      joined := Join(joined, elts[v[next]].val);
      g, next := more, next + 1;
    }
    JoinedFits(es, g);
  }

  /** Gives the first row of a group the value of the group and marks the others. */
  method CollapseGroup(ghost es: seq<Pair>, elts: array<Elt>, v: array<nat>, last: nat, end: nat, merge: bool)
    requires Rows(es) && |es| <= elts.Length && SortedRows(es, v[..])
    requires last + 1 < end && IsGroup(Rank(es), v[..], last, end)
    requires Walking(es, elts[..], v[..], last, last + 1, merge)
    modifies elts
    ensures Walking(es, elts[..], v[..], last, end, merge)
  {
    hide Rank, Alike, Combined;
    var val := GroupValue(es, elts, v, last, end, merge);
    var x := v[last];
    ghost var s0 := elts[..];
    elts[x] := elts[x].(val := val);
    ghost var s := elts[..];
    assert s == s0[x := s0[x].(val := val)];
    HeadStored(es, s0, s, v[..], last, end, merge);
    NullKeys(elts, v, last + 1, end);
    GroupIsDone(es, s, elts[..], v[..], last, end, merge);
  }

  lemma HeadStored(es: seq<Pair>, s0: seq<Elt>, s: seq<Elt>, v: seq<nat>, last: nat, end: nat, merge: bool)
    requires SortedRows(es, v) && Walking(es, s0, v, last, last + 1, merge) && last + 1 < end <= |v|
    requires s == s0[v[last] := es[v[last]].(val := Combined(es, v[last..end], merge))]
    ensures s[v[last]] == es[v[last]].(val := Combined(es, v[last..end], merge))
    ensures forall q :: 0 <= q < last ==> s[v[q]] == Done(es, v[q], merge)
    ensures forall q :: end <= q < |v| ==> s[v[q]] == es[v[q]]
  {
    EachRowOnce(es, v);
  }

  method GroupValue(ghost es: seq<Pair>, elts: array<Elt>, v: array<nat>, last: nat, end: nat, merge: bool)
    returns (val: CString)
    requires |es| <= elts.Length && Pointers(es, v[..]) && last + 1 < end <= v.Length
    requires forall q :: last <= q < end ==> elts[v[q]] == es[v[q]]
    ensures val == Combined(es, v[last..end], merge)
  {
    if merge {
      ghost var len;
      val, len := JoinGroup(es, elts, v, last, end);
    } else {
      val := elts[v[end - 1]].val;
      assert v[last..end][end - last - 1] == v[end - 1];
    }
  }

  /** Sets the keys of the rows at `v[from..end]` to NULL. */
  method NullKeys(elts: array<Elt>, v: array<nat>, from: nat, end: nat)
    requires from <= end <= v.Length && forall q :: from <= q < end ==> v[q] < elts.Length
    modifies elts
    ensures forall q :: from <= q < end ==> elts[v[q]] == Hole
    ensures forall i: nat :: i < elts.Length && (forall q :: from <= q < end ==> v[q] != i) ==> elts[i] == old(elts[i])
  {
    var next := from;
    while next < end
      invariant from <= next <= end
      invariant forall q :: from <= q < next ==> elts[v[q]] == Hole
      invariant forall i: nat :: i < elts.Length && (forall q :: from <= q < next ==> v[q] != i) ==>
        elts[i] == old(elts[i])
    {
      elts[v[next]] := Hole;
      next := next + 1;
    }
  }

  lemma GroupIsDone(es: seq<Pair>, s: seq<Elt>, t: seq<Elt>, v: seq<nat>, last: nat, end: nat, merge: bool)
    requires SortedRows(es, v) && IsGroup(Rank(es), v, last, end) && |s| == |t| >= |es| && last + 1 < end
    requires s[v[last]] == es[v[last]].(val := Combined(es, v[last..end], merge))
    requires forall q :: 0 <= q < last ==> s[v[q]] == Done(es, v[q], merge)
    requires forall q :: end <= q < |v| ==> s[v[q]] == es[v[q]]
    requires forall q :: last < q < end ==> t[v[q]] == Hole
    requires forall i: nat :: i < |t| && (forall q :: last < q < end ==> v[q] != i) ==> t[i] == s[i]
    ensures Walking(es, t, v, last, end, merge)
  {
    EachRowOnce(es, v);
    forall q | last <= q < end ensures t[v[q]] == Done(es, v[q], merge) {
      GroupFinal(es, v, last, end, q, merge);
    }
  }

  /** Processes any duplicate keys, group by group. */
  method ProcessDuplicates(ghost es: seq<Pair>, elts: array<Elt>, v: array<nat>, merge: bool) returns (dupsFound: bool)
    requires Rows(es) && 0 < |es| <= elts.Length && elts[..|es|] == es && SortedRows(es, v[..])
    modifies elts
    ensures forall i :: 0 <= i < |es| ==> elts[i] == Done(es, i, merge)
    ensures !dupsFound ==> elts[..] == old(elts[..])
  {
    hide CaseEq, Checksum, Rank;
    ghost var rows := v[..];
    EachRowOnce(es, rows);
    dupsFound := false;
    var last, next := 0, 1;
    forall q | 0 <= q < |rows| ensures elts[rows[q]] == es[rows[q]] {
      assert elts[..|es|][rows[q]] == es[rows[q]];
    }
    while next < v.Length
      invariant last < next <= v.Length && v[..] == rows && Walking(es, elts[..], rows, last, next, merge)
      invariant !dupsFound ==> elts[..] == old(elts[..])
      decreases v.Length - next
    {
      LastHasItsKey(es, elts[..], rows, last, next, merge);
      var same := SameKey(es, elts, v[next], v[last]);
      if same {
        var end := FindGroupEnd(es, elts, v, last, next);
        CollapseGroup(es, elts, v, last, end, merge);
        dupsFound, next := true, end;
      } else {
        LoneRow(es, elts[..], rows, last, next, merge);
        OnlyGroupEnds(es, rows, last, next);
        last, next := next, next + 1;
      }
    }
    LoneRow(es, elts[..], rows, last, next, merge);
    forall i: nat | i < |es| ensures elts[i] == Done(es, i, merge) {
      assert i in rows;
    }
  }

  lemma LastHasItsKey(es: seq<Pair>, s: seq<Elt>, v: seq<nat>, last: nat, next: nat, merge: bool)
    requires SortedRows(es, v) && Walking(es, s, v, last, next, merge)
    ensures s[v[last]].Elt? && s[v[last]].key == es[v[last]].key && s[v[last]].checksum == es[v[last]].checksum
  {
    if next > last + 1 { GroupFinal(es, v, last, next, last, merge); }
  }

  /** The row before a row of another key also has another key. */
  lemma OnlyGroupEnds(es: seq<Pair>, v: seq<nat>, last: nat, next: nat)
    requires SortedRows(es, v) && last < next < |v| && Rank(es)(v[next]) != Rank(es)(v[last])
    requires next == last + 1 || IsGroup(Rank(es), v, last, next)
    ensures Rank(es)(v[next - 1]) != Rank(es)(v[next])
  {
  }

  // ---------- closing the holes ----------

  function LiveRows(s: seq<Elt>): seq<Pair> {
    if s == [] then [] else LiveRows(s[..|s| - 1]) + Row(s[|s| - 1])
  }

  /** Rows before `k` are the live ones of `s[..src]`; rows from `src` on are as in `s`. */
  predicate Closing(s: seq<Elt>, t: seq<Elt>, k: nat, src: nat) {
    k <= src <= |s| <= |t| && t[..k] == LiveRows(s[..src]) && t[src..|s|] == s[src..]
  }

  lemma ClosingMore(s: seq<Elt>, t: seq<Elt>, k: nat, src: nat)
    requires Closing(s, t, k, src) && src < |s|
    ensures t[src] == s[src]
    ensures if s[src].Elt? then Closing(s, t[k := t[src]], k + 1, src + 1) else Closing(s, t, k, src + 1)
  {
    assert t[src] == t[src..|s|][0] == s[src..][0];
    assert s[..src + 1][..src] == s[..src];
    var t' := t[k := t[src]];
    assert t'[src + 1..|s|] == t[src..|s|][1..] == s[src + 1..];
    assert t[src + 1..|s|] == t[src..|s|][1..];
    assert t'[..k + 1] == t[..k] + [t[src]];
  }

  /** Shifts the rows to the left to fill the holes. */
  method CloseHoles(elts: array<Elt>, n: nat) returns (k: nat)
    requires n <= elts.Length
    modifies elts
    ensures k <= n && elts[..k] == LiveRows(old(elts[..n]))
  {
    hide LiveRows, Row;
    ghost var s := elts[..n];
    k := 0;
    var src := 0;
    ClosingStart(s, elts[..]);
    while src < n
      invariant src <= n && Closing(s, elts[..], k, src)
    {
      ghost var t := elts[..];
      ClosingMore(s, t, k, src);
      if elts[src].Elt? {
        elts[k] := elts[src];
        assert elts[..] == t[k := t[src]];
        k := k + 1;
      }
      src := src + 1;
    }
    assert s[..n] == s;
  }

  lemma ClosingStart(s: seq<Elt>, t: seq<Elt>)
    requires |s| <= |t| && t[..|s|] == s
    ensures Closing(s, t, 0, 0)
  {
    assert t[..0] == [] && s[..0] == [];
  }

  lemma {:induction false} LiveRowsAreKept(es: seq<Pair>, s: seq<Elt>, c: nat, merge: bool)
    requires c <= |es| <= |s| && forall i :: 0 <= i < |es| ==> s[i] == Done(es, i, merge)
    ensures LiveRows(s[..c]) == Kept(es, Rank(es), |es|, c, merge)
    decreases c
  {
    if c == 0 {
    } else {
      LiveRowsAreKept(es, s, c - 1, merge);
      assert s[..c][..c - 1] == s[..c - 1];
    }
  }

  lemma {:induction false} LoopKeepsRows(a: seq<Pair>, b: seq<Pair>, merge: bool)
    requires Rows(a)
    ensures Rows(Loop(a, b, merge))
    decreases |b|
  {
    if b == [] {
    } else {
      PutKeepsRows(a, b[0], merge);
      LoopKeepsRows(Put(a, b[0], merge), b[1..], merge);
    }
  }

  lemma {:induction false} PutKeepsRows(a: seq<Pair>, e: Pair, merge: bool)
    requires Rows(a)
    ensures Rows(Put(a, e, merge))
  {
    if a == [] {
    } else {
      if CaseEq(a[0].key, e.key) { WithoutRows(a[1..], e.key); } else { PutKeepsRows(a[1..], e, merge); }
    }
  }

  // ---------- the operations ----------

  /** apr_table_compress */
  method Compress(t: Table, flags: nat)
    requires t.Valid()
    modifies t, t.elts
    ensures t.Valid() && t.elts == old(t.elts)
    ensures t.Contents() == Loop([], old(t.Contents()), flags == APR_OVERLAP_TABLES_MERGE)
    ensures Collected(t.Contents(), old(t.Contents()), flags == 1)
  {
    hide Collected;
    LoopIsCollected(t.Contents(), flags == APR_OVERLAP_TABLES_MERGE);
    var merge := flags == APR_OVERLAP_TABLES_MERGE;
    ghost var es := t.Contents();
    RankRanksKeys(es);
    KeptIsLoop(es, Rank(es), |es|, merge);
    assert es[..|es|] == es;
    if t.nelts <= 1 {
      ShortLoop(es, merge);
      return;
    }
    var dupsFound := CompressRows(t.elts, t.nelts, es, merge);
    LiveRowsAreKept(es, t.elts[..], |es|, merge);
    assert t.elts[..][..|es|] == t.elts[..t.nelts];
    LoopKeepsRows([], es, merge);
    if dupsFound {
      var k := CloseHoles(t.elts, t.nelts);
      t.nelts := t.nelts - (t.nelts - k);
    } else {
      LiveRowsOfRows(es);
    }
    t.Reindex();
  }

  lemma ShortLoop(es: seq<Pair>, merge: bool)
    requires Rows(es) && |es| <= 1
    ensures Loop([], es, merge) == es
  {
    if |es| == 1 {
      assert es[1..] == [];
      assert Loop([], es, merge) == Loop(Put([], es[0], merge), [], merge);
    }
  }

  lemma {:induction false} LiveRowsOfRows(s: seq<Pair>)
    ensures LiveRows(s) == s
  {
    if s == [] {
    } else {
      LiveRowsOfRows(s[..|s| - 1]);
      assert s == s[..|s| - 1] + [s[|s| - 1]];
    }
  }

  /** Sorts pointers to the rows and collapses the groups they show. */
  method CompressRows(elts: array<Elt>, n: nat, ghost es: seq<Pair>, merge: bool) returns (dupsFound: bool)
    requires 1 < n == |es| <= elts.Length && elts[..n] == es && Rows(es)
    modifies elts
    ensures forall i :: 0 <= i < n ==> elts[i] == Done(es, i, merge)
    ensures !dupsFound ==> elts[..] == old(elts[..])
  {
    var pointers := new nat[n](i => i);
    assert pointers[..] == Upto(n);
    var rows: seq<Pair> := elts[..n];
    var sorted := Mergesort(rows, pointers);
    dupsFound := ProcessDuplicates(es, elts, sorted, merge);
  }

  /** apr_table_overlap */
  method Overlap(a: Table, b: Table, flags: nat)
    requires a.Valid() && b.Valid() && a != b && a.elts != b.elts
    modifies a, a.elts
    ensures a.Valid() && (a.elts == old(a.elts) || fresh(a.elts))
    ensures b.Valid() && b.Contents() == old(b.Contents())
    ensures a.Contents() == Loop([], old(a.Contents()) + old(b.Contents()), flags == APR_OVERLAP_TABLES_MERGE)
    ensures Collected(a.Contents(), old(a.Contents()) + old(b.Contents()), flags == 1)
    ensures old(Distinct(a.Contents())) ==>
      a.Contents() == Loop(old(a.Contents()), old(b.Contents()), flags == APR_OVERLAP_TABLES_MERGE)
  {
    hide Collected;
    ghost var merge := flags == APR_OVERLAP_TABLES_MERGE;
    LoopIsCollected(a.Contents() + b.Contents(), merge);
    ghost var x, y := a.Contents(), b.Contents();
    if Distinct(x) { OverlapOfDistinctIsLoop(x, y, merge); }
    if a.nelts + b.nelts == 0 {
      assert x + y == [];
      return;
    }
    Cat(a, b);
    Compress(a, flags);
  }
}
