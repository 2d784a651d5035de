/** What apr_table_compress leaves behind, row by row, and why that is the list
obtained by setting (or merging) the rows one after the other. */
module CompressSpec {
  import opened CStrings
  import opened TableSpec
  import opened StableSort

  /** `rank` tells case-equal keys from others. */
  ghost predicate RanksKeys(es: seq<Pair>, rank: nat -> int) {
    forall x: nat, y: nat {:trigger rank(x), rank(y)} :: x < |es| && y < |es| ==>
      (rank(x) == rank(y) <==> CaseEq(es[x].key, es[y].key))
  }

  function Upto(n: nat): (r: seq<nat>)
    ensures |r| == n && forall i :: 0 <= i < n ==> r[i] == i
  {
    seq(n, i => i)
  }

  /** The rows before `m` with the key of row `i`, in order. */
  function Group(rank: nat -> int, m: nat, i: nat): seq<nat> {
    Alike(rank, Upto(m), rank(i))
  }

  /** No earlier row has the key of row `i`. */
  ghost predicate IsFirst(rank: nat -> int, i: nat) {
    forall j: nat :: j < i ==> rank(j) != rank(i)
  }

  function ValAt(es: seq<Pair>, i: nat): CString {
    if i < |es| then es[i].val else ""
  }

  /** The value of a group: the last one, or all of them joined. */
  function Combined(es: seq<Pair>, g: seq<nat>, merge: bool): CString {
    if |g| == 0 then ""
    else if !merge || |g| == 1 then ValAt(es, g[|g| - 1])
    else Join(Combined(es, g[..|g| - 1], merge), ValAt(es, g[|g| - 1]))
  }

  /** Row `i` after the duplicates among the first `m` rows are processed. */
  ghost function Final(es: seq<Pair>, rank: nat -> int, m: nat, i: nat, merge: bool): Elt
    requires i < |es|
  {
    if IsFirst(rank, i) then es[i].(val := Combined(es, Group(rank, m, i), merge)) else Hole
  }

  /** The rows among the first `c` that stay. */
  ghost function Kept(es: seq<Pair>, rank: nat -> int, m: nat, c: nat, merge: bool): seq<Pair>
    requires c <= |es|
  {
    if c == 0 then []
    else Kept(es, rank, m, c - 1, merge) + Row(Final(es, rank, m, c - 1, merge))
  }

  function Row(e: Elt): seq<Pair> {
    if e.Elt? then [e] else []
  }

  lemma GroupSnoc(rank: nat -> int, m: nat, i: nat)
    ensures Group(rank, m + 1, i) == Group(rank, m, i) + if rank(m) == rank(i) then [m] else []
  {
    assert Upto(m + 1) == Upto(m) + [m];
    AlikeAppend(rank, Upto(m), [m], rank(i));
    assert [m][1..] == [];
  }

  lemma GroupNone(rank: nat -> int, i: nat)
    ensures Group(rank, 0, i) == []
  {
  }

  lemma {:induction false} GroupMembers(rank: nat -> int, m: nat, i: nat)
    ensures forall x: nat :: x in Group(rank, m, i) <==> x < m && rank(x) == rank(i)
    ensures forall a, b :: 0 <= a < b < |Group(rank, m, i)| ==> Group(rank, m, i)[a] < Group(rank, m, i)[b]
  {
    hide Group;
    if m == 0 {
      GroupNone(rank, i);
    } else {
      GroupMembers(rank, m - 1, i);
      GroupSnoc(rank, m - 1, i);
      var g := Group(rank, m - 1, i);
      forall a | 0 <= a < |g| ensures g[a] < m - 1 { assert g[a] in g; }
    }
  }

  lemma {:induction false} FirstLike(rank: nat -> int, j: nat) returns (i: nat)
    ensures i <= j && rank(i) == rank(j) && IsFirst(rank, i)
  {
    if IsFirst(rank, j) {
      i := j;
    } else {
      var k: nat :| k < j && rank(k) == rank(j);
      i := FirstLike(rank, k);
    }
  }

  lemma {:induction false} PutAppend(a: seq<Pair>, b: seq<Pair>, e: Pair, merge: bool)
    requires !Has(b, e.key) || !Has(a, e.key)
    ensures Put(a + b, e, merge) == if Has(a, e.key) then Put(a, e, merge) + b else a + Put(b, e, merge)
  {
    hide CaseEq, Checksum;
    if a == [] {
      assert a + b == b;
    } else {
      assert (a + b)[1..] == a[1..] + b;
      if CaseEq(a[0].key, e.key) {
        WithoutAppend(a[1..], b, e.key);
        WithoutAbsent(b, e.key);
      } else {
        HasTail(a, e.key);
        PutAppend(a[1..], b, e, merge);
      }
    }
  }

  lemma HasTail(a: seq<Pair>, key: CString)
    requires a != [] && !CaseEq(a[0].key, key)
    ensures Has(a, key) <==> Has(a[1..], key)
  {
    hide CaseEq;
    var t := a[1..];
    if Has(t, key) {
      var i :| 0 <= i < |t| && CaseEq(t[i].key, key);
      assert a[i + 1] == t[i];
    }
    if Has(a, key) {
      var i :| 0 <= i < |a| && CaseEq(a[i].key, key);
      assert t[i - 1] == a[i];
    }
  }

  lemma HasAppend(a: seq<Pair>, b: seq<Pair>, key: CString)
    ensures Has(a + b, key) <==> Has(a, key) || Has(b, key)
  {
    if Has(a, key) {
      var i :| 0 <= i < |a| && CaseEq(a[i].key, key);
      assert (a + b)[i] == a[i];
    }
    if Has(b, key) {
      var i :| 0 <= i < |b| && CaseEq(b[i].key, key);
      assert (a + b)[|a| + i] == b[i];
    }
  }

  lemma PutOne(f: Pair, e: Pair, merge: bool)
    ensures Put([f], e, merge) ==
            if CaseEq(f.key, e.key) then [f.(val := if merge then Join(f.val, e.val) else e.val)]
            else [f, New(e.key, e.val)]
  {
    var none: seq<Pair> := [];
    assert [f][1..] == none;
    assert Put(none, e, merge) == [New(e.key, e.val)];
    var g := f.(val := if merge then Join(f.val, e.val) else e.val);
    assert [g] + none == [g];
  }

  /** `k'` is `k` after row `e`, which has a row of its key in `k` iff `seen`. */
  predicate Stepped(k: seq<Pair>, k': seq<Pair>, e: Pair, merge: bool, seen: bool) {
    (Has(k, e.key) <==> seen) && k' == if seen then Put(k, e, merge) else k
  }

  lemma SteppedAppend(k: seq<Pair>, k': seq<Pair>, f: seq<Pair>, f': seq<Pair>, e: Pair, merge: bool,
                      before: bool, hit: bool)
    requires !(before && hit) && Stepped(k, k', e, merge, before) && Stepped(f, f', e, merge, hit)
    ensures Stepped(k + f, k' + f', e, merge, before || hit)
  {
    HasAppend(k, f, e.key);
    if before || hit { PutAppend(k, f, e, merge); }
  }

  ghost predicate SeenBefore(rank: nat -> int, c: nat, m: nat) {
    exists i: nat :: i < c && IsFirst(rank, i) && rank(i) == rank(m)
  }

  /** One more row: as long as no kept row has its key, nothing changes; from then on
      the kept rows are those after a set (or merge) of the new row. */
  lemma {:induction false} KeptStep(es: seq<Pair>, rank: nat -> int, m: nat, c: nat, merge: bool)
    requires RanksKeys(es, rank) && c <= m < |es|
    ensures Stepped(Kept(es, rank, m, c, merge), Kept(es, rank, m + 1, c, merge), es[m], merge, SeenBefore(rank, c, m))
    decreases c
  {
    hide Stepped, Final, IsFirst, RanksKeys, SeenBefore;
    if c == 0 {
      KeptNone(es, rank, m, merge);
    } else {
      var b := c - 1;
      KeptStep(es, rank, m, b, merge);
      KeptRow(es, rank, m, b, merge);
      SeenStep(rank, b, m);
      SteppedAppend(Kept(es, rank, m, b, merge), Kept(es, rank, m + 1, b, merge),
                    Row(Final(es, rank, m, b, merge)), Row(Final(es, rank, m + 1, b, merge)),
                    es[m], merge, SeenBefore(rank, b, m), IsFirst(rank, b) && rank(b) == rank(m));
    }
  }

  lemma KeptNone(es: seq<Pair>, rank: nat -> int, m: nat, merge: bool)
    requires m < |es|
    ensures Stepped(Kept(es, rank, m, 0, merge), Kept(es, rank, m + 1, 0, merge), es[m], merge, SeenBefore(rank, 0, m))
  {
  }

  lemma SeenStep(rank: nat -> int, b: nat, m: nat)
    ensures SeenBefore(rank, b + 1, m) == (SeenBefore(rank, b, m) || (IsFirst(rank, b) && rank(b) == rank(m)))
    ensures !(SeenBefore(rank, b, m) && IsFirst(rank, b) && rank(b) == rank(m))
  {
  }

  /** Row `b` before and after row `m` is taken into account. */
  lemma KeptRow(es: seq<Pair>, rank: nat -> int, m: nat, b: nat, merge: bool)
    requires RanksKeys(es, rank) && b < m < |es|
    ensures Stepped(Row(Final(es, rank, m, b, merge)), Row(Final(es, rank, m + 1, b, merge)), es[m], merge,
                    IsFirst(rank, b) && rank(b) == rank(m))
  {
    GroupSnoc(rank, m, b);
    if IsFirst(rank, b) {
      var f := Final(es, rank, m, b, merge);
      assert Row(f) == [f] && f.key == es[b].key;
      assert Has([f], es[m].key) <==> CaseEq(es[b].key, es[m].key) by {
        if CaseEq(es[b].key, es[m].key) { assert CaseEq([f][0].key, es[m].key); }
      }
      if rank(b) == rank(m) {
        PutOne(f, es[m], merge);
        CombinedSnoc(es, rank, m, b, merge);
        assert Final(es, rank, m + 1, b, merge) == f.(val := if merge then Join(f.val, es[m].val) else es[m].val);
      } else {
        assert Group(rank, m + 1, b) == Group(rank, m, b);
      }
    }
  }

  lemma CombinedSnoc(es: seq<Pair>, rank: nat -> int, m: nat, b: nat, merge: bool)
    requires b < m < |es| && rank(b) == rank(m)
    ensures Combined(es, Group(rank, m + 1, b), merge) ==
            if merge then Join(Combined(es, Group(rank, m, b), merge), es[m].val) else es[m].val
  {
    GroupSnoc(rank, m, b);
    GroupMembers(rank, m, b);
    var g := Group(rank, m, b);
    assert b in g;
    assert (g + [m])[..|g|] == g;
  }

  /** Compressing a list is setting (or merging) its rows into an empty one. */
  lemma {:induction false} KeptIsLoop(es: seq<Pair>, rank: nat -> int, m: nat, merge: bool)
    requires RanksKeys(es, rank) && m <= |es|
    requires forall i :: 0 <= i < |es| ==> es[i].checksum == Checksum(es[i].key)
    ensures Kept(es, rank, m, m, merge) == Loop([], es[..m], merge)
    decreases m
  {
    hide Loop, Put, CaseEq, Checksum;
    if m == 0 {
      LoopNone([], merge);
    } else {
      var n := m - 1;
      KeptIsLoop(es, rank, n, merge);
      assert es[..m] == es[..n] + [es[n]];
      LoopSnoc([], es[..n], es[n], merge);
      KeptLastRow(es, rank, n, merge);
    }
  }

  lemma LoopNone(a: seq<Pair>, merge: bool)
    ensures Loop(a, [], merge) == a
  {
  }

  lemma KeptLastRow(es: seq<Pair>, rank: nat -> int, n: nat, merge: bool)
    requires RanksKeys(es, rank) && n < |es| && es[n].checksum == Checksum(es[n].key)
    ensures Kept(es, rank, n + 1, n + 1, merge) == Put(Kept(es, rank, n, n, merge), es[n], merge)
  {
    var k := Kept(es, rank, n, n, merge);
    if IsFirst(rank, n) {
      KeptStep(es, rank, n, n, merge);
      GroupSnoc(rank, n, n);
      AlikeNone(rank, Upto(n), rank(n));
      assert Row(Final(es, rank, n + 1, n, merge)) == [New(es[n].key, es[n].val)];
      assert Put([], es[n], merge) == [New(es[n].key, es[n].val)];
      assert k + [] == k;
      PutAppend(k, [], es[n], merge);
    } else {
      var j: nat :| j < n && rank(j) == rank(n);
      var i := FirstLike(rank, j);
      KeptStep(es, rank, n, n, merge);
      assert SeenBefore(rank, n, n);
    }
  }
}
