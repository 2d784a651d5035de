/** Stable rearrangements of pointers that are ordered by a rank, and merging. */
module StableSort {
  import opened Seqs

  predicate Below(rank: nat -> int, x: nat, v: seq<nat>) {
    forall i :: 0 <= i < |v| ==> rank(x) <= rank(v[i])
  }

  /** No element is after a later one. */
  predicate Sorted(rank: nat -> int, v: seq<nat>) {
    v == [] || (Below(rank, v[0], v[1..]) && Sorted(rank, v[1..]))
  }

  /** The elements of rank `k`, in the order of `v`. */
  function Alike(rank: nat -> int, v: seq<nat>, k: int): seq<nat> {
    if v == [] then []
    else if rank(v[0]) == k then [v[0]] + Alike(rank, v[1..], k)
    else Alike(rank, v[1..], k)
  }

  /** `w` has what `v` has, alike elements in the same order. */
  ghost predicate StablePermutation(rank: nat -> int, v: seq<nat>, w: seq<nat>) {
    |v| == |w| && forall k :: Alike(rank, v, k) == Alike(rank, w, k)
  }

  lemma {:induction false} AlikeAppend(rank: nat -> int, v: seq<nat>, w: seq<nat>, k: int)
    ensures Alike(rank, v + w, k) == Alike(rank, v, k) + Alike(rank, w, k)
  {
    if v == [] {
      assert v + w == w;
    } else {
      assert (v + w)[1..] == v[1..] + w;
      AlikeAppend(rank, v[1..], w, k);
    }
  }

  lemma {:induction false} AlikeNone(rank: nat -> int, v: seq<nat>, k: int)
    requires forall i :: 0 <= i < |v| ==> rank(v[i]) != k
    ensures Alike(rank, v, k) == []
  {
    if v == [] {
    } else {
      AlikeNone(rank, v[1..], k);
    }
  }

  lemma {:induction false} AlikeAll(rank: nat -> int, v: seq<nat>, k: int)
    requires forall i :: 0 <= i < |v| ==> rank(v[i]) == k
    ensures Alike(rank, v, k) == v
  {
    if v == [] {
    } else {
      AlikeAll(rank, v[1..], k);
    }
  }

  lemma {:induction false} AlikeCount(rank: nat -> int, v: seq<nat>, x: nat)
    ensures multiset(Alike(rank, v, rank(x)))[x] == multiset(v)[x]
  {
    if v == [] {
    } else {
      AlikeCount(rank, v[1..], x);
      assert v == [v[0]] + v[1..];
    }
  }

  /** A stable permutation is a permutation. */
  lemma StablePermutationPermutes(rank: nat -> int, v: seq<nat>, w: seq<nat>)
    requires StablePermutation(rank, v, w)
    ensures multiset(v) == multiset(w)
  {
    forall x: nat ensures multiset(v)[x] == multiset(w)[x] {
      AlikeCount(rank, v, x);
      AlikeCount(rank, w, x);
    }
  }

  // ---------- merging ----------

  function MergeRuns(rank: nat -> int, v: seq<nat>, w: seq<nat>): (r: seq<nat>)
    ensures |r| == |v| + |w|
  {
    if v == [] then w
    else if w == [] then v
    else if rank(v[0]) > rank(w[0]) then [w[0]] + MergeRuns(rank, v, w[1..])
    else [v[0]] + MergeRuns(rank, v[1..], w)
  }

  lemma AlikeCons(rank: nat -> int, x: nat, v: seq<nat>, k: int)
    ensures Alike(rank, [x] + v, k) == if rank(x) == k then [x] + Alike(rank, v, k) else Alike(rank, v, k)
  {
    assert ([x] + v)[1..] == v;
  }

  /** Nothing in a sorted run is alike to an element smaller than its first. */
  lemma NoneAlikeSmaller(rank: nat -> int, v: seq<nat>, k: int)
    requires v != [] && Sorted(rank, v) && rank(v[0]) > k
    ensures Alike(rank, v, k) == []
  {
    forall i | 0 <= i < |v| ensures rank(v[i]) != k {
      assert i > 0 ==> v[i] == v[1..][i - 1];
    }
    AlikeNone(rank, v, k);
  }

  lemma {:induction false} MergeRunsIsStable(rank: nat -> int, v: seq<nat>, w: seq<nat>, k: int)
    requires Sorted(rank, v)
    ensures Alike(rank, MergeRuns(rank, v, w), k) == Alike(rank, v, k) + Alike(rank, w, k)
  {
    hide Alike;
    if v == [] || w == [] {
      AlikeNone(rank, [], k);
    } else if rank(v[0]) > rank(w[0]) {
      var x, w' := w[0], w[1..];
      MergeRunsIsStable(rank, v, w', k);
      AlikeCons(rank, x, MergeRuns(rank, v, w'), k);
      AlikeCons(rank, x, w', k);
      assert w == [x] + w';
      if rank(x) == k { NoneAlikeSmaller(rank, v, k); }
    } else {
      var x, v' := v[0], v[1..];
      MergeRunsIsStable(rank, v', w, k);
      AlikeCons(rank, x, MergeRuns(rank, v', w), k);
      AlikeCons(rank, x, v', k);
      assert v == [x] + v';
    }
  }

  lemma {:induction false} BelowMerge(rank: nat -> int, x: nat, v: seq<nat>, w: seq<nat>)
    requires Below(rank, x, v) && Below(rank, x, w)
    ensures Below(rank, x, MergeRuns(rank, v, w))
  {
    if v == [] || w == [] {
    } else if rank(v[0]) > rank(w[0]) {
      BelowMerge(rank, x, v, w[1..]);
    } else {
      BelowMerge(rank, x, v[1..], w);
    }
  }

  /** What is not after the first of a sorted run is not after any of it. */
  lemma BelowAll(rank: nat -> int, x: nat, v: seq<nat>)
    requires v != [] && Sorted(rank, v) && rank(x) <= rank(v[0])
    ensures Below(rank, x, v)
  {
    forall i | 0 <= i < |v| ensures rank(x) <= rank(v[i]) {
      assert i > 0 ==> v[i] == v[1..][i - 1];
    }
  }

  lemma {:induction false} MergeRunsIsSorted(rank: nat -> int, v: seq<nat>, w: seq<nat>)
    requires Sorted(rank, v) && Sorted(rank, w)
    ensures Sorted(rank, MergeRuns(rank, v, w))
  {
    if v == [] || w == [] {
    } else {
      var r := MergeRuns(rank, v, w);
      if rank(v[0]) > rank(w[0]) {
        MergeRunsIsSorted(rank, v, w[1..]);
        BelowAll(rank, w[0], v);
        BelowMerge(rank, w[0], v, w[1..]);
        assert r[1..] == MergeRuns(rank, v, w[1..]);
      } else {
        MergeRunsIsSorted(rank, v[1..], w);
        BelowAll(rank, v[0], w);
        BelowMerge(rank, v[0], v[1..], w);
        assert r[1..] == MergeRuns(rank, v[1..], w);
      }
    }
  }

  // ---------- passes over runs of growing length ----------

  /** Where the pair of runs at `i` ends; the last run may be short. */
  function PairEnd(v: seq<nat>, i: nat, b: nat): nat {
    if i + b + b > |v| then |v| else i + b + b
  }

  /** Merging consecutive pairs of runs of length `b`, from position `i` on. */
  function Pass(rank: nat -> int, v: seq<nat>, i: nat, b: nat): (r: seq<nat>)
    requires b > 0 && i <= |v|
    ensures |r| == |v| - i
    decreases |v| - i
  {
    if i + b >= |v| then v[i..]
    else MergeRuns(rank, v[i..i + b], v[i + b..PairEnd(v, i, b)]) + Pass(rank, v, PairEnd(v, i, b), b)
  }

  function Passes(rank: nat -> int, v: seq<nat>, b: nat): (r: seq<nat>)
    requires b > 0
    ensures |r| == |v|
    decreases |v| - b
  {
    if |v| <= b then v else Passes(rank, Pass(rank, v, 0, b), 2 * b)
  }

  predicate RunsSorted(rank: nat -> int, v: seq<nat>, b: nat)
    requires b > 0
    decreases |v|
  {
    if |v| <= b then Sorted(rank, v) else Sorted(rank, v[..b]) && RunsSorted(rank, v[b..], b)
  }

  lemma {:induction false} PassDoublesRuns(rank: nat -> int, v: seq<nat>, i: nat, b: nat)
    requires b > 0 && i <= |v| && RunsSorted(rank, v[i..], b)
    ensures RunsSorted(rank, Pass(rank, v, i, b), 2 * b)
    decreases |v| - i
  {
    if i + b >= |v| {
    } else {
      var e := PairEnd(v, i, b);
      RunsApart(rank, v, i, b);
      var merged := MergeRuns(rank, v[i..i + b], v[i + b..e]);
      MergeRunsIsSorted(rank, v[i..i + b], v[i + b..e]);
      PassDoublesRuns(rank, v, e, b);
      var r := Pass(rank, v, i, b);
      if e < |v| {
        assert r[..2 * b] == merged && r[2 * b..] == Pass(rank, v, e, b);
      } else {
        assert r == merged;
      }
    }
  }

  /** The two runs at `i` and the runs after them. */
  lemma RunsApart(rank: nat -> int, v: seq<nat>, i: nat, b: nat)
    requires b > 0 && i + b < |v| && RunsSorted(rank, v[i..], b)
    ensures var e := PairEnd(v, i, b);
            Sorted(rank, v[i..i + b]) && Sorted(rank, v[i + b..e]) && RunsSorted(rank, v[e..], b)
  {
    var w, e := v[i..], PairEnd(v, i, b);
    var u := w[b..];
    assert w[..b] == v[i..i + b];
    if |u| > b {
      assert u[..b] == v[i + b..e] && u[b..] == v[e..];
    } else {
      assert u == v[i + b..e] && v[e..] == [];
    }
  }

  lemma {:induction false} PassIsStable(rank: nat -> int, v: seq<nat>, i: nat, b: nat, k: int)
    requires b > 0 && i <= |v| && RunsSorted(rank, v[i..], b)
    ensures Alike(rank, Pass(rank, v, i, b), k) == Alike(rank, v[i..], k)
    decreases |v| - i
  {
    hide Alike, MergeRuns, RunsSorted, Sorted;
    if i + b >= |v| {
    } else {
      var e := PairEnd(v, i, b);
      var x, y, z := v[i..i + b], v[i + b..e], v[e..];
      RunsApart(rank, v, i, b);
      MergeRunsIsStable(rank, x, y, k);
      PassIsStable(rank, v, e, b, k);
      AlikeAppend(rank, MergeRuns(rank, x, y), Pass(rank, v, e, b), k);
      AlikeAppend(rank, x, y, k);
      AlikeAppend(rank, x + y, z, k);
      Cut3(v, i, i + b, e);
      calc {
        Alike(rank, Pass(rank, v, i, b), k);
        Alike(rank, MergeRuns(rank, x, y) + Pass(rank, v, e, b), k);
        (Alike(rank, x, k) + Alike(rank, y, k)) + Alike(rank, z, k);
        Alike(rank, (x + y) + z, k);
      }
    }
  }

  lemma {:induction false} PassesSort(rank: nat -> int, v: seq<nat>, b: nat)
    requires b > 0 && RunsSorted(rank, v, b)
    ensures Sorted(rank, Passes(rank, v, b))
    ensures StablePermutation(rank, v, Passes(rank, v, b))
    decreases |v| - b
  {
    if |v| <= b {
    } else {
      assert v[0..] == v;
      PassDoublesRuns(rank, v, 0, b);
      var w := Pass(rank, v, 0, b);
      PassesSort(rank, w, 2 * b);
      forall k ensures Alike(rank, v, k) == Alike(rank, Passes(rank, v, b), k) {
        PassIsStable(rank, v, 0, b, k);
      }
    }
  }

  lemma {:induction false} RunsOfOne(rank: nat -> int, v: seq<nat>)
    ensures RunsSorted(rank, v, 1)
  {
    if |v| <= 1 {
    } else {
      RunsOfOne(rank, v[1..]);
    }
  }

  // ---------- one step of the loops ----------

  lemma MergeStep(rank: nat -> int, all: seq<nat>, done: seq<nat>, x: seq<nat>, y: seq<nat>)
    requires x != [] && y != [] && all == done + MergeRuns(rank, x, y)
    ensures all == if rank(x[0]) > rank(y[0]) then done + [y[0]] + MergeRuns(rank, x, y[1..])
                   else done + [x[0]] + MergeRuns(rank, x[1..], y)
  {
  }

  lemma PassStep(rank: nat -> int, v: seq<nat>, i: nat, b: nat, done: seq<nat>)
    requires b > 0 && i + b < |v|
    ensures var e := PairEnd(v, i, b);
            done + Pass(rank, v, i, b) == (done + MergeRuns(rank, v[i..i + b], v[i + b..e])) + Pass(rank, v, e, b)
  {
  }

  lemma PairMerge(rank: nat -> int, v: seq<nat>, i: nat)
    requires i + 1 < |v|
    ensures MergeRuns(rank, v[i..i + 1], v[i + 1..i + 2]) ==
            if rank(v[i]) > rank(v[i + 1]) then [v[i + 1], v[i]] else [v[i], v[i + 1]]
  {
    var x, y := v[i..i + 1], v[i + 1..i + 2];
    assert x == [v[i]] && y == [v[i + 1]] && x[1..] == y[1..] == [];
  }

  lemma JoinPieces(s: seq<nat>, k: nat, x: seq<nat>, y: seq<nat>)
    requires k <= |s| && s[..k] == x && s[k..] == y
    ensures s == x + y
  {
  }
}

/** table_mergesort: bottom-up mergesort of pointers to table elements by strcasecmp
of their keys. A pointer is the position of the element in the table. */
module TableSort {
  import opened CStrings
  import opened TableSpec
  import opened StableSort

  // ---------- the order ----------

  /** strcasecmp: the sign of the first difference. */
  function Compare(a: CString, b: CString): (r: int) {
    if a == "" then if b == "" then 0 else -1
    else if b == "" then 1
    else if Lower(a[0]) < Lower(b[0]) then -1
    else if Lower(a[0]) > Lower(b[0]) then 1
    else Compare(a[1..], b[1..])
  }

  lemma {:induction false} CompareIsCaseEq(a: CString, b: CString)
    ensures Compare(a, b) == 0 <==> CaseEq(a, b)
  {
    if a == "" || b == "" || Lower(a[0]) != Lower(b[0]) {
    } else {
      CompareIsCaseEq(a[1..], b[1..]);
      if CaseEq(a[1..], b[1..]) {
        forall i | 0 <= i < |a| ensures Lower(a[i]) == Lower(b[i]) {
          if i > 0 { assert Lower(a[1..][i - 1]) == Lower(b[1..][i - 1]); }
        }
      }
      if CaseEq(a, b) {
        var x, y := a[1..], b[1..];
        forall i | 0 <= i < |x| ensures Lower(x[i]) == Lower(y[i]) {
          assert Lower(a[i + 1]) == Lower(b[i + 1]);
        }
      }
    }
  }

  lemma {:induction false} CompareAntisymmetric(a: CString, b: CString)
    ensures Compare(a, b) == -Compare(b, a)
  {
    if a == "" || b == "" {
    } else {
      CompareAntisymmetric(a[1..], b[1..]);
    }
  }

  lemma {:induction false} CompareTransitive(a: CString, b: CString, c: CString)
    requires Compare(a, b) <= 0 && Compare(b, c) <= 0
    ensures Compare(a, c) <= 0
    ensures Compare(a, c) == 0 ==> Compare(a, b) == 0 && Compare(b, c) == 0
  {
    if a == "" || b == "" || c == "" || Lower(a[0]) != Lower(b[0]) || Lower(b[0]) != Lower(c[0]) {
    } else {
      CompareTransitive(a[1..], b[1..], c[1..]);
    }
  }

  // ---------- the rank of an element ----------

  ghost predicate Before(es: seq<Pair>, y: nat, x: nat) {
    x < |es| && y < |es| && Compare(es[y].key, es[x].key) < 0
  }

  /** How many elements have a smaller key. */
  ghost function Rank(es: seq<Pair>): nat -> int {
    (x: nat) => |set y: nat | y < |es| && Before(es, y, x)|
  }

  /** Ranks order the elements as strcasecmp orders their keys. */
  lemma RankIsCompare(es: seq<Pair>, x: nat, y: nat)
    requires x < |es| && y < |es|
    ensures Rank(es)(x) > Rank(es)(y) <==> Compare(es[x].key, es[y].key) > 0
    ensures Rank(es)(x) == Rank(es)(y) <==> CaseEq(es[x].key, es[y].key)
  {
    CompareIsCaseEq(es[x].key, es[y].key);
    CompareAntisymmetric(es[x].key, es[y].key);
    if Compare(es[x].key, es[y].key) < 0 { RankGrows(es, x, y); }
    if Compare(es[x].key, es[y].key) > 0 { RankGrows(es, y, x); }
    if Compare(es[x].key, es[y].key) == 0 {
      BeforeCarries(es, x, y);
      BeforeCarries(es, y, x);
      assert (set z: nat | z < |es| && Before(es, z, x)) == (set z: nat | z < |es| && Before(es, z, y));
    }
  }

  lemma BeforeCarries(es: seq<Pair>, x: nat, y: nat)
    requires x < |es| && y < |es| && Compare(es[x].key, es[y].key) <= 0
    ensures forall z: nat | Before(es, z, x) :: Before(es, z, y)
  {
    forall z: nat | Before(es, z, x) ensures Before(es, z, y) {
      CompareTransitive(es[z].key, es[x].key, es[y].key);
    }
  }

  lemma RankGrows(es: seq<Pair>, x: nat, y: nat)
    requires x < |es| && y < |es| && Compare(es[x].key, es[y].key) < 0
    ensures Rank(es)(x) < Rank(es)(y)
  {
    var a, b := set z: nat | z < |es| && Before(es, z, x), set z: nat | z < |es| && Before(es, z, y);
    BeforeCarries(es, x, y);
    CompareIsCaseEq(es[x].key, es[x].key);
    assert x in b && x !in a && a <= b;
    SmallerSet(a, b, x);
  }

  lemma SmallerSet(a: set<nat>, b: set<nat>, x: nat)
    requires a <= b && x in b && x !in a
    ensures |a| < |b|
  {
    assert b == (b - a) + a && x in b - a;
  }

  // ---------- the algorithm ----------

  predicate Pointers(es: seq<Pair>, v: seq<nat>) {
    forall i :: 0 <= i < |v| ==> v[i] < |es|
  }

  /** strcasecmp(x->key, y->key) > 0 */
  method After(es: seq<Pair>, x: nat, y: nat) returns (r: bool)
    requires x < |es| && y < |es|
    ensures r <==> Rank(es)(x) > Rank(es)(y)
  {
    RankIsCompare(es, x, y);
    r := Compare(es[x].key, es[y].key) > 0;
  }

  /** table_mergesort: sorts `values0` with the help of a second buffer and returns
      the buffer that holds the result. */
  method Mergesort(es: seq<Pair>, values0: array<nat>) returns (values: array<nat>)
    requires Pointers(es, values0[..])
    modifies values0
    ensures values == values0 || fresh(values)
    ensures values.Length == values0.Length && Pointers(es, values[..])
    ensures Sorted(Rank(es), values[..]) && StablePermutation(Rank(es), old(values0[..]), values[..])
  {
    ghost var v, rank := values0[..], Rank(es);
    var n := values0.Length;
    values := values0;
    var spare := new nat[n];
    FirstPass(es, values);
    var blocksize := 2;
    while blocksize < n
      invariant blocksize > 0 && values.Length == spare.Length == n && values != spare
      invariant (values == values0 || fresh(values)) && (spare == values0 || fresh(spare))
      invariant Pointers(es, values[..])
      invariant Passes(rank, v, 1) == Passes(rank, values[..], blocksize)
      decreases n - blocksize
    {
      MergePass(es, values, spare, blocksize);
      values, spare := spare, values;
      blocksize := blocksize + blocksize;
    }
    RunsOfOne(rank, v);
    PassesSort(rank, v, 1);
  }

  lemma PassKeepsPointers(es: seq<Pair>, v: seq<nat>, b: nat)
    requires b > 0 && Pointers(es, v)
    ensures Pointers(es, Pass(Rank(es), v, 0, b))
  {
    PassElements(Rank(es), v, 0, b);
    var r := Pass(Rank(es), v, 0, b);
    forall i | 0 <= i < |r| ensures r[i] < |es| { assert r[i] in r; }
  }

  lemma {:induction false} MergeElements(rank: nat -> int, v: seq<nat>, w: seq<nat>)
    ensures forall x :: x in MergeRuns(rank, v, w) ==> x in v || x in w
  {
    if v == [] || w == [] {
    } else if rank(v[0]) > rank(w[0]) {
      MergeElements(rank, v, w[1..]);
    } else {
      MergeElements(rank, v[1..], w);
    }
  }

  lemma {:induction false} PassElements(rank: nat -> int, v: seq<nat>, i: nat, b: nat)
    requires b > 0 && i <= |v|
    ensures forall x :: x in Pass(rank, v, i, b) ==> x in v
    decreases |v| - i
  {
    if i + b >= |v| {
    } else {
      MergeElements(rank, v[i..i + b], v[i + b..PairEnd(v, i, b)]);
      PassElements(rank, v, PairEnd(v, i, b), b);
    }
  }

  lemma SameWindow(a: seq<nat>, v: seq<nat>, i: nat)
    requires i + 2 <= |a| == |v| && a[i..] == v[i..]
    ensures a[i] == v[i] && a[i + 1] == v[i + 1] && a[i + 2..] == v[i + 2..]
    ensures a[i..i + 1] == v[i..i + 1] && a[i + 1..i + 2] == v[i + 1..i + 2]
  {
    assert a[i..][0] == v[i..][0] && a[i..][1] == v[i..][1] && a[i..][2..] == v[i..][2..];
  }

  method OrderPair(es: seq<Pair>, values: array<nat>, i: nat)
    requires i + 1 < values.Length && values[i] < |es| && values[i + 1] < |es|
    modifies values
    ensures values[..i] == old(values[..i]) && values[i + 2..] == old(values[i + 2..])
    ensures values[i..i + 2] == old(MergeRuns(Rank(es), values[i..i + 1], values[i + 1..i + 2]))
  {
    PairMerge(Rank(es), values[..], i);
    assert values[..][i..i + 1] == values[i..i + 1] && values[..][i + 1..i + 2] == values[i + 1..i + 2];
    var swap := After(es, values[i], values[i + 1]);
    if swap {
      values[i], values[i + 1] := values[i + 1], values[i];
    }
  }

  /** First pass: sort pairs of elements in place. */
  method FirstPass(es: seq<Pair>, values: array<nat>)
    requires Pointers(es, values[..])
    modifies values
    ensures values[..] == Pass(Rank(es), old(values[..]), 0, 1) && Pointers(es, values[..])
  {
    ghost var v, rank := values[..], Rank(es);
    var n := values.Length;
    var i := 0;
    ghost var done: seq<nat> := [];
    while i + 1 < n
      invariant 0 <= i <= n
      invariant values[i..] == v[i..] && done == values[..i]
      invariant done + Pass(rank, v, i, 1) == Pass(rank, v, 0, 1)
    {
      PassStep(rank, v, i, 1, done);
      ghost var pair := MergeRuns(rank, v[i..i + 1], v[i + 1..i + 2]);
      SameWindow(values[..], v, i);
      OrderPair(es, values, i);
      JoinPieces(values[..i + 2], i, done, pair);
      done, i := done + pair, i + 2;
    }
    JoinPieces(values[..], i, done, v[i..]);
    PassKeepsPointers(es, v, 1);
  }

  /** `done` is what a pass over `v` puts before the merged runs from `i` on. */
  predicate Reached(rank: nat -> int, v: seq<nat>, b: nat, done: seq<nat>, i: nat) {
    b > 0 && i <= |v| && done + Pass(rank, v, i, b) == Pass(rank, v, 0, b)
  }

  lemma ReachedMore(rank: nat -> int, v: seq<nat>, b: nat, done: seq<nat>, i: nat)
    requires Reached(rank, v, b, done, i) && i + b < |v|
    ensures var e := PairEnd(v, i, b);
            Reached(rank, v, b, done + MergeRuns(rank, v[i..i + b], v[i + b..e]), e)
  {
    PassStep(rank, v, i, b, done);
  }

  /** Merges consecutive pairs of runs of `values` into `dst`; what is left over is
      copied. */
  method MergePass(es: seq<Pair>, values: array<nat>, dst: array<nat>, blocksize: nat)
    requires blocksize > 0 && values.Length == dst.Length && values != dst && Pointers(es, values[..])
    modifies dst
    ensures dst[..] == Pass(Rank(es), values[..], 0, blocksize) && Pointers(es, dst[..])
  {
    var n := values.Length;
    var start := 0;
    while start + blocksize < n
      invariant 0 <= start <= n
      invariant Reached(Rank(es), values[..], blocksize, dst[..start], start)
    {
      start := MergePair(es, values, dst, start, blocksize);
    }
    LeftOver(es, values, dst, start, blocksize);
    PassKeepsPointers(es, values[..], blocksize);
  }

  method MergePair(es: seq<Pair>, values: array<nat>, dst: array<nat>, start: nat, blocksize: nat) returns (end: nat)
    requires blocksize > 0 && values.Length == dst.Length && values != dst && Pointers(es, values[..])
    requires start + blocksize < values.Length
    requires Reached(Rank(es), values[..], blocksize, dst[..start], start)
    modifies dst
    ensures start < end <= values.Length
    ensures Reached(Rank(es), values[..], blocksize, dst[..end], end)
  {
    hide Reached, MergeRuns, Pass, Rank, Pointers;
    ghost var v := values[..];
    var mid := start + blocksize;
    end := if mid + blocksize > values.Length then values.Length else mid + blocksize;
    ReachedMore(Rank(es), v, blocksize, dst[..start], start);
    assert v[start..mid] == values[start..mid] && v[mid..end] == values[mid..end];
    MergeBlocks(es, values, dst, start, mid, end);
    assert values[..] == v;
  }

  method LeftOver(es: seq<Pair>, values: array<nat>, dst: array<nat>, start: nat, blocksize: nat)
    requires blocksize > 0 && values.Length == dst.Length && values != dst
    requires start <= values.Length <= start + blocksize
    requires Reached(Rank(es), values[..], blocksize, dst[..start], start)
    modifies dst
    ensures dst[..] == Pass(Rank(es), values[..], 0, blocksize)
  {
    ghost var v := values[..];
    var n := values.Length;
    assert dst[0..start] == dst[..start];
    assert Pass(Rank(es), v, start, blocksize) == v[start..] == values[start..n];
    CopyRun(values, start, n, dst, 0, start);
    assert dst[..] == dst[0..n] && values[..] == v;
  }

  /** *dst++ = x */
  method SetNext(dst: array<nat>, lo: nat, d: nat, x: nat)
    requires lo <= d < dst.Length
    modifies dst
    ensures dst[..lo] == old(dst[..lo]) && dst[lo..d + 1] == old(dst[lo..d]) + [x]
  {
    dst[d] := x;
  }

  /** Copies `values[from..to]` behind `dst[lo..d]`. */
  method CopyRun(values: array<nat>, from: nat, to: nat, dst: array<nat>, lo: nat, d: nat)
    requires from <= to <= values.Length && lo <= d && d + (to - from) <= dst.Length && values != dst
    modifies dst
    ensures dst[..lo] == old(dst[..lo])
    ensures dst[lo..d + (to - from)] == old(dst[lo..d]) + values[from..to]
  {
    var i := from;
    ghost var before := dst[lo..d];
    while i < to
      invariant from <= i <= to
      invariant dst[..lo] == old(dst[..lo])
      invariant dst[lo..d + (i - from)] == before + values[from..i]
    {
      SetNext(dst, lo, d + (i - from), values[i]);
      assert values[from..i + 1] == values[from..i] + [values[i]];
      i := i + 1;
    }
  }

  /** Merges `values[lo..mid]` and `values[mid..hi]` behind `dst[..lo]` until one is
      used up: the smaller of the two next elements goes first, the left one when
      they are alike. */
  method MergeHeads(es: seq<Pair>, values: array<nat>, dst: array<nat>, lo: nat, mid: nat, hi: nat)
    returns (a: nat, b: nat, d: nat)
    requires lo <= mid <= hi <= values.Length == dst.Length && values != dst && Pointers(es, values[..])
    modifies dst
    ensures dst[..lo] == old(dst[..lo])
    ensures lo <= a <= mid <= b <= hi && d == a + b - mid && (a == mid || b == hi)
    ensures dst[lo..d] + (if a == mid then values[b..hi] else values[a..mid]) ==
            MergeRuns(Rank(es), values[lo..mid], values[mid..hi])
  {
    hide Compare, Rank;
    a, b, d := lo, mid, lo;
    ghost var v, rank := values[..], Rank(es);
    ghost var x, y, done: seq<nat> := v[lo..mid], v[mid..hi], [];
    ghost var all := MergeRuns(rank, x, y);
    while a != mid && b != hi
      invariant lo <= a <= mid <= b <= hi && d == a + b - mid
      invariant dst[..lo] == old(dst[..lo]) && values[..] == v
      invariant x == v[a..mid] && y == v[b..hi]
      invariant done == dst[lo..d]
      invariant all == done + MergeRuns(rank, x, y)
      decreases hi - d
    {
      MergeStep(rank, all, done, x, y);
      assert x[0] == v[a] && y[0] == v[b];
      var right := After(es, values[a], values[b]);
      if right {
        SetNext(dst, lo, d, values[b]);
        done, b, y := done + [y[0]], b + 1, y[1..];
      } else {
        SetNext(dst, lo, d, values[a]);
        done, a, x := done + [x[0]], a + 1, x[1..];
      }
      d := d + 1;
    }
    assert MergeRuns(rank, x, y) == if a == mid then y else x;
  }

  /** Merges `values[lo..mid]` and `values[mid..hi]` into `dst[lo..hi]`. */
  method MergeBlocks(es: seq<Pair>, values: array<nat>, dst: array<nat>, lo: nat, mid: nat, hi: nat)
    requires lo <= mid <= hi <= values.Length == dst.Length && values != dst && Pointers(es, values[..])
    modifies dst
    ensures dst[..hi] == old(dst[..lo]) + MergeRuns(Rank(es), values[lo..mid], values[mid..hi])
  {
    var a, b, d := MergeHeads(es, values, dst, lo, mid, hi);
    if a == mid {
      CopyRun(values, b, hi, dst, lo, d);
    } else {
      CopyRun(values, a, mid, dst, lo, d);
    }
    JoinPieces(dst[..hi], lo, dst[..lo], dst[lo..hi]);
  }
}
