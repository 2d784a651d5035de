/** What the chains of an apr_hash_t denote: a finite map from keys to values. */
module HashSpec {
  type Byte = x: int | 0 <= x < 256
  type Key = seq<Byte>

  datatype Option<+T> = None | Some(value: T)

  const WORD := 0x1_0000_0000

  /** hashfunc_default: times 33, modulo the width of unsigned int. */
  function Times33(key: Key, seed: nat): nat
    decreases |key|
  {
    if key == [] then seed else (Times33(key[..|key| - 1], seed) * 33 + key[|key| - 1]) % WORD
  }

  /** The bytes in turn: each is added to 33 times what was there, modulo 2^32. */
  lemma {:induction false} Times33Append(a: Key, b: Key, seed: nat)
    ensures Times33(a + b, seed) == Times33(b, Times33(a, seed))
    ensures forall c: Byte :: Times33([c], seed) == (seed * 33 + c) % 0x1_0000_0000
    decreases |b|
  {
    if b == [] {
      assert a + b == a;
    } else {
      var n := |b| - 1;
      assert (a + b)[..|a + b| - 1] == a + b[..n];
      Times33Append(a, b[..n], seed);
    }
    forall c: Byte ensures Times33([c], seed) == (seed * 33 + c) % 0x1_0000_0000 { assert [c][..0] == []; }
  }

  /** NULL, or a caller's function of the key. */
  datatype HashFunc = Default | Custom(f: Key -> nat)

  function HashOf(f: HashFunc, seed: nat, key: Key): nat {
    if f.Default? then Times33(key, seed) else f.f(key)
  }

  datatype Entry<+V> = Entry(key: Key, hash: nat, val: V)

  /** `e` belongs in slot `i` of `n`. */
  predicate Belongs<V>(e: Entry<V>, i: nat, n: nat, f: HashFunc, seed: nat)
    requires n > 0
  {
    e.hash == HashOf(f, seed, e.key) && e.hash % n == i
  }

  predicate DistinctKeys<V>(c: seq<Entry<V>>) {
    forall p, q :: 0 <= p < q < |c| ==> c[p].key != c[q].key
  }

  predicate ChainOk<V>(c: seq<Entry<V>>, i: nat, n: nat, f: HashFunc, seed: nat)
    requires n > 0
  {
    DistinctKeys(c) && forall j :: 0 <= j < |c| ==> Belongs(c[j], i, n, f, seed)
  }

  /** Each entry is in the chain of its hash, and no key occurs twice. */
  predicate ChainsOk<V>(cs: seq<seq<Entry<V>>>, f: HashFunc, seed: nat) {
    |cs| > 0 && forall i :: 0 <= i < |cs| ==> ChainOk(cs[i], i, |cs|, f, seed)
  }

  predicate HasKey<V>(c: seq<Entry<V>>, k: Key) {
    exists j :: 0 <= j < |c| && c[j].key == k
  }

  /** The chains hold exactly the pairs of `m`. */
  ghost predicate Denotes<V>(cs: seq<seq<Entry<V>>>, f: HashFunc, seed: nat, m: map<Key, V>) {
    && |cs| > 0
    && (forall i, j :: 0 <= i < |cs| && 0 <= j < |cs[i]| ==> cs[i][j].key in m && m[cs[i][j].key] == cs[i][j].val)
    && (forall k :: k in m ==> HasKey(cs[HashOf(f, seed, k) % |cs|], k))
  }

  /** The total length of the chains. */
  function Total<V>(cs: seq<seq<Entry<V>>>): nat {
    if cs == [] then 0 else Total(cs[..|cs| - 1]) + |cs[|cs| - 1]|
  }

  lemma {:induction false} TotalUpdate<V>(cs: seq<seq<Entry<V>>>, i: nat, c: seq<Entry<V>>)
    requires i < |cs|
    ensures Total(cs[i := c]) == Total(cs) - |cs[i]| + |c|
    decreases |cs|
  {
    var n := |cs| - 1;
    if i < n {
      TotalUpdate(cs[..n], i, c);
      assert cs[i := c][..n] == cs[..n][i := c];
    } else {
      assert cs[i := c][..n] == cs[..n];
    }
  }

  /** The first position of a key in a chain, or its length. */
  function Find<V>(c: seq<Entry<V>>, k: Key): (p: nat)
    ensures p <= |c| && (p < |c| ==> c[p].key == k)
    ensures forall j :: 0 <= j < p ==> c[j].key != k
    ensures HasKey(c, k) <==> p < |c|
  {
    if c == [] then 0
    else if c[0].key == k then 0
    else
      var r := Find(c[1..], k);
      assert forall j :: 0 <= j < |c| - 1 ==> c[1..][j] == c[j + 1];
      assert forall j :: 0 < j < |c| ==> c[j] == c[1..][j - 1];
      1 + r
  }

  function Get<V>(m: map<Key, V>, k: Key): Option<V> {
    if k in m then Some(m[k]) else None
  }

  /** Storing a pair, or removing the key when there is no value. */
  function Set<V>(m: map<Key, V>, k: Key, v: Option<V>): map<Key, V> {
    if v.Some? then m[k := v.value] else m - {k}
  }

  /** Chain `c'` is `c` with `k` bound as in `v`; every other entry stays. */
  ghost predicate Rebinds<V>(c: seq<Entry<V>>, c': seq<Entry<V>>, k: Key, v: Option<V>) {
    && (forall j :: 0 <= j < |c'| ==> if c'[j].key == k then v == Some(c'[j].val) else c'[j] in c)
    && (forall j :: 0 <= j < |c| && c[j].key != k ==> c[j] in c')
    && (v.Some? ==> HasKey(c', k))
  }

  lemma RebindHas<V>(c: seq<Entry<V>>, c': seq<Entry<V>>, k: Key, v: Option<V>, x: Key)
    requires Rebinds(c, c', k, v) && HasKey(c, x) && x != k
    ensures HasKey(c', x)
  {
    var q :| 0 <= q < |c| && c[q].key == x;
    var p :| 0 <= p < |c'| && c'[p] == c[q];
  }

  /** Rebinding a key in its chain rebinds it in the map. */
  lemma RebindDenotes<V>(cs: seq<seq<Entry<V>>>, f: HashFunc, seed: nat, m: map<Key, V>,
                         c': seq<Entry<V>>, k: Key, v: Option<V>)
    requires ChainsOk(cs, f, seed) && Denotes(cs, f, seed, m)
    requires var i := HashOf(f, seed, k) % |cs|; ChainOk(c', i, |cs|, f, seed) && Rebinds(cs[i], c', k, v)
    ensures var cs' := cs[HashOf(f, seed, k) % |cs| := c'];
            ChainsOk(cs', f, seed) && Denotes(cs', f, seed, Set(m, k, v))
  {
    hide HashOf, HasKey;
    var i, n: nat := HashOf(f, seed, k) % |cs|, |cs|;
    var cs': seq<seq<Entry<V>>>, m': map<Key, V> := cs[i := c'], Set(m, k, v);
    forall g, j | 0 <= g < n && 0 <= j < |cs'[g]|
      ensures cs'[g][j].key in m' && m'[cs'[g][j].key] == cs'[g][j].val
    {
      var e := cs'[g][j];
      if g == i && e.key != k {
        var q :| 0 <= q < |cs[i]| && cs[i][q] == e;
      } else if g != i {
        assert ChainOk(cs[g], g, n, f, seed);
        assert Belongs(cs[g][j], g, n, f, seed);
      }
    }
    forall x | x in m' ensures HasKey(cs'[HashOf(f, seed, x) % n], x) {
      if x != k {
        var g := HashOf(f, seed, x) % n;
        assert HasKey(cs[g], x);
        if g == i { RebindHas(cs[i], c', k, v, x); }
      }
    }
  }

  // ---------- what the operations do to a chain ----------

  lemma RebindReplace<V>(c: seq<Entry<V>>, i: nat, n: nat, f: HashFunc, seed: nat, p: nat, v: V)
    requires n > 0 && ChainOk(c, i, n, f, seed) && p < |c|
    ensures ChainOk(c[p := c[p].(val := v)], i, n, f, seed)
    ensures Rebinds(c, c[p := c[p].(val := v)], c[p].key, Some(v))
  {
    var c' := c[p := c[p].(val := v)];
    forall j | 0 <= j < |c'| ensures Belongs(c'[j], i, n, f, seed) { assert Belongs(c[j], i, n, f, seed); }
    assert c'[p].key == c[p].key;
    forall j | 0 <= j < |c| && c[j].key != c[p].key ensures c[j] in c' { assert c'[j] == c[j]; }
  }

  lemma RebindAppend<V>(c: seq<Entry<V>>, i: nat, n: nat, f: HashFunc, seed: nat, e: Entry<V>)
    requires n > 0 && ChainOk(c, i, n, f, seed) && Belongs(e, i, n, f, seed) && !HasKey(c, e.key)
    ensures ChainOk(c + [e], i, n, f, seed) && Rebinds(c, c + [e], e.key, Some(e.val))
    ensures ChainOk([e] + c, i, n, f, seed) && Rebinds(c, [e] + c, e.key, Some(e.val))
  {
    var a, b := c + [e], [e] + c;
    forall j | 0 <= j < |a| ensures Belongs(a[j], i, n, f, seed) {
      if j < |c| { assert Belongs(c[j], i, n, f, seed); }
    }
    forall j | 0 <= j < |b| ensures Belongs(b[j], i, n, f, seed) {
      if j > 0 { assert Belongs(c[j - 1], i, n, f, seed); }
    }
    assert a[|c|].key == e.key && b[0].key == e.key;
    forall j | 0 <= j < |c| ensures c[j] in a && c[j] in b { assert a[j] == c[j] && b[j + 1] == c[j]; }
  }

  lemma RebindDelete<V>(c: seq<Entry<V>>, i: nat, n: nat, f: HashFunc, seed: nat, p: nat)
    requires n > 0 && ChainOk(c, i, n, f, seed) && p < |c|
    ensures ChainOk(c[..p] + c[p + 1..], i, n, f, seed)
    ensures Rebinds(c, c[..p] + c[p + 1..], c[p].key, None)
  {
    var c' := c[..p] + c[p + 1..];
    forall j | 0 <= j < |c'| ensures c'[j] == c[if j < p then j else j + 1] && Belongs(c'[j], i, n, f, seed) {
      assert Belongs(c[if j < p then j else j + 1], i, n, f, seed);
    }
    forall j | 0 <= j < |c| && c[j].key != c[p].key ensures c[j] in c' {
      assert c'[if j < p then j else j - 1] == c[j];
    }
  }

  /** Linking in an entry of a new key binds it. */
  lemma PrependToChain<V>(cs: seq<seq<Entry<V>>>, f: HashFunc, seed: nat, m: map<Key, V>, i: nat, e: Entry<V>)
    requires ChainsOk(cs, f, seed) && Denotes(cs, f, seed, m)
    requires i < |cs| && e.hash == HashOf(f, seed, e.key) && e.hash % |cs| == i && e.key !in m
    ensures var cs' := cs[i := [e] + cs[i]];
            ChainsOk(cs', f, seed) && Denotes(cs', f, seed, m[e.key := e.val]) && Total(cs') == Total(cs) + 1
  {
    hide HashOf, Total, Rebinds;
    assert !HasKey(cs[i], e.key);
    assert ChainOk(cs[i], i, |cs|, f, seed);
    RebindAppend(cs[i], i, |cs|, f, seed, e);
    RebindDenotes(cs, f, seed, m, [e] + cs[i], e.key, Some(e.val));
    TotalUpdate(cs, i, [e] + cs[i]);
  }

  // ---------- growing ----------

  /** All entries, chain after chain. */
  function Flat<T>(cs: seq<seq<T>>): seq<T> {
    if cs == [] then [] else Flat(cs[..|cs| - 1]) + cs[|cs| - 1]
  }

  /** Linking an entry in at the head of its chain. */
  function Link<V>(cs: seq<seq<Entry<V>>>, e: Entry<V>): seq<seq<Entry<V>>>
    requires |cs| > 0
  {
    var i := e.hash % |cs|;
    cs[i := [e] + cs[i]]
  }

  function LinkAll<V>(cs: seq<seq<Entry<V>>>, es: seq<Entry<V>>): (r: seq<seq<Entry<V>>>)
    requires |cs| > 0
    ensures |r| == |cs|
  {
    if es == [] then cs else Link(LinkAll(cs, es[..|es| - 1]), es[|es| - 1])
  }

  ghost predicate ListDenotes<V>(es: seq<Entry<V>>, f: HashFunc, seed: nat, m: map<Key, V>) {
    && DistinctKeys(es)
    && (forall j :: 0 <= j < |es| ==>
      es[j].hash == HashOf(f, seed, es[j].key) && es[j].key in m && m[es[j].key] == es[j].val)
    && (forall k :: k in m ==> HasKey(es, k))
  }

  /** The entries `es` are those of the first `n` chains. */
  ghost predicate FlatOf<V>(es: seq<Entry<V>>, cs: seq<seq<Entry<V>>>, f: HashFunc, seed: nat, m: map<Key, V>, n: nat)
    requires 0 < |cs| && n <= |cs|
  {
    && DistinctKeys(es)
    && (forall j :: 0 <= j < |es| ==> FlatEntry(es[j], |cs|, f, seed, m, n))
    && (forall i, j :: 0 <= i < n && 0 <= j < |cs[i]| ==> cs[i][j] in es)
  }

  ghost predicate FlatEntry<V>(e: Entry<V>, size: nat, f: HashFunc, seed: nat, m: map<Key, V>, n: nat)
    requires size > 0
  {
    e.hash == HashOf(f, seed, e.key) && e.hash % size < n && e.key in m && m[e.key] == e.val
  }

  /** The entries of well-formed chains, one after the other, denote the same map. */
  lemma {:induction false} FlatDenotes<V>(cs: seq<seq<Entry<V>>>, f: HashFunc, seed: nat, m: map<Key, V>, n: nat)
    requires ChainsOk(cs, f, seed) && Denotes(cs, f, seed, m) && n <= |cs|
    ensures FlatOf(Flat(cs[..n]), cs, f, seed, m, n) && |Flat(cs[..n])| == Total(cs[..n])
    decreases n
  {
    hide HashOf, FlatOf, ChainsOk, Denotes;
    if n == 0 {
      FlatNone(cs, f, seed, m);
    } else {
      FlatDenotes(cs, f, seed, m, n - 1);
      assert cs[..n][..n - 1] == cs[..n - 1];
      FlatMore(cs, f, seed, m, n, Flat(cs[..n - 1]));
    }
  }

  lemma FlatNone<V>(cs: seq<seq<Entry<V>>>, f: HashFunc, seed: nat, m: map<Key, V>)
    requires ChainsOk(cs, f, seed)
    ensures FlatOf([], cs, f, seed, m, 0)
  {
  }

  lemma FlatMore<V>(cs: seq<seq<Entry<V>>>, f: HashFunc, seed: nat, m: map<Key, V>, n: nat, a: seq<Entry<V>>)
    requires ChainsOk(cs, f, seed) && Denotes(cs, f, seed, m) && 0 < n <= |cs| && FlatOf(a, cs, f, seed, m, n - 1)
    ensures FlatOf(a + cs[n - 1], cs, f, seed, m, n)
  {
    hide HashOf;
    var c := cs[n - 1];
    var r := a + c;
    assert ChainOk(c, n - 1, |cs|, f, seed);
    forall j | 0 <= j < |r| ensures FlatEntry(r[j], |cs|, f, seed, m, n) {
      if j < |a| {
        assert FlatEntry(a[j], |cs|, f, seed, m, n - 1);
      } else {
        assert Belongs(c[j - |a|], n - 1, |cs|, f, seed);
      }
    }
    forall p, q | 0 <= p < q < |r| ensures r[p].key != r[q].key {
      if p < |a| { assert FlatEntry(a[p], |cs|, f, seed, m, n - 1); }
      if q >= |a| { assert Belongs(c[q - |a|], n - 1, |cs|, f, seed); }
    }
    forall j | 0 <= j < |c| ensures c[j] in r { assert r[|a| + j] == c[j]; }
  }

  lemma FlatListDenotes<V>(cs: seq<seq<Entry<V>>>, f: HashFunc, seed: nat, m: map<Key, V>)
    requires ChainsOk(cs, f, seed) && Denotes(cs, f, seed, m)
    ensures ListDenotes(Flat(cs), f, seed, m) && |Flat(cs)| == Total(cs)
  {
    hide HashOf, Flat, Total;
    FlatDenotes(cs, f, seed, m, |cs|);
    assert cs[..|cs|] == cs;
    var es := Flat(cs);
    forall j | 0 <= j < |es|
      ensures es[j].hash == HashOf(f, seed, es[j].key) && es[j].key in m && m[es[j].key] == es[j].val
    {
      assert FlatEntry(es[j], |cs|, f, seed, m, |cs|);
    }
    forall k | k in m ensures HasKey(es, k) {
      var i := HashOf(f, seed, k) % |cs|;
      assert HasKey(cs[i], k);
      var j :| 0 <= j < |cs[i]| && cs[i][j].key == k;
      assert cs[i][j] in es;
    }
  }

  ghost function Restrict<V>(m: map<Key, V>, es: seq<Entry<V>>): map<Key, V> {
    map k | k in m && HasKey(es, k) :: m[k]
  }

  function Empty<V>(n: nat): (r: seq<seq<Entry<V>>>)
    ensures |r| == n && forall i :: 0 <= i < n ==> r[i] == []
  {
    seq(n, _ => [])
  }

  lemma {:induction false} TotalEmpty<V>(n: nat)
    ensures Total(Empty<V>(n)) == 0
  {
    if n > 0 {
      TotalEmpty<V>(n - 1);
      assert Empty<V>(n)[..n - 1] == Empty<V>(n - 1);
    }
  }

  lemma LinkNone<V>(cs: seq<seq<Entry<V>>>, es: seq<Entry<V>>)
    requires |cs| > 0
    ensures LinkAll(cs, es[..0]) == cs
  {
  }

  lemma LinkMore<V>(cs: seq<seq<Entry<V>>>, es: seq<Entry<V>>, k: nat)
    requires |cs| > 0 && k < |es|
    ensures LinkAll(cs, es[..k + 1]) == Link(LinkAll(cs, es[..k]), es[k])
  {
    assert es[..k + 1][..k] == es[..k];
  }

  lemma EmptyDenotes<V>(n: nat, f: HashFunc, seed: nat)
    requires n > 0
    ensures ChainsOk(Empty<V>(n), f, seed) && Denotes(Empty<V>(n), f, seed, map[])
  {
    hide HashOf;
  }

  /** Relinking the entries of a list into empty chains of any number loses none. */
  lemma {:induction false} LinkAllDenotes<V>(n: nat, es: seq<Entry<V>>, f: HashFunc, seed: nat, m: map<Key, V>, c: nat)
    requires n > 0 && ListDenotes(es, f, seed, m) && c <= |es|
    ensures var r := LinkAll(Empty<V>(n), es[..c]);
            ChainsOk(r, f, seed) && Denotes(r, f, seed, Restrict(m, es[..c])) && Total(r) == c
    decreases c
  {
    hide LinkAll, HashOf, Empty, ChainsOk, Denotes, Total, Restrict;
    if c == 0 {
      LinkNone(Empty<V>(n), es);
      RestrictNone(m, es);
      EmptyDenotes<V>(n, f, seed);
      TotalEmpty<V>(n);
    } else {
      LinkAllDenotes(n, es, f, seed, m, c - 1);
      LinkMore(Empty<V>(n), es, c - 1);
      var r, e := LinkAll(Empty<V>(n), es[..c - 1]), es[c - 1];
      NotYet(m, es, c - 1);
      PrependToChain(r, f, seed, Restrict(m, es[..c - 1]), e.hash % n, e);
      RestrictMore(m, es, c);
    }
  }

  lemma RestrictMore<V>(m: map<Key, V>, es: seq<Entry<V>>, c: nat)
    requires 0 < c <= |es| && es[c - 1].key in m && m[es[c - 1].key] == es[c - 1].val
    ensures Restrict(m, es[..c]) == Restrict(m, es[..c - 1])[es[c - 1].key := es[c - 1].val]
  {
    var a, b := es[..c - 1], es[..c];
    forall k ensures HasKey(b, k) <==> HasKey(a, k) || es[c - 1].key == k {
      if HasKey(a, k) {
        var j :| 0 <= j < |a| && a[j].key == k;
        assert b[j].key == k;
      }
      if es[c - 1].key == k { assert b[c - 1].key == k; }
      if HasKey(b, k) && es[c - 1].key != k {
        var j :| 0 <= j < |b| && b[j].key == k;
        assert a[j].key == k;
      }
    }
  }

  /** Growing: relinking all entries into another number of chains keeps the map. */
  lemma RehashDenotes<V>(cs: seq<seq<Entry<V>>>, f: HashFunc, seed: nat, m: map<Key, V>, n: nat)
    requires n > 0 && ChainsOk(cs, f, seed) && Denotes(cs, f, seed, m)
    ensures var r := LinkAll(Empty<V>(n), Flat(cs));
            ChainsOk(r, f, seed) && Denotes(r, f, seed, m) && Total(r) == Total(cs)
  {
    hide Flat, LinkAll, Total, HashOf, ChainsOk, Denotes;
    var es := Flat(cs);
    FlatListDenotes(cs, f, seed, m);
    LinkAllDenotes(n, es, f, seed, m, |es|);
    assert es[..|es|] == es;
    assert Restrict(m, es) == m;
  }

  lemma {:induction false} ListSize<V>(es: seq<Entry<V>>, f: HashFunc, seed: nat, m: map<Key, V>, c: nat)
    requires ListDenotes(es, f, seed, m) && c <= |es|
    ensures |Restrict(m, es[..c])| == c
    decreases c
  {
    hide HashOf, Restrict;
    if c == 0 {
      RestrictNone(m, es);
    } else {
      ListSize(es, f, seed, m, c - 1);
      RestrictMore(m, es, c);
      NotYet(m, es, c - 1);
    }
  }

  lemma RestrictNone<V>(m: map<Key, V>, es: seq<Entry<V>>)
    ensures Restrict(m, es[..0]) == map[]
  {
  }

  lemma NotYet<V>(m: map<Key, V>, es: seq<Entry<V>>, c: nat)
    requires c < |es| && DistinctKeys(es)
    ensures es[c].key !in Restrict(m, es[..c])
  {
  }

  /** The total length of the chains is the size of the map. */
  lemma TotalIsSize<V>(cs: seq<seq<Entry<V>>>, f: HashFunc, seed: nat, m: map<Key, V>)
    requires ChainsOk(cs, f, seed) && Denotes(cs, f, seed, m)
    ensures Total(cs) == |m|
  {
    var es := Flat(cs);
    FlatListDenotes(cs, f, seed, m);
    ListSize(es, f, seed, m, |es|);
    assert es[..|es|] == es;
    assert Restrict(m, es) == m;
  }
}
