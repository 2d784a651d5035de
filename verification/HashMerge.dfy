/** hashfunc_default, and apr_hash_merge: a new table from two tables that may be
hashed with different seeds. */
module HashMerge {
  import opened HashSpec
  import opened HashTables

  /** hashfunc_default. `klen` is None for APR_HASH_KEY_STRING: the key then ends
      before the first NUL of the buffer. */
  method HashDefault(buffer: seq<Byte>, klen: Option<nat>, seed: nat) returns (hash: nat, len: nat)
    requires if klen.None? then 0 in buffer else klen.value <= |buffer|
    ensures klen.Some? ==> len == klen.value
    ensures klen.None? ==> len < |buffer| && buffer[len] == 0 && 0 !in buffer[..len]
    ensures hash == Times33(buffer[..len], seed)
  {
    hash, len := seed, 0;
    if klen.None? {
      while buffer[len] != 0
        invariant len < |buffer| && 0 !in buffer[..len] && 0 in buffer[len..]
        invariant hash == Times33(buffer[..len], seed)
        decreases |buffer| - len
      {
        assert buffer[..len + 1][..len] == buffer[..len];
        hash, len := (hash * 33 + buffer[len]) % WORD, len + 1;
      }
    } else {
      while len < klen.value
        invariant len <= klen.value && hash == Times33(buffer[..len], seed)
      {
        assert buffer[..len + 1][..len] == buffer[..len];
        hash, len := (hash * 33 + buffer[len]) % WORD, len + 1;
      }
    }
  }

  /** The value for a key of both tables: the overlay's, or what `merger` makes of the
      two. */
  type Merger<!V> = Option<(Key, V, V) -> V>

  function Pick<V>(f: Merger<V>, k: Key, over: V, base: V): V {
    if f.Some? then f.value(k, over, base) else over
  }

  /** `base` overridden by `over`. */
  function MergeMap<V>(base: map<Key, V>, over: map<Key, V>, f: Merger<V>): map<Key, V> {
    map k | k in base.Keys + over.Keys ::
      if k in over then (if k in base then Pick(f, k, over[k], base[k]) else over[k]) else base[k]
  }

  /** How many entries the two tables have together: the size of the union, and no
      more than the room allocated for them. */
  lemma UnionSize<V>(base: map<Key, V>, over: map<Key, V>, f: Merger<V>)
    ensures MergeMap(base, over, f).Keys == base.Keys + over.Keys
    ensures |MergeMap(base, over, f)| <= |base| + |over|
  {
    var m := MergeMap(base, over, f);
    assert m.Keys == base.Keys + over.Keys;
    hide MergeMap;
    assert |m| == |m.Keys| && |base| == |base.Keys| && |over| == |over.Keys|;
  }

  /** Every key of either table is bound: to the value of the table that has it, and, where
      both have it, to that of `over`, or to what the merger makes of that and the other. */
  ghost predicate Overridden<V>(m: map<Key, V>, base: map<Key, V>, over: map<Key, V>, f: Merger<V>) {
    && m.Keys == base.Keys + over.Keys
    && (forall k :: k in over && k !in base ==> m[k] == over[k])
    && (forall k :: k in base && k !in over ==> m[k] == base[k])
    && (f.None? ==> forall k :: k in base && k in over ==> m[k] == over[k])
    && (f.Some? ==> forall k :: k in base && k in over ==> m[k] == f.value(k, over[k], base[k]))
  }

  lemma MergeOverrides<V>(base: map<Key, V>, over: map<Key, V>, f: Merger<V>)
    ensures Overridden(MergeMap(base, over, f), base, over, f)
  {
    assert MergeMap(base, over, f).Keys == base.Keys + over.Keys;
  }

  /** A table under construction: its links, and what they denote so far. */
  class Builder<V> {
    const slots: array<Node?<V>>
    const max: nat
    const seed: nat
    const hashFunc: HashFunc
    ghost var g: View<V>
    ghost var m: map<Key, V>
    var used: nat                    // entries taken from new_vals

    ghost predicate Building()
      reads this, slots, g.where.Keys
    {
      && Structure(g, slots[..], null) && g.spare == []
      && Meaning(g.cs, m, hashFunc, seed, used, max)
    }

    constructor (max: nat, seed: nat, hashFunc: HashFunc)
      requires PowerOfTwo(max + 1)
      ensures Building() && m == map[] && used == 0 && g.where == map[] && fresh(slots)
      ensures this.max == max && this.seed == seed && this.hashFunc == hashFunc
    {
      this.max, this.seed, this.hashFunc := max, seed, hashFunc;
      slots := new Node?<V>[max + 1](_ => null);
      g, m, used := NoEntries(max + 1), map[], 0;
      new;
      EmptyStructure(slots[..]);
      TotalEmpty<V>(max + 1);
    }

    /** Takes the next new entry and puts it at the head of its chain. */
    method Insert(hash: nat, key: Key, val: V)
      requires Building() && hash == HashOf(hashFunc, seed, key) && key !in m
      modifies this, slots
      ensures Building() && m == old(m)[key := val] && used == old(used) + 1
      ensures fresh(g.where.Keys - old(g.where.Keys))
    {
      hide ChainsOk, Denotes, Total, PowerOfTwo, HashOf, Placed, Rep, Linked;
      var i := hash % (max + 1);
      var he := new Node(hash, key, val);
      PrependToChain(g.cs, hashFunc, seed, m, i, Entry(key, hash, val));
      g := HashTable<V>.LinkFirst(slots, g, i, he);
      m, used := m[key := val], used + 1;
    }

    /** The first loop of apr_hash_merge: every entry of `base`, with its own hash. */
    method TakeBase(base: HashTable<V>)
      requires Building() && m == map[] && used == 0
      requires base.Valid() && base.hashFunc == hashFunc && base.seed == seed && base.slots != slots
      modifies this, slots
      ensures Building() && m == base.m && used == base.count && base.Valid()
      ensures fresh(g.where.Keys - old(g.where.Keys))
    {
      hide Structure, Meaning, Restrict, Flat, Pos, HashOf, Building, HashTable<V>.Valid;
      TableParts(base);
      ghost var es, q, bg, heads := Flat(base.g.cs), 0, base.g, base.slots[..];
      WalkBounds(bg, heads, base.free, base.m, hashFunc, seed, base.count, base.max);
      for k := 0 to base.max + 1
        invariant Building() && base.Valid() && base.slots[..] == heads
        invariant q == Pos(bg.cs, k) == used && q <= |es| && m == Restrict(base.m, es[..q])
        invariant fresh(g.where.Keys - old(g.where.Keys))
      {
        var iter := base.slots[k];
        ghost var c, j := bg.chains[k], 0;
        TableParts(base);
        ChainAt(bg, heads, base.free, k);
        while iter != null
          invariant Building() && base.Valid() && base.slots[..] == heads && j <= |c|
          invariant iter == if j < |c| then c[j] else null
          invariant q == Pos(bg.cs, k) + j == used && q <= |es| && m == Restrict(base.m, es[..q])
          invariant fresh(g.where.Keys - old(g.where.Keys))
          decreases |c| - j
        {
          TableParts(base);
          EntryAt(bg, heads, base.free, hashFunc, seed, base.m, base.count, base.max, k, j);
          var next := iter.next;
          Insert(iter.hash, iter.key, iter.val);
          iter, j, q := next, j + 1, q + 1;
        }
      }
    }

    /** The second loop of apr_hash_merge: every entry of `over`, hashed anew, replaces
        the value of its key or becomes a new entry, for which there is room. */
    method TakeOverlay(over: HashTable<V>, f: Merger<V>, ghost base: map<Key, V>)
      requires Building() && m == base
      requires over.Valid() && over.slots != slots && over.g.where.Keys !! g.where.Keys
      modifies this, slots, g.where.Keys
      ensures Building() && m == MergeMap(base, over.m, f) && used <= |base| + over.count && over.Valid()
      ensures fresh(g.where.Keys - old(g.where.Keys))
    {
      hide Structure, Meaning, Restrict, Flat, Pos, HashOf, MergeMap, Building, HashTable<V>.Valid;
      TableParts(over);
      ghost var es, q, og := Flat(over.g.cs), 0, over.g;
      WalkBounds(og, over.slots[..], over.free, over.m, over.hashFunc, over.seed, over.count, over.max);
      MergeNothing(base, f);
      for k := 0 to over.max + 1
        invariant Building() && over.Valid() && og.where.Keys !! g.where.Keys
        invariant q == Pos(og.cs, k) && q <= |es| && m == MergeMap(base, Restrict(over.m, es[..q]), f)
        invariant fresh(g.where.Keys - old(g.where.Keys))
      {
        q := OverlayChain(over, k, f, base);
      }
      UnionSize(base, over.m, f);
      BuiltSize();
    }

    /** The inner loop: the entries of chain `k` of `over`. */
    method OverlayChain(over: HashTable<V>, k: nat, f: Merger<V>, ghost base: map<Key, V>) returns (ghost q: nat)
      requires Building() && over.Valid() && over.slots != slots && over.g.where.Keys !! g.where.Keys && k <= over.max
      requires var es, p := Flat(over.g.cs), Pos(over.g.cs, k);
               p <= |es| && m == MergeMap(base, Restrict(over.m, es[..p]), f)
      modifies this, slots, g.where.Keys
      ensures Building() && over.Valid() && over.g.where.Keys !! g.where.Keys
      ensures var es := Flat(over.g.cs);
              q == Pos(over.g.cs, k + 1) <= |es| && m == MergeMap(base, Restrict(over.m, es[..q]), f)
      ensures fresh(g.where.Keys - old(g.where.Keys))
    {
      hide Structure, Meaning, Restrict, Flat, Pos, HashOf, MergeMap, Building, HashTable<V>.Valid;
      TableParts(over);
      ghost var es, og := Flat(over.g.cs), over.g;
      ChainAt(og, over.slots[..], over.free, k);
      var iter := over.slots[k];
      ghost var c, j := og.chains[k], 0;
      q := Pos(og.cs, k);
      while iter != null
        invariant Building() && over.Valid() && og.where.Keys !! g.where.Keys && j <= |c|
        invariant iter == if j < |c| then c[j] else null
        invariant q == Pos(og.cs, k) + j && q <= |es| && m == MergeMap(base, Restrict(over.m, es[..q]), f)
        invariant fresh(g.where.Keys - old(g.where.Keys))
        decreases |c| - j
      {
        TableParts(over);
        EntryAt(og, over.slots[..], over.free, over.hashFunc, over.seed, over.m, over.count, over.max, k, j);
        MergeOne(base, Restrict(over.m, es[..q]), f, iter.key, iter.val);
        var next := iter.next;
        PutOver(iter.key, iter.val, f);
        iter, j, q := next, j + 1, q + 1;
      }
    }

    lemma BuiltSize()
      requires Building()
      ensures used == |m|
    {
      SizeOf(g.cs, m, hashFunc, seed, used, max);
    }

    /** The body of the second loop. */
    method PutOver(key: Key, val: V, f: Merger<V>)
      requires Building()
      modifies this, slots, g.where.Keys
      ensures Building() && fresh(g.where.Keys - old(g.where.Keys))
      ensures m == old(m)[key := if key in old(m) then Pick(f, key, val, old(m)[key]) else val]
    {
      hide ChainsOk, Denotes, Total, PowerOfTwo, HashOf, Placed, Rep, Linked;
      var hash := HashOf(hashFunc, seed, key);
      var i := hash % (max + 1);
      var ent, p := ScanKeys(key, i);
      KeyIsInItsChain(g.cs, hashFunc, seed, m, key);
      if ent != null {
        NodeKey(g, slots[..], null, i, p);
        var new_val := Pick(f, key, val, ent.val);
        ReplaceInChain(g.cs, hashFunc, seed, m, i, p, new_val);
        g := HashTable<V>.WriteVal(slots, g, null, i, ent, p, new_val);
        m := m[key := new_val];
      } else {
        Insert(hash, key, val);
      }
    }

    /** The scan for a key, by length and bytes only. */
    method ScanKeys(key: Key, i: nat) returns (ent: Node?<V>, ghost p: nat)
      requires Building() && i < |g.cs|
      ensures |g.cs| == |g.chains| == max + 1 && |g.chains[i]| == |g.cs[i]| && p == Find(g.cs[i], key)
      ensures ent == if p < |g.chains[i]| then g.chains[i][p] else null
    {
      hide ChainsOk, Denotes, Total, PowerOfTwo, HashOf;
      ghost var c := g.chains[i];
      RepOpen(c, slots[i], g.cs[i]);
      ent, p := slots[i], 0;
      while ent != null
        invariant p <= |c| && ent == if p < |c| then c[p] else null
        invariant forall j :: 0 <= j < p ==> g.cs[i][j].key != key
        decreases |c| - p
      {
        if ent.key == key { break; }
        ent, p := ent.next, p + 1;
      }
    }
  }

  lemma TableParts<V>(t: HashTable<V>)
    requires t.Valid()
    ensures Structure(t.g, t.slots[..], t.free) && Meaning(t.g.cs, t.m, t.hashFunc, t.seed, t.count, t.max)
    ensures t.slots.Length == t.max + 1
  {
  }

  lemma MergeNothing<V>(base: map<Key, V>, f: Merger<V>)
    ensures MergeMap(base, map[], f) == base
  {
  }

  lemma MergeOne<V>(base: map<Key, V>, over: map<Key, V>, f: Merger<V>, k: Key, v: V)
    requires k !in over
    ensures var m := MergeMap(base, over, f);
            MergeMap(base, over[k := v], f) == m[k := if k in m then Pick(f, k, v, m[k]) else v]
  {
  }

  lemma SizeOf<V>(cs: seq<seq<Entry<V>>>, m: map<Key, V>, f: HashFunc, seed: nat, count: nat, max: nat)
    requires Meaning(cs, m, f, seed, count, max)
    ensures count == |m|
  {
    TotalIsSize(cs, f, seed, m);
  }

  /** The loops of apr_hash_merge. */
  method Combine<V>(over: HashTable<V>, base: HashTable<V>, f: Merger<V>, max: nat) returns (b: Builder<V>)
    requires over.Valid() && base.Valid() && PowerOfTwo(max + 1)
    ensures b.Building() && b.m == MergeMap(base.m, over.m, f)
    ensures b.max == max && b.seed == base.seed && b.hashFunc == base.hashFunc
    ensures b.used == |base.m.Keys + over.m.Keys| <= base.count + over.count
    ensures fresh(b.slots) && fresh(b.g.where.Keys)
  {
    hide ChainsOk, Denotes, Total, HashOf, Structure, MergeMap, PowerOfTwo;
    SizeOf(base.g.cs, base.m, base.hashFunc, base.seed, base.count, base.max);
    b := new Builder<V>(max, base.seed, base.hashFunc);
    b.TakeBase(base);
    b.TakeOverlay(over, f, base.m);
    SizeOf(b.g.cs, b.m, b.hashFunc, b.seed, b.used, b.max);
    UnionSize(base.m, over.m, f);
  }

  /** apr_hash_merge: the result fits its chains again, whatever the two seeds. */
  method Merge<V>(over: HashTable<V>, base: HashTable<V>, f: Merger<V>) returns (res: HashTable<V>)
    requires over.Valid() && base.Valid()
    ensures res.Valid() && res.m == MergeMap(base.m, over.m, f) && Overridden(res.m, base.m, over.m, f)
    ensures res.hashFunc == base.hashFunc && res.seed == base.seed && res.count == |base.m.Keys + over.m.Keys|
    ensures fresh(res) && fresh(res.slots) && fresh(res.g.where.Keys)
  {
    hide ChainsOk, Denotes, Total, HashOf, Structure, MergeMap, Overridden;
    MergeOverrides(base.m, over.m, f);
    var max := if over.max > base.max then over.max else base.max;
    if base.count + over.count > max { max := max * 2 + 1; }
    assert PowerOfTwo(max + 1);
    var b := Combine(over, base, f, max);
    res := new HashTable<V>.Built(b.slots, b.used, b.max, b.seed, b.hashFunc, b.g, b.m);
  }

  /** How many entries come before chain `k`. */
  ghost function Pos<V>(cs: seq<seq<Entry<V>>>, k: nat): nat {
    if k <= |cs| then |Flat(cs[..k])| else 0
  }

  lemma ChainAt<V>(g: View<V>, heads: seq<Node?<V>>, free: Node?<V>, k: nat)
    requires Structure(g, heads, free) && k < |heads|
    ensures k < |g.chains| == |g.cs| && |g.chains[k]| == |g.cs[k]|
    ensures heads[k] == if g.chains[k] == [] then null else g.chains[k][0]
    ensures Pos(g.cs, k + 1) == Pos(g.cs, k) + |g.chains[k]|
  {
    RepOpen(g.chains[k], heads[k], g.cs[k]);
    assert g.cs[..k + 1][..k] == g.cs[..k];
  }

  lemma WalkBounds<V>(g: View<V>, heads: seq<Node?<V>>, free: Node?<V>, m: map<Key, V>, f: HashFunc, seed: nat,
                      count: nat, max: nat)
    requires Structure(g, heads, free) && Meaning(g.cs, m, f, seed, count, max)
    ensures |g.chains| == |g.cs| == |heads| == max + 1
    ensures Pos(g.cs, 0) == 0 && Pos(g.cs, |heads|) == |Flat(g.cs)| == count == |m|
    ensures Restrict(m, Flat(g.cs)[..0]) == map[] && Restrict(m, Flat(g.cs)[..|Flat(g.cs)|]) == m
  {
    hide HashOf, Restrict, Total, Rep, Placed, Linked;
    var es := Flat(g.cs);
    assert g.cs[..|heads|] == g.cs && g.cs[..0] == [];
    FlatListDenotes(g.cs, f, seed, m);
    TotalIsSize(g.cs, f, seed, m);
    RestrictNone(m, es);
    RestrictAll(m, es, f, seed);
  }

  lemma RestrictAll<V>(m: map<Key, V>, es: seq<Entry<V>>, f: HashFunc, seed: nat)
    requires ListDenotes(es, f, seed, m)
    ensures Restrict(m, es[..|es|]) == m
  {
    hide HashOf;
    assert es[..|es|] == es;
  }

  /** Entry `j` of chain `k` in the list of all entries. */
  lemma EntryAt<V>(g: View<V>, heads: seq<Node?<V>>, free: Node?<V>, f: HashFunc, seed: nat, m: map<Key, V>,
                   count: nat, max: nat, k: nat, j: nat)
    requires Structure(g, heads, free) && Meaning(g.cs, m, f, seed, count, max)
    requires k < |g.chains| && j < |g.chains[k]|
    ensures var es, q, x := Flat(g.cs), Pos(g.cs, k) + j, g.chains[k][j];
            && x in g.where && x.next == (if j + 1 < |g.chains[k]| then g.chains[k][j + 1] else null)
            && q < |es| == count && x.hash == HashOf(f, seed, x.key) && x.key in m && m[x.key] == x.val
            && x.key !in Restrict(m, es[..q])
            && Restrict(m, es[..q + 1]) == Restrict(m, es[..q])[x.key := x.val]
  {
    hide HashOf, Restrict, Denotes, ChainsOk, Total, Flat, Placed, PowerOfTwo, Linked;
    var es, q := Flat(g.cs), Pos(g.cs, k) + j;
    NodeKey(g, heads, free, k, j);
    RepOpen(g.chains[k], heads[k], g.cs[k]);
    EntryInFlat(g.cs, k, j);
    FlatListDenotes(g.cs, f, seed, m);
    RestrictMore(m, es, q + 1);
    NotYet(m, es, q);
  }

  lemma EntryInFlat<T>(cs: seq<seq<T>>, k: nat, j: nat)
    requires k < |cs| && j < |cs[k]|
    ensures |Flat(cs[..k])| + j < |Flat(cs)| && Flat(cs)[|Flat(cs[..k])| + j] == cs[k][j]
  {
    FlatFromIsFlat(cs, k);
  }
}
