/** apr_hash_t: chains of linked entries hanging off an array of slots, a list of
recycled entries, and growth by relinking. */
module HashTables {
  import opened HashSpec
  import opened Seqs

  const INITIAL_MAX := 15

  predicate PowerOfTwo(n: nat) {
    n == 1 || (n > 1 && n % 2 == 0 && PowerOfTwo(n / 2))
  }

  class Node<V> {
    var next: Node?<V>
    var hash: nat
    var key: Key
    var val: V

    constructor (hash: nat, key: Key, val: V)
      ensures this.hash == hash && this.key == key && this.val == val && next == null
    {
      this.next, this.hash, this.key, this.val := null, hash, key, val;
    }
  }

  /** The nodes of `c` are linked in order from `head` to a NULL. */
  ghost predicate Linked<V>(c: seq<Node<V>>, head: Node?<V>)
    reads c
  {
    && head == (if c == [] then null else c[0])
    && forall j {:trigger c[j].next} :: 0 <= j < |c| ==> c[j].next == if j + 1 < |c| then c[j + 1] else null
  }

  /** ... and hold the entries of `es`. */
  ghost predicate Rep<V>(c: seq<Node<V>>, head: Node?<V>, es: seq<Entry<V>>)
    reads c
  {
    && Linked(c, head)
    && |c| == |es| && forall j :: 0 <= j < |c| ==> es[j] == Entry(c[j].key, c[j].hash, c[j].val)
  }

  ghost predicate AllDistinct<V>(c: seq<Node<V>>) {
    forall p, q :: 0 <= p < q < |c| ==> c[p] != c[q]
  }

  /** The nodes of `c` hold the entries of `es`. */
  ghost predicate Shows<V>(c: seq<Node<V>>, es: seq<Entry<V>>)
    reads c
  {
    |c| == |es| && forall j :: 0 <= j < |c| ==> es[j] == Entry(c[j].key, c[j].hash, c[j].val)
  }

  /** The nodes of `c` are distinct and are assigned to slot `i`. */
  ghost predicate Placed<V>(c: seq<Node<V>>, where: map<Node<V>, int>, i: int) {
    && (forall j :: 0 <= j < |c| ==> c[j] in where && where[c[j]] == i)
    && (forall p, q :: 0 <= p < q < |c| ==> c[p] != c[q])
  }

  /** The shape of the links. */
  datatype View<V> = View(
    chains: seq<seq<Node<V>>>,
    cs: seq<seq<Entry<V>>>,          // what the chains hold
    spare: seq<Node<V>>,             // the list of recycled entries
    where: map<Node<V>, int>)        // the slot of each node, -1 when recycled

  /** Chains are acyclic and disjoint from each other and from the recycled entries. */
  ghost predicate Structure<V>(g: View<V>, heads: seq<Node?<V>>, free: Node?<V>)
    reads g.where.Keys
  {
    && |g.chains| == |g.cs| == |heads|
    && (forall i :: 0 <= i < |heads| ==> Placed(g.chains[i], g.where, i) && Rep(g.chains[i], heads[i], g.cs[i]))
    && Placed(g.spare, g.where, -1) && Linked(g.spare, free)
  }

  /** Each entry is in the chain of its hash, no key occurs twice, and the entries are
      the pairs of the map. */
  ghost predicate Meaning<V>(cs: seq<seq<Entry<V>>>, m: map<Key, V>, f: HashFunc, seed: nat, count: nat, max: nat) {
    && |cs| == max + 1 && PowerOfTwo(max + 1)
    && ChainsOk(cs, f, seed) && Denotes(cs, f, seed, m) && count == Total(cs)
  }

  lemma TwiceAsMany(n: nat)
    requires PowerOfTwo(n)
    ensures PowerOfTwo(2 * n)
  {
    assert 2 * n / 2 == n;
  }

  lemma SlotsOf<V>(g: View<V>, heads: seq<Node?<V>>, free: Node?<V>)
    requires Structure(g, heads, free)
    ensures |g.chains| == |g.cs| == |heads| && Placed(g.spare, g.where, -1)
  {
  }

  class HashTable<V> {
    var slots: array<Node?<V>>
    var count: nat
    var max: nat
    var seed: nat
    var hashFunc: HashFunc
    var free: Node?<V>               // recycled entries
    ghost var g: View<V>
    ghost var m: map<Key, V>         // the map the table stands for

    ghost predicate Linking()
      reads this, slots, g.where.Keys
    {
      Structure(g, slots[..], free) && Meaning(g.cs, m, hashFunc, seed, count, max)
    }

    ghost predicate Valid()
      reads this, slots, g.where.Keys
    {
      Linking() && count <= max
    }

    /** apr_hash_make_custom */
    constructor (hashFunc: HashFunc, seed: nat)
      ensures Valid() && m == map[] && g.where == map[] && fresh(slots)
      ensures this.hashFunc == hashFunc && this.seed == seed
    {
      free, count, max := null, 0, INITIAL_MAX;
      this.seed, this.hashFunc := seed, hashFunc;
      slots := new Node?<V>[INITIAL_MAX + 1](_ => null);
      g := View(seq(INITIAL_MAX + 1, _ => []), Empty<V>(INITIAL_MAX + 1), [], map[]);
      m := map[];
      new;
      assert PowerOfTwo(1) && PowerOfTwo(2) && PowerOfTwo(4) && PowerOfTwo(8) && PowerOfTwo(16);
      TotalEmpty<V>(INITIAL_MAX + 1);
    }

    /** A table made of finished parts. */
    constructor Built(slots: array<Node?<V>>, count: nat, max: nat, seed: nat, hashFunc: HashFunc,
                      ghost g: View<V>, ghost m: map<Key, V>)
      requires Structure(g, slots[..], null) && Meaning(g.cs, m, hashFunc, seed, count, max) && count <= max
      ensures Valid() && this.slots == slots && this.count == count && this.max == max && this.seed == seed
      ensures this.hashFunc == hashFunc && this.g == g && this.m == m
    {
      this.slots, this.count, this.max, this.seed, this.hashFunc := slots, count, max, seed, hashFunc;
      this.free, this.g, this.m := null, g, m;
    }

    /** `he` is entry `p` of chain `i` (NULL past its end) and `prev` the one before it:
        the place in the links that points to `he`. */
    ghost predicate At(i: nat, p: nat, prev: Node?<V>, he: Node?<V>)
      reads this
    {
      && i < |g.chains| && p <= |g.chains[i]|
      && he == (if p < |g.chains[i]| then g.chains[i][p] else null)
      && prev == (if p > 0 then g.chains[i][p - 1] else null)
    }

    /** The list scan of find_entry. */
    method Scan(key: Key) returns (hash: nat, prev: Node?<V>, he: Node?<V>, ghost p: nat)
      requires Valid()
      ensures hash == HashOf(hashFunc, seed, key)
      ensures p == Find(g.cs[hash % (max + 1)], key) && At(hash % (max + 1), p, prev, he)
    {
      hash := HashOf(hashFunc, seed, key);
      var i := hash % (max + 1);
      ghost var c := g.chains[i];
      assert Rep(c, slots[i], g.cs[i]);
      assert ChainOk(g.cs[i], i, |g.cs|, hashFunc, seed);
      prev, he, p := null, slots[i], 0;
      while he != null
        invariant p <= |c|
        invariant he == (if p < |c| then c[p] else null)
        invariant prev == (if p > 0 then c[p - 1] else null)
        invariant forall j :: 0 <= j < p ==> g.cs[i][j].key != key
        decreases |c| - p
      {
        assert Belongs(g.cs[i][p], i, |g.cs|, hashFunc, seed);
        if he.hash == hash && he.key == key { break; }
        prev, he, p := he, he.next, p + 1;
      }
    }

    /** apr_hash_get */
    method Lookup(key: Key) returns (r: Option<V>)
      requires Valid()
      ensures r == Get(m, key)
    {
      var hash, prev, he, p := Scan(key);
      ghost var i := hash % (max + 1);
      KeyIsInItsChain(g.cs, hashFunc, seed, m, key);
      r := if he != null then Some(he.val) else None;
      assert Rep(g.chains[i], slots[i], g.cs[i]);
    }

    /** *hep = x */
    method StoreLink(i: nat, prev: Node?<V>, x: Node?<V>)
      requires i < slots.Length
      modifies slots, if prev == null then {} else {prev}
      ensures prev == null ==> slots[..] == old(slots[..])[i := x]
      ensures prev != null ==> slots[..] == old(slots[..]) && prev.next == x
      ensures prev != null ==> prev.hash == old(prev.hash) && prev.key == old(prev.key) && prev.val == old(prev.val)
    {
      if prev == null { slots[i] := x; } else { prev.next := x; }
    }

    /** A recycled entry if there is one, otherwise a new one. */
    method TakeEntry(hash: nat, key: Key, val: V) returns (he: Node<V>)
      requires Structure(g, slots[..], free)
      modifies this`free, this`g, g.where.Keys
      ensures Structure(g, slots[..], free)
      ensures he !in g.where && he.next == null && he.hash == hash && he.key == key && he.val == val
      ensures (he in old(g.where) || fresh(he)) && g.where.Keys <= old(g.where.Keys)
      ensures g.chains == old(g.chains) && g.cs == old(g.cs)
    {
      hide Rep;
      if free != null {
        he := free;
        assert forall i :: 0 <= i < |g.chains| ==> he !in g.chains[i];
        free := he.next;
        he.next, he.hash, he.key, he.val := null, hash, key, val;
        g := g.(where := g.where - {he}, spare := g.spare[1..]);
      } else {
        he := new Node(hash, key, val);
      }
    }

    /** The end of find_entry: the new entry goes to the end of its chain. */
    method AppendEntry(i: nat, prev: Node?<V>, he: Node<V>)
      requires Linking() && i < |g.chains| && At(i, |g.chains[i]|, prev, null)
      requires he !in g.where && he.next == null
      requires HashOf(hashFunc, seed, he.key) == he.hash && he.hash % (max + 1) == i && he.key !in m
      modifies this`count, this`g, this`m, slots, g.where.Keys
      ensures Linking() && m == Set(old(m), he.key, Some(he.val)) && count == old(count) + 1
      ensures g.where.Keys == old(g.where.Keys) + {he}
    {
      hide ChainsOk, Denotes, Total, PowerOfTwo, HashOf, Set, Placed, Rep, Linked;
      AppendToChain(g.cs, hashFunc, seed, m, i, Entry(he.key, he.hash, he.val));
      ghost var m' := Set(m, he.key, Some(he.val));
      LinkLast(i, prev, he);
      count := count + 1;
      m := m';
    }

    /** *hep = he, where hep is the end of chain `i` */
    method LinkLast(i: nat, prev: Node?<V>, he: Node<V>)
      requires Structure(g, slots[..], free) && At(i, if i < |g.chains| then |g.chains[i]| else 0, prev, null)
      requires he !in g.where && he.next == null
      modifies this`g, slots, g.where.Keys
      ensures Structure(g, slots[..], free)
      ensures g == old(g).(chains := old(g.chains)[i := old(g.chains[i]) + [he]],
                           cs := old(g.cs)[i := old(g.cs[i]) + [Entry(he.key, he.hash, he.val)]],
                           where := old(g.where)[he := i])
    {
      hide Rep;
      ghost var c, es, e := g.chains[i], g.cs[i], Entry(he.key, he.hash, he.val);
      assert Placed(c, g.where, i);
      RepOpen(c, slots[i], es);
      StoreLink(i, prev, he);
      assert forall q :: 0 <= q < |g.chains| && q != i ==> Rep(g.chains[q], slots[q], g.cs[q]);
      AppendRep(c, he, slots[i], es, e);
      PlacedAppend(g.chains, g.spare, g.where, i, he);
      StructureWith(g, slots[..], free, i, c + [he], es + [e], g.spare, g.where[he := i]);
      g := g.(chains := g.chains[i := c + [he]], cs := g.cs[i := es + [e]], where := g.where[he := i]);
    }

    /** Takes entry `p` of chain `i` out of its chain and puts it on the list of
        recycled entries. */
    method DeleteEntry(i: nat, prev: Node?<V>, he: Node<V>, ghost p: nat)
      requires Linking() && i < |g.chains| && p < |g.chains[i]| && At(i, p, prev, he)
      modifies this`count, this`g, this`m, this`free, slots, g.where.Keys
      ensures Linking() && m == Set(old(m), old(g.cs[i][p].key), None) && count == old(count) - 1
      ensures g.chains == old(g.chains)[i := old(g.chains[i][..p] + g.chains[i][p + 1..])]
      ensures |g.cs| == |g.chains| && g.cs == old(g.cs)[i := old(g.cs[i][..p] + g.cs[i][p + 1..])]
      ensures g.where.Keys == old(g.where.Keys) && g.spare == [he] + old(g.spare)
    {
      hide ChainsOk, Denotes, Total, PowerOfTwo, HashOf, Set, Placed, Linked;
      ghost var c, es := g.chains[i], g.cs[i];
      RepOpen(c, slots[i], es);
      hide Rep;
      DeleteFromChain(g.cs, hashFunc, seed, m, i, p);
      ghost var m' := Set(m, es[p].key, None);
      Unlink(i, prev, he, p);
      count := count - 1;
      m := m';
    }

    /** *hep = he->next; he->next = free; free = he */
    method Unlink(i: nat, prev: Node?<V>, he: Node<V>, ghost p: nat)
      requires Structure(g, slots[..], free) && At(i, p, prev, he)
      modifies this`g, this`free, slots, g.where.Keys
      ensures Structure(g, slots[..], free)
      ensures g == old(g).(chains := old(g.chains)[i := old(g.chains[i][..p] + g.chains[i][p + 1..])],
                           cs := old(g.cs)[i := old(g.cs[i][..p] + g.cs[i][p + 1..])],
                           spare := [he] + old(g.spare),
                           where := old(g.where)[he := -1])
      ensures g.where.Keys == old(g.where.Keys)
    {
      hide Rep, Placed, Linked;
      ghost var c, es := g.chains[i], g.cs[i];
      NodeApart(g, slots[..], free, i, p);
      PlacedDelete(g.chains, g.spare, g.where, i, p);
      Recycle(i, prev, he, p);
      StructureWith(g, slots[..], free, i, c[..p] + c[p + 1..], es[..p] + es[p + 1..],
                    [he] + g.spare, g.where[he := -1]);
      g := g.(chains := g.chains[i := c[..p] + c[p + 1..]], cs := g.cs[i := es[..p] + es[p + 1..]],
              spare := [he] + g.spare, where := g.where[he := -1]);
    }

    /** The three stores of Unlink and what they do to the links. */
    method Recycle(i: nat, prev: Node?<V>, he: Node<V>, ghost p: nat)
      requires Structure(g, slots[..], free) && At(i, p, prev, he)
      modifies this`free, slots, g.where.Keys
      ensures |g.cs[i]| == |g.chains[i]| && Linked([he] + g.spare, free)
      ensures Rep(g.chains[i][..p] + g.chains[i][p + 1..], slots[i], g.cs[i][..p] + g.cs[i][p + 1..])
      ensures forall q :: 0 <= q < |g.chains| && q != i ==> Rep(g.chains[q], slots[q], g.cs[q])
    {
      hide Rep, Placed;
      ghost var c, es := g.chains[i], g.cs[i];
      NodeApart(g, slots[..], free, i, p);
      if p > 0 { NodeApart(g, slots[..], free, i, p - 1); }
      RepOpen(c, slots[i], es);
      StoreLink(i, prev, he.next);
      he.next := free;
      free := he;
      DeleteRep(c, p, slots[i], es);
    }

    /** Replaces the value of entry `p` of chain `i`. */
    method ReplaceVal(i: nat, he: Node<V>, ghost p: nat, v: V)
      requires Linking() && i < |g.chains| && p < |g.chains[i]| && he == g.chains[i][p]
      modifies this`g, this`m, g.where.Keys
      ensures Linking() && m == Set(old(m), old(he.key), Some(v))
      ensures g.where == old(g.where)
    {
      hide ChainsOk, Denotes, Total, PowerOfTwo, HashOf, Set, Placed, Rep, Linked;
      NodeKey(g, slots[..], free, i, p);
      ReplaceInChain(g.cs, hashFunc, seed, m, i, p, v);
      ghost var m' := Set(m, he.key, Some(v));
      g := WriteVal(slots, g, free, i, he, p, v);
      m := m';
    }

    /** he->val = val */
    static method WriteVal(slots: array<Node?<V>>, ghost v: View<V>, ghost free: Node?<V>, i: nat, he: Node<V>,
                           ghost p: nat, val: V)
      returns (ghost v': View<V>)
      requires Structure(v, slots[..], free)
      requires i < |v.chains| && p < |v.chains[i]| == |v.cs[i]| && he == v.chains[i][p]
      modifies he`val
      ensures Structure(v', slots[..], free)
      ensures v' == v.(cs := v.cs[i := v.cs[i][p := v.cs[i][p].(val := val)]])
    {
      hide Rep;
      ghost var c, es := v.chains[i], v.cs[i];
      assert Placed(c, v.where, i);
      RepOpen(c, slots[i], es);
      he.val := val;
      assert forall q :: 0 <= q < |v.chains| && q != i ==> Rep(v.chains[q], slots[q], v.cs[q]);
      ReplaceRep(c, slots[i], es[p := es[p].(val := val)]);
      assert v.chains[i := c] == v.chains;
      StructureWith(v, slots[..], free, i, c, es[p := es[p].(val := val)], v.spare, v.where);
      v' := v.(cs := v.cs[i := es[p := es[p].(val := val)]]);
    }

    /** apr_hash_set: binds the key, or unbinds it when the value is NULL. */
    method Store(key: Key, val: Option<V>)
      requires Valid()
      modifies this, slots, g.where.Keys
      ensures Valid() && m == Set(old(m), key, val)
      ensures hashFunc == old(hashFunc) && seed == old(seed)
      ensures (slots == old(slots) || fresh(slots)) && fresh(g.where.Keys - old(g.where.Keys))
      ensures val.None? && key in old(m) ==> Deleted(old(g), g, old(HashOf(hashFunc, seed, key)), key)
      ensures val.None? ==> slots == old(slots) && max == old(max) && g.where.Keys == old(g.where.Keys)
    {
      hide ChainsOk, Denotes, Total, PowerOfTwo, Rep, Placed, Linked, HashOf;
      var hash, prev, he, p := Scan(key);
      var i := hash % (max + 1);
      KeyIsInItsChain(g.cs, hashFunc, seed, m, key);
      ChainLengths(g, slots[..], free);
      if he == null {
        if val.Some? { AddNew(hash, key, val.value, prev); }
      } else if val.None? {
        DeleteEntry(i, prev, he, p);
      } else {
        NodeKey(g, slots[..], free, i, p);
        ReplaceVal(i, he, p, val.value);
      }
    }

    /** A new key: an entry at the end of its chain, and more chains when there are
        more entries than chains. */
    method AddNew(hash: nat, key: Key, val: V, prev: Node?<V>)
      requires Valid() && hash == HashOf(hashFunc, seed, key) && key !in m
      requires var i := hash % (max + 1); i < |g.chains| && At(i, |g.chains[i]|, prev, null)
      modifies this`count, this`free, this`g, this`m, this`slots, this`max, slots, g.where.Keys
      ensures Valid() && m == Set(old(m), key, Some(val))
      ensures (slots == old(slots) || fresh(slots)) && fresh(g.where.Keys - old(g.where.Keys))
    {
      hide ChainsOk, Denotes, Total, PowerOfTwo, Rep, Placed, Linked, HashOf, Set;
      var he := TakeEntry(hash, key, val);
      AppendEntry(hash % (max + 1), prev, he);
      if count > max { Expand(); }
    }

    /** expand_array: relinks every entry into twice as many chains. */
    method Expand()
      requires Linking()
      modifies this`slots, this`max, this`g, g.where.Keys
      ensures Linking() && max == 2 * old(max) + 1
      ensures g.where.Keys == old(g.where.Keys) && g.spare == old(g.spare) && fresh(slots)
    {
      hide Structure, ChainsOk, Denotes, Total, PowerOfTwo, HashOf, Rep, Placed, Linked, Relinked, NodesApart, Flat,
           LinkAll;
      SlotsOf(g, slots[..], free);
      TwiceAsMany(max + 1);
      var newMax := max * 2 + 1;
      var newSlots := new Node?<V>[newMax + 1](_ => null);
      WalkStart(g, slots[..], free);
      ghost var g0 := g;
      ghost var v, visited := Relink(newSlots);
      RehashDenotes(g.cs, hashFunc, seed, m, newMax + 1);
      JoinSpareStructure(v, g, newSlots[..], free);
      slots, max := newSlots, newMax;
      g := JoinSpare(v, g);
    }

    /** Walks over the entries and links each into its chain of `newSlots`: each is
        visited once although its own link changes. */
    method Relink(newSlots: array<Node?<V>>) returns (ghost v: View<V>, ghost visited: seq<Node<V>>)
      requires Structure(g, slots[..], free) && slots.Length == max + 1 && newSlots != slots && newSlots.Length > 0
      requires forall i :: 0 <= i < newSlots.Length ==> newSlots[i] == null
      modifies newSlots, g.where.Keys
      ensures visited == Flat(g.chains) && Relinked(v, newSlots[..], Flat(g.chains), Flat(g.cs), |Flat(g.cs)|)
      ensures Linked(g.spare, free)
    {
      hide Rep, Placed, Linked, Shows, Ahead, FlatFrom, Flat, LinkAll, Structure, NodesApart, Relinked, Rest, WalkAt;
      ghost var nodes, es, heads := Flat(g.chains), Flat(g.cs), slots[..];
      WalkStart(g, heads, free);
      WalkAhead(g, heads, free, nodes);
      RelinkedNone(newSlots[..], nodes, es);
      v, visited := NoEntries(newSlots.Length), [];
      var hi;
      ghost var cur;
      hi, cur := Next(HashIndex(null, null, 0), [], g.chains, Rest(nodes, 0));
      WalkStep(nodes, 0, [], g.chains, 0, hi.current, cur, hi.index, hi.next, heads);
      ghost var k := 0;
      while hi.current != null
        invariant slots[..] == heads && hi.index <= |heads| && k <= |nodes| == |es| && visited == nodes[..k]
        invariant WalkAt(nodes, k, hi.current, cur, g.chains, hi.index)
        invariant Ahead(cur, hi.next, g.chains[hi.index..], heads[hi.index..], Rest(nodes, k + 1))
        invariant Shows(nodes[k..], es[k..]) && Relinked(v, newSlots[..], nodes, es, k) && Linked(g.spare, free)
        decreases |nodes| - k
      {
        hi, v, cur, visited := RelinkNext(newSlots, v, heads, nodes, es, hi, cur, k, visited);
        k := k + 1;
      }
      WalkOver(nodes, k, cur, g.chains, hi.index);
    }

    /** The current entry is relinked, and the next one is fetched. */
    method RelinkNext(newSlots: array<Node?<V>>, ghost v: View<V>, ghost heads: seq<Node?<V>>,
                      ghost nodes: seq<Node<V>>,
                      ghost es: seq<Entry<V>>, hi: HashIndex<V>, ghost cur: seq<Node<V>>, ghost k: nat,
                      ghost visited: seq<Node<V>>)
      returns (hi': HashIndex<V>, ghost v': View<V>, ghost cur': seq<Node<V>>, ghost visited': seq<Node<V>>)
      requires hi.current != null && slots[..] == heads && slots != newSlots && newSlots.Length > 0
      requires hi.index <= |heads| == |g.chains| == max + 1 && |nodes| == |es| && k <= |nodes| && visited == nodes[..k]
      requires NodesApart(g, nodes) && WalkAt(nodes, k, hi.current, cur, g.chains, hi.index)
      requires Ahead(cur, hi.next, g.chains[hi.index..], heads[hi.index..], Rest(nodes, k + 1))
      requires Shows(nodes[k..], es[k..]) && Relinked(v, newSlots[..], nodes, es, k) && Linked(g.spare, free)
      modifies newSlots, g.where.Keys
      ensures slots[..] == heads && hi'.index <= |heads| && k < |nodes| && visited' == nodes[..k + 1]
      ensures WalkAt(nodes, k + 1, hi'.current, cur', g.chains, hi'.index)
      ensures Ahead(cur', hi'.next, g.chains[hi'.index..], heads[hi'.index..], Rest(nodes, k + 2))
      ensures Shows(nodes[k + 1..], es[k + 1..])
      ensures Relinked(v', newSlots[..], nodes, es, k + 1) && Linked(g.spare, free)
    {
      hide Rep, Placed, Linked, Shows, Ahead, FlatFrom, Flat, LinkAll, Structure, NodesApart, Relinked, Rest, WalkAt;
      WalkOn(nodes, k, hi.current, cur, g.chains, hi.index);
      v' := RelinkStep(newSlots, v, heads, nodes, es, hi, cur, k);
      ghost var linked := newSlots[..];
      assert forall x :: x in v'.where.Keys ==> allocated(x);
      hi', cur' := Next(hi, cur, g.chains, Rest(nodes, k + 1));
      assert newSlots[..] == linked;
      WalkStep(nodes, k + 1, cur, g.chains, hi.index, hi'.current, cur', hi'.index, hi'.next, heads);
      visited' := visited + [hi.current];
    }

    /** The body of the loop of expand_array; what is still to come is untouched. */
    method RelinkStep(newSlots: array<Node?<V>>, ghost v: View<V>, ghost heads: seq<Node?<V>>,
                      ghost nodes: seq<Node<V>>,
                      ghost es: seq<Entry<V>>, hi: HashIndex<V>, ghost cur: seq<Node<V>>, ghost k: nat)
      returns (ghost v': View<V>)
      requires hi.current != null && slots[..] == heads && slots != newSlots && newSlots.Length > 0
      requires k < |nodes| == |es| && hi.index <= |heads| == |g.chains|
      requires NodesApart(g, nodes) && nodes[k] == hi.current
      requires Ahead(cur, hi.next, g.chains[hi.index..], heads[hi.index..], Rest(nodes, k + 1))
      requires Shows(nodes[k..], es[k..]) && Relinked(v, newSlots[..], nodes, es, k) && Linked(g.spare, free)
      modifies newSlots, g.where.Keys
      ensures slots[..] == heads
      ensures Ahead(cur, hi.next, g.chains[hi.index..], heads[hi.index..], Rest(nodes, k + 1))
      ensures Shows(nodes[k + 1..], es[k + 1..])
      ensures Relinked(v', newSlots[..], nodes, es, k + 1) && Linked(g.spare, free)
    {
      hide Rep, Placed, Linked, Shows, Ahead, LinkAll, Structure, NodesApart, Relinked;
      AtNode(g, nodes, es, k, hi.current);
      v' := RelinkOne(newSlots, v, nodes, es, k, hi.current);
    }

    /** apr_hash_next: the next entry still to come, whatever has become of the
        entries already handed out. */
    method Next(hi: HashIndex<V>, ghost cur: seq<Node<V>>, ghost chains: seq<seq<Node<V>>>, ghost all: set<Node<V>>)
      returns (hi': HashIndex<V>, ghost cur': seq<Node<V>>)
      requires hi.index <= |chains| == slots.Length == max + 1
      requires Ahead(cur, hi.next, chains[hi.index..], slots[..][hi.index..], all)
      ensures hi.index <= hi'.index <= |chains|
      ensures Ahead(cur', hi'.next, chains[hi'.index..], slots[..][hi'.index..], all)
      ensures Stepped(cur, chains, hi.index, hi'.current, cur', hi'.index)
    {
      hide Ahead, Linked;
      var current, index := hi.next, hi.index;
      cur' := cur;
      while current == null
        invariant hi.index <= index <= |chains|
        invariant Ahead(cur', current, chains[index..], slots[..][index..], all)
        invariant Searched(cur, chains, hi.index, cur', index)
        decreases |chains| - index
      {
        AheadNull(cur', chains[index..], slots[..][index..], all);
        if index > max { return HashIndex(null, null, index), cur'; }
        AheadNext(cur', current, chains, slots[..], index, all);
        current := slots[index];
        cur' := chains[index];
        index := index + 1;
      }
      AheadTail(cur', current, chains[index..], slots[..][index..], all);
      return HashIndex(current, current.next, index), cur'[1..];
    }

    /** The step of expand_array. */
    static method RelinkOne(slots: array<Node?<V>>, ghost v: View<V>, ghost nodes: seq<Node<V>>,
                            ghost es: seq<Entry<V>>,
                            ghost k: nat, x: Node<V>)
      returns (ghost v': View<V>)
      requires slots.Length > 0 && k < |nodes| == |es| && Relinked(v, slots[..], nodes, es, k)
      requires es[k] == Entry(x.key, x.hash, x.val) && nodes[k] == x && x !in nodes[..k]
      modifies slots, x`next
      ensures Relinked(v', slots[..], nodes, es, k + 1)
    {
      hide Rep, Structure, LinkAll, Empty;
      LinkMore(Empty<V>(slots.Length), es, k);
      v' := LinkFirst(slots, v, x.hash % slots.Length, x);
      assert nodes[..k + 1] == nodes[..k] + [x];
    }

    /** he->next = slots[i]; slots[i] = he */
    static method LinkFirst(slots: array<Node?<V>>, ghost v: View<V>, i: nat, he: Node<V>) returns (ghost v': View<V>)
      requires i < slots.Length && Structure(v, slots[..], null) && he !in v.where
      modifies slots, he`next
      ensures Structure(v', slots[..], null)
      ensures v' == v.(chains := v.chains[i := [he] + v.chains[i]],
                       cs := v.cs[i := [Entry(he.key, he.hash, he.val)] + v.cs[i]],
                       where := v.where[he := i])
    {
      hide Rep;
      ghost var c, es := v.chains[i], v.cs[i];
      assert Placed(c, v.where, i);
      RepOpen(c, slots[i], es);
      he.next := slots[i];
      slots[i] := he;
      assert forall q :: 0 <= q < |v.chains| && q != i ==> Rep(v.chains[q], slots[q], v.cs[q]);
      PrependRep(c, he, es);
      PlacedPrepend(v.chains, v.spare, v.where, i, he);
      StructureWith(v, slots[..], null, i, [he] + c, [Entry(he.key, he.hash, he.val)] + es, v.spare, v.where[he := i]);
      v' := v.(chains := v.chains[i := [he] + c], cs := v.cs[i := [Entry(he.key, he.hash, he.val)] + es],
               where := v.where[he := i]);
    }

    /** apr_hash_clear: deletes every entry while walking over them; each ends up among
        the recycled ones. */
    method Clear()
      requires Valid()
      modifies this, slots, g.where.Keys
      ensures Valid() && m == map[] && count == 0
      ensures |g.spare| == old(|g.spare| + count) && slots == old(slots) && g.where.Keys == old(g.where.Keys)
      ensures forall i, x :: 0 <= i < |old(g.chains)| && x in old(g.chains)[i] ==> x in g.spare
    {
      hide Ahead, Rep, Placed, Linked, ChainsOk, Denotes, Total, HashOf, Deleted, Clearing, Stepped, Accounted;
      ghost var all, c0 := g.where.Keys, g.chains;
      AllThere(c0, g.spare);
      ghost var cur: seq<Node<V>> := [];
      var hi;
      AllAhead(g, slots[..], free, 0, cur);
      hi, cur := Next(HashIndex(null, null, 0), cur, g.chains, all);
      ClearingStart(g.chains, hi.current, cur, hi.index);
      AheadHead(cur, hi.next, g.chains[hi.index..], slots[..][hi.index..], all);
      while hi.current != null
        invariant Valid() && slots == old(slots) && g.where.Keys == all && hi.index <= |g.chains|
        invariant |g.spare| + count == old(|g.spare| + count)
        invariant Clearing(g.chains, hi.current, cur, hi.index) && Accounted(c0, g.chains, g.spare)
        invariant hi.next == if cur == [] then null else cur[0]
        decreases count
      {
        ghost var g0 := g;
        ClearStep(hi, cur);
        AccountedStep(c0, g0, g, hi.index - 1, hi.current, cur);
        ghost var index, cur0 := hi.index, cur;
        AllAhead(g, slots[..], free, index, cur);
        hi, cur := Next(hi, cur0, g.chains, all);
        ClearingNext(g.chains, cur0, index, hi.current, cur, hi.index);
        AheadHead(cur, hi.next, g.chains[hi.index..], slots[..][hi.index..], all);
      }
      NothingLeft(g, slots[..], free, hashFunc, seed, m, cur, hi.index);
      AllSpare(c0, g.chains, g.spare, cur, hi.index);
    }

    /** A walk with apr_hash_first and apr_hash_next on which any entry may be deleted as
        soon as it is handed out: every entry there was is visited, once, in order. */
    method Walk(doomed: set<Key>) returns (ghost visited: seq<Node<V>>)
      requires Valid()
      modifies this, slots, g.where.Keys
      ensures Valid() && slots == old(slots) && g.where.Keys == old(g.where.Keys)
      ensures visited == old(Flat(g.chains)) && AllDistinct(visited)
      ensures m == old(m) - doomed
    {
      hide Ahead, Structure, ChainsOk, Denotes, PowerOfTwo, Total, HashOf, Stepped, WalkingAt, Settled, Flat, FlatFrom,
           AllDistinct;
      ghost var c0, kept: seq<Node<V>> := g.chains, [];
      EachOnce(g, slots[..], free);
      visited := [];
      ghost var deleted, cur := {}, [];
      var hi;
      hi, cur := First(doomed);
      while hi.current != null
        invariant Valid() && slots == old(slots) && g.where.Keys == old(g.where.Keys)
        invariant WalkingAt(c0, g.chains, visited, kept, hi.current, cur, hi.index) && NextIs(hi, cur)
        invariant Settled(g.cs, doomed, hi.index, |kept|)
        invariant m == old(m) - deleted && deleted <= doomed
        decreases |FlatFrom(c0, 0)| - |visited|
      {
        StillToVisit(c0, g.chains, visited, kept, hi.current, cur, hi.index);
        ghost var key := hi.current.key;
        var gone;
        hi, gone, cur, visited, kept := VisitNext(hi, doomed, c0, visited, kept, cur);
        if gone { deleted := deleted + {key}; }
      }
      WalkEnds(c0, g.chains, visited, kept, cur, hi.index);
      ChainLengths(g, slots[..], free);
      SettledAll(g.cs, hashFunc, seed, m, doomed, |kept|);
    }

    /** apr_hash_first */
    method First(ghost doomed: set<Key>) returns (hi: HashIndex<V>, ghost cur: seq<Node<V>>)
      requires Valid()
      ensures WalkingAt(g.chains, g.chains, [], [], hi.current, cur, hi.index) && NextIs(hi, cur)
      ensures Settled(g.cs, doomed, hi.index, 0)
    {
      hide Ahead, Rep, Placed, Linked, ChainsOk, Denotes, Total, HashOf, Stepped, WalkingAt;
      AllAhead(g, slots[..], free, 0, []);
      ChainLengths(g, slots[..], free);
      hi, cur := Next(HashIndex(null, null, 0), [], g.chains, g.where.Keys);
      WalkBegins(g.chains, hi.current, cur, hi.index);
      SettledStep(g.cs, g.chains, doomed, [], [], 0, hi.current, cur, hi.index);
      AheadHead(cur, hi.next, g.chains[hi.index..], slots[..][hi.index..], g.where.Keys);
    }

    /** The current entry is kept or deleted, and the next one is fetched. */
    method VisitNext(hi: HashIndex<V>, doomed: set<Key>, ghost c0: seq<seq<Node<V>>>, ghost visited: seq<Node<V>>,
                     ghost kept: seq<Node<V>>, ghost cur: seq<Node<V>>)
      returns (hi': HashIndex<V>, gone: bool, ghost cur': seq<Node<V>>, ghost visited': seq<Node<V>>,
               ghost kept': seq<Node<V>>)
      requires Valid() && hi.current != null && NextIs(hi, cur)
      requires WalkingAt(c0, g.chains, visited, kept, hi.current, cur, hi.index)
      requires Settled(g.cs, doomed, hi.index, |kept|)
      modifies this, slots, g.where.Keys
      ensures Valid() && slots == old(slots) && g.where.Keys == old(g.where.Keys)
      ensures WalkingAt(c0, g.chains, visited', kept', hi'.current, cur', hi'.index) && NextIs(hi', cur')
      ensures visited' == visited + [hi.current] && Settled(g.cs, doomed, hi'.index, |kept'|)
      ensures gone ==> old(hi.current.key) in doomed && m == old(m) - {old(hi.current.key)}
      ensures !gone ==> m == old(m)
    {
      hide Ahead, Rep, Placed, Linked, ChainsOk, Denotes, Total, HashOf, Stepped, WalkingAt;
      ghost var chains := g.chains;
      StillToVisit(c0, g.chains, visited, kept, hi.current, cur, hi.index);
      gone := Visit(hi, doomed, kept, cur);
      kept' := if gone then kept else kept + [hi.current];
      AheadFrom(g, slots[..], free, hi.index, kept', cur);
      ChainLengths(g, slots[..], free);
      hi', cur' := Next(hi, cur, g.chains, g.where.Keys);
      WalkGoesOn(c0, chains, g.chains, visited, kept, hi.current, cur, hi.index, kept', hi'.current, cur', hi'.index);
      SettledStep(g.cs, g.chains, doomed, kept', cur, hi.index, hi'.current, cur', hi'.index);
      AheadHead(cur', hi'.next, g.chains[hi'.index..], slots[..][hi'.index..], g.where.Keys);
      visited' := visited + [hi.current];
      kept' := if hi'.index == hi.index then kept' else [];
    }

    /** The current entry is kept or deleted. */
    method Visit(hi: HashIndex<V>, doomed: set<Key>, ghost kept: seq<Node<V>>, ghost cur: seq<Node<V>>)
      returns (gone: bool)
      requires Valid() && hi.current != null && 0 < hi.index <= |g.chains|
      requires g.chains[hi.index - 1] == kept + [hi.current] + cur
      requires Settled(g.cs, doomed, hi.index, |kept|)
      modifies this, slots, g.where.Keys
      ensures Valid() && slots == old(slots) && g.where.Keys == old(g.where.Keys)
      ensures gone ==> old(hi.current.key) in doomed && m == old(m) - {old(hi.current.key)}
      ensures gone ==> g.chains == old(g.chains)[hi.index - 1 := kept + cur]
      ensures !gone ==> m == old(m) && g.chains == old(g.chains)[hi.index - 1 := (kept + [hi.current]) + cur]
      ensures Settled(g.cs, doomed, hi.index, if gone then |kept| else |kept| + 1)
    {
      hide Rep, Placed, Linked, ChainsOk, Denotes, Total, HashOf, Deleted, Find, Settled;
      gone := hi.current.key in doomed;
      assert g.chains[hi.index - 1][|kept|] == hi.current;
      NodeKey(g, slots[..], free, hi.index - 1, |kept|);
      SettledEntry(g.cs, doomed, hi.index, |kept|);
      if gone {
        ghost var g0, key, hash := g, hi.current.key, HashOf(hashFunc, seed, hi.current.key);
        EntryOfChain(g, slots[..], free, hashFunc, seed, m, hi.index - 1, |kept|);
        Store(hi.current.key, None);
        DeletedInside(g0, g, hash, key, hi.index - 1, kept, hi.current, cur);
      } else {
        assert g.chains == g.chains[hi.index - 1 := (kept + [hi.current]) + cur];
      }
    }

    /** The body of the loop of apr_hash_clear. */
    method ClearStep(hi: HashIndex<V>, ghost cur: seq<Node<V>>)
      requires Valid() && hi.current != null && Clearing(g.chains, hi.current, cur, hi.index)
      modifies this, slots, g.where.Keys
      ensures Valid() && slots == old(slots) && g.where.Keys == old(g.where.Keys)
      ensures |g.spare| == old(|g.spare|) + 1 && count == old(count) - 1
      ensures 0 < hi.index <= |g.chains| == old(|g.chains|) && g.chains[hi.index - 1] == cur
      ensures old(g.chains[hi.index - 1]) == [hi.current] + cur
      ensures g.chains == old(g.chains)[hi.index - 1 := cur] && g.spare == [hi.current] + old(g.spare)
      ensures forall q :: 0 <= q < hi.index - 1 ==> g.chains[q] == []
    {
      hide Rep, Placed, Linked, ChainsOk, Denotes, Total, HashOf, Deleted;
      ghost var g0, m0, key, hash := g, m, hi.current.key, HashOf(hashFunc, seed, hi.current.key);
      HeadOfChain(g, slots[..], free, hashFunc, seed, m, hi.index - 1);
      TotalIsSize(g.cs, hashFunc, seed, m);
      Store(hi.current.key, None);
      TotalIsSize(g.cs, hashFunc, seed, m);
      assert |m0| == |m0 - {key}| + 1;
      DeletedHead(g0, g, hash, key, hi.index - 1, hi.current, cur);
    }
  }

  /** A walk stands after `kept` in the chain before `index`, at `current`, with `cur`
      still to come there and the chains from `index` on as they were in `c0`. */
  ghost predicate WalkingAt<V>(c0: seq<seq<Node<V>>>, chains: seq<seq<Node<V>>>, visited: seq<Node<V>>,
                               kept: seq<Node<V>>,
                               current: Node?<V>, cur: seq<Node<V>>, index: nat) {
    && index <= |chains| == |c0|
    && (forall q :: index <= q < |chains| ==> chains[q] == c0[q])
    && if current == null then visited == FlatFrom(c0, 0) && index == |c0| && (index > 0 ==> chains[index - 1] == kept)
       else 0 < index && chains[index - 1] == kept + [current] + cur
            && visited + ([current] + (cur + FlatFrom(c0, index))) == FlatFrom(c0, 0)
  }

  lemma WalkBegins<V>(c0: seq<seq<Node<V>>>, current: Node?<V>, cur: seq<Node<V>>, index: nat)
    requires Stepped([], c0, 0, current, cur, index)
    ensures WalkingAt(c0, c0, [], [], current, cur, index)
  {
    hide FlatFrom;
    ToCome([], c0, 0, current, cur, index);
    assert [] + FlatFrom(c0, 0) == FlatFrom(c0, 0);
    if current != null { assert c0[index - 1] == [] + [current] + cur; }
  }

  /** The entries a walk has passed, `n` of them in the chain before `index`, have
      other keys than those to be deleted. */
  ghost predicate Settled<V>(cs: seq<seq<Entry<V>>>, doomed: set<Key>, index: nat, n: nat) {
    forall q, p :: 0 <= q < |cs| && 0 <= p < |cs[q]| && (q + 1 < index || (q + 1 == index && p < n)) ==>
      cs[q][p].key !in doomed
  }

  lemma SettledEntry<V>(cs: seq<seq<Entry<V>>>, doomed: set<Key>, index: nat, n: nat)
    requires Settled(cs, doomed, index, n) && 0 < index <= |cs| && n < |cs[index - 1]|
    ensures cs[index - 1][n].key !in doomed ==> Settled(cs, doomed, index, n + 1)
    ensures Settled(cs[index - 1 := cs[index - 1][..n] + cs[index - 1][n + 1..]], doomed, index, n)
  {
  }

  lemma SettledStep<V>(cs: seq<seq<Entry<V>>>, chains: seq<seq<Node<V>>>, doomed: set<Key>, kept: seq<Node<V>>,
                       cur: seq<Node<V>>, index: nat, next: Node?<V>, cur': seq<Node<V>>, index': nat)
    requires |cs| == |chains| && forall i :: 0 <= i < |chains| ==> |chains[i]| == |cs[i]|
    requires index <= |chains| && (index > 0 ==> chains[index - 1] == kept + cur)
    requires Settled(cs, doomed, index, |kept|) && Stepped(cur, chains, index, next, cur', index')
    ensures Settled(cs, doomed, index', if index' == index then |kept| else 0)
  {
  }

  lemma SettledAll<V>(cs: seq<seq<Entry<V>>>, f: HashFunc, seed: nat, m: map<Key, V>, doomed: set<Key>, n: nat)
    requires Denotes(cs, f, seed, m) && Settled(cs, doomed, |cs|, n) && |cs[|cs| - 1]| <= n
    ensures m.Keys !! doomed
  {
    hide HashOf;
    forall k | k in m ensures k !in doomed {
      assert HasKey(cs[HashOf(f, seed, k) % |cs|], k);
    }
  }

  /** The link a walk has read ahead is the one of the next entry of the chain. */
  ghost predicate NextIs<V>(hi: HashIndex<V>, cur: seq<Node<V>>) {
    hi.next == if cur == [] then null else cur[0]
  }

  lemma StillToVisit<V>(c0: seq<seq<Node<V>>>, chains: seq<seq<Node<V>>>, visited: seq<Node<V>>, kept: seq<Node<V>>,
                        current: Node<V>, cur: seq<Node<V>>, index: nat)
    requires WalkingAt(c0, chains, visited, kept, current, cur, index)
    ensures 0 < index <= |chains| && chains[index - 1] == kept + [current] + cur
    ensures |visited| < |FlatFrom(c0, 0)|
  {
  }

  /** The nodes of all chains are distinct. */
  lemma EachOnce<V>(g: View<V>, heads: seq<Node?<V>>, free: Node?<V>)
    requires Structure(g, heads, free)
    ensures AllDistinct(Flat(g.chains)) && FlatFrom(g.chains, 0) == Flat(g.chains)
  {
    hide AllDistinct, Placed, Rep, Linked;
    FlatNodes(g, heads, free, |g.chains|);
    assert g.chains[..|g.chains|] == g.chains;
    FlatFromAll(g.chains);
  }

  lemma WalkEnds<V>(c0: seq<seq<Node<V>>>, chains: seq<seq<Node<V>>>, visited: seq<Node<V>>, kept: seq<Node<V>>,
                    cur: seq<Node<V>>, index: nat)
    requires WalkingAt(c0, chains, visited, kept, null, cur, index)
    ensures visited == FlatFrom(c0, 0) && |chains| == index && (index > 0 ==> chains[index - 1] == kept)
  {
  }

  /** The next entry, after the current one has been kept or deleted. */
  lemma WalkGoesOn<V>(c0: seq<seq<Node<V>>>, chains: seq<seq<Node<V>>>, chains': seq<seq<Node<V>>>,
                      visited: seq<Node<V>>,
                      kept: seq<Node<V>>, current: Node<V>, cur: seq<Node<V>>, index: nat, kept': seq<Node<V>>,
                      next: Node?<V>, cur': seq<Node<V>>, index': nat)
    requires WalkingAt(c0, chains, visited, kept, current, cur, index)
    requires chains' == chains[index - 1 := kept' + cur] && Stepped(cur, chains', index, next, cur', index')
    ensures WalkingAt(c0, chains', visited + [current], if index' == index then kept' else [], next, cur', index')
  {
    hide FlatFrom;
    SameFlat(c0, chains', index);
    ToCome(cur, chains', index, next, cur', index');
    SameFlat(c0, chains', index');
    var rest := cur + FlatFrom(c0, index);
    assert visited + ([current] + rest) == visited + [current] + rest;
    if next != null {
      if cur != [] {
        assert kept' + cur == kept' + [next] + cur';
      } else {
        assert chains'[index' - 1] == [] + [next] + cur';
      }
    }
  }

  lemma {:induction false} SameFlat<T>(a: seq<seq<T>>, b: seq<seq<T>>, i: nat)
    requires |a| == |b| && forall q :: i <= q < |a| ==> a[q] == b[q]
    ensures FlatFrom(a, i) == FlatFrom(b, i)
    decreases |a| - i
  {
    if i >= |a| {
    } else {
      SameFlat(a, b, i + 1);
    }
  }

  /** Entry `p` of chain `i` is what a lookup of its key finds. */
  lemma EntryOfChain<V>(g: View<V>, heads: seq<Node?<V>>, free: Node?<V>, f: HashFunc, seed: nat, m: map<Key, V>,
                        i: nat, p: nat)
    requires Structure(g, heads, free) && ChainsOk(g.cs, f, seed) && Denotes(g.cs, f, seed, m)
    requires i < |g.chains| && p < |g.chains[i]|
    ensures var x := g.chains[i][p];
            && x.key in m && HashOf(f, seed, x.key) % |g.chains| == i && |g.cs| == |g.chains|
            && Find(g.cs[i], x.key) == p
  {
    hide HashOf, Find;
    NodeKey(g, heads, free, i, p);
    assert ChainOk(g.cs[i], i, |g.cs|, f, seed);
    assert Belongs(g.cs[i][p], i, |g.cs|, f, seed);
  }

  /** Deleting an entry leaves those before and after it. */
  lemma DeletedInside<V>(g: View<V>, g': View<V>, hash: nat, key: Key, i: nat, kept: seq<Node<V>>, x: Node<V>,
                         cur: seq<Node<V>>)
    requires Deleted(g, g', hash, key) && hash % |g.chains| == i && g.chains[i] == kept + [x] + cur
    requires Find(g.cs[i], key) == |kept|
    ensures g'.chains == g.chains[i := kept + cur] && g'.spare == [x] + g.spare
    ensures |kept| < |g.cs[i]| && g'.cs == g.cs[i := g.cs[i][..|kept|] + g.cs[i][|kept| + 1..]]
  {
    var p := |kept|;
    assert g.chains[i][..p] == kept && g.chains[i][p + 1..] == cur && g.chains[i][p] == x;
  }

  /** The rest of a chain and the chains after it are ahead. */
  lemma AheadFrom<V>(g: View<V>, heads: seq<Node?<V>>, free: Node?<V>, index: nat, kept: seq<Node<V>>,
                     cur: seq<Node<V>>)
    requires Structure(g, heads, free) && 0 < index <= |heads| && g.chains[index - 1] == kept + cur
    ensures Ahead(cur, if cur == [] then null else cur[0], g.chains[index..], heads[index..], g.where.Keys)
  {
    hide Linked;
    LinksOf(g, heads, free);
    var rest, hs, c := g.chains[index..], heads[index..], g.chains[index - 1];
    forall i, j | 0 <= i < |rest| && 0 <= j < |rest[i]| ensures rest[i][j] in g.where.Keys {
      assert Placed(g.chains[index + i], g.where, index + i);
    }
    forall i | 0 <= i < |rest| ensures Linked(rest[i], hs[i]) { assert Linked(g.chains[index + i], heads[index + i]); }
    assert Placed(c, g.where, index - 1);
    forall j | 0 <= j < |cur| ensures cur[j] in g.where.Keys { assert cur[j] == c[|kept| + j]; }
    LinkedEnd(kept, cur, heads[index - 1]);
  }

  lemma LinkedEnd<V>(kept: seq<Node<V>>, cur: seq<Node<V>>, head: Node?<V>)
    requires Linked(kept + cur, head)
    ensures Linked(cur, if cur == [] then null else cur[0])
  {
    var c := kept + cur;
    forall j {:trigger cur[j].next} | 0 <= j < |cur| ensures cur[j].next == if j + 1 < |cur| then cur[j + 1] else null {
      assert cur[j] == c[|kept| + j] && c[|kept| + j].next == if |kept| + j + 1 < |c| then c[|kept| + j + 1] else null;
    }
  }

  ghost predicate Somewhere<V>(chains: seq<seq<Node<V>>>, x: Node<V>) {
    exists q :: 0 <= q < |chains| && x in chains[q]
  }

  /** Every node of the chains `c0` is recycled, or still in a chain. */
  ghost predicate Accounted<V>(c0: seq<seq<Node<V>>>, chains: seq<seq<Node<V>>>, spare: seq<Node<V>>) {
    forall i, x :: 0 <= i < |c0| && x in c0[i] ==> x in spare || Somewhere(chains, x)
  }

  lemma AllThere<V>(c0: seq<seq<Node<V>>>, spare: seq<Node<V>>)
    ensures Accounted(c0, c0, spare)
  {
  }

  lemma AccountedStep<V>(c0: seq<seq<Node<V>>>, g: View<V>, g': View<V>, i: nat, x: Node<V>, cur: seq<Node<V>>)
    requires Accounted(c0, g.chains, g.spare) && i < |g.chains| && g.chains[i] == [x] + cur
    requires g'.chains == g.chains[i := cur] && g'.spare == [x] + g.spare
    ensures Accounted(c0, g'.chains, g'.spare)
  {
    forall k, y | 0 <= k < |c0| && y in c0[k] ensures y in g'.spare || Somewhere(g'.chains, y) {
      if y !in g.spare && y != x {
        var q :| 0 <= q < |g.chains| && y in g.chains[q];
        assert y in g'.chains[q];
      }
    }
  }

  lemma AllSpare<V>(c0: seq<seq<Node<V>>>, chains: seq<seq<Node<V>>>, spare: seq<Node<V>>, cur: seq<Node<V>>,
                    index: nat)
    requires Accounted(c0, chains, spare) && Clearing(chains, null, cur, index)
    ensures forall i, x :: 0 <= i < |c0| && x in c0[i] ==> x in spare
  {
  }

  /** Everything before the current entry is gone. */
  ghost predicate Clearing<V>(chains: seq<seq<Node<V>>>, current: Node?<V>, cur: seq<Node<V>>, index: nat) {
    if current == null then forall q :: 0 <= q < |chains| ==> chains[q] == []
    else
      && 0 < index <= |chains| && chains[index - 1] == [current] + cur
      && forall q :: 0 <= q < index - 1 ==> chains[q] == []
  }

  lemma ClearingStart<V>(chains: seq<seq<Node<V>>>, current: Node?<V>, cur: seq<Node<V>>, index: nat)
    requires Stepped([], chains, 0, current, cur, index)
    ensures Clearing(chains, current, cur, index)
  {
  }

  lemma ClearingNext<V>(chains: seq<seq<Node<V>>>, cur: seq<Node<V>>, index: nat,
                        current: Node?<V>, cur': seq<Node<V>>, index': nat)
    requires 0 < index <= |chains| && chains[index - 1] == cur && forall q :: 0 <= q < index - 1 ==> chains[q] == []
    requires Stepped(cur, chains, index, current, cur', index')
    ensures Clearing(chains, current, cur', index')
  {
    if cur != [] { assert cur == [cur[0]] + cur[1..]; }
  }

  lemma AheadHead<V>(cur: seq<Node<V>>, next: Node?<V>, rest: seq<seq<Node<V>>>, heads: seq<Node?<V>>,
                     all: set<Node<V>>)
    requires Ahead(cur, next, rest, heads, all)
    ensures next == if cur == [] then null else cur[0]
  {
  }

  /** In a well-formed table the rest of a chain and the chains after it are ahead. */
  lemma AllAhead<V>(g: View<V>, heads: seq<Node?<V>>, free: Node?<V>, index: nat, cur: seq<Node<V>>)
    requires Structure(g, heads, free) && index <= |heads|
    requires if index == 0 then cur == [] else g.chains[index - 1] == cur
    ensures Ahead(cur, if cur == [] then null else cur[0], g.chains[index..], heads[index..], g.where.Keys)
  {
    hide Linked;
    LinksOf(g, heads, free);
    LinkedNone<V>();
    var rest, hs := g.chains[index..], heads[index..];
    forall i, j | 0 <= i < |rest| && 0 <= j < |rest[i]| ensures rest[i][j] in g.where.Keys {
      assert Placed(g.chains[index + i], g.where, index + i);
    }
    forall i | 0 <= i < |rest| ensures Linked(rest[i], hs[i]) { assert Linked(g.chains[index + i], heads[index + i]); }
    if index > 0 {
      assert Placed(g.chains[index - 1], g.where, index - 1);
      LinkedHead(cur, heads[index - 1]);
    }
  }

  lemma LinkedHead<V>(c: seq<Node<V>>, head: Node?<V>)
    requires Linked(c, head)
    ensures Linked(c, if c == [] then null else c[0])
  {
  }

  /** The first entry of chain `i` is what a lookup of its key finds. */
  lemma HeadOfChain<V>(g: View<V>, heads: seq<Node?<V>>, free: Node?<V>, f: HashFunc, seed: nat, m: map<Key, V>, i: nat)
    requires Structure(g, heads, free) && ChainsOk(g.cs, f, seed) && Denotes(g.cs, f, seed, m)
    requires i < |g.chains| && g.chains[i] != []
    ensures var x := g.chains[i][0];
            x.key in m && HashOf(f, seed, x.key) % |g.chains| == i && |g.cs| == |g.chains| && g.cs[i] != [] &&
            g.cs[i][0].key == x.key
  {
    hide HashOf;
    NodeKey(g, heads, free, i, 0);
    assert ChainOk(g.cs[i], i, |g.cs|, f, seed);
    assert Belongs(g.cs[i][0], i, |g.cs|, f, seed);
  }

  /** Deleting the first entry of chain `i`. */
  lemma DeletedHead<V>(g: View<V>, g': View<V>, hash: nat, key: Key, i: nat, x: Node<V>, cur: seq<Node<V>>)
    requires Deleted(g, g', hash, key) && hash % |g.chains| == i && g.chains[i] == [x] + cur
    requires g.cs[i] != [] && g.cs[i][0].key == key
    ensures g'.chains == g.chains[i := cur] && g'.spare == [x] + g.spare
  {
    assert Find(g.cs[i], key) == 0;
    assert g.chains[i][..0] + g.chains[i][1..] == cur;
  }

  lemma NothingLeft<V>(g: View<V>, heads: seq<Node?<V>>, free: Node?<V>, f: HashFunc, seed: nat, m: map<Key, V>,
                       cur: seq<Node<V>>, index: nat)
    requires Structure(g, heads, free) && Denotes(g.cs, f, seed, m) && Clearing(g.chains, null, cur, index)
    ensures m == map[] && Total(g.cs) == 0
  {
    hide HashOf;
    ChainLengths(g, heads, free);
    AllEmptyTotal(g.cs);
  }

  lemma {:induction false} AllEmptyTotal<V>(cs: seq<seq<Entry<V>>>)
    requires forall i :: 0 <= i < |cs| ==> cs[i] == []
    ensures Total(cs) == 0
  {
    if cs == [] {
    } else {
      AllEmptyTotal(cs[..|cs| - 1]);
    }
  }

  ghost function NoEntries<V>(n: nat): View<V> {
    View(seq(n, _ => []), Empty<V>(n), [], map[])
  }

  lemma EmptyStructure<V>(heads: seq<Node?<V>>)
    requires forall i :: 0 <= i < |heads| ==> heads[i] == null
    ensures Structure(NoEntries<V>(|heads|), heads, null)
  {
    var v: View<V> := NoEntries(|heads|);
    forall i | 0 <= i < |heads| ensures Placed(v.chains[i], v.where, i) && Rep(v.chains[i], heads[i], v.cs[i]) {
      assert v.chains[i] == [];
    }
  }

  /** The nodes of all chains are distinct and hold the entries of all chains. */
  lemma {:induction false} FlatNodes<V>(g: View<V>, heads: seq<Node?<V>>, free: Node?<V>, n: nat)
    requires Structure(g, heads, free) && n <= |heads|
    ensures Shows(Flat(g.chains[..n]), Flat(g.cs[..n]))
    ensures AllDistinct(Flat(g.chains[..n]))
    ensures forall x :: x in Flat(g.chains[..n]) ==> x in g.where && 0 <= g.where[x] < n
    decreases n
  {
    hide Linked, Rep;
    if n == 0 {
    } else {
      FlatNodes(g, heads, free, n - 1);
      assert g.chains[..n][..n - 1] == g.chains[..n - 1] && g.cs[..n][..n - 1] == g.cs[..n - 1];
      var a, c := Flat(g.chains[..n - 1]), g.chains[n - 1];
      assert Placed(c, g.where, n - 1);
      RepOpen(c, heads[n - 1], g.cs[n - 1]);
      forall p | 0 <= p < |a| ensures a[p] in g.where && 0 <= g.where[a[p]] < n - 1 { assert a[p] in a; }
      DistinctAppend(a, c, g.where, n - 1);
      assert Flat(g.chains[..n]) == a + c;
    }
  }

  lemma DistinctAppend<V>(a: seq<Node<V>>, c: seq<Node<V>>, where: map<Node<V>, int>, i: int)
    requires AllDistinct(a) && forall p :: 0 <= p < |a| ==> a[p] in where && where[a[p]] < i
    requires Placed(c, where, i)
    ensures AllDistinct(a + c)
  {
  }

  lemma LinksOf<V>(g: View<V>, heads: seq<Node?<V>>, free: Node?<V>)
    requires Structure(g, heads, free)
    ensures |g.chains| == |heads| && forall i :: 0 <= i < |heads| ==> Linked(g.chains[i], heads[i])
  {
    forall i | 0 <= i < |heads| ensures Linked(g.chains[i], heads[i]) {
      RepOpen(g.chains[i], heads[i], g.cs[i]);
    }
  }

  function FlatFrom<T>(cs: seq<seq<T>>, i: nat): seq<T>
    decreases |cs| - i
  {
    if i >= |cs| then [] else cs[i] + FlatFrom(cs, i + 1)
  }

  lemma {:induction false} FlatFromIsFlat<T>(cs: seq<seq<T>>, i: nat)
    requires i <= |cs|
    ensures Flat(cs[..i]) + FlatFrom(cs, i) == Flat(cs)
    decreases |cs| - i
  {
    if i == |cs| {
      assert cs[..i] == cs;
    } else {
      FlatFromIsFlat(cs, i + 1);
      assert cs[..i + 1][..i] == cs[..i];
      Associate(Flat(cs[..i]), cs[i], FlatFrom(cs, i + 1));
    }
  }

  lemma {:induction false} SkipEmpty<T>(cs: seq<seq<T>>, i: nat, j: nat)
    requires i <= j <= |cs| && forall q :: i <= q < j ==> cs[q] == []
    ensures FlatFrom(cs, i) == FlatFrom(cs, j)
    decreases j - i
  {
    if i >= j {
    } else {
      SkipEmpty(cs, i + 1, j);
      assert [] + FlatFrom(cs, i + 1) == FlatFrom(cs, i + 1);
    }
  }

  /** A step of a walk hands out the first of the entries to come. */
  lemma ToCome<V>(cur: seq<Node<V>>, chains: seq<seq<Node<V>>>, index: nat,
                  current: Node?<V>, cur': seq<Node<V>>, index': nat)
    requires index <= |chains| && Stepped(cur, chains, index, current, cur', index')
    ensures cur + FlatFrom(chains, index) ==
            if current == null then [] else [current] + (cur' + FlatFrom(chains, index'))
  {
    if cur != [] {
      assert cur == [cur[0]] + cur[1..];
    } else if current == null {
      SkipEmpty(chains, index, index');
    } else {
      SkipEmpty(chains, index, index' - 1);
      Associate([current], cur', FlatFrom(chains, index'));
    }
  }

  lemma {:induction false} FlatFromHas<T>(cs: seq<seq<T>>, i: nat, q: nat, x: T)
    requires i <= q < |cs| && x in cs[q]
    ensures x in FlatFrom(cs, i)
    decreases q - i
  {
    if i >= q {
    } else {
      FlatFromHas(cs, i + 1, q, x);
    }
  }

  /** The recycled entries are kept when all chains are replaced. */
  ghost function JoinSpare<V>(v: View<V>, g: View<V>): View<V> {
    View(v.chains, v.cs, g.spare, g.where + v.where)
  }

  lemma JoinSpareStructure<V>(v: View<V>, g: View<V>, heads: seq<Node?<V>>, free: Node?<V>)
    requires Relinked(v, heads, Flat(g.chains), Flat(g.cs), |Flat(g.cs)|) && Linked(g.spare, free)
    requires NodesApart(g, Flat(g.chains)) && Placed(g.spare, g.where, -1)
    ensures var r := JoinSpare(v, g);
            && Structure(r, heads, free) && r.where.Keys == g.where.Keys
            && r.cs == LinkAll(Empty<V>(|heads|), Flat(g.cs)) && |r.cs| == |heads|
  {
    hide Rep, Linked, Flat;
    var r, nodes, es := JoinSpare(v, g), Flat(g.chains), Flat(g.cs);
    assert nodes[..|es|] == nodes && es[..|es|] == es;
    forall x | x in v.where ensures x in g.where && g.where[x] >= 0 {
      assert x in nodes;
    }
    forall i | 0 <= i < |heads| ensures Placed(r.chains[i], r.where, i) {
      assert Placed(v.chains[i], v.where, i);
    }
  }

  lemma PrependRep<V>(c: seq<Node<V>>, he: Node<V>, es: seq<Entry<V>>)
    requires Linked(c, he.next) && |c| == |es|
    requires forall j :: 0 <= j < |c| ==> es[j] == Entry(c[j].key, c[j].hash, c[j].val)
    ensures Rep([he] + c, he, [Entry(he.key, he.hash, he.val)] + es)
  {
  }

  lemma PlacedPrepend<V>(chains: seq<seq<Node<V>>>, spare: seq<Node<V>>, where: map<Node<V>, int>, i: nat, he: Node<V>)
    requires i < |chains| && he !in where && Placed(spare, where, -1)
    requires forall g :: 0 <= g < |chains| ==> Placed(chains[g], where, g)
    ensures var where', chains' := where[he := i], chains[i := [he] + chains[i]];
            Placed(spare, where', -1) && forall g :: 0 <= g < |chains'| ==> Placed(chains'[g], where', g)
  {
  }

  /** apr_hash_index_t: a walk over the entries that reads the link of the current
      entry before handing it out. */
  datatype HashIndex<V> = HashIndex(current: Node?<V>, next: Node?<V>, index: nat)

  /** A walk has passed empty chains from `index` on to the chain before `index'`. */
  ghost predicate Searched<V>(cur: seq<Node<V>>, chains: seq<seq<Node<V>>>, index: nat, cur': seq<Node<V>>,
                              index': nat) {
    if index' == index then cur' == cur
    else index < index' <= |chains| && cur == [] && cur' == chains[index' - 1]
         && forall q :: index <= q < index' - 1 ==> chains[q] == []
  }

  /** The nodes still to come, `cur` in the current chain and then the chains of
      `rest`, are among `all` and have their links as they were. */
  ghost predicate Ahead<V>(cur: seq<Node<V>>, next: Node?<V>, rest: seq<seq<Node<V>>>, heads: seq<Node?<V>>,
                           all: set<Node<V>>)
    reads all
  {
    && (forall j :: 0 <= j < |cur| ==> cur[j] in all)
    && (forall i, j :: 0 <= i < |rest| && 0 <= j < |rest[i]| ==> rest[i][j] in all)
    && Linked(cur, next)
    && |rest| == |heads| && forall i :: 0 <= i < |rest| ==> Linked(rest[i], heads[i])
  }

  lemma AheadNull<V>(cur: seq<Node<V>>, rest: seq<seq<Node<V>>>, heads: seq<Node?<V>>, all: set<Node<V>>)
    requires Ahead(cur, null, rest, heads, all)
    ensures cur == []
  {
  }

  lemma AheadNext<V>(cur: seq<Node<V>>, next: Node?<V>, chains: seq<seq<Node<V>>>, heads: seq<Node?<V>>, index: nat,
                     all: set<Node<V>>)
    requires index < |chains| == |heads| && Ahead(cur, next, chains[index..], heads[index..], all)
    ensures Ahead(chains[index], heads[index], chains[index + 1..], heads[index + 1..], all)
  {
    hide Linked;
    var r0, h0 := chains[index..], heads[index..];
    var r, h := chains[index + 1..], heads[index + 1..];
    assert r0[0] == chains[index] && h0[0] == heads[index];
    assert Linked(r0[0], h0[0]);
    forall j | 0 <= j < |chains[index]| ensures chains[index][j] in all { assert r0[0][j] in all; }
    forall i, j | 0 <= i < |r| && 0 <= j < |r[i]| ensures r[i][j] in all { assert r0[i + 1][j] in all; }
    forall i | 0 <= i < |r| ensures Linked(r[i], h[i]) { assert Linked(r0[i + 1], h0[i + 1]); }
  }

  lemma AheadTail<V>(cur: seq<Node<V>>, next: Node?<V>, rest: seq<seq<Node<V>>>, heads: seq<Node?<V>>,
                     all: set<Node<V>>)
    requires Ahead(cur, next, rest, heads, all) && next != null
    ensures cur != [] && next == cur[0] && Ahead(cur[1..], next.next, rest, heads, all)
  {
    var c := cur[1..];
    forall j {:trigger c[j].next} | 0 <= j < |c| ensures c[j].next == if j + 1 < |c| then c[j + 1] else null {
      assert cur[j + 1].next == if j + 2 < |cur| then cur[j + 2] else null;
    }
  }

  /** `all` can be cut down to the nodes still to come. */
  lemma AheadAmong<V>(cur: seq<Node<V>>, next: Node?<V>, rest: seq<seq<Node<V>>>, heads: seq<Node?<V>>,
                      all: set<Node<V>>, fewer: set<Node<V>>)
    requires Ahead(cur, next, rest, heads, all)
    requires forall x :: x in cur + FlatFrom(rest, 0) ==> x in fewer
    ensures Ahead(cur, next, rest, heads, fewer)
  {
    hide Linked;
    forall i, j | 0 <= i < |rest| && 0 <= j < |rest[i]| ensures rest[i][j] in fewer {
      FlatFromHas(rest, 0, i, rest[i][j]);
    }
    forall j | 0 <= j < |cur| ensures cur[j] in fewer { assert cur[j] in cur + FlatFrom(rest, 0); }
  }

  ghost function Rest<V>(nodes: seq<Node<V>>, k: nat): set<Node<V>> {
    if k <= |nodes| then set x | x in nodes[k..] else {}
  }

  lemma {:induction false} FlatFromDrop<T>(cs: seq<seq<T>>, k: nat, i: nat)
    requires k + i <= |cs|
    ensures FlatFrom(cs[k..], i) == FlatFrom(cs, k + i)
    decreases |cs| - i
  {
    if k + i >= |cs| {
    } else {
      FlatFromDrop(cs, k, i + 1);
    }
  }

  /** A walk stands at node `k`, with `cur` and the chains from `index` on to come. */
  ghost predicate WalkAt<V>(nodes: seq<Node<V>>, k: nat, current: Node?<V>, cur: seq<Node<V>>,
                            chains: seq<seq<Node<V>>>, index: nat) {
    if current == null then k == |nodes|
    else k < |nodes| && nodes[k] == current && nodes[k + 1..] == cur + FlatFrom(chains, index)
  }

  lemma WalkOn<V>(nodes: seq<Node<V>>, k: nat, current: Node<V>, cur: seq<Node<V>>, chains: seq<seq<Node<V>>>,
                  index: nat)
    requires WalkAt(nodes, k, current, cur, chains, index)
    ensures k < |nodes| && nodes[k] == current && nodes[k + 1..] == cur + FlatFrom(chains, index)
  {
  }

  lemma WalkOver<V>(nodes: seq<Node<V>>, k: nat, cur: seq<Node<V>>, chains: seq<seq<Node<V>>>, index: nat)
    requires WalkAt(nodes, k, null, cur, chains, index)
    ensures k == |nodes| && nodes[..k] == nodes
  {
  }

  /** Where a walk over the chains begins. */
  lemma WalkStart<V>(g: View<V>, heads: seq<Node?<V>>, free: Node?<V>)
    requires Structure(g, heads, free)
    ensures var nodes, es := Flat(g.chains), Flat(g.cs);
            && Shows(nodes[0..], es[0..]) && Linked(g.spare, free) && |nodes| == |es| && |g.chains| == |heads|
            && nodes == FlatFrom(g.chains, 0) && NodesApart(g, nodes)
  {
    hide Linked, AllDistinct, FlatFrom, Flat, Rep;
    var nodes := Flat(g.chains);
    FlatNodes(g, heads, free, |heads|);
    assert g.chains[..|heads|] == g.chains && g.cs[..|heads|] == g.cs;
    FlatFromAll(g.chains);
    assert nodes[0..] == nodes && Flat(g.cs)[0..] == Flat(g.cs);
    forall p | 0 <= p < |nodes| ensures nodes[p] in g.where && g.where[nodes[p]] >= 0 { assert nodes[p] in nodes; }
  }

  lemma FlatFromAll<T>(cs: seq<seq<T>>)
    ensures FlatFrom(cs, 0) == Flat(cs)
  {
    FlatFromIsFlat(cs, 0);
    assert cs[..0] == [];
  }

  lemma WalkAhead<V>(g: View<V>, heads: seq<Node?<V>>, free: Node?<V>, nodes: seq<Node<V>>)
    requires Structure(g, heads, free) && nodes == FlatFrom(g.chains, 0)
    ensures Ahead([], null, g.chains[0..], heads[0..], Rest(nodes, 0))
    ensures nodes[0..] == [] + FlatFrom(g.chains, 0)
  {
    hide Linked, FlatFrom, Rep;
    LinksOf(g, heads, free);
    assert g.chains[0..] == g.chains && heads[0..] == heads && nodes[0..] == nodes;
    forall i, j | 0 <= i < |g.chains| && 0 <= j < |g.chains[i]| ensures g.chains[i][j] in Rest(nodes, 0) {
      FlatFromHas(g.chains, 0, i, g.chains[i][j]);
    }
    LinkedNone<V>();
  }

  lemma LinkedNone<V>()
    ensures Linked<V>([], null)
  {
  }

  /** After a step: the node handed out is next in the list, and the links of the
      nodes after it are as they were. */
  lemma WalkStep<V>(nodes: seq<Node<V>>, k: nat, cur: seq<Node<V>>, chains: seq<seq<Node<V>>>, index: nat,
                    current: Node?<V>, cur': seq<Node<V>>, index': nat, next: Node?<V>, heads: seq<Node?<V>>)
    requires k <= |nodes| && index <= index' <= |chains| == |heads|
    requires nodes[k..] == cur + FlatFrom(chains, index)
    requires Stepped(cur, chains, index, current, cur', index')
    requires Ahead(cur', next, chains[index'..], heads[index'..], Rest(nodes, k))
    ensures WalkAt(nodes, k, current, cur', chains, index')
    ensures Ahead(cur', next, chains[index'..], heads[index'..], Rest(nodes, k + 1))
  {
    hide Linked, Ahead, FlatFrom;
    ToCome(cur, chains, index, current, cur', index');
    var rest := cur' + FlatFrom(chains, index');
    FlatFromDrop(chains, index', 0);
    RestAfter(nodes, k, current, rest);
    if current == null { FlatFromEnd(chains); }
    AheadAmong(cur', next, chains[index'..], heads[index'..], Rest(nodes, k), Rest(nodes, k + 1));
  }

  lemma FlatFromEnd<T>(cs: seq<seq<T>>)
    ensures FlatFrom(cs, |cs|) == []
  {
  }

  lemma RestAfter<V>(nodes: seq<Node<V>>, k: nat, current: Node?<V>, rest: seq<Node<V>>)
    requires k <= |nodes|
    requires current != null ==> nodes[k..] == [current] + rest
    ensures current != null ==> k < |nodes| && nodes[k] == current && nodes[k + 1..] == rest
  {
    if current != null {
      assert nodes[k] == nodes[k..][0];
      assert nodes[k + 1..] == nodes[k..][1..] == rest;
    }
  }

  /** The first `k` nodes of a walk are linked into the new slots. */
  ghost predicate Relinked<V>(v: View<V>, heads: seq<Node?<V>>, nodes: seq<Node<V>>, es: seq<Entry<V>>, k: nat)
    reads v.where.Keys
  {
    && Structure(v, heads, null) && v.spare == [] && |heads| > 0 && k <= |nodes| == |es|
    && v.cs == LinkAll(Empty<V>(|heads|), es[..k]) && v.where.Keys == set x | x in nodes[..k]
  }

  lemma RelinkedNone<V>(heads: seq<Node?<V>>, nodes: seq<Node<V>>, es: seq<Entry<V>>)
    requires |heads| > 0 && |nodes| == |es| && forall i :: 0 <= i < |heads| ==> heads[i] == null
    ensures Relinked(NoEntries<V>(|heads|), heads, nodes, es, 0)
  {
    EmptyStructure(heads);
    LinkNone(Empty<V>(|heads|), es);
  }

  /** The nodes of the chains are distinct, and none is among the recycled ones. */
  ghost predicate NodesApart<V>(g: View<V>, nodes: seq<Node<V>>) {
    && AllDistinct(nodes)
    && (forall p :: 0 <= p < |nodes| ==> nodes[p] in g.where && g.where[nodes[p]] >= 0)
    && (forall p :: 0 <= p < |g.spare| ==> g.spare[p] in g.where && g.where[g.spare[p]] == -1)
  }

  /** Node `k` of a walk, apart from those before and after it. */
  lemma AtNode<V>(g: View<V>, nodes: seq<Node<V>>, es: seq<Entry<V>>, k: nat, x: Node<V>)
    requires k < |nodes| == |es| && NodesApart(g, nodes) && Shows(nodes[k..], es[k..]) && nodes[k] == x
    ensures es[k] == Entry(x.key, x.hash, x.val) && Shows(nodes[k + 1..], es[k + 1..])
    ensures x in g.where && x !in g.spare && x !in nodes[..k] && x !in Rest(nodes, k + 1) && x !in nodes[k + 1..]
  {
    var a, b := nodes[k..], es[k..];
    assert a[0] == x && b[0] == es[k];
    assert nodes[k + 1..] == a[1..] && es[k + 1..] == b[1..];
  }

  /** One step of a walk: the head of the current chain, or of the next chain that is
      not empty, or NULL when there is none. */
  ghost predicate Stepped<V>(cur: seq<Node<V>>, chains: seq<seq<Node<V>>>, index: nat,
                             current: Node?<V>, cur': seq<Node<V>>, index': nat) {
    if cur != [] then current == cur[0] && cur' == cur[1..] && index' == index
    else if current == null then
      cur' == [] && index' == |chains| && forall q :: index <= q < |chains| ==> chains[q] == []
    else index < index' <= |chains| && chains[index' - 1] == [current] + cur'
         && forall q :: index <= q < index' - 1 ==> chains[q] == []
  }

  /** The removal of a key as it shows in the links. */
  ghost predicate Deleted<V>(g: View<V>, g': View<V>, hash: nat, key: Key) {
    && |g.chains| == |g.cs| > 0
    && var i := hash % |g.chains|;
       var p := Find(g.cs[i], key);
       && p < |g.chains[i]|
       && g'.chains == g.chains[i := g.chains[i][..p] + g.chains[i][p + 1..]]
       && p < |g.cs[i]| && g'.cs == g.cs[i := g.cs[i][..p] + g.cs[i][p + 1..]]
       && g'.spare == [g.chains[i][p]] + g.spare
  }

  lemma ChainLengths<V>(g: View<V>, heads: seq<Node?<V>>, free: Node?<V>)
    requires Structure(g, heads, free)
    ensures |g.chains| == |g.cs| && forall i :: 0 <= i < |g.chains| ==> |g.chains[i]| == |g.cs[i]|
  {
    forall i | 0 <= i < |g.chains| ensures |g.chains[i]| == |g.cs[i]| {
      assert Rep(g.chains[i], heads[i], g.cs[i]);
    }
  }

  lemma NodeKey<V>(g: View<V>, heads: seq<Node?<V>>, free: Node?<V>, i: nat, p: nat)
    requires Structure(g, heads, free) && i < |g.chains| && p < |g.chains[i]|
    ensures |g.chains[i]| == |g.cs[i]| && g.chains[i][p] in g.where
    ensures g.cs[i][p] == Entry(g.chains[i][p].key, g.chains[i][p].hash, g.chains[i][p].val)
  {
    assert Placed(g.chains[i], g.where, i);
    assert Rep(g.chains[i], heads[i], g.cs[i]);
  }

  /** No other place in the links holds node `p` of chain `i`. */
  lemma NodeApart<V>(g: View<V>, heads: seq<Node?<V>>, free: Node?<V>, i: nat, p: nat)
    requires Structure(g, heads, free) && i < |g.chains| && p < |g.chains[i]|
    ensures g.chains[i][p] in g.where && g.chains[i][p] !in g.spare
    ensures forall q :: 0 <= q < |g.chains| && q != i ==> g.chains[i][p] !in g.chains[q]
    ensures forall j :: 0 <= j < |g.chains[i]| && j != p ==> g.chains[i][j] != g.chains[i][p]
  {
    assert Placed(g.chains[i], g.where, i);
  }

  lemma ReplaceInChain<V>(cs: seq<seq<Entry<V>>>, f: HashFunc, seed: nat, m: map<Key, V>, i: nat, p: nat, v: V)
    requires ChainsOk(cs, f, seed) && Denotes(cs, f, seed, m) && i < |cs| && p < |cs[i]|
    ensures var cs' := cs[i := cs[i][p := cs[i][p].(val := v)]];
            ChainsOk(cs', f, seed) && Denotes(cs', f, seed, Set(m, cs[i][p].key, Some(v))) && Total(cs') == Total(cs)
  {
    assert ChainOk(cs[i], i, |cs|, f, seed);
    assert Belongs(cs[i][p], i, |cs|, f, seed);
    RebindReplace(cs[i], i, |cs|, f, seed, p, v);
    RebindDenotes(cs, f, seed, m, cs[i][p := cs[i][p].(val := v)], cs[i][p].key, Some(v));
    TotalUpdate(cs, i, cs[i][p := cs[i][p].(val := v)]);
  }

  lemma ReplaceRep<V>(c: seq<Node<V>>, head: Node?<V>, es: seq<Entry<V>>)
    requires Linked(c, head) && |c| == |es|
    requires forall j :: 0 <= j < |c| ==> es[j] == Entry(c[j].key, c[j].hash, c[j].val)
    ensures Rep(c, head, es)
  {
  }

  /** The structure with another chain in slot `i`. */
  lemma StructureWith<V>(g: View<V>, heads: seq<Node?<V>>, free: Node?<V>, i: nat, c: seq<Node<V>>, es: seq<Entry<V>>,
                         spare: seq<Node<V>>, where: map<Node<V>, int>)
    requires i < |g.chains| == |g.cs| == |heads|
    requires forall q :: 0 <= q < |heads| && q != i ==> Rep(g.chains[q], heads[q], g.cs[q])
    requires Rep(c, heads[i], es) && Placed(spare, where, -1) && Linked(spare, free)
    requires var chains := g.chains[i := c]; forall q :: 0 <= q < |chains| ==> Placed(chains[q], where, q)
    ensures Structure(View(g.chains[i := c], g.cs[i := es], spare, where), heads, free)
  {
    hide Rep, Placed;
  }

  lemma RepOpen<V>(c: seq<Node<V>>, head: Node?<V>, es: seq<Entry<V>>)
    requires Rep(c, head, es)
    ensures |c| == |es| && Linked(c, head) && forall j :: 0 <= j < |c| ==> es[j] == Entry(c[j].key, c[j].hash, c[j].val)
  {
  }

  lemma DeleteRep<V>(c: seq<Node<V>>, p: nat, head: Node?<V>, es: seq<Entry<V>>)
    requires p < |c| == |es|
    requires head == if p > 0 then c[0] else if |c| > 1 then c[1] else null
    requires forall j {:trigger c[j].next} :: 0 <= j < |c| && j != p ==>
      c[j].next == if j + 1 == p then (if p + 1 < |c| then c[p + 1] else null)
                   else if j + 1 < |c| then c[j + 1] else null
    requires forall j :: 0 <= j < |c| && j != p ==> es[j] == Entry(c[j].key, c[j].hash, c[j].val)
    ensures Rep(c[..p] + c[p + 1..], head, es[..p] + es[p + 1..])
  {
    var d := c[..p] + c[p + 1..];
    forall j | 0 <= j < |d| ensures d[j] == c[if j < p then j else j + 1] { }
  }

  lemma PlacedAppend<V>(chains: seq<seq<Node<V>>>, spare: seq<Node<V>>, where: map<Node<V>, int>, i: nat, he: Node<V>)
    requires i < |chains| && he !in where && Placed(spare, where, -1)
    requires forall g :: 0 <= g < |chains| ==> Placed(chains[g], where, g)
    ensures var where', chains' := where[he := i], chains[i := chains[i] + [he]];
            Placed(spare, where', -1) && forall g :: 0 <= g < |chains'| ==> Placed(chains'[g], where', g)
  {
  }

  lemma PlacedDelete<V>(chains: seq<seq<Node<V>>>, spare: seq<Node<V>>, where: map<Node<V>, int>, i: nat, p: nat)
    requires i < |chains| && p < |chains[i]| && Placed(spare, where, -1)
    requires forall g :: 0 <= g < |chains| ==> Placed(chains[g], where, g)
    ensures var where', chains' := where[chains[i][p] := -1], chains[i := chains[i][..p] + chains[i][p + 1..]];
            && Placed([chains[i][p]] + spare, where', -1)
            && forall g :: 0 <= g < |chains'| ==> Placed(chains'[g], where', g)
  {
    assert Placed(chains[i], where, i);
  }

  lemma AppendToChain<V>(cs: seq<seq<Entry<V>>>, f: HashFunc, seed: nat, m: map<Key, V>, i: nat, e: Entry<V>)
    requires ChainsOk(cs, f, seed) && Denotes(cs, f, seed, m)
    requires i < |cs| && e.hash == HashOf(f, seed, e.key) && e.hash % |cs| == i && e.key !in m
    ensures var cs' := cs[i := cs[i] + [e]];
            ChainsOk(cs', f, seed) && Denotes(cs', f, seed, Set(m, e.key, Some(e.val))) && Total(cs') == Total(cs) + 1
  {
    assert !HasKey(cs[i], e.key);
    assert ChainOk(cs[i], i, |cs|, f, seed);
    RebindAppend(cs[i], i, |cs|, f, seed, e);
    RebindDenotes(cs, f, seed, m, cs[i] + [e], e.key, Some(e.val));
    TotalUpdate(cs, i, cs[i] + [e]);
  }

  lemma DeleteFromChain<V>(cs: seq<seq<Entry<V>>>, f: HashFunc, seed: nat, m: map<Key, V>, i: nat, p: nat)
    requires ChainsOk(cs, f, seed) && Denotes(cs, f, seed, m) && i < |cs| && p < |cs[i]|
    ensures var cs' := cs[i := cs[i][..p] + cs[i][p + 1..]];
            ChainsOk(cs', f, seed) && Denotes(cs', f, seed, Set(m, cs[i][p].key, None)) && Total(cs') == Total(cs) - 1
  {
    assert ChainOk(cs[i], i, |cs|, f, seed);
    assert Belongs(cs[i][p], i, |cs|, f, seed);
    RebindDelete(cs[i], i, |cs|, f, seed, p);
    RebindDenotes(cs, f, seed, m, cs[i][..p] + cs[i][p + 1..], cs[i][p].key, None);
    TotalUpdate(cs, i, cs[i][..p] + cs[i][p + 1..]);
  }

  lemma AppendRep<V>(c: seq<Node<V>>, he: Node<V>, head: Node?<V>, es: seq<Entry<V>>, e: Entry<V>)
    requires |c| == |es| && he.next == null && e == Entry(he.key, he.hash, he.val)
    requires head == if c == [] then he else c[0]
    requires forall j {:trigger c[j].next} :: 0 <= j < |c| ==> c[j].next == if j + 1 < |c| then c[j + 1] else he
    requires forall j :: 0 <= j < |c| ==> es[j] == Entry(c[j].key, c[j].hash, c[j].val)
    ensures Rep(c + [he], head, es + [e])
  {
  }

  lemma KeyIsInItsChain<V>(cs: seq<seq<Entry<V>>>, f: HashFunc, seed: nat, m: map<Key, V>, key: Key)
    requires Denotes(cs, f, seed, m)
    ensures var c := cs[HashOf(f, seed, key) % |cs|];
            var p := Find(c, key);
            (key in m <==> p < |c|) && (p < |c| ==> m[key] == c[p].val)
  {
  }
}
