/** apr_buckets_alloc.c: small blocks carved out of memory nodes and recycled, and large
blocks with a memory node of their own. */
module BucketAlloc {
  import opened Machine

  /** sizeof(node_header_t) and the rest, aligned; of unspecified but sane values. */
  type Positive = n: nat | 0 < n < 0x1000_0000 witness 1
  const HEADER: Positive           // SIZEOF_NODE_HEADER_T
  const ALLOC_SIZE: Positive       // APR_BUCKET_ALLOC_SIZE
  const LIST_SIZE: Positive        // APR_ALIGN_DEFAULT(sizeof(apr_bucket_alloc_t))
  const SMALL := ALLOC_SIZE + HEADER

  /** A block holds the list and a small node, or more. */
  type Amount = n: nat | LIST_SIZE + SMALL < n <= INT_MAX witness LIST_SIZE + SMALL + 1
  const ALLOC_AMT: Amount

  /** apr_memnode_t: the memory from 0 to `room`, of which what is before `firstAvail`
      has been handed out. */
  class MemNode {
    const room: nat
    var firstAvail: nat
    var next: MemNode?
    var released: bool

    /** apr_allocator_alloc, which always succeeds, with at least what was asked for. */
    constructor (size: nat)
      ensures room >= size && firstAvail == 0 && next == null && !released
    {
      var more: nat :| true;
      room, firstAvail, next, released := size + more, 0, null, false;
    }
  }

  /** node_header_t, at its place in memory, before the `size - HEADER` bytes it is for. */
  class Header {
    const list: Allocator
    const memnode: MemNode
    const at: nat
    const size: nat
    var next: Header?

    constructor (list: Allocator, memnode: MemNode, at: nat, size: nat)
      ensures this.list == list && this.memnode == memnode && this.at == at && this.size == size
    {
      this.list, this.memnode, this.at, this.size, next := list, memnode, at, size, null;
    }
  }

  ghost predicate Apart(h: Header, k: Header) {
    h.memnode != k.memnode || h.at + h.size <= k.at || k.at + k.size <= h.at
  }

  ghost predicate AllApart(s: set<Header>) {
    forall h, k :: h in s && k in s && h != k ==> Apart(h, k)
  }

  ghost predicate Distinct<T>(s: seq<T>) {
    forall i, j :: 0 <= i < j < |s| ==> s[i] != s[j]
  }

  /** The blocks, from the newest to the first. */
  ghost predicate Blocks(s: seq<MemNode>)
    reads s`next
  {
    Distinct(s) && forall i :: 0 <= i < |s| ==> s[i].next == NodeAt(s, i + 1)
  }

  ghost function NodeAt(s: seq<MemNode>, i: nat): MemNode? {
    if i < |s| then s[i] else null
  }

  /** The free list. */
  ghost predicate Chain(s: seq<Header>)
    reads s`next
  {
    Distinct(s) && forall i :: 0 <= i < |s| ==> s[i].next == HeaderAt(s, i + 1)
  }

  ghost function HeaderAt(s: seq<Header>, i: nat): Header? {
    if i < |s| then s[i] else null
  }

  /** A block has handed out no more than it has, and the first of them the list. */
  ghost predicate Carved(s: seq<MemNode>)
    reads s`firstAvail, s`released
  {
    && s != [] && s[|s| - 1].firstAvail >= LIST_SIZE
    && forall n :: n in s ==> n.firstAvail <= n.room && !n.released
  }

  /** A small node is in the part of a block that has been handed out, after the list;
      a large one has a memory node to itself. */
  ghost predicate Placed(h: Header, s: seq<MemNode>)
    reads h.memnode`firstAvail, h.memnode`released
  {
    && s != [] && !h.memnode.released
    && if h.size == SMALL then
         h.memnode in s && h.at + SMALL <= h.memnode.firstAvail && (h.memnode == s[|s| - 1] ==> h.at >= LIST_SIZE)
       else h.memnode !in s && h.at == 0 && SMALL < h.size <= h.memnode.room
  }

  ghost function MemOf(s: set<Header>): set<MemNode> {
    set h | h in s :: h.memnode
  }

  ghost predicate AllPlaced(hs: set<Header>, s: seq<MemNode>)
    reads MemOf(hs)`firstAvail, MemOf(hs)`released
  {
    forall h :: h in hs ==> h.memnode in MemOf(hs) && Placed(h, s)
  }

  /** A region is as large as was asked for, unless the sum with the header is not a
      number any more. */
  ghost predicate Enough(h: Header, size: nat) {
    h.size >= size + HEADER <==> size + HEADER <= SIZE_MAX
  }

  class Allocator {
    var freelist: Header?
    var blocks: MemNode
    ghost var nodes: seq<MemNode>          // the chain of blocks
    ghost var free: seq<Header>            // the chain of free nodes
    ghost var live: map<Header, nat>       // the nodes in use, with the sizes asked for

    ghost function All(): set<Header>
      reads this
    {
      live.Keys + SetOf(free)
    }

    ghost predicate Valid()
      reads this, nodes, free`next, MemOf(All())
    {
      && Carved(nodes) && Blocks(nodes) && blocks == nodes[0]
      && Chain(free) && freelist == HeaderAt(free, 0)
      && AllPlaced(All(), nodes) && AllApart(All())
      && (forall h :: h in free ==> h.size == SMALL && h !in live)
      && (forall h :: h in live ==> Enough(h, live[h]))
      && (forall h :: h in All() ==> h.list == this)
    }

    /** apr_bucket_alloc_create_ex: the list is itself at the beginning of the block. */
    constructor ()
      ensures Valid() && live == map[] && free == [] && fresh(nodes)
    {
      var block := new MemNode(ALLOC_AMT);
      freelist, blocks := null, block;
      nodes, free, live := [block], [], map[];
      new;
      block.firstAvail := LIST_SIZE;
    }

    /** The branch of apr_bucket_alloc for a node off the free list. */
    method Recycle(ghost size: nat) returns (node: Header)
      requires Valid() && freelist != null
      requires size + HEADER > SIZE_MAX || size + HEADER <= SMALL
      modifies this
      ensures Valid() && nodes == old(nodes) && free == old(free[1..]) && live == old(live)[node := size]
      ensures node == old(free[0]) && node.size == SMALL
    {
      hide Placed, Apart;
      assert free[0] == HeaderAt(free, 0) && free[0].next == HeaderAt(free, 1);
      node := freelist;
      freelist := node.next;
      ghost var all, s := All(), free;
      free := free[1..];
      live := live[node := size];
      ChainTail(s);
      assert All() == all;
    }

    /** A new block in front of the others. */
    method NewBlock()
      requires Valid()
      modifies this`blocks, this`nodes
      ensures Valid() && fresh(blocks) && nodes == [blocks] + old(nodes)
      ensures blocks.room >= ALLOC_AMT && blocks.firstAvail == 0
    {
      hide Apart, Chain, Blocks;
      var active := blocks;
      ghost var s := nodes;
      blocks := new MemNode(ALLOC_AMT);
      blocks.next := active;
      nodes := [blocks] + s;
      assert Chain(free) && Blocks(s);
      BlocksMore(s, blocks);
    }

    /** One more node in use. */
    lemma Admitted(all: set<Header>, node: Header, size: nat)
      requires Carved(nodes) && Blocks(nodes) && blocks == nodes[0] && Chain(free) && freelist == HeaderAt(free, 0)
      requires node in live && live[node] == size && all == (live.Keys - {node}) + SetOf(free)
      requires node !in all && node.list == this
      requires AllPlaced(all, nodes) && AllApart(all) && Placed(node, nodes) && forall k :: k in all ==> Apart(node, k)
      requires Enough(node, size) && (forall h :: h in live && h != node ==> Enough(h, live[h]))
      requires (forall h :: h in free ==> h.size == SMALL && h !in live) && forall h :: h in all ==> h.list == this
      ensures Valid()
    {
      hide Chain, Blocks, Carved, AllPlaced, AllApart, Apart, Enough, Placed;
      assert All() == all + {node};
      OneMore(all, node, nodes);
    }

    /** A node at the beginning of what is left of the newest block. */
    method CarveHere(ghost size: nat) returns (node: Header)
      requires Valid() && blocks.firstAvail + SMALL <= blocks.room
      requires size + HEADER > SIZE_MAX || size + HEADER <= SMALL
      modifies this`live, blocks`firstAvail
      ensures Valid() && live == old(live)[node := size] && fresh(node) && node.size == SMALL && node.memnode == blocks
    {
      hide Chain, Blocks, AllApart, Apart;
      ghost var all := All();
      node := new Header(this, blocks, blocks.firstAvail, SMALL);
      BeforeFree(all, nodes, node);
      blocks.firstAvail := blocks.firstAvail + SMALL;
      live := live[node := size];
      assert Chain(free) && Blocks(nodes);
      Admitted(all, node, size);
    }

    /** The branch that carves a node out of the newest block, or out of a new one. */
    method Carve(ghost size: nat) returns (node: Header)
      requires Valid()
      requires size + HEADER > SIZE_MAX || size + HEADER <= SMALL
      modifies this`blocks, this`nodes, this`live, nodes`firstAvail
      ensures Valid() && live == old(live)[node := size] && fresh(node) && node.size == SMALL
      ensures nodes == old(nodes) || (|nodes| > 0 && fresh(nodes[0]) && nodes[1..] == old(nodes))
    {
      if blocks.firstAvail + SMALL >= blocks.room { NewBlock(); }
      node := CarveHere(size);
    }

    /** The branch for large blocks. */
    method Large(size: nat) returns (node: Header)
      requires Valid() && SMALL < size + HEADER <= SIZE_MAX
      modifies this`live
      ensures Valid() && live == old(live)[node := size] && fresh(node)
      ensures fresh(node.memnode) && node.size == size + HEADER
    {
      hide Chain, Blocks, AllApart, Apart;
      ghost var all := All();
      var memnode := new MemNode(size + HEADER);
      node := new Header(this, memnode, memnode.firstAvail, size + HEADER);
      live := live[node := size];
      assert Chain(free) && Blocks(nodes) && Carved(nodes) && AllPlaced(all, nodes);
      OtherMemory(all, node);
      Admitted(all, node, size);
    }

    /** apr_bucket_alloc */
    method Alloc(size: nat) returns (node: Header)
      requires Valid() && size <= SIZE_MAX
      modifies this, nodes`firstAvail
      ensures Valid() && node in live && live == old(live)[node := size] && node !in old(live)
      ensures node.size - HEADER >= size <==> size + HEADER <= SIZE_MAX
      ensures node.size == if SMALL < size + HEADER <= SIZE_MAX then size + HEADER else SMALL
      ensures if node.size == SMALL && old(free) != [] then node == old(free[0]) && free == old(free[1..])
              else fresh(node) && free == old(free)
      ensures nodes == old(nodes) || (|nodes| > 0 && fresh(nodes[0]) && nodes[1..] == old(nodes))
    {
      var total := (size + HEADER) % (SIZE_MAX + 1);
      Wrapped(size);
      if total <= SMALL {
        if freelist != null { node := Recycle(size); } else { node := Carve(size); }
      } else {
        node := Large(size);
      }
    }

    /** apr_bucket_free: a small node goes on the free list, a large one goes back with
        its memory node. */
    method Free(node: Header)
      requires Valid() && node in live
      modifies this, node`next, node.memnode`released
      ensures Valid() && live == old(live) - {node} && nodes == old(nodes)
      ensures if node.size == SMALL then free == [node] + old(free) && !node.memnode.released
              else free == old(free) && node.memnode.released && node.memnode !in nodes
                   && forall h :: h in All() ==> h.memnode != node.memnode
    {
      if node.size == SMALL { Push(node); } else { Release(node); }
    }

    method Push(node: Header)
      requires Valid() && node in live && node.size == SMALL
      modifies this, node`next
      ensures Valid() && live == old(live) - {node} && nodes == old(nodes) && free == [node] + old(free)
    {
      hide Blocks, Chain, AllPlaced, AllApart;
      ghost var all, s := All(), free;
      node.next := freelist;
      freelist := node;
      free := [node] + s;
      live := live - {node};
      assert node !in s && Chain(s);
      ChainMore(s, node);
      assert All() == all;
    }

    /** apr_allocator_free: once for every memory node. */
    method Release(node: Header)
      requires Valid() && node in live && node.size != SMALL
      modifies this`live, node.memnode`released
      ensures Valid() && live == old(live) - {node} && free == old(free) && nodes == old(nodes)
      ensures node.memnode.released && node.memnode !in nodes && forall h :: h in All() ==> h.memnode != node.memnode
    {
      hide Blocks, Chain, AllApart;
      ghost var all := All();
      Alone(all, nodes, node);
      live := live - {node};
      node.memnode.released := true;
      assert All() == all - {node};
      OneLess(all, node);
      assert Blocks(nodes) && Chain(free);
    }

    /** apr_bucket_alloc_destroy: all the blocks go back, and with them every small node. */
    method Destroy()
      requires Valid()
      modifies nodes`released
      ensures forall n :: n in nodes ==> n.released
      ensures forall h :: h in All() ==> (h.memnode.released <==> h.size == SMALL)
    {
      var node: MemNode? := blocks;
      ghost var k := 0;
      while node != null
        invariant k <= |nodes| && node == NodeAt(nodes, k)
        invariant forall i :: 0 <= i < k ==> nodes[i].released
        invariant forall h :: h in All() && h.size != SMALL ==> !h.memnode.released && h.memnode !in nodes
        decreases |nodes| - k
      {
        node.released := true;
        node, k := node.next, k + 1;
      }
      assert forall h :: h in All() && h.size == SMALL ==> h.memnode in nodes;
    }

    /** The regions in use are inside their memory nodes, as large as was asked for, and
        apart from each other, from the free ones and from the list itself. */
    lemma Regions(h: Header, k: Header)
      requires Valid() && h in live && k in All() && k != h
      ensures h.memnode.released == false && h.at + h.size <= h.memnode.room
      ensures live[h] + HEADER <= SIZE_MAX ==> HEADER + live[h] <= h.size
      ensures h.memnode == k.memnode ==> h.at + h.size <= k.at || k.at + k.size <= h.at
      ensures h.memnode == nodes[|nodes| - 1] ==> h.at >= LIST_SIZE
    {
      assert Placed(h, nodes) && Apart(h, k);
    }
  }

  ghost function SetOf(s: seq<Header>): set<Header> {
    set h | h in s
  }

  lemma ChainTail(s: seq<Header>)
    requires Chain(s) && s != []
    ensures Chain(s[1..]) && HeaderAt(s[1..], 0) == HeaderAt(s, 1)
    ensures s[0] !in s[1..] && SetOf(s) == {s[0]} + SetOf(s[1..])
  {
    assert s == [s[0]] + s[1..];
    assert forall i :: 0 <= i < |s[1..]| ==> s[1..][i] == s[i + 1];
  }

  /** A sum that is too large wraps around to a small one. */
  lemma Wrapped(size: nat)
    requires size <= SIZE_MAX
    ensures (size + HEADER) % (SIZE_MAX + 1) == if size + HEADER <= SIZE_MAX then size + HEADER
      else size + HEADER - SIZE_MAX - 1
  {
    Modulo(size + HEADER, SIZE_MAX + 1);
  }

  lemma Modulo(a: nat, m: nat)
    requires a < 2 * m
    ensures a % m == if a < m then a else a - m
  {
    var q := a / m;
    assert q == 0 || q == 1;
  }

  lemma BlocksMore(s: seq<MemNode>, b: MemNode)
    requires Blocks(s) && b !in s && b.next == NodeAt(s, 0)
    ensures Blocks([b] + s)
  {
    var t := [b] + s;
    assert forall i :: 0 < i < |t| ==> t[i] == s[i - 1];
  }

  lemma ChainMore(s: seq<Header>, h: Header)
    requires Chain(s) && h !in s && h.next == HeaderAt(s, 0)
    ensures Chain([h] + s) && HeaderAt([h] + s, 0) == h && SetOf([h] + s) == {h} + SetOf(s)
  {
    var t := [h] + s;
    assert forall i :: 0 < i < |t| ==> t[i] == s[i - 1];
  }

  lemma OneMore(hs: set<Header>, h: Header, s: seq<MemNode>)
    requires AllPlaced(hs, s) && Placed(h, s) && AllApart(hs) && forall k :: k in hs ==> Apart(h, k)
    ensures AllPlaced(hs + {h}, s) && AllApart(hs + {h})
  {
    forall a, b | a in hs + {h} && b in hs + {h} && a != b ensures Apart(a, b) {
      assert a in hs && b in hs ==> Apart(a, b);
      assert a == h ==> Apart(h, b);
      assert b == h ==> Apart(h, a);
    }
  }

  lemma OneLess(hs: set<Header>, h: Header)
    requires AllApart(hs)
    ensures AllApart(hs - {h})
  {
  }

  /** Everything in a block is before what is left of it. */
  lemma BeforeFree(hs: set<Header>, s: seq<MemNode>, h: Header)
    requires AllPlaced(hs, s) && h.memnode in s && h.at == h.memnode.firstAvail
    ensures forall k :: k in hs ==> Apart(h, k)
  {
    forall k | k in hs ensures Apart(h, k) { assert Placed(k, s); }
  }

  lemma OtherMemory(hs: set<Header>, h: Header)
    requires forall k :: k in hs ==> k.memnode != h.memnode
    ensures forall k :: k in hs ==> Apart(h, k)
  {
  }

  /** A large node shares its memory node with nothing. */
  lemma Alone(hs: set<Header>, s: seq<MemNode>, h: Header)
    requires AllPlaced(hs, s) && AllApart(hs) && h in hs && h.size != SMALL
    ensures h.memnode !in s && !h.memnode.released && forall k :: k in hs && k != h ==> k.memnode != h.memnode
  {
    assert Placed(h, s);
    forall k | k in hs && k != h ensures k.memnode != h.memnode {
      assert Placed(k, s) && Apart(h, k);
    }
  }
}
