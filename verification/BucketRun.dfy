/** Runs: any sequence of operations on the buckets of a brigade. */
module BucketRun {
  import opened Buckets
  import opened Rings
  import opened BucketOps
  import opened BucketRead
  import opened BucketMake
  import opened BrigadeSpec
  import opened Brigades

  /** Buckets are made at the end of the brigade, copied to its end, split or read where
      they are, deleted at the front, or moved from the front to the end; and the pool of
      a bucket is cleaned up. */
  datatype Op =
    | MakeHeap(bytes: seq<Byte>, spare: nat)
    | MakePool(bytes: seq<Byte>)
    | MakePlain(kind: Kind, bytes: seq<Byte>)
    | MakeFile(fd: seq<Byte>, offset: nat, len: nat)
    | MakePipe(bytes: seq<Byte>)
    | Copy(i: nat)
    | Split(i: nat, point: nat)
    | Read(i: nat)
    | Delete
    | Rotate
    | CleanUp(i: nat)

  predicate Possible(op: Op) {
    match op
    case MakeHeap(bytes, spare) => |bytes| + spare < UNKNOWN
    case MakePool(bytes) => |bytes| < UNKNOWN
    case MakePlain(kind, bytes) => kind in {Immortal, Transient} && |bytes| < UNKNOWN
    case MakeFile(_, _, len) => len < UNKNOWN
    case _ => true
  }

  /** The bytes of a bucket that is made. */
  function Given(op: Op): seq<Byte> {
    match op
    case MakeHeap(bytes, _) => bytes
    case MakePool(bytes) => bytes
    case MakePlain(_, bytes) => bytes
    case MakeFile(fd, offset, len) => Clip(fd, offset, len)
    case MakePipe(bytes) => bytes
    case _ => []
  }

  /** What a step does to the stream of the brigade. */
  ghost predicate Step(op: Op, w: World, s: seq<Bucket>, w': World, s': seq<Bucket>) {
    match op
    case Copy(i) =>
      Content(w', s') == Content(w, s) +
        if i < |s| && s[i] in w.at && w.at[s[i]].kind != Pipe then Bytes(w, w.at[s[i]]) else []
    case Split(_, _) => Content(w', s') == Content(w, s)
    case Read(_) => Content(w', s') == Content(w, s)
    case CleanUp(_) => Content(w', s') == Content(w, s)
    case Delete =>
      if s == [] || s[0] !in w.at then w' == w && s' == s
      else Content(w, s) == Bytes(w, w.at[s[0]]) + Content(w', s')
    case Rotate =>
      if s == [] || s[0] !in w.at then w' == w && s' == s
      else w' == w && s' == s[1..] + [s[0]]
    case _ => Content(w', s') == Content(w, s) + Given(op)
  }

  /** The live buckets are those of the brigade. */
  ghost predicate Owned(w: World, s: seq<Bucket>) {
    w.at.Keys == SetOf(s)
  }

  /** What has become live is new, and no resource is lost. */
  twostate predicate New(w: World, new w': World) {
    && fresh(w'.at.Keys - w.at.Keys) && fresh(w'.pipes.Keys - w.pipes.Keys)
    && fresh(Made(w') - Made(w)) && Lasting(w, w')
  }

  /** The state of a run. */
  ghost predicate Running(w: World, b: Brigade)
    reads b, b.list`next, b.list`prev, b.items`next, b.items`prev
    reads w.at.Keys`v, w.res.Keys`v, w.res.Keys`registered, w.res.Keys`freed
    reads w.gone`registered, w.gone`freed, w.pipes.Keys`rest
  {
    Good(w) && b.Valid(w) && Owned(w, b.items)
  }

  /** The bucket `e` has been made. */
  ghost predicate Added(w: World, w': World, e: Bucket, bytes: seq<Byte>) {
    e !in w.at && e in w'.at && w'.at == w.at[e := w'.at[e]] && SameBytes(w, w') && Bytes(w', w'.at[e]) == bytes
  }

  /** A new bucket goes to the end of the brigade. */
  method AddTail(ghost w: World, ghost w': World, b: Brigade, e: Bucket, ghost bytes: seq<Byte>)
    requires b.Valid(w) && Owned(w, b.items) && Good(w') && Added(w, w', e, bytes) && e != b.list
    modifies b`items, b.items`next, b.items`prev, b.list`next, b.list`prev, e`next, e`prev
    ensures Running(w', b) && Content(w', b.items) == Content(w, old(b.items)) + bytes
  {
    hide Good, Ring, Added, AllLive, Content, Owned, Distinct;
    ghost var s := b.items;
    b.Open(w);
    AddedFacts(w, w', s, e, bytes, b.list);
    b.Close(w');
    b.InsertTail(w', e);
    assert Good(w');
  }

  lemma AddedFacts(w: World, w': World, s: seq<Bucket>, e: Bucket, bytes: seq<Byte>, list: Bucket)
    requires AllLive(w, s) && Owned(w, s) && Added(w, w', e, bytes) && list !in w.at && e != list
    ensures AllLive(w', s) && e in w'.at && e !in s && list !in w'.at && Owned(w', s + [e])
    ensures Content(w', s + [e]) == Content(w, s) + bytes
  {
    hide Bytes, SameBytes;
    ContentSame(w, w', s);
    ContentCat(w', s, [e]);
    ContentOne(w', e);
  }

  /** apr_bucket_heap_create, apr_bucket_pool_create and so on. */
  method MakeBucket(ghost w: World, op: Op) returns (e: Bucket, ghost w': World)
    requires Good(w) && Possible(op) && !op.Copy? && !op.Split?
    requires !op.Read? && !op.Delete? && !op.Rotate? && !op.CleanUp?
    ensures Good(w') && fresh(e) && Added(w, w', e, Given(op)) && New(w, w')
  {
    hide Good, Bytes, SameBytes, FirstMade, HeapMade, Within, WithFirst;
    e := new Bucket(Slice(Metadata, 0, 0, NoData));
    ghost var n: set<object> := {};
    match op {
      case MakeHeap(bytes, spare) =>
        w', n := HeapMake(w, e, bytes + seq(spare, _ => 0), |bytes|);
        WithinOpen(w, w', n + {e});
        HeapAdded(w, w', e, bytes, spare);
      case MakePool(bytes) =>
        w' := PoolMake(w, e, bytes);
        FirstAdded(w, w', e, e.v, Resource(1, [], true, bytes), bytes);
      case MakePlain(kind, bytes) =>
        w' := PlainMake(w, e, kind, bytes);
      case MakeFile(fd, offset, len) =>
        w' := FileMake(w, e, fd, offset, len);
        FirstAdded(w, w', e, e.v, Resource(1, [], false, []), Clip(fd, offset, len));
      case MakePipe(bytes) =>
        var p := new PipeEnd(bytes);
        PipeUnused(w, p);
        w' := PipeMake(w, e, p);
    }
  }

  lemma HeapAdded(w: World, w': World, e: Bucket, bytes: seq<Byte>, spare: nat)
    requires HeapMade(w, w', e, bytes + seq(spare, _ => 0), |bytes|) && SameBytes(w, w') && e !in w.at
    ensures Added(w, w', e, bytes)
  {
    hide Bytes, SameBytes;
    assert (bytes + seq(spare, _ => 0))[..|bytes|] == bytes;
  }

  lemma FirstAdded(w: World, w': World, e: Bucket, s: Slice, v: Resource, bytes: seq<Byte>)
    requires FirstMade(w, w', e, s, v) && SameBytes(w, w') && e !in w.at && Bytes(w', s) == bytes
    ensures Added(w, w', e, bytes) && w'.res.Keys == w.res.Keys + {s.data.r} && w'.pipes == w.pipes && w'.gone == w.gone
  {
    hide Bytes, SameBytes;
  }

  lemma PipeUnused(w: World, p: PipeEnd)
    requires Good(w) && p !in w.pipes
    ensures forall x :: x in w.at ==> w.at[x].data != End(p)
  {
    hide Sound;
    forall x | x in w.at ensures w.at[x].data != End(p) { Refers(w, x); }
  }

  method Make(ghost w: World, b: Brigade, op: Op) returns (ghost w': World)
    requires Running(w, b) && Possible(op) && !op.Copy? && !op.Split?
    requires !op.Read? && !op.Delete? && !op.Rotate? && !op.CleanUp?
    modifies b`items, b.items`next, b.items`prev, b.list`next, b.list`prev
    ensures Running(w', b) && New(w, w') && Step(op, w, old(b.items), w', b.items)
  {
    hide Good, Ring, Content, Owned, Added, Possible, Given;
    ghost var r := [b.list] + b.items;
    var e;
    b.Open(w);
    e, w' := MakeBucket(w, op);
    assert Ring(r);
    b.Close(w);
    AddTail(w, w', b, e, Given(op));
  }

  /** The bucket at a position. */
  method Nth(ghost w: World, b: Brigade, i: nat) returns (e: Bucket?)
    requires Running(w, b)
    ensures e == if i < |b.items| then b.items[i] else null
  {
    b.Links(w, 0);
    var k, x := 0, b.list.next;
    while k < i && x != b.list
      invariant k <= i && k <= |b.items| && x == b.Nth(k)
    {
      b.Links(w, k);
      x, k := x.next, k + 1;
    }
    b.Links(w, k);
    e := if x == b.list then null else x;
  }

  lemma GrownOwned(w: World, w': World, s: seq<Bucket>, i: nat, c: Bucket)
    requires i < |s| && Owned(w, s) && w'.at.Keys == w.at.Keys + {c}
    ensures Owned(w', Grown(s, i, c))
  {
    assert forall b :: b in s || b == c <==> b in Grown(s, i, c);
  }

  lemma SameStream(w: World, w': World, s: seq<Bucket>, s': seq<Bucket>, i: nat)
    requires Stepped(w, w', s, s', i)
    ensures Content(w', s') == Content(w, s)
  {
    hide Content, Lengths, Untouched, Fresh;
  }

  method SplitAt(ghost w: World, b: Brigade, i: nat, point: nat) returns (ghost w': World)
    requires Running(w, b)
    modifies b`items, b.items, w.res.Keys, w.pipes.Keys, b.list`next, b.list`prev
    ensures Running(w', b) && New(w, w') && Step(Op.Split(i, point), w, old(b.items), w', b.items)
  {
    hide Good, Content, Owned, Stepped, Within, SplitStatus, Shortened, Brigade.Valid, Grown;
    w' := w;
    ghost var s := b.items;
    var e := Nth(w, b, i);
    if e == null { return; }
    var rv;
    ghost var c, n;
    rv, c, w', n := b.SplitItem(w, e, i, point);
    WithinOpen(w, w', n);
    if rv == Success {
      GrownOwned(w, w', s, i, c);
      SameStream(w, w', s, b.items, i);
    }
  }

  method ReadAt(ghost w: World, b: Brigade, i: nat) returns (ghost w': World)
    requires Running(w, b)
    modifies b`items, b.items, w.res.Keys, w.pipes.Keys, b.list`next, b.list`prev
    ensures Running(w', b) && New(w, w') && Step(Op.Read(i), w, old(b.items), w', b.items)
  {
    hide Good, Content, Owned, Stepped, Brigade.Valid;
    w' := w;
    var e := Nth(w, b, i);
    if e == null { return; }
    w' := ReadIt(w, b, e, i);
  }

  method ReadIt(ghost w: World, b: Brigade, e: Bucket, ghost i: nat) returns (ghost w': World)
    requires Running(w, b) && i < |b.items| && e == b.items[i]
    modifies b`items, b.items, w.res.Keys, w.pipes.Keys, b.list`next, b.list`prev
    ensures Running(w', b) && New(w, w') && Step(Op.Read(i), w, old(b.items), w', b.items)
  {
    hide Good, Content, Owned, Stepped, Within, ReadTo, InHand, Brigade.Valid, Grown;
    ghost var s := b.items;
    var rv, str;
    ghost var c, io, n;
    rv, str, c, io, w', n := b.ReadItem(w, e, i);
    WithinOpen(w, w', n);
    ReadConserves(w, w', e, c, rv, str);
    GrownOwned(w, w', s, i, c);
    SameStream(w, w', s, b.items, i);
  }

  lemma CopyAdded(w: World, w': World, a: Bucket, c: Bucket)
    requires a in w.at && c !in w.at && SameBytes(w, w') && (w.at[a].data.Res? ==> w.at[a].data.r in w.res)
    requires w' == With(w, c, w.at[a])
    ensures Added(w, w', c, Bytes(w, w.at[a])) && w'.res.Keys == w.res.Keys && w'.pipes == w.pipes && w'.gone == w.gone
  {
    hide Bytes, Memory;
    WithFacts(w, c, w.at[a]);
  }

  /** apr_bucket_copy, and APR_BRIGADE_INSERT_TAIL. */
  method CopyAt(ghost w: World, b: Brigade, i: nat) returns (ghost w': World)
    requires Running(w, b)
    modifies b`items, b.items`next, b.items`prev, w.res.Keys, b.list`next, b.list`prev
    ensures Running(w', b) && New(w, w') && Step(Op.Copy(i), w, old(b.items), w', b.items)
  {
    hide Good, Brigade.Valid, Content, Owned, Bytes;
    w' := w;
    var e := Nth(w, b, i);
    if e == null { return; }
    RunningOpen(w, b);
    w' := CopyTail(w, b, e);
  }

  method CopyTail(ghost w: World, b: Brigade, e: Bucket) returns (ghost w': World)
    requires Running(w, b) && e in w.at
    modifies b`items, b.items`next, b.items`prev, w.res.Keys, b.list`next, b.list`prev
    ensures Running(w', b) && New(w, w')
    ensures Content(w', b.items) == Content(w, old(b.items)) + if w.at[e].kind == Pipe then [] else Bytes(w, w.at[e])
  {
    hide Good, Ring, Content, Owned, Bytes, SameBytes, Added, With, Distinct, AllLive;
    ghost var r := [b.list] + b.items;
    b.Open(w);
    Refers(w, e);
    var rv, c;
    rv, c, w' := BucketOps.Copy(w, e);
    if rv == Success {
      CopyAdded(w, w', e, c);
      assert Ring(r);
      b.Close(w);
      AddedNew(w, w', c, Bytes(w, w.at[e]));
      AddTail(w, w', b, c, Bytes(w, w.at[e]));
    }
  }

  lemma AddedNew(w: World, w': World, e: Bucket, bytes: seq<Byte>)
    requires Added(w, w', e, bytes)
    ensures w'.at.Keys == w.at.Keys + {e}
  {
    hide Bytes, SameBytes;
  }

  lemma DeletedStream(w: World, w': World, s: seq<Bucket>)
    requires s != [] && AllLive(w, s) && Distinct(s) && Owned(w, s) && w'.at == w.at - {s[0]} && SameBytes(w, w')
    ensures Content(w, s) == Bytes(w, w.at[s[0]]) + Content(w', s[1..]) && Owned(w', s[1..])
  {
    hide Bytes, SameBytes;
    assert s == [s[0]] + s[1..];
    assert s[0] !in s[1..];
    ContentCat(w, [s[0]], s[1..]);
    ContentOne(w, s[0]);
    ContentSame(w, w', s[1..]);
    assert SetOf(s[1..]) == SetOf(s) - {s[0]};
  }

  /** apr_bucket_delete */
  method DeleteIt(ghost w: World, b: Brigade) returns (ghost w': World)
    requires Running(w, b)
    modifies b`items, b.items`next, b.items`prev, w.res.Keys, b.list`next, b.list`prev
    ensures Running(w', b) && New(w, w') && Step(Op.Delete, w, old(b.items), w', b.items)
  {
    hide Good, Ring, Content, Owned, Bytes, SameBytes, Within, Distinct;
    w' := w;
    ghost var s := b.items;
    b.Links(w, 0);
    b.Open(w);
    if b.list.next != b.list {
      w' := b.DeleteFirst(w);
      WithinOpen(w, w', {});
      DeletedStream(w, w', s);
    }
  }

  lemma RotatedOwned(w: World, s: seq<Bucket>)
    requires s != [] && Owned(w, s)
    ensures Owned(w, s[1..] + [s[0]])
  {
    assert s == [s[0]] + s[1..];
  }

  method RotateIt(ghost w: World, b: Brigade)
    requires Running(w, b)
    modifies b`items, b.items`next, b.items`prev, b.list`next, b.list`prev
    ensures Running(w, b) && Step(Rotate, w, old(b.items), w, b.items)
  {
    hide Good, Ring, Content, Owned, Bytes, Distinct;
    ghost var s := b.items;
    b.Links(w, 0);
    b.Open(w);
    if b.list.next != b.list {
      RotatedOwned(w, s);
      b.First(w);
      var e := b.RemoveFirst(w);
      b.InsertTail(w, e);
      assert Good(w);
    }
  }

  /** Cleanups are registered for exactly the data that is in a pool. */
  lemma InPool(w: World, e: Bucket)
    requires Good(w) && e in w.at
    ensures e.v == w.at[e]
    ensures e.v.data.Res? ==>
      e.v.data.r in w.res && (e.v.data.r in w.registered <==> e.v.data.r.form == Pool && e.v.data.r.v.pool)
  {
    Refers(w, e);
    if e.v.data.Res? { assert Buckets.Kept(w, e.v.data.r); }
  }

  lemma CleanedStream(w: World, w': World, s: seq<Bucket>, r: Shared)
    requires AllLive(w, s) && Owned(w, s) && SameBytes(w, w') && r in w.res && w' == Changed(w, r, Cleaned(w.res[r]))
    ensures AllLive(w', s) && Owned(w', s) && Content(w', s) == Content(w, s) && w'.at == w.at && w'.pipes == w.pipes
    ensures w'.res.Keys == w.res.Keys && w'.gone == w.gone
  {
    hide SameBytes;
    ContentSame(w, w', s);
  }

  /** The pool of a bucket goes away. */
  method CleanUpAt(ghost w: World, b: Brigade, i: nat) returns (ghost w': World)
    requires Running(w, b)
    modifies w.res.Keys
    ensures Running(w', b) && New(w, w') && Step(CleanUp(i), w, b.items, w', b.items)
  {
    hide Good, Ring, Content, Owned, SameBytes, Changed, Distinct;
    w' := w;
    ghost var r := [b.list] + b.items;
    b.Open(w);
    var e := Nth(w, b, i);
    if e == null { return; }
    InPool(w, e);
    if e.v.data.Res? {
      var p := e.v.data.r;
      if p.form == Pool && p.v.pool {
        w' := PoolCleanup(w, p);
        assert Ring(r);
        CleanedStream(w, w', b.items, p);
        b.Close(w');
      }
    }
  }

  method Do(ghost w: World, b: Brigade, op: Op) returns (ghost w': World)
    requires Running(w, b) && Possible(op)
    modifies b`items, b.items, w.res.Keys, w.pipes.Keys, b.list`next, b.list`prev
    ensures Running(w', b) && New(w, w') && Step(op, w, old(b.items), w', b.items)
  {
    hide Running, Step, Possible;
    match op {
      case Copy(i) => w' := CopyAt(w, b, i);
      case Split(i, point) => w' := SplitAt(w, b, i, point);
      case Read(i) => w' := ReadAt(w, b, i);
      case Delete => w' := DeleteIt(w, b);
      case Rotate => RotateIt(w, b); w' := w;
      case CleanUp(i) => w' := CleanUpAt(w, b, i);
      case _ => w' := Make(w, b, op);
    }
  }

  const EMPTY := World(map[], map[], map[], {}, {})

  /** A state in the history of a run. */
  datatype State = State(w: World, s: seq<Bucket>)

  ghost predicate History(script: seq<Op>, h: seq<State>) {
    && |h| == |script| + 1 && h[0] == State(EMPTY, [])
    && (forall k :: 0 <= k < |h| ==> Sound(h[k].w) && Owned(h[k].w, h[k].s))
    && forall k :: 0 <= k < |script| ==> Stepping(script, h, k)
  }

  ghost predicate Stepping(script: seq<Op>, h: seq<State>, k: nat)
    requires k < |script| && |h| > k + 1
  {
    Step(script[k], h[k].w, h[k].s, h[k + 1].w, h[k + 1].s) && Lasting(h[k].w, h[k + 1].w)
  }

  lemma SomeUser(w: World, r: Shared)
    requires Sound(w) && r in w.res
    ensures exists b :: b in w.at && w.at[b].data == Res(r)
  {
    assert Buckets.Kept(w, r);
    var b :| b in Users(w, r);
  }

  /** Without buckets there are no resources. */
  lemma NothingLeft(w: World)
    requires Sound(w) && w.at == map[]
    ensures w.res == map[] && w.registered == {}
  {
    if w.res != map[] {
      var r :| r in w.res;
      SomeUser(w, r);
      assert false;
    }
  }

  lemma HistoryMore(script: seq<Op>, h: seq<State>, w: World, s: seq<Bucket>)
    requires |h| >= 1 && |h| <= |script| && History(script[..|h| - 1], h) && Sound(w) && Owned(w, s)
    requires Step(script[|h| - 1], h[|h| - 1].w, h[|h| - 1].s, w, s) && Lasting(h[|h| - 1].w, w)
    ensures History(script[..|h|], h + [State(w, s)])
  {
    hide Step, Sound, Owned;
    var k, h' := |h| - 1, h + [State(w, s)];
    var p, p' := script[..k], script[..k + 1];
    forall i | 0 <= i < |p'| ensures Stepping(p', h', i) {
      if i < k { assert Stepping(p, h, i); }
    }
  }

  lemma HistoryBegins(b: Brigade)
    requires b.items == [] && b.Valid(EMPTY)
    ensures Running(EMPTY, b) && History([], [State(EMPTY, [])]) && AllMade([State(EMPTY, [])], EMPTY)
  {
  }

  /** The end of a run. */
  method Finish(ghost w: World, b: Brigade) returns (ghost w': World)
    requires Running(w, b)
    modifies b`items, b.items`next, b.items`prev, w.res.Keys, b.list`next, b.list`prev
    ensures Good(w') && w'.at == map[] && w'.res == map[] && w'.registered == {} && Lasting(w, w')
  {
    hide Sound, Shows, Brigade.Valid, SameBytes;
    ghost var s, none: set<object> := b.items, {};
    w' := b.Cleanup(w);
    WithinOpen(w, w', none);
    assert w'.at.Keys == {};
    NothingLeft(w');
  }

  /** The resources of every state are among those of `w`. */
  ghost predicate AllMade(h: seq<State>, w: World) {
    forall k, r :: 0 <= k < |h| && r in h[k].w.res ==> r in Made(w)
  }

  /** Any run: in every state each resource is counted exactly by its buckets, each step
      does to the stream what it says, what is freed stays so, and in the end, when the
      brigade has been cleaned up, every resource that has ever been live is freed, and
      no cleanup is registered. */
  method Run(script: seq<Op>) returns (ghost h: seq<State>, ghost w: World)
    requires forall k :: 0 <= k < |script| ==> Possible(script[k])
    ensures History(script, h) && Good(w) && w.at == map[] && w.res == map[]
    ensures AllMade(h, w) && forall r :: r in Made(w) ==> r.freed && !r.registered
  {
    hide Running, History, Possible, Step, AllMade;
    w := EMPTY;
    var b := new Brigade(w);
    HistoryBegins(b);
    h := [State(w, [])];
    var k := 0;
    assert script[..0] == [];
    while k < |script|
      invariant k <= |script| && Running(w, b) && fresh(b) && fresh(b.list) && New(EMPTY, w)
      invariant |h| == k + 1 && h[k] == State(w, b.items) && History(script[..k], h) && AllMade(h, w)
    {
      RunningOpen(w, b);
      ghost var w1 := w;
      w := Do(w1, b, script[k]);
      RunningOpen(w, b);
      HistoryMore(script, h, w, b.items);
      AllMadeMore(h, w1, w, b.items);
      h := h + [State(w, b.items)];
      k := k + 1;
    }
    assert script[..k] == script;
    RunningOpen(w, b);
    ghost var w1 := w;
    w := Finish(w1, b);
    AllMadeStill(h, w1, w);
  }

  lemma AllMadeMore(h: seq<State>, w: World, w': World, s: seq<Bucket>)
    requires AllMade(h, w) && Lasting(w, w')
    ensures AllMade(h + [State(w', s)], w')
  {
  }

  lemma AllMadeStill(h: seq<State>, w: World, w': World)
    requires AllMade(h, w) && Lasting(w, w')
    ensures AllMade(h, w')
  {
  }

  lemma RunningOpen(w: World, b: Brigade)
    requires Running(w, b)
    ensures Sound(w) && Owned(w, b.items) && forall i :: 0 <= i < |b.items| ==> b.items[i] in w.at
  {
  }
}
