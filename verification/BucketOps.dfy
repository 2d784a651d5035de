/** The functions of the bucket types, on the live objects that a world shows. A bucket
that is split off or read out of another one is linked into the ring `s` in which the
other is element `i`. */
module BucketOps {
  import opened Buckets
  import opened Rings

  function ResOf(b: Bucket): set<Shared>
    reads b`v
  {
    if b.v.data.Res? then {b.v.data.r} else {}
  }

  function EndOf(b: Bucket): set<PipeEnd>
    reads b`v
  {
    if b.v.data.End? then {b.v.data.p} else {}
  }

  ghost predicate Good(w: World)
    reads w.at.Keys`v, w.res.Keys`v, w.res.Keys`registered, w.res.Keys`freed
    reads w.gone`registered, w.gone`freed, w.pipes.Keys`rest
  {
    Shows(w) && Sound(w)
  }

  lemma Shown(w: World, e: Bucket)
    requires Good(w) && e in w.at
    ensures e.v == w.at[e]
  {
  }

  /** The resources that are, or have been, live. */
  function Made(w: World): set<Shared> {
    w.res.Keys + w.gone
  }

  ghost predicate SameRegistry(w: World, w': World) {
    w'.registered == w.registered && w'.gone == w.gone
  }

  /** No resource is lost: one that is not live any more is gone, for ever. */
  ghost predicate Lasting(w: World, w': World) {
    Made(w) <= Made(w') && w.gone <= w'.gone
  }

  /** A resource is gone exactly when no bucket points to it. */
  lemma GoneUnused(w: World, r: Shared)
    requires Sound(w) && r in Made(w)
    ensures r in w.gone <==> Users(w, r) == {}
  {
    if r in w.res {
      CountInSound(w, r);
    } else {
      NoUsers(w, r);
    }
  }

  /** What has become live since `w` is among `n`. */
  ghost predicate Within(w: World, w': World, n: set<object>) {
    && (forall b :: b in w'.at ==> b in w.at || b in n)
    && (forall r :: r in w'.res ==> r in w.res || r in n)
    && w'.pipes.Keys == w.pipes.Keys
    && Lasting(w, w') && forall r :: r in w'.gone ==> r in Made(w) || r in n
  }

  lemma WithinNothing(w: World)
    ensures Within(w, w, {})
  {
  }

  lemma WithinStep(w: World, w1: World, w': World, n: set<object>, n': set<object>)
    requires Within(w, w1, n) && Within(w1, w', n')
    ensures Within(w, w', n + n')
  {
  }

  /** apr_bucket_simple_copy */
  method SimpleCopy(a: Bucket) returns (b: Bucket)
    ensures fresh(b) && b.v == a.v && b.next == a.next && b.prev == a.prev
  {
    b := new Bucket(a.v);
    b.next, b.prev := a.next, a.prev;
  }

  /** The world with one more bucket like those that are there. */
  ghost function With(w: World, b: Bucket, s: Slice): World
    requires s.data.Res? ==> s.data.r in w.res
  {
    if s.data.Res? then WithUser(w, b, s) else WithPlain(w, b, s)
  }

  lemma WithSound(w: World, b: Bucket, s: Slice)
    requires Sound(w) && b !in w.at && Fits(w, s) && !s.data.End?
    ensures s.data.Res? ==> s.data.r in w.res
    ensures Sound(With(w, b, s)) && SameBytes(w, With(w, b, s))
  {
    hide Sound, Fits, SameBytes;
    FitsRefers(w, s);
    if s.data.Res? { WithUserSound(w, b, s); } else { WithPlainSound(w, b, s); }
  }

  /** r->refcount++ where the bucket has a resource */
  method Register(ghost w: World, b: Bucket) returns (ghost w': World)
    requires Good(w) && b !in w.at && Fits(w, b.v) && !b.v.data.End?
    modifies ResOf(b)`v
    ensures Good(w') && SameBytes(w, w')
    ensures (b.v.data.Res? ==> b.v.data.r in w.res) && w' == With(w, b, b.v)
  {
    hide Sound, Fits, SameBytes;
    WithSound(w, b, b.v);
    w' := With(w, b, b.v);
    if b.v.data.Res? { var r := b.v.data.r; r.v := r.v.(refcount := r.v.refcount + 1); }
  }

  /** apr_bucket_shared_copy, apr_bucket_simple_copy, apr_bucket_copy_notimpl */
  method Copy(ghost w: World, a: Bucket) returns (rv: Status, c: Bucket?, ghost w': World)
    requires Good(w) && a in w.at
    modifies ResOf(a)`v
    ensures Good(w') && SameBytes(w, w')
    ensures if a.v.kind == Pipe then rv == NotImplemented && c == null && w' == w
            else rv == Success && c != null && fresh(c) && c.v == a.v
                 && (a.v.data.Res? ==> a.v.data.r in w.res) && w' == With(w, c, w.at[a])
  {
    hide Sound, Fits;
    InSound(w, a);
    if a.v.kind == Pipe { return NotImplemented, null, w; }
    c := SimpleCopy(a);
    w' := Register(w, c);
    rv := Success;
  }

  /** apr_bucket_shared_destroy: whether the last bucket has gone. */
  method SharedDestroy(r: Shared) returns (last: bool)
    requires r.v.refcount > 0
    modifies r`v
    ensures r.v == old(r.v).(refcount := old(r.v.refcount) - 1) && (last <==> r.v.refcount == 0)
  {
    r.v := r.v.(refcount := r.v.refcount - 1);
    last := r.v.refcount == 0;
  }

  /** The structure, and the memory of a heap bucket, go back to the allocator: once. */
  method Free(r: Shared)
    requires !r.freed
    modifies r`freed
    ensures r.freed
  {
    r.freed := true;
  }

  /** apr_pool_cleanup_kill */
  method CleanupKill(p: Shared)
    modifies p`registered
    ensures !p.registered
  {
    p.registered := false;
  }

  /** heap_bucket_destroy and file_bucket_destroy */
  method HeapDestroy(h: Shared)
    requires h.v.refcount > 0 && !h.freed
    modifies h`v, h`freed
    ensures h.v == old(h.v).(refcount := old(h.v.refcount) - 1) && (h.freed <==> h.v.refcount == 0)
  {
    var last := SharedDestroy(h);
    if last { Free(h); }
  }

  /** pool_bucket_destroy: the cleanup is killed when the data is still in the pool;
      otherwise heap_bucket_destroy takes over. */
  method PoolDestroy(p: Shared)
    requires p.v.refcount > 0 && !p.freed
    modifies p`v, p`registered, p`freed
    ensures p.v == old(p.v).(refcount := old(p.v.refcount) - 1) && (p.freed <==> p.v.refcount == 0)
    ensures p.registered == if p.freed && p.v.pool then false else old(p.registered)
  {
    if p.v.pool {
      var last := SharedDestroy(p);
      if last {
        CleanupKill(p);
        Free(p);
      }
    } else {
      HeapDestroy(p);
    }
  }

  /** The destroy function of the type of a bucket: the resource is freed, and its
      cleanup killed, exactly when its last bucket goes. */
  method DestroyData(kind: Kind, r: Shared)
    requires r.v.refcount > 0 && !r.freed && (r.registered ==> kind == Pool && r.v.pool)
    modifies r`v, r`registered, r`freed
    ensures r.v == old(r.v).(refcount := old(r.v.refcount) - 1) && (r.freed <==> r.v.refcount == 0)
    ensures r.registered <==> old(r.registered) && !r.freed
  {
    if kind == Pool { PoolDestroy(r); } else { HeapDestroy(r); }
  }

  /** apr_bucket_destroy */
  method Destroy(ghost w: World, b: Bucket) returns (ghost w': World)
    requires Good(w) && b in w.at
    modifies ResOf(b)`v, ResOf(b)`registered, ResOf(b)`freed
    ensures w.at[b].data.Res? ==> w.at[b].data.r in w.res && w.res[w.at[b].data.r].refcount > 0
    ensures Good(w') && SameBytes(w, w') && w' == Without(w, b)
    ensures b.v.data.Res? ==> (b.v.data.r.freed <==> |Users(w, b.v.data.r)| == 1)
  {
    hide Sound, Fits, SameBytes;
    InSound(w, b);
    WithoutSound(w, b);
    w' := Without(w, b);
    if b.v.data.Res? {
      CountInSound(w, b.v.data.r);
      RegisteredInSound(w, b);
      DestroyData(b.v.kind, b.v.data.r);
    }
  }

  /** A cleanup is registered only for data in a pool, to which pool buckets point; and
      what is live is not gone. */
  lemma RegisteredInSound(w: World, b: Bucket)
    requires Sound(w) && b in w.at
    ensures w.at[b].data.Res? ==>
      var r := w.at[b].data.r;
      r in w.res && r !in w.gone && (r in w.registered ==> w.at[b].kind == Pool && w.res[r].pool)
  {
    InSound(w, b);
    if w.at[b].data.Res? { assert Buckets.Kept(w, w.at[b].data.r); }
  }

  lemma CountInSound(w: World, r: Shared)
    requires Sound(w) && r in w.res
    ensures w.res[r].refcount == |Users(w, r)| > 0
  {
  }

  /** The ring with a bucket linked in after element `i`. */
  function After(s: seq<Bucket>, i: nat, b: Bucket): seq<Bucket>
    requires i < |s|
  {
    s[..i + 1] + [b] + s[i + 1..]
  }

  /** APR_BUCKET_INSERT_AFTER */
  method InsertAfter(a: Bucket, b: Bucket, ghost s: seq<Bucket>, ghost i: nat)
    requires Ring(s) && i < |s| && s[i] == a && b !in s
    modifies s`next, s`prev, b`next, b`prev
    ensures Ring(After(s, i, b))
  {
    SpliceAfter(a, b, b, s, i + 1, [b]);
  }

  /** b->length = length */
  method Resize(ghost w: World, b: Bucket, length: nat) returns (ghost w': World)
    requires Shows(w) && b in w.at
    modifies b`v
    ensures Shows(w') && w' == Resliced(w, b, w.at[b].(length := length)) && b.v == w'.at[b]
  {
    b.v := b.v.(length := length);
    w' := Resliced(w, b, w.at[b].(length := length));
  }

  function Latter(s: Slice, point: nat): Slice
    requires point <= s.length
  {
    s.(start := s.start + point, length := s.length - point)
  }

  /** apr_bucket_simple_split */
  method SimpleSplit(ghost w: World, a: Bucket, point: nat, ghost s: seq<Bucket>, ghost i: nat)
    returns (rv: Status, b: Bucket, ghost w': World)
    requires Shows(w) && a in w.at && Ring(s) && i < |s| && s[i] == a
    modifies a`v, s`next, s`prev
    ensures Shows(w')
    ensures if point > w.at[a].length then rv == Invalid && w' == w && Ring(s)
            else rv == Success && fresh(b) && Ring(After(s, i, b)) && b.v == Latter(w.at[a], point)
                 && w' == Resliced(w, a, w.at[a].(length := point))
  {
    hide Ring, Shows;
    ShownSlice(w, a);
    if point > a.v.length { return Invalid, a, w; }
    b, w' := Part(w, a, point);
    assert b !in s && Ring(s) && Shows(w');
    InsertAfter(a, b, s, i);
    assert Shows(w');
    rv := Success;
  }

  /** The statements of apr_bucket_simple_split that set the fields. */
  method Part(ghost w: World, a: Bucket, point: nat) returns (b: Bucket, ghost w': World)
    requires Shows(w) && a in w.at && point <= w.at[a].length
    modifies a`v
    ensures Shows(w') && w' == Resliced(w, a, w.at[a].(length := point))
    ensures fresh(b) && b.v == Latter(w.at[a], point)
  {
    hide Shows;
    ShownSlice(w, a);
    b := SimpleCopy(a);
    w' := Resize(w, a, point);
    b.v := b.v.(length := b.v.length - point, start := b.v.start + point);
  }

  lemma ShownSlice(w: World, b: Bucket)
    requires Shows(w) && b in w.at
    ensures b.v == w.at[b]
  {
  }

  /** A slice of a file does not go beyond its end. */
  predicate Inside(s: Slice) {
    s.kind == File && s.data.Res? ==> s.start + s.length <= |s.data.r.fd|
  }

  /** `b` divided in two. */
  ghost predicate Divided(w: World, w': World, b: Bucket, c: Bucket) {
    && b in w.at && b in w'.at && c !in w.at && c in w'.at && SameBytes(w, w')
    && w'.at == w.at[b := w'.at[b]][c := w'.at[c]]
    && Bytes(w', w'.at[b]) + Bytes(w', w'.at[c]) == Bytes(w, w.at[b])
    && (Inside(w.at[b]) ==> Inside(w'.at[b]) && Inside(w'.at[c]))
  }

  lemma ClipSplit(m: seq<Byte>, start: int, length: nat, point: nat)
    requires start >= 0 && point <= length
    ensures Clip(m, start, length) == Clip(m, start, point) + Clip(m, start + point, length - point)
  {
  }

  /** apr_bucket_shared_split, apr_bucket_simple_split, apr_bucket_split_notimpl: two
      buckets with the bytes of one. */
  method Split(ghost w: World, a: Bucket, point: nat, ghost s: seq<Bucket>, ghost i: nat)
    returns (rv: Status, ghost c: Bucket, ghost w': World)
    requires Good(w) && a in w.at && Ring(s) && i < |s| && s[i] == a
    modifies a`v, ResOf(a)`v, s`next, s`prev
    ensures Good(w') && rv == SplitStatus(w.at[a], point)
    ensures rv == NotImplemented <==> w.at[a].kind in {Pipe, Metadata}
    ensures rv == Success <==> w.at[a].kind !in {Pipe, Metadata} && point <= w.at[a].length
    ensures rv in {Success, NotImplemented, Invalid}
    ensures if rv == Success then fresh(c) && Ring(After(s, i, c)) && SplitTo(w, w', a, c, point)
      else w' == w && Ring(s)
  {
    hide Sound, Fits, Ring, Clip, Shows, SameBytes, Bytes, After, With, SplitTo;
    ShownSlice(w, a);
    c, w' := a, w;
    if a.v.kind in {Pipe, Metadata} { return NotImplemented, c, w'; }
    var b;
    rv, b, w' := SimpleSplit(w, a, point, s, i);
    if rv != Success { return; }
    SplitSound(w, a, point);
    ghost var w1 := w';
    ghost var ring := After(s, i, b);
    assert Ring(ring);
    w' := Register(w1, b);
    assert Ring(ring);
    SplitBytes(w, w1, w', a, b, point);
    c := b;
  }

  function SplitStatus(s: Slice, point: nat): Status {
    if s.kind in {Pipe, Metadata} then NotImplemented else if point > s.length then Invalid else Success
  }

  ghost predicate SplitTo(w: World, w': World, a: Bucket, c: Bucket, point: nat) {
    && Divided(w, w', a, c) && w'.pipes == w.pipes && w'.res.Keys == w.res.Keys && SameRegistry(w, w')
    && point <= w.at[a].length
    && w'.at[a] == w.at[a].(length := point)
    && w'.at[c] == Latter(w.at[a], point)
  }

  lemma SplitSound(w: World, a: Bucket, point: nat)
    requires Sound(w) && a in w.at && w.at[a].kind !in {Pipe, Metadata} && point <= w.at[a].length
    ensures var x := w.at[a].(length := point);
            var y := Latter(w.at[a], point);
            && Sound(Resliced(w, a, x)) && SameBytes(w, Resliced(w, a, x))
            && Fits(Resliced(w, a, x), y) && !y.data.End?
  {
    hide Sound, SameBytes, Fits;
    var x := w.at[a].(length := point);
    InSound(w, a);
    FitsParts(w, w.at[a], point);
    ReslicedSound(w, a, x);
    FitsRefers(w, w.at[a]);
    FitsStill(w, Resliced(w, a, x), Latter(w.at[a], point));
  }

  lemma FitsParts(w: World, s: Slice, point: nat)
    requires Fits(w, s) && s.kind !in {Pipe, Metadata} && point <= s.length
    ensures Fits(w, s.(length := point)) && Fits(w, Latter(s, point)) && !s.data.End?
  {
  }

  lemma SplitBytes(w: World, w1: World, w': World, a: Bucket, c: Bucket, point: nat)
    requires Sound(w) && a in w.at && w.at[a].kind !in {Pipe, Metadata} && point <= w.at[a].length
    requires w1 == Resliced(w, a, w.at[a].(length := point)) && SameBytes(w, w1) && SameBytes(w1, w')
    requires c !in w.at
    requires var y := Latter(w.at[a], point);
             (y.data.Res? ==> y.data.r in w.res) && w' == With(w1, c, y)
    ensures SplitTo(w, w', a, c, point)
  {
    hide SameBytes, Bytes, Sound, Fits, With, Memory;
    var s := w.at[a];
    var x, y := s.(length := point), Latter(s, point);
    InSound(w, a);
    WithFacts(w1, c, y);
    BytesSplit(w, s, point);
    assert w'.at[a] == x && w'.at[c] == y;
    BytesStill(w, w', x);
    BytesStill(w, w', y);
    SameBytesStep(w, w1, w');
  }

  lemma WithFacts(w: World, b: Bucket, s: Slice)
    requires s.data.Res? ==> s.data.r in w.res
    ensures With(w, b, s).at == w.at[b := s] && With(w, b, s).pipes == w.pipes && With(w, b, s).res.Keys == w.res.Keys
    ensures SameRegistry(w, With(w, b, s))
    ensures forall r :: r in w.res ==> Memory(r, With(w, b, s).res[r]) == Memory(r, w.res[r])
    ensures forall r :: r in w.res ==> With(w, b, s).res[r].pool == w.res[r].pool
  {
  }

  lemma BytesSplit(w: World, s: Slice, point: nat)
    requires Fits(w, s) && s.kind !in {Pipe, Metadata} && point <= s.length
    ensures var x, y := s.(length := point), Latter(s, point);
            Bytes(w, x) + Bytes(w, y) == Bytes(w, s)
  {
    hide Clip;
    if s.data.Res? {
      ClipSplit(Memory(s.data.r, w.res[s.data.r]), s.start, s.length, point);
    } else if s.data.Mem? {
      ClipSplit(s.data.bytes, s.start, s.length, point);
    }
  }

  lemma SameBytesStep(w: World, w1: World, w': World)
    requires SameBytes(w, w1) && SameBytes(w1, w')
    requires forall b :: b in w.at && b in w'.at && w'.at[b] == w.at[b] ==> b in w1.at && w1.at[b] == w.at[b]
    ensures SameBytes(w, w')
  {
    hide Bytes;
  }
}
