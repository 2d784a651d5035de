/** Making buckets, the cleanup of a pool, and setting a transient bucket aside. */
module BucketMake {
  import opened Buckets
  import opened BucketOps
  import opened BucketRead

  /** A bucket made for a new resource of which it is the only user, so far. */
  ghost predicate FirstMade(w: World, w': World, b: Bucket, s: Slice, v: Resource) {
    s.data.Res? && s.data.r !in w.res && v.refcount == 1 && w' == WithFirst(w, b, s, s.data.r, v)
  }

  /** apr_bucket_file_make, with the count that apr_bucket_shared_make sets. */
  method FileMake(ghost w: World, b: Bucket, fd: seq<Byte>, offset: nat, len: nat) returns (ghost w': World)
    requires Good(w) && b !in w.at && len < UNKNOWN
    modifies b`v
    ensures Good(w') && SameBytes(w, w') && FirstMade(w, w', b, b.v, Resource(1, [], false, []))
    ensures fresh(b.v.data.r) && b.v == Slice(File, len, offset, b.v.data) && Bytes(w', b.v) == Clip(fd, offset, len)
  {
    hide Sound, SameBytes, Clip;
    var f := new Shared(File, 0, Resource(1, [], false, []), fd);
    b.v := Slice(File, len, offset, Res(f));
    w' := WithFirst(w, b, b.v, f, f.v);
    WithFirstSound(w, b, b.v, f, f.v);
  }

  /** apr_bucket_pool_make; a cleanup is registered with the pool. */
  method PoolMake(ghost w: World, b: Bucket, buf: seq<Byte>) returns (ghost w': World)
    requires Good(w) && b !in w.at && |buf| < UNKNOWN
    modifies b`v
    ensures Good(w') && SameBytes(w, w') && FirstMade(w, w', b, b.v, Resource(1, [], true, buf))
    ensures fresh(b.v.data.r) && b.v == Slice(Pool, |buf|, 0, b.v.data)
    ensures Bytes(w', b.v) == buf && b.v.data.r in w'.registered
  {
    hide Sound, SameBytes;
    var p := new Shared(Pool, |buf|, Resource(1, [], true, buf), []);
    b.v := Slice(Pool, |buf|, 0, Res(p));
    p.registered := true;
    w' := WithFirst(w, b, b.v, p, p.v);
    WithFirstSound(w, b, b.v, p, p.v);
  }

  /** apr_bucket_immortal_make and apr_bucket_transient_make */
  method PlainMake(ghost w: World, b: Bucket, kind: Kind, buf: seq<Byte>) returns (ghost w': World)
    requires Good(w) && b !in w.at && kind in {Immortal, Transient} && |buf| < UNKNOWN
    modifies b`v
    ensures Good(w') && SameBytes(w, w') && w' == WithPlain(w, b, b.v)
    ensures b.v == Slice(kind, |buf|, 0, Mem(buf)) && Bytes(w', b.v) == buf
  {
    hide Sound, SameBytes;
    b.v := Slice(kind, |buf|, 0, Mem(buf));
    w' := WithPlain(w, b, b.v);
    WithPlainSound(w, b, b.v);
  }

  /** apr_bucket_pipe_make, for a pipe that is not in use. */
  method PipeMake(ghost w: World, b: Bucket, p: PipeEnd) returns (ghost w': World)
    requires Good(w) && b !in w.at && forall x :: x in w.at ==> w.at[x].data != End(p)
    modifies b`v
    ensures Good(w') && SameBytes(w, w') && w'.at == w.at[b := PipeSlice(p)]
    ensures w'.res == w.res && w'.pipes == w.pipes[p := p.rest] && SameRegistry(w, w')
    ensures Bytes(w', PipeSlice(p)) == p.rest
  {
    hide Sound, SameBytes;
    b.v := PipeSlice(p);
    ghost var w1 := Fed(w, p, p.rest);
    FedSound(w, p, p.rest);
    w' := WithPlain(w1, b, b.v);
    WithPipeSound(w1, b, b.v);
    SameBytesStep(w, w1, w');
  }

  /** transient_bucket_setaside: the bytes are copied to memory of one's own. */
  method TransientSetaside(ghost w: World, b: Bucket) returns (ghost w': World)
    requires Good(w) && b in w.at && w.at[b].kind == Transient
    modifies b`v
    ensures Good(w') && Conserved(w, w', b, b) && HeapNow(w', b, Bytes(w, w.at[b]))
  {
    hide Sound, SameBytes, Bytes, Fits, HeapMade;
    assert b.v == w.at[b];
    TransientTaken(w, b);
    var buf := b.v.data.bytes[b.v.start..b.v.start + b.v.length];
    ghost var w1 := w.(at := w.at - {b});
    ghost var n;
    w', n := HeapMake(w1, b, buf, |buf|);
    SetAside(w, w1, w', b, buf);
  }

  lemma TransientTaken(w: World, b: Bucket)
    requires Sound(w) && b in w.at && w.at[b].kind == Transient
    ensures var s, w1 := w.at[b], w.(at := w.at - {b});
            && s.data.Mem? && 0 <= s.start && s.start + s.length <= |s.data.bytes| && s.length < UNKNOWN
            && Bytes(w, s) == s.data.bytes[s.start..s.start + s.length]
            && Sound(w1) && SameBytes(w, w1)
  {
    hide Sound, SameBytes;
    BucketInSound(w, b);
    assert Without(w, b) == w.(at := w.at - {b});
    WithoutSound(w, b);
  }

  lemma SetAside(w: World, w1: World, w': World, b: Bucket, buf: seq<Byte>)
    requires b in w.at && w.at[b].kind == Transient && w1 == w.(at := w.at - {b})
    requires SameBytes(w, w1) && SameBytes(w1, w')
    requires HeapMade(w1, w', b, buf, |buf|) && Bytes(w, w.at[b]) == buf
    ensures Conserved(w, w', b, b) && HeapNow(w', b, buf)
  {
    hide SameBytes, Bytes;
    assert buf[..|buf|] == buf;
    SameThrough(w, w1, w', b);
  }

  /** pool_bucket_cleanup: the data moves out of the pool, and no bucket is the wiser. */
  method PoolCleanup(ghost w: World, p: Shared) returns (ghost w': World)
    requires Good(w) && p in w.registered
    modifies p`v, p`registered
    ensures p in w.res && Good(w') && SameBytes(w, w') && w' == Changed(w, p, Cleaned(w.res[p]))
    ensures w'.at == w.at && p !in w'.registered && p.v.mem == old(p.v.base)
  {
    hide Sound, SameBytes;
    CleanedSound(w, p);
    p.v := p.v.(mem := p.v.base, base := [], pool := false);
    p.registered := false;
    w' := Changed(w, p, Cleaned(w.res[p]));
  }
}
