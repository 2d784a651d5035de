/** Buckets: slices of shared, reference-counted resources, of fixed memory, or of a
pipe whose length is not known yet. */
module Buckets {
  import opened Machine

  type Byte = x: int | 0 <= x < 256

  const BUFF_SIZE := 8000

  /** The length (apr_size_t)(-1). */
  const UNKNOWN := SIZE_MAX

  datatype Kind = Heap | File | Pool | Pipe | Immortal | Transient | Metadata

  datatype Status = Success | Invalid | NotImplemented | Incomplete | EndOfFile | IoError

  /** The fields of a shared structure that change: the count, heap.base (empty while
      NULL), whether the pool is still there, and the data in the pool. */
  datatype Resource = Resource(refcount: nat, mem: seq<Byte>, pool: bool, base: seq<Byte>)

  /** The structures apr_bucket_heap, apr_bucket_pool and apr_bucket_file. They begin
      with the reference count, and the one of a pool bucket contains that of a heap
      bucket, so that a pool bucket can turn into a heap bucket in place. */
  class Shared {
    const form: Kind                 // Heap, Pool or File
    const size: nat                  // heap.alloc_len
    const fd: seq<Byte>              // what the file holds
    var v: Resource
    var registered: bool             // a cleanup is registered with the pool
    var freed: bool

    constructor (form: Kind, size: nat, v: Resource, fd: seq<Byte>)
      ensures this.form == form && this.size == size && this.v == v && this.fd == fd && !registered && !freed
    {
      this.form, this.size, this.v, this.fd, registered, freed := form, size, v, fd, false, false;
    }
  }

  /** The reading end of a pipe, and what is still to come out of it. */
  class PipeEnd {
    var rest: seq<Byte>
    var closed: bool

    constructor (rest: seq<Byte>)
      ensures this.rest == rest && !closed
    {
      this.rest, closed := rest, false;
    }
  }

  datatype Data = Res(r: Shared) | Mem(bytes: seq<Byte>) | End(p: PipeEnd) | NoData

  /** The fields of a bucket, but for its links. */
  datatype Slice = Slice(kind: Kind, length: nat, start: int, data: Data)

  class Bucket {
    var next: Bucket
    var prev: Bucket
    var v: Slice

    /** apr_bucket_alloc and APR_BUCKET_INIT */
    constructor (v: Slice)
      ensures next == this && prev == this && this.v == v
    {
      next, prev, this.v := this, this, v;
    }
  }

  // ---------- the state of the live buckets and resources, as values ----------

  /** The live buckets, the live resources, the pipes, the resources a pool cleanup is
      registered for, and the resources that have been live and are no more. */
  datatype World = World(
    at: map<Bucket, Slice>,
    res: map<Shared, Resource>,
    pipes: map<PipeEnd, seq<Byte>>,
    registered: set<Shared>,
    gone: set<Shared>)

  /** `w` shows the state of the objects in it. What is live has not been freed; what is
      gone has been. */
  ghost predicate Shows(w: World)
    reads w.at.Keys`v, w.res.Keys`v, w.res.Keys`registered, w.res.Keys`freed
    reads w.gone`registered, w.gone`freed, w.pipes.Keys`rest
  {
    && (forall b :: b in w.at ==> b.v == w.at[b])
    && (forall r :: r in w.res ==> ShowsLive(w, r))
    && (forall r :: r in w.gone ==> r.freed && !r.registered)
    && (forall p :: p in w.pipes ==> p.rest == w.pipes[p])
  }

  ghost predicate ShowsLive(w: World, r: Shared)
    requires r in w.res
    reads r`v, r`registered, r`freed
  {
    r.v == w.res[r] && !r.freed && (r.registered <==> r in w.registered)
  }

  /** Where the data of a resource is now. */
  function Memory(r: Shared, v: Resource): seq<Byte> {
    if r.form == File then r.fd else if r.form == Pool && v.pool then v.base else v.mem
  }

  function Clip(s: seq<Byte>, start: int, length: nat): seq<Byte> {
    if start < 0 || start >= |s| then []
    else if start + length >= |s| then s[start..]
    else s[start..start + length]
  }

  /** The bytes a slice stands for. */
  function Bytes(w: World, s: Slice): seq<Byte> {
    match s.data
    case Res(r) => if r in w.res then Clip(Memory(r, w.res[r]), s.start, s.length) else []
    case Mem(m) => Clip(m, s.start, s.length)
    case End(p) => if p in w.pipes then w.pipes[p] else []
    case NoData => []
  }

  /** A slice fits what it points to, which is live. A heap bucket may point to what was
      a pool bucket's once its pool has been cleaned up. */
  ghost predicate Fits(w: World, s: Slice) {
    if s.kind == Pipe then s.data.End? && s.data.p in w.pipes && s.start == -1 && s.length == UNKNOWN
    else
      && 0 <= s.start && s.length < UNKNOWN
      && match s.kind
         case Heap =>
           && s.data.Res? && s.data.r in w.res && s.start + s.length <= s.data.r.size
           && (s.data.r.form == Heap || (s.data.r.form == Pool && !w.res[s.data.r].pool))
         case Pool => s.data.Res? && s.data.r in w.res && s.data.r.form == Pool && s.start + s.length <= s.data.r.size
         case File => s.data.Res? && s.data.r in w.res && s.data.r.form == File
         case Immortal => s.data.Mem? && s.start + s.length <= |s.data.bytes|
         case Transient => s.data.Mem? && s.start + s.length <= |s.data.bytes|
         case Metadata => s.data.NoData? && s.length == 0
  }

  /** The live buckets that point to a resource. */
  ghost function Users(w: World, r: Shared): set<Bucket> {
    set b | b in w.at && w.at[b].data == Res(r)
  }

  /** Every resource is counted exactly and has a user; its memory is as large as it
      says; a cleanup is registered for exactly the data that is in a pool. */
  ghost predicate Kept(w: World, r: Shared)
    requires r in w.res
  {
    && w.res[r].refcount == |Users(w, r)| > 0
    && r.form in {Heap, Pool, File} && r.size < UNKNOWN
    && (r.form != File ==> |Memory(r, w.res[r])| == r.size)
    && (r in w.registered <==> r.form == Pool && w.res[r].pool)
  }

  ghost predicate Sound(w: World) {
    && (forall b :: b in w.at ==> Fits(w, w.at[b]))
    && (forall r :: r in w.res ==> Kept(w, r))
    && w.registered <= w.res.Keys && w.gone !! w.res.Keys
    && (forall b, c :: b in w.at && c in w.at && w.at[b].data.End? && w.at[b].data == w.at[c].data ==> b == c)
  }

  // ---------- the steps ----------

  lemma FitsStill(w: World, w': World, s: Slice)
    requires Fits(w, s) && w.pipes.Keys <= w'.pipes.Keys
    requires s.data.Res? ==> s.data.r in w'.res && (w'.res[s.data.r].pool ==> s.data.r in w.res && w.res[s.data.r].pool)
    ensures Fits(w', s)
  {
  }

  lemma FitsRefers(w: World, s: Slice)
    requires Fits(w, s)
    ensures s.data.Res? ==> s.data.r in w.res
    ensures s.data.End? ==> s.kind == Pipe && s.data.p in w.pipes
  {
  }

  /** Nothing has changed for a resource. */
  lemma KeptStill(w: World, w': World, r: Shared)
    requires r in w.res && Kept(w, r) && r in w'.res && w'.res[r] == w.res[r]
    requires Users(w', r) == Users(w, r) && (r in w'.registered <==> r in w.registered)
    ensures Kept(w', r)
  {
  }

  lemma BytesStill(w: World, w': World, s: Slice)
    requires s.data.Res? && s.data.r in w.res ==>
      s.data.r in w'.res && Memory(s.data.r, w'.res[s.data.r]) == Memory(s.data.r, w.res[s.data.r])
    requires s.data.Res? && s.data.r !in w.res ==> s.data.r !in w'.res
    requires s.data.End? ==> (s.data.p in w.pipes <==> s.data.p in w'.pipes)
    requires s.data.End? && s.data.p in w.pipes ==> w.pipes[s.data.p] == w'.pipes[s.data.p]
    ensures Bytes(w', s) == Bytes(w, s)
  {
  }

  /** Every bucket that stays stands for the same bytes. */
  ghost predicate SameBytes(w: World, w': World) {
    forall b :: b in w.at && b in w'.at && w'.at[b] == w.at[b] ==> Bytes(w', w.at[b]) == Bytes(w, w.at[b])
  }

  /** No pool has been cleaned up. */
  ghost predicate PoolsStay(w: World, w': World) {
    forall r :: r in w.res && r in w'.res ==> w'.res[r].pool == w.res[r].pool
  }

  /** ... and no resource made. */
  ghost predicate NoneMade(w: World, w': World) {
    PoolsStay(w, w') && w'.res.Keys <= w.res.Keys
  }

  /** One more bucket, which points to a live resource. */
  function WithUser(w: World, b: Bucket, s: Slice): World
    requires s.data.Res? && s.data.r in w.res
  {
    var r := s.data.r;
    w.(at := w.at[b := s], res := w.res[r := w.res[r].(refcount := w.res[r].refcount + 1)])
  }

  lemma WithUserSound(w: World, b: Bucket, s: Slice)
    requires Sound(w) && b !in w.at && Fits(w, s) && s.data.Res? && s.data.r in w.res
    ensures Sound(WithUser(w, b, s)) && SameBytes(w, WithUser(w, b, s))
  {
    hide Fits, Kept, Users, Bytes, Memory;
    var w' := WithUser(w, b, s);
    forall x | x in w'.at ensures Fits(w', w'.at[x]) && Bytes(w', w'.at[x]) == Bytes(w, w'.at[x]) {
      FitsRefers(w, w'.at[x]);
      FitsStill(w, w', w'.at[x]);
      SameMemory(s.data.r, w.res[s.data.r], w'.res[s.data.r]);
      BytesStill(w, w', w'.at[x]);
    }
    forall r | r in w'.res ensures Kept(w', r) {
      UsersAdded(w, w', b, s, r);
      if r == s.data.r { CountIs(w, r); Recounted(w, w', r); } else { KeptStill(w, w', r); }
    }
  }

  lemma SameMemory(r: Shared, v: Resource, v': Resource)
    requires v'.mem == v.mem && v'.pool == v.pool && v'.base == v.base
    ensures Memory(r, v') == Memory(r, v)
  {
  }

  lemma UsersAdded(w: World, w': World, b: Bucket, s: Slice, r: Shared)
    requires b !in w.at && w'.at == w.at[b := s]
    ensures Users(w', r) == if s.data == Res(r) then Users(w, r) + {b} else Users(w, r)
    ensures |Users(w', r)| == |Users(w, r)| + if s.data == Res(r) then 1 else 0
  {
  }

  /** The count of a resource has followed its users. */
  lemma Recounted(w: World, w': World, r: Shared)
    requires r in w.res && Kept(w, r) && r in w'.res && w'.res[r] == w.res[r].(refcount := w'.res[r].refcount)
    requires w'.res[r].refcount == |Users(w', r)| > 0 && (r in w'.registered <==> r in w.registered)
    ensures Kept(w', r)
  {
    hide Users;
  }

  /** One more bucket, of memory that is not shared. */
  function WithPlain(w: World, b: Bucket, s: Slice): World {
    w.(at := w.at[b := s])
  }

  lemma WithPlainSound(w: World, b: Bucket, s: Slice)
    requires Sound(w) && b !in w.at && Fits(w, s) && (s.data.Mem? || s.data.NoData?)
    ensures Sound(WithPlain(w, b, s)) && SameBytes(w, WithPlain(w, b, s))
  {
    hide Fits, Kept, Users, Bytes;
    var w' := WithPlain(w, b, s);
    forall x | x in w'.at ensures Fits(w', w'.at[x]) && Bytes(w', w'.at[x]) == Bytes(w, w'.at[x]) {
      FitsRefers(w, w'.at[x]);
      FitsStill(w, w', w'.at[x]);
      BytesStill(w, w', w'.at[x]);
    }
    forall r | r in w'.res ensures Kept(w', r) {
      UsersAdded(w, w', b, s, r);
      KeptStill(w, w', r);
    }
  }

  /** One bucket less; its resource goes with its last bucket. */
  function Without(w: World, b: Bucket): World
    requires b in w.at && (w.at[b].data.Res? ==> w.at[b].data.r in w.res && w.res[w.at[b].data.r].refcount > 0)
  {
    var left := w.(at := w.at - {b});
    if !w.at[b].data.Res? then left
    else
      var r := w.at[b].data.r;
      var v := w.res[r];
      if v.refcount == 1 then left.(res := w.res - {r}, registered := w.registered - {r}, gone := w.gone + {r})
      else left.(res := w.res[r := v.(refcount := v.refcount - 1)])
  }

  lemma InSound(w: World, b: Bucket)
    requires Sound(w) && b in w.at
    ensures Fits(w, w.at[b])
    ensures w.at[b].data.Res? ==> w.at[b].data.r in w.res && w.res[w.at[b].data.r].refcount > 0
    ensures w.at[b].data.End? ==> w.at[b].kind == Pipe && w.at[b].data.p in w.pipes
  {
  }

  lemma UsersRemoved(w: World, w': World, b: Bucket, r: Shared)
    requires b in w.at && w'.at == w.at - {b}
    ensures Users(w', r) == Users(w, r) - {b} && (b in Users(w, r) <==> w.at[b].data == Res(r))
    ensures |Users(w', r)| == |Users(w, r)| - if w.at[b].data == Res(r) then 1 else 0
  {
  }

  lemma WithoutSound(w: World, b: Bucket)
    requires Sound(w) && b in w.at
    ensures w.at[b].data.Res? ==> w.at[b].data.r in w.res && w.res[w.at[b].data.r].refcount > 0
    ensures Sound(Without(w, b)) && SameBytes(w, Without(w, b))
  {
    hide Fits, Kept, Users, Bytes, Memory;
    InSound(w, b);
    var w' := Without(w, b);
    forall x | x in w'.at ensures Fits(w', w'.at[x]) && Bytes(w', w'.at[x]) == Bytes(w, w'.at[x]) {
      InSound(w, x);
      NotTheLast(w, b, x);
      if w.at[x].data.Res? { SameMemory(w.at[x].data.r, w.res[w.at[x].data.r], w'.res[w.at[x].data.r]); }
      FitsStill(w, w', w'.at[x]);
      BytesStill(w, w', w'.at[x]);
    }
    forall r | r in w'.res ensures Kept(w', r) {
      UsersRemoved(w, w', b, r);
      if w.at[b].data == Res(r) {
        CountIs(w, r);
        Recounted(w, w', r);
      } else {
        KeptStill(w, w', r);
      }
    }
  }

  lemma CountIs(w: World, r: Shared)
    requires r in w.res && Kept(w, r)
    ensures w.res[r].refcount == |Users(w, r)| > 0
  {
  }

  /** When two buckets point to the same resource its count is not 1. */
  lemma NotTheLast(w: World, b: Bucket, x: Bucket)
    requires Sound(w) && b in w.at && x in w.at && b != x
    ensures w.at[b].data.Res? && w.at[x].data == w.at[b].data ==>
      w.at[b].data.r in w.res && w.res[w.at[b].data.r].refcount > 1
  {
    hide Fits;
    if w.at[b].data.Res? && w.at[x].data == w.at[b].data {
      InSound(w, b);
      var r := w.at[b].data.r;
      assert Kept(w, r) && {b, x} <= Users(w, r);
      SubsetSize({b, x}, Users(w, r));
    }
  }

  lemma {:induction false} SubsetSize<T>(a: set<T>, b: set<T>)
    requires a <= b
    ensures |a| <= |b|
    decreases |a|
  {
    if a == {} {
    } else {
      var x :| x in a;
      SubsetSize(a - {x}, b - {x});
    }
  }

  /** A bucket for a new resource. */
  function WithFirst(w: World, b: Bucket, s: Slice, r: Shared, v: Resource): World {
    w.(at := w.at[b := s], res := w.res[r := v], registered := if v.pool then w.registered + {r} else w.registered)
  }

  lemma WithFirstSound(w: World, b: Bucket, s: Slice, r: Shared, v: Resource)
    requires Sound(w) && b !in w.at && r !in w.res && r !in w.gone && s.data == Res(r) && v.refcount == 1
    requires Fits(WithFirst(w, b, s, r, v), s)
    requires r.form in {Heap, Pool, File} && (r.form != File ==> |Memory(r, v)| == r.size)
    requires v.pool <==> r.form == Pool
    requires r.size < UNKNOWN
    ensures Sound(WithFirst(w, b, s, r, v)) && SameBytes(w, WithFirst(w, b, s, r, v))
  {
    hide Fits, Kept, Users, Bytes, Memory;
    var w' := WithFirst(w, b, s, r, v);
    NoUsers(w, r);
    forall x | x in w'.at && x != b ensures Fits(w', w'.at[x]) && Bytes(w', w'.at[x]) == Bytes(w, w'.at[x]) {
      FitsRefers(w, w'.at[x]);
      FitsStill(w, w', w'.at[x]);
      BytesStill(w, w', w'.at[x]);
    }
    forall q | q in w'.res ensures Kept(w', q) {
      UsersAdded(w, w', b, s, q);
      if q == r { FirstKept(w', r); } else { KeptStill(w, w', q); }
    }
  }

  lemma FirstKept(w: World, r: Shared)
    requires r in w.res && w.res[r].refcount == |Users(w, r)| == 1 && r.form in {Heap, Pool, File} && r.size < UNKNOWN
    requires (r.form != File ==> |Memory(r, w.res[r])| == r.size)
    requires r in w.registered <==> r.form == Pool && w.res[r].pool
    ensures Kept(w, r)
  {
    hide Users;
  }

  lemma NoUsers(w: World, r: Shared)
    requires Sound(w) && r !in w.res
    ensures Users(w, r) == {} && |Users(w, r)| == 0
  {
    hide Kept;
    forall b | b in w.at ensures w.at[b].data != Res(r) { InSound(w, b); }
  }

  /** A bucket that still points to the same data: another slice of it, or another type. */
  function Resliced(w: World, b: Bucket, s: Slice): World {
    w.(at := w.at[b := s])
  }

  lemma ReslicedSound(w: World, b: Bucket, s: Slice)
    requires Sound(w) && b in w.at && s.data == w.at[b].data && Fits(w, s)
    ensures Sound(Resliced(w, b, s)) && SameBytes(w, Resliced(w, b, s))
  {
    hide Fits, Kept, Users, Bytes, Memory;
    var w' := Resliced(w, b, s);
    forall x | x in w'.at ensures Fits(w', w'.at[x]) && Bytes(w', w'.at[x]) == Bytes(w, w'.at[x]) {
      FitsRefers(w, w'.at[x]);
      FitsStill(w, w', w'.at[x]);
      BytesStill(w, w', w'.at[x]);
    }
    forall r | r in w'.res ensures Kept(w', r) {
      SameUsers(w, w', r);
      KeptStill(w, w', r);
    }
  }

  lemma SameUsers(w: World, w': World, r: Shared)
    requires w'.at.Keys == w.at.Keys && forall b :: b in w.at ==> w'.at[b].data == w.at[b].data
    ensures Users(w', r) == Users(w, r)
  {
  }

  /** A resource whose memory has changed, not in size. */
  function Changed(w: World, r: Shared, v: Resource): World {
    w.(res := w.res[r := v], registered := if v.pool then w.registered else w.registered - {r})
  }

  lemma ChangedSound(w: World, r: Shared, v: Resource)
    requires Sound(w) && r in w.res && v.refcount == w.res[r].refcount && (v.pool ==> w.res[r].pool)
    requires |Memory(r, v)| == |Memory(r, w.res[r])|
    ensures Sound(Changed(w, r, v))
  {
    hide Fits, Users, Memory;
    var w' := Changed(w, r, v);
    forall x | x in w'.at ensures Fits(w', w'.at[x]) {
      FitsRefers(w, w'.at[x]);
      FitsStill(w, w', w'.at[x]);
    }
    forall q | q in w'.res ensures Kept(w', q) {
      assert Kept(w, q);
      SameUsers(w, w', q);
    }
  }

  /** pool_bucket_cleanup: the data moves from the pool to the heap. */
  function Cleaned(v: Resource): Resource {
    v.(mem := v.base, base := [], pool := false)
  }

  lemma CleanedSound(w: World, r: Shared)
    requires Sound(w) && r in w.registered
    ensures r in w.res && Sound(Changed(w, r, Cleaned(w.res[r]))) && SameBytes(w, Changed(w, r, Cleaned(w.res[r])))
  {
    hide Fits, Users, Bytes;
    assert Kept(w, r);
    ChangedSound(w, r, Cleaned(w.res[r]));
    var w' := Changed(w, r, Cleaned(w.res[r]));
    forall x | x in w.at ensures Bytes(w', w.at[x]) == Bytes(w, w.at[x]) {
      InSound(w, x);
      BytesStill(w, w', w.at[x]);
    }
  }

  /** A pipe out of which something has been read. */
  function Fed(w: World, p: PipeEnd, rest: seq<Byte>): World {
    w.(pipes := w.pipes[p := rest])
  }

  /** A pipe that no bucket points to may be read. */
  lemma FedSound(w: World, p: PipeEnd, rest: seq<Byte>)
    requires Sound(w) && forall x :: x in w.at ==> w.at[x].data != End(p)
    ensures Sound(Fed(w, p, rest)) && SameBytes(w, Fed(w, p, rest))
  {
    hide Fits, Kept, Users, Bytes;
    var w' := Fed(w, p, rest);
    forall x | x in w.at ensures Fits(w', w.at[x]) && Bytes(w', w.at[x]) == Bytes(w, w.at[x]) {
      InSound(w, x);
      FitsStill(w, w', w.at[x]);
      BytesStill(w, w', w.at[x]);
    }
    forall q | q in w'.res ensures Kept(w', q) {
      SameUsers(w, w', q);
      KeptStill(w, w', q);
    }
  }

  /** A bucket for a pipe that no other bucket points to. */
  lemma WithPipeSound(w: World, b: Bucket, s: Slice)
    requires Sound(w) && b !in w.at && s.kind == Pipe && Fits(w, s) && forall x :: x in w.at ==> w.at[x].data != s.data
    ensures Sound(WithPlain(w, b, s)) && SameBytes(w, WithPlain(w, b, s))
  {
    hide Fits, Kept, Users, Bytes;
    var w' := WithPlain(w, b, s);
    FitsRefers(w, s);
    PipeData(w, s);
    forall x | x in w'.at ensures Fits(w', w'.at[x]) && Bytes(w', w'.at[x]) == Bytes(w, w'.at[x]) {
      FitsRefers(w, w'.at[x]);
      FitsStill(w, w', w'.at[x]);
      BytesStill(w, w', w'.at[x]);
    }
    forall r | r in w'.res ensures Kept(w', r) {
      UsersAdded(w, w', b, s, r);
      KeptStill(w, w', r);
    }
  }

  lemma PipeData(w: World, s: Slice)
    requires Fits(w, s) && s.kind == Pipe
    ensures s.data.End?
  {
  }
}
