/** Reading: buckets whose bytes are not in memory turn into heap buckets, with a new
bucket for what remains. */
module BucketRead {
  import opened Buckets
  import opened Rings
  import opened BucketOps

  /** How much was asked of a file or a pipe by one read, and what it gave. */
  datatype Io = Io(pipe: bool, want: nat, rv: Status, bytes: seq<Byte>)

  /** The status that apr_bucket_read makes of it: the end of a pipe is no error. */
  function Outcome(x: Io): Status {
    if x.pipe && x.rv == EndOfFile then Success else x.rv
  }

  /** No read has failed. */
  ghost predicate Quiet(io: seq<Io>) {
    forall k :: 0 <= k < |io| ==> Outcome(io[k]) == Success
  }

  /** A status of EndOfFile or IoError is that of the last read, which is the only one
      that failed; with any other status none did. */
  ghost predicate Reported(io: seq<Io>, rv: Status) {
    if rv in {EndOfFile, IoError} then io != [] && Outcome(io[|io| - 1]) == rv && Quiet(io[..|io| - 1])
    else Quiet(io)
  }

  lemma ReportedMore(a: seq<Io>, b: seq<Io>, rv: Status)
    requires Quiet(a) && Reported(b, rv)
    ensures Reported(a + b, rv)
  {
    if rv in {EndOfFile, IoError} { assert (a + b)[..|a + b| - 1] == a + b[..|b| - 1]; }
  }

  lemma QuietIs(io: seq<Io>)
    requires Quiet(io)
    ensures Reported(io, Success) && Reported(io, Invalid) && Reported(io, Incomplete)
  {
  }

  lemma QuietWhen(io: seq<Io>)
    requires Reported(io, Success)
    ensures Quiet(io)
  {
  }

  lemma NoReads()
    ensures Quiet([]) && Reported([], Success) && Reported([], Invalid)
  {
  }

  /** The status and the bytes of a bucket's read function are those of its one read from
      the file or the pipe, of up to 8000 bytes; data in memory takes none, and does not
      fail. */
  ghost predicate Answered(s: Slice, io: seq<Io>, rv: Status, str: seq<Byte>) {
    match s.kind
    case File => io == [Io(false, if s.length > 8000 then 8000 else s.length, rv, str)]
    case Pipe => |io| == 1 && io[0] == Io(true, 8000, io[0].rv, str) && rv == Outcome(io[0])
    case _ => io == [] && rv == Success
  }

  lemma AnsweredReported(s: Slice, io: seq<Io>, rv: Status, str: seq<Byte>)
    requires Answered(s, io, rv, str) && rv in {Success, EndOfFile, IoError}
    ensures Reported(io, rv)
  {
  }

  /** apr_file_read after apr_file_seek: it may fail, it may give less than was asked
      for, and it gives nothing only where the file ends. */
  method FileRead(fd: seq<Byte>, offset: nat, want: nat) returns (rv: Status, n: nat, ghost io: Io)
    ensures rv in {Success, EndOfFile, IoError} && n <= want
    ensures n > 0 ==> offset + n <= |fd|
    ensures io == Io(false, want, rv, if n > 0 then fd[offset..offset + n] else [])
    ensures rv == Success ==> (n == 0 <==> want == 0)
    ensures rv != Success ==> n == 0
    ensures rv == EndOfFile ==> offset >= |fd|
  {
    var fails: bool := *;
    rv, n := Success, 0;
    if fails {
      rv := IoError;
    } else if want > 0 && offset >= |fd| {
      rv := EndOfFile;
    } else if want > 0 {
      n :| 0 < n <= want && offset + n <= |fd|;
    }
    io := Io(false, want, rv, if n > 0 then fd[offset..offset + n] else []);
  }

  /** apr_file_read on a pipe. */
  method PipeRead(p: PipeEnd, want: nat) returns (rv: Status, bytes: seq<Byte>, ghost io: Io)
    requires want > 0
    modifies p`rest
    ensures io == Io(true, want, rv, bytes)
    ensures rv in {Success, EndOfFile, IoError} && |bytes| <= want && old(p.rest) == bytes + p.rest
    ensures rv == Success <==> bytes != []
    ensures rv == EndOfFile ==> p.rest == []
  {
    var fails: bool := *;
    rv, bytes := Success, [];
    if fails {
      rv := IoError;
    } else if p.rest == [] {
      rv := EndOfFile;
    } else {
      var n :| 0 < n <= want && n <= |p.rest|;
      bytes := p.rest[..n];
      p.rest := p.rest[n..];
    }
    io := Io(true, want, rv, bytes);
  }

  /** The bytes of `e` are those of `e` and `c` now, or of `e` alone when `c` is `e`. */
  ghost predicate Conserved(w: World, w': World, e: Bucket, c: Bucket) {
    if c != e then Divided(w, w', e, c)
    else
      && e in w.at && e in w'.at && w'.at == w.at[e := w'.at[e]] && SameBytes(w, w')
      && Bytes(w', w'.at[e]) == Bytes(w, w.at[e]) && (Inside(w.at[e]) ==> Inside(w'.at[e]))
  }

  /** apr_bucket_heap_make for a bucket that is not live: `length` bytes of one's own
      memory. */
  method HeapMake(ghost w: World, b: Bucket, mem: seq<Byte>, length: nat)
    returns (ghost w': World, ghost n: set<object>)
    requires Good(w) && b !in w.at && length <= |mem| < UNKNOWN
    modifies b`v
    ensures Good(w') && SameBytes(w, w') && HeapMade(w, w', b, mem, length)
    ensures fresh(n) && Within(w, w', n + {b})
  {
    hide SameBytes, Sound, Shows, Bytes, Within;
    var h := new Shared(Heap, |mem|, Resource(1, mem, false, []), []);
    ghost var s := Slice(Heap, length, 0, Res(h));
    RegisteredLive(w, h);
    HeapPart(w, b, h, mem, length);
    w', n := WithFirst(w, b, s, h, h.v), {h};
    HeapPart(w', b, h, mem, length);
    WithFirstSound(w, b, s, h, h.v);
    FirstWithin(w, b, s, h, h.v);
    assert n + {b} == {h, b};
    ComeIn(w, w', b, Slice(Heap, length, 0, Res(h)), h);
  }

  lemma FirstWithin(w: World, b: Bucket, s: Slice, h: Shared, v: Resource)
    ensures Within(w, WithFirst(w, b, s, h, v), {h, b})
  {
  }

  /** The fields of a bucket that comes in with a new resource. */
  method ComeIn(ghost w: World, ghost w': World, b: Bucket, s: Slice, h: Shared)
    requires Shows(w) && b !in w.at && h !in w.res && h !in w.registered && !h.freed && !h.registered
    requires w'.at == w.at[b := s] && w'.res == w.res[h := h.v] && w'.pipes == w.pipes && SameRegistry(w, w')
    modifies b`v
    ensures Shows(w')
  {
    b.v := s;
  }

  ghost predicate HeapMade(w: World, w': World, b: Bucket, mem: seq<Byte>, length: nat) {
    && length <= |mem| && w'.pipes == w.pipes && SameRegistry(w, w')
    && b in w'.at && w'.at == w.at[b := w'.at[b]]
    && var s := w'.at[b];
       && s.data.Res? && s == Slice(Heap, length, 0, s.data) && s.data.r !in w.res && s.data.r.form == Heap
       && s.data.r.size == |mem|
       && w'.res == w.res[s.data.r := Resource(1, mem, false, [])] && Bytes(w', s) == mem[..length]
  }

  // ---------- files ----------

  /** Bucket `c` takes the place of `e` at its resource. */
  ghost function Handed(w: World, e: Bucket, c: Bucket, t: Slice): World {
    w.(at := w.at[c := t] - {e})
  }

  lemma HandedSound(w: World, e: Bucket, c: Bucket, t: Slice)
    requires Sound(w) && e in w.at && c !in w.at && Fits(w, t) && t.data.Res? && t.data == w.at[e].data
    ensures Sound(Handed(w, e, c, t)) && SameBytes(w, Handed(w, e, c, t))
  {
    hide Fits, Kept, Users, Bytes;
    var w' := Handed(w, e, c, t);
    forall x | x in w'.at ensures Fits(w', w'.at[x]) && Bytes(w', w'.at[x]) == Bytes(w, w'.at[x]) {
      FitsRefers(w, w'.at[x]);
      FitsStill(w, w', w'.at[x]);
      BytesStill(w, w', w'.at[x]);
    }
    forall r | r in w'.res ensures Kept(w', r) {
      CountIs(w, r);
      UsersHanded(w, w', e, c, t, r);
      Recounted(w, w', r);
    }
  }

  lemma UsersHanded(w: World, w': World, e: Bucket, c: Bucket, t: Slice, r: Shared)
    requires e in w.at && c !in w.at && t.data == w.at[e].data && w'.at == w.at[c := t] - {e}
    ensures |Users(w', r)| == |Users(w, r)|
  {
    var u, u' := Users(w, r), Users(w', r);
    assert u' == if t.data == Res(r) then u - {e} + {c} else u;
    assert (e in u <==> t.data == Res(r)) && c !in u;
    hide Users;
  }

  /** heap_make for `e`, and a new file bucket `c` for what remains. */
  ghost function FileMore(w: World, e: Bucket, h: Shared, buf: seq<Byte>, c: Bucket): World
    requires e in w.at && |buf| <= w.at[e].length
  {
    WithFirst(Handed(w, e, c, Latter(w.at[e], |buf|)), e, Slice(Heap, |buf|, 0, Res(h)), h, Resource(1, buf, false, []))
  }

  /** heap_make for `e`, which was the last to use the file, or one of several. */
  ghost function FileDone(w: World, e: Bucket, h: Shared, buf: seq<Byte>): World
    requires Sound(w) && e in w.at && w.at[e].kind == File
  {
    InSound(w, e);
    WithFirst(Without(w, e), e, Slice(Heap, |buf|, 0, Res(h)), h, Resource(1, buf, false, []))
  }

  /** What a file slice stands for, after its first bytes have been read. */
  lemma FileBytes(fd: seq<Byte>, start: nat, length: nat, n: nat)
    requires n <= length && (n > 0 ==> start + n <= |fd|)
    ensures var buf := if n > 0 then fd[start..start + n] else [];
            Clip(fd, start, length) == buf + Clip(fd, start + n, length - n)
    ensures start >= |fd| ==> Clip(fd, start, length) == []
  {
  }

  /** `h` comes in, and `a` has one user less. */
  ghost predicate Replaced(w: World, w': World, a: Shared, h: Shared, v: Resource) {
    && h in w'.res && w'.res[h] == v && h !in w'.registered && h != a
    && (forall r :: r in w'.res && r != h ==>
      r in w.res && (r in w'.registered <==> r in w.registered) && LessOne(w, w', a, r))
    && (forall r :: r in w'.gone ==> r in w.gone || (r == a && a in w.res && w.res[a].refcount == 1))
  }

  ghost predicate LessOne(w: World, w': World, a: Shared, r: Shared)
    requires r in w.res && r in w'.res
  {
    if r == a then w.res[a].refcount > 1 && w'.res[a] == w.res[a].(refcount := w.res[a].refcount - 1)
    else w'.res[r] == w.res[r]
  }

  lemma FileDoneAt(w: World, e: Bucket, h: Shared, buf: seq<Byte>, a: Shared)
    requires Sound(w) && e in w.at && w.at[e].kind == File
    requires w.at[e].data == Res(a) && a in w.res && w.res[a].refcount > 0
    requires h !in Made(w) && h !in w.registered && h.form == Heap && h.size == |buf| < UNKNOWN
    ensures var w', u, v := FileDone(w, e, h, buf), Slice(Heap, |buf|, 0, Res(h)), Resource(1, buf, false, []);
            && w'.at == w.at[e := u] && w'.pipes == w.pipes && Bytes(w', u) == buf && Within(w, w', {h})
            && Replaced(w, w', a, h, v)
  {
    hide Sound, Bytes;
    HeapSlice(Without(w, e), e, h, buf);
  }

  lemma FileDoneSound(w: World, e: Bucket, h: Shared, buf: seq<Byte>)
    requires Sound(w) && e in w.at && w.at[e].kind == File && h !in Made(w) && h.form == Heap && h.size == |buf|
    requires |buf| < UNKNOWN && Bytes(w, w.at[e]) == buf
    ensures Sound(FileDone(w, e, h, buf)) && Conserved(w, FileDone(w, e, h, buf), e, e)
  {
    hide Sound, SameBytes, Bytes, Fits;
    InSound(w, e);
    var w1, s, v := Without(w, e), Slice(Heap, |buf|, 0, Res(h)), Resource(1, buf, false, []);
    var w' := FileDone(w, e, h, buf);
    HeapSlice(w1, e, h, buf);
    WithoutSound(w, e);
    WithFirstSound(w1, e, s, h, v);
    assert w'.at[e].kind == Heap;
    SameThrough(w, w1, w', e);
  }

  lemma HeapSlice(w: World, e: Bucket, h: Shared, buf: seq<Byte>)
    requires h.form == Heap && h.size == |buf| < UNKNOWN
    ensures var s := Slice(Heap, |buf|, 0, Res(h));
            var w' := WithFirst(w, e, s, h, Resource(1, buf, false, []));
            Fits(w', s) && Bytes(w', s) == buf && Memory(h, Resource(1, buf, false, [])) == buf
  {
  }

  /** Two steps of which the first takes a bucket out and the second puts it back in. */
  lemma SameThrough(w: World, w1: World, w': World, e: Bucket)
    requires SameBytes(w, w1) && SameBytes(w1, w') && e in w.at && e in w'.at && w'.at[e] != w.at[e]
    requires w1.at == w.at - {e} && w'.at == w1.at[e := w'.at[e]]
    ensures SameBytes(w, w') && w'.at == w.at[e := w'.at[e]]
  {
    hide Bytes;
  }

  lemma FileMoreSound(w: World, e: Bucket, h: Shared, buf: seq<Byte>, c: Bucket)
    requires Sound(w) && e in w.at && w.at[e].kind == File && h !in Made(w) && h.form == Heap && h.size == |buf|
    requires c !in w.at && |buf| < w.at[e].length
    ensures var w1, w' := Handed(w, e, c, Latter(w.at[e], |buf|)), FileMore(w, e, h, buf, c);
            Sound(w') && SameBytes(w, w1) && SameBytes(w1, w') && Bytes(w', w'.at[e]) == buf
  {
    hide Sound, Fits, SameBytes, Bytes;
    InSound(w, e);
    var s, t := w.at[e], Latter(w.at[e], |buf|);
    FileFits(w, s, t);
    HandedSound(w, e, c, t);
    var w1 := Handed(w, e, c, t);
    HeapSlice(w1, e, h, buf);
    WithFirstSound(w1, e, Slice(Heap, |buf|, 0, Res(h)), h, Resource(1, buf, false, []));
  }

  lemma FileMoreConserved(w: World, e: Bucket, h: Shared, buf: seq<Byte>, c: Bucket)
    requires Sound(w) && e in w.at && w.at[e].kind == File && h !in Made(w) && h.form == Heap && h.size == |buf|
    requires c !in w.at && |buf| < w.at[e].length && w.at[e].data.Res?
    requires var s, fd := w.at[e], w.at[e].data.r.fd;
             Clip(fd, s.start, s.length) == buf + Clip(fd, s.start + |buf|, s.length - |buf|)
    ensures Sound(FileMore(w, e, h, buf, c)) && Conserved(w, FileMore(w, e, h, buf, c), e, c)
  {
    hide Sound, Fits, SameBytes, Bytes, Clip, Handed, FileMore, Divided;
    FileMoreSound(w, e, h, buf, c);
    var w1, w' := Handed(w, e, c, Latter(w.at[e], |buf|)), FileMore(w, e, h, buf, c);
    FileMoreAt(w, e, h, buf, c);
    MoreThrough(w, w1, w', e, c);
    BucketInSound(w, e);
    BucketInSound(w', c);
    FileBytesAre(w, w.at[e]);
    FileBytesAre(w', w'.at[c]);
    DividedIs(w, w', e, c);
  }

  lemma FileMoreAt(w: World, e: Bucket, h: Shared, buf: seq<Byte>, c: Bucket)
    requires e in w.at && w.at[e].kind == File && c !in w.at && |buf| < w.at[e].length
    ensures var t := Latter(w.at[e], |buf|);
            var w1, w' := Handed(w, e, c, t), FileMore(w, e, h, buf, c);
            && w1.at == w.at[c := t] - {e} && c in w1.at && w1.at[c] == t
            && e in w'.at && c in w'.at && w'.at[c] == t && w'.at == w1.at[e := w'.at[e]] && w'.at[e] != w.at[e]
            && (Inside(w.at[e]) ==> Inside(w'.at[e]) && Inside(t))
  {
    assert FileMore(w, e, h, buf, c).at[e].kind == Heap;
  }

  lemma DividedIs(w: World, w': World, b: Bucket, c: Bucket)
    requires b in w.at && b in w'.at && c !in w.at && c in w'.at && SameBytes(w, w')
    requires w'.at == w.at[b := w'.at[b]][c := w'.at[c]]
    requires Bytes(w', w'.at[b]) + Bytes(w', w'.at[c]) == Bytes(w, w.at[b])
    requires Inside(w.at[b]) ==> Inside(w'.at[b]) && Inside(w'.at[c])
    ensures Divided(w, w', b, c)
  {
    hide SameBytes, Bytes;
  }

  lemma BucketInSound(w: World, b: Bucket)
    requires Sound(w) && b in w.at
    ensures Fits(w, w.at[b])
  {
  }

  lemma FileFits(w: World, s: Slice, t: Slice)
    requires Fits(w, s) && s.kind == File && t.kind == File
    requires t.data == s.data && t.start >= s.start && t.length <= s.length
    ensures Fits(w, t) && s.length < UNKNOWN && t.data.Res? && t.data.r in w.res
  {
  }

  lemma FileBytesAre(w: World, s: Slice)
    requires Fits(w, s) && s.kind == File
    ensures s.data.Res? && Bytes(w, s) == Clip(s.data.r.fd, s.start, s.length)
  {
  }

  lemma MoreThrough(w: World, w1: World, w': World, e: Bucket, c: Bucket)
    requires SameBytes(w, w1) && SameBytes(w1, w') && e in w.at && c !in w.at
    requires c in w1.at && w1.at == w.at[c := w1.at[c]] - {e} && e in w'.at
    requires w'.at == w1.at[e := w'.at[e]] && w'.at[e] != w.at[e]
    ensures SameBytes(w, w') && c != e && w'.at == w.at[e := w'.at[e]][c := w'.at[c]]
  {
    hide Bytes;
  }

  /** The outcome of reading `e`: what was read is what it stands for now; `c` is the
      bucket for what remains, or `e` when there is none. */
  ghost predicate ReadTo(w: World, w': World, e: Bucket, c: Bucket, rv: Status, str: seq<Byte>) {
    && Conserved(w, w', e, c) && rv in {Success, EndOfFile, IoError}
    && (rv == Success ==> w'.at[e].kind !in {Pipe, File} && w'.at[e].length == |str| && Bytes(w', w'.at[e]) == str)
    && (c != e ==> rv == Success && str != [])
    && Retargeted(w, w', e, c)
    && (w.at[e].kind !in {File, Pipe} ==> rv == Success && w'.res == w.res && w'.at[e] == Opened(w, w.at[e]))
  }

  /** A bucket of a pool that has been cleaned up becomes a heap bucket when it is read;
      other data in memory stays as it is. */
  function Opened(w: World, s: Slice): Slice {
    if s.kind == Pool && s.data.Res? && s.data.r in w.res && !w.res[s.data.r].pool then s.(kind := Heap) else s
  }

  /** What is read points to the same bytes as before or to memory of its own, and what
      remains points to the same file or pipe. */
  ghost predicate Retargeted(w: World, w': World, e: Bucket, c: Bucket) {
    && e in w.at && e in w'.at && c in w'.at
    && var s, s' := w.at[e], w'.at[e];
       && ((s'.data == s.data && s'.start == s.start && s'.length == s.length && (s'.kind == s.kind || s.kind == Pool))
           || (s.kind in {File, Pipe} && (s'.data.Res? ==> s'.data.r !in w.res)))
       && (c != e ==> s.kind in {File, Pipe} && w'.at[c].kind == s.kind && w'.at[c].data == s.data)
  }

  /** `e` is a heap bucket of exactly these bytes. */
  ghost predicate HeapNow(w: World, e: Bucket, bytes: seq<Byte>) {
    e in w.at && w.at[e].kind == Heap && w.at[e].length == |bytes| && Bytes(w, w.at[e]) == bytes
  }

  /** `e` has turned into a heap bucket of memory of its own, with `c` for the rest. */
  ghost predicate Turned(w: World, w': World, e: Bucket, c: Bucket, bytes: seq<Byte>) {
    && HeapNow(w', e, bytes) && e in w.at && w'.at[e].data.Res? && w'.at[e].data.r !in w.res && c in w'.at
    && w.at[e].kind in {File, Pipe} && (c != e ==> w'.at[c].kind == w.at[e].kind && w'.at[c].data == w.at[e].data)
  }

  /** The ring, with the bucket for what remains. */
  function RingOf(s: seq<Bucket>, i: nat, e: Bucket, c: Bucket): seq<Bucket>
    requires i < |s|
  {
    if c == e then s else After(s, i, c)
  }

  /** heap_make, and a bucket for what remains of the file: no count changes. */
  method KeepRest(ghost w: World, e: Bucket, a: Shared, buf: seq<Byte>)
    returns (c: Bucket, ghost w': World, ghost n: set<object>)
    requires Good(w) && e in w.at && w.at[e].kind == File && w.at[e].data == Res(a) && |buf| < w.at[e].length
    requires
      var fd, t := a.fd, w.at[e];
      Clip(fd, t.start, t.length) == buf + Clip(fd, t.start + |buf|, t.length - |buf|)
    modifies e`v
    ensures Good(w') && c != e && fresh(c) && Conserved(w, w', e, c)
    ensures Turned(w, w', e, c, buf)
    ensures fresh(n) && Within(w, w', n)
  {
    hide Sound, Shows, Fits, SameBytes, Bytes, Clip, Conserved, FileMore, Within, HeapNow, Turned;
    ShownSlice(w, e);
    var rest := Latter(e.v, |buf|);
    var h := new Shared(Heap, |buf|, Resource(1, buf, false, []), []);
    c := new Bucket(rest);
    FileKept(w, e, h, buf, c);
    w', n := FileMore(w, e, h, buf, c), {c, h};
    RegisteredLive(w, h);
    TurnTo(w, w', e, Slice(Heap, |buf|, 0, Res(h)), h, c);
  }

  /** The bucket turns to `h`; `c` comes in. */
  method TurnTo(ghost w: World, ghost w': World, e: Bucket, s: Slice, h: Shared, c: Bucket)
    requires Shows(w) && e in w.at && h !in w.res && h !in w.registered && !h.freed && !h.registered && c != e
    requires w'.at == w.at[e := s][c := c.v] && w'.res == w.res[h := h.v] && w'.pipes == w.pipes && SameRegistry(w, w')
    modifies e`v
    ensures Shows(w')
  {
    e.v := s;
  }

  lemma FileKept(w: World, e: Bucket, h: Shared, buf: seq<Byte>, c: Bucket)
    requires Sound(w) && e in w.at && w.at[e].kind == File && h !in Made(w) && h.form == Heap && h.size == |buf|
    requires c !in w.at && |buf| < w.at[e].length && w.at[e].data.Res?
    requires var s, fd := w.at[e], w.at[e].data.r.fd;
             Clip(fd, s.start, s.length) == buf + Clip(fd, s.start + |buf|, s.length - |buf|)
    ensures var w', u := FileMore(w, e, h, buf, c), Slice(Heap, |buf|, 0, Res(h));
            && Sound(w') && Conserved(w, w', e, c) && Turned(w, w', e, c, buf) && Within(w, w', {c, h}) && c != e
            && w'.at == w.at[c := Latter(w.at[e], |buf|)][e := u] && w'.pipes == w.pipes
            && w'.res == w.res[h := Resource(1, buf, false, [])] && SameRegistry(w, w')
  {
    hide Sound, Fits, SameBytes, Bytes, Clip, Conserved, FileMore, Within;
    FileMoreSound(w, e, h, buf, c);
    FileMoreConserved(w, e, h, buf, c);
    FileMoreShown(w, e, h, buf, c);
  }

  lemma FileMoreShown(w: World, e: Bucket, h: Shared, buf: seq<Byte>, c: Bucket)
    requires e in w.at && w.at[e].kind == File && c !in w.at && |buf| < w.at[e].length
    ensures var w', u := FileMore(w, e, h, buf, c), Slice(Heap, |buf|, 0, Res(h));
            && w'.at == w.at[c := Latter(w.at[e], |buf|)][e := u] && w'.pipes == w.pipes
            && w'.res == w.res[h := Resource(1, buf, false, [])] && w'.at[e] == u && Within(w, w', {c, h})
            && SameRegistry(w, w')
  {
  }

  /** heap_make, and one user less for the file. */
  method Finish(ghost w: World, e: Bucket, a: Shared, buf: seq<Byte>) returns (ghost w': World, ghost n: set<object>)
    requires Good(w) && e in w.at && w.at[e].kind == File && w.at[e].data == Res(a) && |buf| < UNKNOWN
    requires Clip(a.fd, w.at[e].start, w.at[e].length) == buf
    modifies e`v, a`v, a`registered, a`freed
    ensures Good(w') && Conserved(w, w', e, e)
    ensures Turned(w, w', e, e, buf) && (a.freed <==> |Users(w, a)| == 1)
    ensures fresh(n) && Within(w, w', n)
  {
    hide Sound, Shows, Fits, SameBytes, Bytes, Clip, Conserved, FileDone, Replaced, Within, HeapNow, Turned;
    var h := new Shared(Heap, |buf|, Resource(1, buf, false, []), []);
    Finished(w, e, a, buf, h);
    w', n := FileDone(w, e, h, buf), {h};
    Replace(w, w', e, a, Slice(Heap, |buf|, 0, Res(h)), h);
  }

  /** The bucket turns to `h`, and file_bucket_destroy. */
  method Replace(ghost w: World, ghost w': World, e: Bucket, a: Shared, s: Slice, h: Shared)
    requires Shows(w) && e in w.at && a in w.res && w.res[a].refcount > 0 && a !in w.registered && a !in w.gone
    requires !h.freed && !h.registered && h !in w.res && h !in w.gone
    requires w'.at == w.at[e := s] && w'.pipes == w.pipes && Replaced(w, w', a, h, h.v)
    modifies e`v, a`v, a`registered, a`freed
    ensures Shows(w') && (a.freed <==> w.res[a].refcount == 1)
  {
    assert ShowsLive(w, a);
    e.v := s;
    DestroyData(File, a);
  }

  lemma RegisteredLive(w: World, h: Shared)
    requires Sound(w) && h !in w.res
    ensures h !in w.registered
  {
  }

  lemma Finished(w: World, e: Bucket, a: Shared, buf: seq<Byte>, h: Shared)
    requires Sound(w) && e in w.at && w.at[e].kind == File && w.at[e].data == Res(a) && |buf| < UNKNOWN
    requires Clip(a.fd, w.at[e].start, w.at[e].length) == buf && h !in Made(w) && h.form == Heap && h.size == |buf|
    ensures var w', u, v := FileDone(w, e, h, buf), Slice(Heap, |buf|, 0, Res(h)), Resource(1, buf, false, []);
            && a in w.res && w.res[a].refcount == |Users(w, a)| > 0 && a !in w.registered && a !in w.gone
            && Sound(w') && Conserved(w, w', e, e) && Turned(w, w', e, e, buf) && Within(w, w', {h})
            && w'.at == w.at[e := u] && w'.pipes == w.pipes && Replaced(w, w', a, h, v)
  {
    hide Sound, Fits, SameBytes, Bytes, Clip, Conserved, FileDone, Within;
    BucketInSound(w, e);
    FileBytesAre(w, w.at[e]);
    InSound(w, e);
    RegisteredInSound(w, e);
    CountInSound(w, a);
    FileDoneSound(w, e, h, buf);
    RegisteredLive(w, h);
    FileDoneAt(w, e, h, buf, a);
  }

  /** The first half of file_bucket_read: at most BUFF_SIZE bytes of the slice. */
  method FileGet(fd: seq<Byte>, filelength: nat, fileoffset: nat)
    returns (rv: Status, buf: seq<Byte>, ghost io: Io)
    ensures rv in {Success, EndOfFile, IoError} && |buf| <= filelength
    ensures io == Io(false, if filelength > 8000 then 8000 else filelength, rv, buf)
    ensures rv != IoError ==>
      Clip(fd, fileoffset, filelength) == buf + Clip(fd, fileoffset + |buf|, filelength - |buf|)
    ensures rv == Success && filelength > 0 ==> buf != []
    ensures rv == EndOfFile ==> Clip(fd, fileoffset, filelength) == [] == buf
  {
    hide Clip;
    var len := if filelength > BUFF_SIZE then BUFF_SIZE else filelength;
    rv, len, io := FileRead(fd, fileoffset, len);
    buf := if len > 0 then fd[fileoffset..fileoffset + len] else [];
    FileBytes(fd, fileoffset, filelength, len);
  }

  /** file_bucket_read, up to the insertion: the new bucket, or `e` when there is none. */
  method FileBucketRead(ghost w: World, e: Bucket)
    returns (rv: Status, str: seq<Byte>, b: Bucket, ghost io: seq<Io>, ghost w': World, ghost n: set<object>)
    requires Good(w) && e in w.at && w.at[e].kind == File
    modifies e`v, ResOf(e)`v, ResOf(e)`registered, ResOf(e)`freed
    ensures Good(w') && ReadTo(w, w', e, b, rv, str) && (b != e ==> fresh(b)) && Answered(w.at[e], io, rv, str)
    ensures fresh(n) && Within(w, w', n)
  {
    hide Good, Sound, Shows, Fits, SameBytes, Bytes, Clip, Conserved, ReadTo, HeapNow, Turned, Within;
    Shown(w, e);
    FileStart(w, e);
    var a, filelength, fileoffset := e.v.data.r, e.v.length, e.v.start;
    ghost var x;
    rv, str, x := FileGet(a.fd, filelength, fileoffset);
    io := [x];
    b, w', n := e, w, {};
    WithinNothing(w);
    if rv == IoError { NothingRead(w, e, rv, str); return; }
    filelength := filelength - |str|;
    if filelength > 0 && rv != EndOfFile {
      b, w', n := KeepRest(w, e, a, str);
    } else {
      ClipNone(a.fd, fileoffset + |str|);
      w', n := Finish(w, e, a, str);
    }
    HeapRead(w, w', e, b, rv, str);
  }

  lemma FileStart(w: World, e: Bucket)
    requires Good(w) && e in w.at && w.at[e].kind == File
    ensures w.at[e].start >= 0 && w.at[e].length < UNKNOWN && w.at[e].data.Res? && w.at[e].data.r in w.res
  {
    BucketInSound(w, e);
  }

  lemma NothingRead(w: World, e: Bucket, rv: Status, str: seq<Byte>)
    requires e in w.at && w.at[e].kind in {File, Pipe} && rv in {EndOfFile, IoError}
    ensures ReadTo(w, w, e, e, rv, str)
  {
  }

  lemma HeapRead(w: World, w': World, e: Bucket, b: Bucket, rv: Status, str: seq<Byte>)
    requires Conserved(w, w', e, b) && Turned(w, w', e, b, str) && (b != e ==> rv == Success && str != [])
    requires rv in {Success, EndOfFile}
    ensures ReadTo(w, w', e, b, rv, str)
  {
    hide Conserved, Bytes;
  }

  lemma ClipNone(fd: seq<Byte>, start: nat)
    ensures Clip(fd, start, 0) == []
  {
  }

  // ---------- pipes ----------

  const PIPE_START := -1

  function PipeSlice(p: PipeEnd): Slice {
    Slice(Pipe, UNKNOWN, PIPE_START, End(p))
  }

  /** `e` holds what was read, `c` takes over the pipe. */
  ghost function PipeMore(w: World, e: Bucket, p: PipeEnd, rest: seq<Byte>, h: Shared, mem: seq<Byte>, n: nat,
                          c: Bucket): World {
    var w1 := Fed(w.(at := w.at - {e}), p, rest);
    WithPlain(WithFirst(w1, e, Slice(Heap, n, 0, Res(h)), h, Resource(1, mem, false, [])), c, PipeSlice(p))
  }

  /** `e` is empty. */
  ghost function PipeDone(w: World, e: Bucket, p: PipeEnd, rest: seq<Byte>): World {
    WithPlain(Fed(w.(at := w.at - {e}), p, rest), e, Slice(Immortal, 0, 0, Mem([])))
  }

  lemma PipeInSound(w: World, e: Bucket, p: PipeEnd)
    requires Sound(w) && e in w.at && w.at[e].data == End(p)
    ensures p in w.pipes && w.at[e] == PipeSlice(p) && forall x :: x in w.at && w.at[x].data == End(p) ==> x == e
  {
  }

  /** Taking the bucket of a pipe away and reading the pipe. */
  lemma DrainedSound(w: World, e: Bucket, p: PipeEnd, rest: seq<Byte>)
    requires Sound(w) && e in w.at && w.at[e].data == End(p)
    ensures var w1 := Fed(w.(at := w.at - {e}), p, rest);
            Sound(w1) && SameBytes(w, w1) && forall x :: x in w1.at ==> w1.at[x].data != End(p)
  {
    hide Sound, SameBytes;
    PipeInSound(w, e, p);
    WithoutSound(w, e);
    var w0 := Without(w, e);
    assert w0 == w.(at := w.at - {e});
    FedSound(w0, p, rest);
    hide Fed;
    SameBytesStep(w, w0, Fed(w0, p, rest));
  }

  lemma PipeDoneSound(w: World, e: Bucket, p: PipeEnd, rest: seq<Byte>)
    requires Sound(w) && e in w.at && w.at[e].data == End(p) && w.pipes[p] == [] == rest
    ensures Sound(PipeDone(w, e, p, rest)) && Conserved(w, PipeDone(w, e, p, rest), e, e)
    ensures Within(w, PipeDone(w, e, p, rest), {})
  {
    PipeInSound(w, e, p);
    var w1, w' := Fed(w.(at := w.at - {e}), p, rest), PipeDone(w, e, p, rest);
    var s := Slice(Immortal, 0, 0, Mem([]));
    assert Bytes(w', s) == [] == Bytes(w, w.at[e]);
    hide Sound, SameBytes, Bytes;
    DrainedSound(w, e, p, rest);
    WithPlainSound(w1, e, s);
    SameThrough(w, w1, w', e);
  }

  lemma PipeMoreSound(w: World, e: Bucket, p: PipeEnd, rest: seq<Byte>, h: Shared, mem: seq<Byte>, n: nat, c: Bucket)
    requires Sound(w) && e in w.at && w.at[e].data == End(p) && c !in w.at
    requires h !in Made(w) && h.form == Heap && h.size == |mem|
    requires n <= |mem| < UNKNOWN
    ensures var w1, w' := Fed(w.(at := w.at - {e}), p, rest), PipeMore(w, e, p, rest, h, mem, n, c);
            && Sound(w') && SameBytes(w, w1) && SameBytes(w1, w')
            && Bytes(w', w'.at[e]) == mem[..n] && Bytes(w', w'.at[c]) == rest
  {
    hide Sound, SameBytes, Bytes, Fits;
    PipeInSound(w, e, p);
    var s, v := Slice(Heap, n, 0, Res(h)), Resource(1, mem, false, []);
    var w1 := Fed(w.(at := w.at - {e}), p, rest);
    var w2 := WithFirst(w1, e, s, h, v);
    var w' := WithPlain(w2, c, PipeSlice(p));
    HeapPart(w1, e, h, mem, n);
    PipeFits(w2, p, rest);
    DrainedSound(w, e, p, rest);
    HeapPart(w', e, h, mem, n);
    PipeFits(w', p, rest);
    WithFirstSound(w1, e, s, h, v);
    WithPipeSound(w2, c, PipeSlice(p));
    SameBytesStep(w1, w2, w');
  }

  lemma HeapPart(w: World, e: Bucket, h: Shared, mem: seq<Byte>, n: nat)
    requires h.form == Heap && h.size == |mem| && n <= |mem| && n < UNKNOWN
    ensures var s, v := Slice(Heap, n, 0, Res(h)), Resource(1, mem, false, []);
            && Fits(WithFirst(w, e, s, h, v), s) && Memory(h, v) == mem
            && (h in w.res && w.res[h] == v ==> Bytes(w, s) == mem[..n])
  {
  }

  lemma PipeFits(w: World, p: PipeEnd, rest: seq<Byte>)
    requires p in w.pipes && w.pipes[p] == rest
    ensures Fits(w, PipeSlice(p)) && Bytes(w, PipeSlice(p)) == rest
  {
  }

  lemma PipeMoreConserved(w: World, e: Bucket, p: PipeEnd, rest: seq<Byte>, h: Shared, mem: seq<Byte>, n: nat,
                          c: Bucket)
    requires Sound(w) && e in w.at && w.at[e].data == End(p) && c !in w.at
    requires h !in Made(w) && h.form == Heap && h.size == |mem|
    requires n <= |mem| < UNKNOWN && p in w.pipes && w.pipes[p] == mem[..n] + rest
    ensures Conserved(w, PipeMore(w, e, p, rest, h, mem, n, c), e, c)
  {
    hide Sound, SameBytes, Bytes, Fits, PipeMore, Fed, Divided;
    PipeInSound(w, e, p);
    PipeFits(w, p, w.pipes[p]);
    PipeMoreAt(w, e, p, rest, h, mem, n, c);
    PipeMoreSound(w, e, p, rest, h, mem, n, c);
    var w1, w' := Fed(w.(at := w.at - {e}), p, rest), PipeMore(w, e, p, rest, h, mem, n, c);
    PipeThrough(w, w1, w', e, c);
    DividedIs(w, w', e, c);
  }

  lemma PipeMoreAt(w: World, e: Bucket, p: PipeEnd, rest: seq<Byte>, h: Shared, mem: seq<Byte>, n: nat, c: Bucket)
    requires e in w.at && w.at[e].data == End(p) && c !in w.at
    ensures var w1, w' := Fed(w.(at := w.at - {e}), p, rest), PipeMore(w, e, p, rest, h, mem, n, c);
            && w1.at == w.at - {e} && e in w'.at && w'.at[e] == Slice(Heap, n, 0, Res(h)) && c in w'.at
            && w'.at[c] == PipeSlice(p)
            && w'.at == w1.at[e := w'.at[e]][c := w'.at[c]]
            && w'.res == w.res[h := Resource(1, mem, false, [])] && w'.pipes == w.pipes[p := rest]
            && (p in w.pipes ==> Within(w, w', {c, h})) && SameRegistry(w, w')
  {
  }

  lemma PipeThrough(w: World, w1: World, w': World, e: Bucket, c: Bucket)
    requires SameBytes(w, w1) && SameBytes(w1, w') && e in w.at && c !in w.at
    requires w1.at == w.at - {e} && e in w'.at && c in w'.at
    requires w'.at == w1.at[e := w'.at[e]][c := w'.at[c]] && w'.at[e] != w.at[e]
    ensures SameBytes(w, w') && w'.at == w.at[e := w'.at[e]][c := w'.at[c]]
  {
    hide Bytes;
  }

  /** heap_make with a buffer of BUFF_SIZE bytes of which `bytes` have been filled, and a
      new bucket for the pipe. */
  method KeepPipe(ghost w: World, e: Bucket, p: PipeEnd, bytes: seq<Byte>)
    returns (c: Bucket, ghost w': World, ghost n: set<object>)
    requires Sound(w) && Shows(w.(pipes := w.pipes[p := p.rest])) && e in w.at && w.at[e].data == End(p)
    requires p in w.pipes && w.pipes[p] == bytes + p.rest && |bytes| <= BUFF_SIZE
    modifies e`v
    ensures Good(w') && c != e && fresh(c) && Conserved(w, w', e, c) && Turned(w, w', e, c, bytes)
    ensures fresh(n) && Within(w, w', n)
  {
    hide Sound, Shows, Fits, SameBytes, Bytes, Conserved, PipeMore, Within, HeapNow, Turned;
    var mem := bytes + seq(BUFF_SIZE - |bytes|, _ => 0);
    var h := new Shared(Heap, BUFF_SIZE, Resource(1, mem, false, []), []);
    c := new Bucket(PipeSlice(p));
    PipeKept(w, e, p, p.rest, h, mem, bytes, c);
    w', n := PipeMore(w, e, p, p.rest, h, mem, |bytes|, c), {c, h};
    RegisteredLive(w, h);
    TurnTo(w.(pipes := w.pipes[p := p.rest]), w', e, Slice(Heap, |bytes|, 0, Res(h)), h, c);
  }

  lemma PipeKept(w: World, e: Bucket, p: PipeEnd, rest: seq<Byte>, h: Shared, mem: seq<Byte>, bytes: seq<Byte>,
                 c: Bucket)
    requires Sound(w) && e in w.at && w.at[e].data == End(p) && c !in w.at
    requires h !in Made(w) && h.form == Heap && h.size == |mem|
    requires bytes <= mem && |mem| < UNKNOWN && p in w.pipes && w.pipes[p] == bytes + rest
    ensures var w', n := PipeMore(w, e, p, rest, h, mem, |bytes|, c), |bytes|;
            && Sound(w') && Conserved(w, w', e, c) && Turned(w, w', e, c, bytes) && Within(w, w', {c, h})
            && w'.at == w.at[e := Slice(Heap, n, 0, Res(h))][c := PipeSlice(p)]
            && w'.res == w.res[h := Resource(1, mem, false, [])] && w'.pipes == w.pipes[p := rest]
            && SameRegistry(w, w')
  {
    hide Sound, Fits, SameBytes, Bytes, Conserved, PipeMore, Within;
    PipeInSound(w, e, p);
    assert mem[..|bytes|] == bytes;
    PipeMoreSound(w, e, p, rest, h, mem, |bytes|, c);
    PipeMoreConserved(w, e, p, rest, h, mem, |bytes|, c);
    PipeMoreAt(w, e, p, rest, h, mem, |bytes|, c);
  }

  /** The bucket becomes an immortal one, of the empty string. */
  method EndPipe(ghost w: World, e: Bucket, p: PipeEnd) returns (ghost w': World, ghost n: set<object>)
    requires Sound(w) && Shows(w.(pipes := w.pipes[p := p.rest])) && e in w.at && w.at[e].data == End(p)
    requires p in w.pipes && w.pipes[p] == [] == p.rest
    modifies e`v
    ensures Good(w') && Conserved(w, w', e, e)
    ensures e in w'.at && w'.at[e] == Slice(Immortal, 0, 0, Mem([]))
    ensures fresh(n) && Within(w, w', n)
  {
    hide Sound, Fits, SameBytes, Bytes, Conserved, Within;
    PipeDoneSound(w, e, p, p.rest);
    e.v := Slice(Immortal, 0, 0, Mem([]));
    w', n := PipeDone(w, e, p, p.rest), {};
  }

  lemma EmptyRead(w: World, w': World, e: Bucket)
    requires Conserved(w, w', e, e) && e in w.at && w.at[e].kind == Pipe
    requires e in w'.at && w'.at[e] == Slice(Immortal, 0, 0, Mem([]))
    ensures ReadTo(w, w', e, e, Success, [])
  {
    hide Conserved;
  }

  /** pipe_bucket_read, up to the insertion. */
  method PipeBucketRead(ghost w: World, e: Bucket)
    returns (rv: Status, str: seq<Byte>, b: Bucket, ghost io: seq<Io>, ghost w': World, ghost n: set<object>)
    requires Good(w) && e in w.at && w.at[e].kind == Pipe
    modifies e`v, EndOf(e)
    ensures Good(w') && ReadTo(w, w', e, b, rv, str) && (b != e ==> fresh(b)) && Answered(w.at[e], io, rv, str)
    ensures fresh(n) && Within(w, w', n)
  {
    hide Good, Sound, Shows, ReadTo, Within;
    PipeShown(w, e);
    var p := e.v.data.p;
    ghost var x;
    rv, str, x := Drain(w, p);
    io := [x];
    b, w', n := e, w, {};
    if rv == IoError {
      WithinNothing(w);
      NothingRead(w, e, rv, str);
    } else {
      b, w', n := Turn(w, e, p, str);
      if str == [] && rv == EndOfFile { p.closed := true; }
      rv := Success;
    }
  }

  lemma PipeShown(w: World, e: Bucket)
    requires Good(w) && e in w.at && w.at[e].kind == Pipe
    ensures e.v == w.at[e] && e.v.data.End? && e.v.data.p in w.pipes
  {
    BucketInSound(w, e);
  }

  /** The bucket turns into one of what was read. */
  method Turn(ghost w: World, e: Bucket, p: PipeEnd, str: seq<Byte>)
    returns (b: Bucket, ghost w': World, ghost n: set<object>)
    requires Sound(w) && Shows(w.(pipes := w.pipes[p := p.rest]))
    requires e in w.at && w.at[e].data == End(p) && w.at[e].kind == Pipe
    requires p in w.pipes && w.pipes[p] == str + p.rest && |str| <= BUFF_SIZE && (str == [] ==> p.rest == [])
    modifies e`v
    ensures Good(w') && ReadTo(w, w', e, b, Success, str) && (b != e ==> fresh(b))
    ensures fresh(n) && Within(w, w', n)
  {
    hide Good, Sound, Shows, Conserved, ReadTo, HeapNow, Turned, Within;
    b := e;
    if |str| > 0 {
      b, w', n := KeepPipe(w, e, p, str);
      HeapRead(w, w', e, b, Success, str);
    } else {
      w', n := EndPipe(w, e, p);
      EmptyRead(w, w', e);
    }
  }

  /** The read from the pipe. */
  method Drain(ghost w: World, p: PipeEnd) returns (rv: Status, str: seq<Byte>, ghost io: Io)
    requires Good(w) && p in w.pipes
    modifies p`rest
    ensures io == Io(true, 8000, rv, str)
    ensures rv in {Success, EndOfFile, IoError} && |str| <= BUFF_SIZE && w.pipes[p] == str + p.rest
    ensures rv == IoError ==> Good(w)
    ensures Sound(w) && Shows(w.(pipes := w.pipes[p := p.rest]))
    ensures str == [] && rv != IoError ==> w.pipes[p] == [] == p.rest
  {
    hide Sound;
    assert p.rest == w.pipes[p];
    rv, str, io := PipeRead(p, BUFF_SIZE);
  }

  // ---------- memory ----------

  /** heap_bucket_read and simple_bucket_read; metadata reads as nothing. */
  method MemoryRead(ghost w: World, e: Bucket) returns (rv: Status, str: seq<Byte>)
    requires Good(w) && e in w.at && w.at[e].kind in {Heap, Immortal, Transient, Metadata}
    ensures ReadTo(w, w, e, e, rv, str) && rv == Success
  {
    hide Good, Sound, Shows, Fits, SameBytes, Bytes, ReadTo, Memory;
    Shown(w, e);
    MemoryFits(w, e);
    rv, str := Success, [];
    if e.v.data.Res? {
      str := e.v.data.r.v.mem[e.v.start..e.v.start + e.v.length];
    } else if e.v.data.Mem? {
      str := e.v.data.bytes[e.v.start..e.v.start + e.v.length];
    }
    MemoryDone(w, e, str);
  }

  lemma MemoryFits(w: World, e: Bucket)
    requires Good(w) && e in w.at && w.at[e].kind in {Heap, Immortal, Transient, Metadata}
    ensures var s := w.at[e];
            if s.data.Res? then
              && s.data.r in w.res && Memory(s.data.r, w.res[s.data.r]) == w.res[s.data.r].mem == s.data.r.v.mem
              && 0 <= s.start && s.start + s.length <= |w.res[s.data.r].mem|
            else if s.data.Mem? then 0 <= s.start && s.start + s.length <= |s.data.bytes|
            else s.data.NoData? && s.length == 0
  {
    BucketInSound(w, e);
    if w.at[e].data.Res? {
      assert Kept(w, w.at[e].data.r);
      hide Sound, Users;
    }
  }

  lemma MemoryDone(w: World, e: Bucket, str: seq<Byte>)
    requires e in w.at && w.at[e].kind !in {File, Pipe, Pool}
    requires var s := w.at[e];
             if s.data.Res? then
               && s.data.r in w.res && 0 <= s.start && s.start + s.length <= |Memory(s.data.r, w.res[s.data.r])|
               && str == Memory(s.data.r, w.res[s.data.r])[s.start..s.start + s.length]
             else if s.data.Mem? then
               0 <= s.start && s.start + s.length <= |s.data.bytes| && str == s.data.bytes[s.start..s.start + s.length]
             else s.data.NoData? && s.length == 0 && str == []
    ensures ReadTo(w, w, e, e, Success, str)
  {
    hide Memory;
  }

  /** pool_bucket_read: a bucket whose pool has been cleaned up goes on as a heap bucket. */
  method PoolBucketRead(ghost w: World, e: Bucket) returns (rv: Status, str: seq<Byte>, ghost w': World,
                        ghost n: set<object>)
    requires Good(w) && e in w.at && w.at[e].kind == Pool
    modifies e`v
    ensures Good(w') && ReadTo(w, w', e, e, rv, str) && rv == Success
    ensures fresh(n) && Within(w, w', n)
  {
    hide Good, Sound, Shows, Fits, SameBytes, Bytes, ReadTo, Within;
    PoolFits(w, e);
    var p, start, length := e.v.data.r, e.v.start, e.v.length;
    var base := p.v.base;
    w', n := w, {};
    WithinNothing(w);
    SameBytesNothing(w);
    if !p.v.pool {
      w' := Masquerade(w, e);
      base := p.v.mem;
    } else {
      ReslicedNothing(w, e);
    }
    str := base[start..start + length];
    rv := Success;
    PoolRead(w, w', e, str);
  }

  lemma ReslicedNothing(w: World, e: Bucket)
    requires e in w.at
    ensures Resliced(w, e, w.at[e]) == w
  {
    assert w.at[e := w.at[e]] == w.at;
  }

  lemma SameBytesNothing(w: World)
    ensures SameBytes(w, w)
  {
  }

  /** b->type = &apr_bucket_type_heap */
  method Masquerade(ghost w: World, e: Bucket) returns (ghost w': World)
    requires Good(w) && e in w.at && Fits(w, w.at[e].(kind := Heap))
    modifies e`v
    ensures Good(w') && w' == Resliced(w, e, w.at[e].(kind := Heap)) && e.v == w'.at[e] && SameBytes(w, w')
    ensures Within(w, w', {})
  {
    hide Sound, Fits, SameBytes;
    e.v := e.v.(kind := Heap);
    w' := Resliced(w, e, e.v);
    ReslicedSound(w, e, e.v);
  }

  lemma PoolFits(w: World, e: Bucket)
    requires Good(w) && e in w.at && w.at[e].kind == Pool
    ensures e.v == w.at[e]
    ensures e.v.data.Res? ==> e.v.data.r in w.res && e.v.data.r.v == w.res[e.v.data.r]
    ensures var s := w.at[e];
            && s.data.Res? && s.data.r in w.res && s.data.r.form == Pool && 0 <= s.start
            && s.start + s.length <= |Memory(s.data.r, w.res[s.data.r])|
            && (!w.res[s.data.r].pool ==> Fits(w, s.(kind := Heap)))
  {
    BucketInSound(w, e);
    assert Kept(w, w.at[e].data.r);
    hide Sound, Users;
  }

  lemma PoolRead(w: World, w': World, e: Bucket, str: seq<Byte>)
    requires e in w.at && w.at[e].kind == Pool && SameBytes(w, w')
    requires w' == Resliced(w, e, Opened(w, w.at[e]))
    requires var s := w.at[e];
             && s.data.Res? && s.data.r in w.res && s.start >= 0
             && s.start + s.length <= |Memory(s.data.r, w.res[s.data.r])|
             && str == Memory(s.data.r, w.res[s.data.r])[s.start..s.start + s.length]
    ensures ReadTo(w, w', e, e, Success, str)
  {
    hide SameBytes, Memory;
  }

  // ---------- any bucket ----------

  /** A bucket for what remains is linked in. */
  method LinkRest(ghost w: World, e: Bucket, b: Bucket, ghost s: seq<Bucket>, ghost i: nat)
    requires Good(w) && Ring(s) && i < |s| && s[i] == e && (b != e ==> b !in s)
    modifies s`next, s`prev, b`next, b`prev
    ensures Good(w) && Ring(RingOf(s, i, e, b))
  {
    hide Good, Ring;
    if b != e { InsertAfter(e, b, s, i); }
  }

  /** The read function of the type of a bucket. */
  method TypeRead(ghost w: World, e: Bucket)
    returns (rv: Status, str: seq<Byte>, b: Bucket, ghost io: seq<Io>, ghost w': World, ghost n: set<object>)
    requires Good(w) && e in w.at
    modifies e`v, ResOf(e)`v, ResOf(e)`registered, ResOf(e)`freed, EndOf(e)
    ensures Good(w') && ReadTo(w, w', e, b, rv, str) && (b != e ==> fresh(b))
    ensures Answered(w.at[e], io, rv, str)
    ensures fresh(n) && Within(w, w', n)
  {
    hide Good, ReadTo, Within;
    Shown(w, e);
    b, io, w', n := e, [], w, {};
    WithinNothing(w);
    match e.v.kind
    case File => rv, str, b, io, w', n := FileBucketRead(w, e);
    case Pipe => rv, str, b, io, w', n := PipeBucketRead(w, e);
    case Pool => rv, str, w', n := PoolBucketRead(w, e);
    case _ => rv, str := MemoryRead(w, e);
  }

  /** apr_bucket_read */
  method Read(ghost w: World, e: Bucket, ghost s: seq<Bucket>, ghost i: nat)
    returns (rv: Status, str: seq<Byte>, ghost c: Bucket, ghost io: seq<Io>, ghost w': World, ghost n: set<object>)
    requires Good(w) && e in w.at && Ring(s) && i < |s| && s[i] == e
    modifies e`v, ResOf(e)`v, ResOf(e)`registered, ResOf(e)`freed, EndOf(e), s`next, s`prev
    ensures Good(w') && ReadTo(w, w', e, c, rv, str) && (c != e ==> fresh(c)) && Ring(RingOf(s, i, e, c))
    ensures Answered(w.at[e], io, rv, str)
    ensures fresh(n) && Within(w, w', n)
  {
    hide Good, Ring, ReadTo, RingOf, Within, Answered;
    var b;
    rv, str, b, io, w', n := TypeRead(w, e);
    assert Ring(s);
    LinkRest(w', e, b, s, i);
    c := b;
  }
}
