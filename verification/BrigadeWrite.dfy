/** apr_brigade_write, and what writing into the spare room of a bucket does to the others. */
module BrigadeWrite {
  import opened Buckets
  import opened Rings
  import opened BucketOps
  import opened BucketRead
  import opened BucketMake
  import opened BrigadeSpec
  import opened Brigades

  /** The end of a slice in its memory. */
  function EndOfSlice(s: Slice): int {
    s.start + s.length
  }

  /** memcpy */
  function Poke(m: seq<Byte>, at: nat, str: seq<Byte>): (m': seq<Byte>)
    requires at + |str| <= |m|
    ensures |m'| == |m|
  {
    m[..at] + str + m[at + |str|..]
  }

  /** A heap bucket with room for `n` more bytes. */
  ghost predicate HasRoom(w: World, e: Bucket, n: nat) {
    && e in w.at && w.at[e].kind == Heap && w.at[e].data.Res? && w.at[e].data.r in w.res
    && 0 <= w.at[e].start && w.at[e].length + n < UNKNOWN
    && EndOfSlice(w.at[e]) + n <= |w.res[w.at[e].data.r].mem|
  }

  /** memcpy to the end of a heap bucket, which grows by as much. */
  ghost function Written(w: World, e: Bucket, str: seq<Byte>): World
    requires HasRoom(w, e, |str|)
  {
    var s, r := w.at[e], w.at[e].data.r;
    w.(at := w.at[e := s.(length := s.length + |str|)],
       res := w.res[r := w.res[r].(mem := Poke(w.res[r].mem, EndOfSlice(s), str))])
  }

  lemma RoomInMemory(w: World, e: Bucket)
    requires Sound(w) && e in w.at && w.at[e].kind == Heap
    ensures var s := w.at[e];
            && s.data.Res? && s.data.r in w.res && 0 <= s.start && EndOfSlice(s) <= |w.res[s.data.r].mem|
            && |w.res[s.data.r].mem| == s.data.r.size && Memory(s.data.r, w.res[s.data.r]) == w.res[s.data.r].mem
            && (w.res[s.data.r].pool || s.data.r !in w.registered)
            && s.data.r.form in {Heap, Pool} && (s.data.r.form == Pool ==> !w.res[s.data.r].pool)
  {
    BucketInSound(w, e);
    assert Buckets.Kept(w, w.at[e].data.r);
    hide Sound, Users;
  }

  lemma WrittenSound(w: World, e: Bucket, str: seq<Byte>)
    requires Sound(w) && HasRoom(w, e, |str|)
    ensures Sound(Written(w, e, str))
  {
    hide Sound, Fits, Poke, Written, Changed, Resliced, Memory, SameBytes;
    RoomInMemory(w, e);
    var s, r, v := w.at[e], w.at[e].data.r, w.res[w.at[e].data.r];
    var s', v' := s.(length := s.length + |str|), v.(mem := Poke(v.mem, EndOfSlice(s), str));
    WrittenIs(w, e, str, r, s', v');
    GrownFits(w, s, s');
    SizeSame(r, v, v');
    ReslicedSound(w, e, s');
    ReslicedRes(w, e, s');
    ChangedSound(Resliced(w, e, s'), r, v');
  }

  lemma ReslicedRes(w: World, e: Bucket, s: Slice)
    ensures Resliced(w, e, s).res == w.res
  {
  }

  lemma WrittenIs(w: World, e: Bucket, str: seq<Byte>, r: Shared, s': Slice, v': Resource)
    requires HasRoom(w, e, |str|) && r == w.at[e].data.r && s' == w.at[e].(length := w.at[e].length + |str|)
    requires v' == w.res[r].(mem := Poke(w.res[r].mem, EndOfSlice(w.at[e]), str))
    requires w.res[r].pool || r !in w.registered
    ensures Written(w, e, str) == Changed(Resliced(w, e, s'), r, v')
  {
    hide Poke;
    assert !w.res[r].pool ==> w.registered - {r} == w.registered;
  }

  lemma GrownFits(w: World, s: Slice, s': Slice)
    requires s.kind == Heap && s' == s.(length := s'.length) && s.data.Res? && s.data.r in w.res
    requires 0 <= s.start && s'.length < UNKNOWN && EndOfSlice(s') <= s.data.r.size
    requires s.data.r.form == Heap || (s.data.r.form == Pool && !w.res[s.data.r].pool)
    ensures Fits(w, s')
  {
  }

  lemma SizeSame(r: Shared, v: Resource, v': Resource)
    requires v'.pool == v.pool && v'.base == v.base && |v'.mem| == |v.mem|
    ensures |Memory(r, v')| == |Memory(r, v)|
  {
  }

  lemma GrownBytes(w: World, e: Bucket, str: seq<Byte>)
    requires Sound(w) && HasRoom(w, e, |str|)
    ensures var w' := Written(w, e, str); Bytes(w', w'.at[e]) == Bytes(w, w.at[e]) + str
  {
    hide Sound, Fits, Bytes, Clip, Poke;
    RoomInMemory(w, e);
    var s, r := w.at[e], w.at[e].data.r;
    SharedBytes(w, s, r);
    SharedBytes(Written(w, e, str), s.(length := s.length + |str|), r);
    PokeGrows(w.res[r].mem, s.start, s.length, str);
    WrittenRes(w, e, str);
  }

  lemma PokeGrows(m: seq<Byte>, start: nat, length: nat, str: seq<Byte>)
    requires start + length + |str| <= |m|
    ensures Clip(Poke(m, start + length, str), start, length + |str|) == Clip(m, start, length) + str
  {
  }

  /** Where another bucket covers what is written, the bytes are those that are there. */
  ghost predicate Harmless(w: World, e: Bucket, str: seq<Byte>, x: Bucket)
    requires HasRoom(w, e, |str|) && x in w.at
  {
    var end, t, m := EndOfSlice(w.at[e]), w.at[x], w.res[w.at[e].data.r].mem;
    t.data == w.at[e].data ==>
      forall p :: t.start <= p < EndOfSlice(t) && end <= p < end + |str| ==> str[p - end] == m[p]
  }

  lemma PokedSlice(m: seq<Byte>, end: nat, str: seq<Byte>, i: nat, j: nat)
    requires end + |str| <= |m| && i <= j <= |m|
    ensures Clip(Poke(m, end, str), i, j - i) == Clip(m, i, j - i) <==>
              forall p :: i <= p < j && end <= p < end + |str| ==> str[p - end] == m[p]
  {
    var m' := Poke(m, end, str);
    assert forall p :: 0 <= p < |m| ==> m'[p] == if end <= p < end + |str| then str[p - end] else m[p];
    hide Poke;
    if i < j {
      assert Clip(m, i, j - i) == m[i..j] && Clip(m', i, j - i) == m'[i..j];
      if m'[i..j] == m[i..j] {
        forall p | i <= p < j ensures m'[p] == m[p] { assert m'[i..j][p - i] == m[i..j][p - i]; }
      }
    }
  }

  /** Writing into the spare room leaves another bucket's bytes alone if and only if it
      is harmless to it. */
  lemma WriteIsHarmless(w: World, e: Bucket, str: seq<Byte>, x: Bucket)
    requires Sound(w) && HasRoom(w, e, |str|) && x in w.at && x != e
    ensures Bytes(Written(w, e, str), w.at[x]) == Bytes(w, w.at[x]) <==> Harmless(w, e, str, x)
  {
    if w.at[x].data == w.at[e].data { SharedCase(w, e, str, x); } else { OtherCase(w, e, str, x); }
  }

  lemma OtherCase(w: World, e: Bucket, str: seq<Byte>, x: Bucket)
    requires Sound(w) && HasRoom(w, e, |str|) && x in w.at && w.at[x].data != w.at[e].data
    ensures Bytes(Written(w, e, str), w.at[x]) == Bytes(w, w.at[x])
  {
    hide Sound, Poke, Fits, Bytes, Memory;
    BucketInSound(w, x);
    FitsRefers(w, w.at[x]);
    BytesStill(w, Written(w, e, str), w.at[x]);
  }

  lemma SharedCase(w: World, e: Bucket, str: seq<Byte>, x: Bucket)
    requires Sound(w) && HasRoom(w, e, |str|) && x in w.at && w.at[x].data == w.at[e].data
    ensures Bytes(Written(w, e, str), w.at[x]) == Bytes(w, w.at[x]) <==> Harmless(w, e, str, x)
  {
    hide Sound, Poke, Clip, Bytes, Fits, Written;
    var t, r, end := w.at[x], w.at[e].data.r, EndOfSlice(w.at[e]);
    var w' := Written(w, e, str);
    SharedSlice(w, e, x);
    WrittenRes(w, e, str);
    SharedBytes(w, t, r);
    SharedBytes(w', t, r);
    PokedSlice(w.res[r].mem, end, str, t.start, EndOfSlice(t));
  }

  lemma WrittenRes(w: World, e: Bucket, str: seq<Byte>)
    requires HasRoom(w, e, |str|)
    ensures var r := w.at[e].data.r;
            && r in Written(w, e, str).res && Written(w, e, str).res[r].pool == w.res[r].pool
            && Written(w, e, str).res[r].mem == Poke(w.res[r].mem, EndOfSlice(w.at[e]), str)
  {
    hide Poke;
  }

  lemma SharedSlice(w: World, e: Bucket, x: Bucket)
    requires Sound(w) && HasRoom(w, e, 0) && x in w.at && w.at[x].data == w.at[e].data
    ensures var t, r := w.at[x], w.at[e].data.r;
            && 0 <= t.start && EndOfSlice(t) <= |w.res[r].mem| && (r.form == Heap || (r.form == Pool && !w.res[r].pool))
  {
    RoomInMemory(w, e);
    BucketInSound(w, x);
  }

  lemma SharedBytes(w: World, t: Slice, r: Shared)
    requires t.data == Res(r) && r in w.res && (r.form == Heap || (r.form == Pool && !w.res[r].pool))
    ensures Bytes(w, t) == Clip(w.res[r].mem, t.start, t.length)
  {
  }

  // ---------- the methods ----------

  /** memcpy(buf, str, nbyte); e->length += nbyte */
  method CopyToEnd(ghost w: World, e: Bucket, str: seq<Byte>) returns (ghost w': World)
    requires Good(w) && HasRoom(w, e, |str|)
    modifies e`v, ResOf(e)`v
    ensures Good(w') && w' == Written(w, e, str)
  {
    hide Sound, Shows, Poke, Written, HasRoom;
    Prepared(w, e, str);
    var h, s := e.v.data.r, e.v;
    var v := h.v.(mem := Poke(h.v.mem, s.start + s.length, str));
    w' := Store(w, e, h, v, s.(length := s.length + |str|));
  }

  lemma Prepared(w: World, e: Bucket, str: seq<Byte>)
    requires Good(w) && HasRoom(w, e, |str|)
    ensures e in w.at && e.v.data.Res? && ResOf(e) == {e.v.data.r} && e.v.data.r in w.res
    ensures var s, h := e.v, e.v.data.r;
            && 0 <= s.start + s.length && s.start + s.length + |str| <= |h.v.mem|
            && Sound(Written(w, e, str))
            && Written(w, e, str) ==
                 w.(at := w.at[e := s.(length := s.length + |str|)],
                    res := w.res[h := h.v.(mem := Poke(h.v.mem, s.start + s.length, str))])
  {
    hide Sound, Shows, Poke, Written;
    WrittenSound(w, e, str);
    WrittenParts(w, e, str);
    ResShown(w, e);
  }

  /** The two assignments. */
  method Store(ghost w: World, e: Bucket, h: Shared, v: Resource, s: Slice) returns (ghost w': World)
    requires Shows(w) && e in w.at && h in w.res
    modifies e`v, h`v
    ensures Shows(w') && w' == w.(at := w.at[e := s], res := w.res[h := v])
  {
    h.v := v;
    e.v := s;
    w' := w.(at := w.at[e := s], res := w.res[h := v]);
  }

  lemma ResShown(w: World, e: Bucket)
    requires Good(w) && HasRoom(w, e, 0)
    ensures e.v == w.at[e] && e.v.data.r.v == w.res[e.v.data.r]
  {
  }

  lemma WrittenParts(w: World, e: Bucket, str: seq<Byte>)
    requires HasRoom(w, e, |str|)
    ensures HasRoom(w, e, 0)
    ensures var s, r := w.at[e], w.at[e].data.r;
            Written(w, e, str) ==
              w.(at := w.at[e := s.(length := s.length + |str|)],
                 res := w.res[r := w.res[r].(mem := Poke(w.res[r].mem, s.start + s.length, str))])
  {
    hide Poke;
  }

  /** apr_bucket_heap_create */
  method HeapCreate(ghost w: World, mem: seq<Byte>, length: nat)
    returns (e: Bucket, ghost w': World, ghost n: set<object>)
    requires Good(w) && length <= |mem| < UNKNOWN
    ensures Good(w') && fresh(e) && SameBytes(w, w') && HeapMade(w, w', e, mem, length)
    ensures fresh(n) && Within(w, w', n)
  {
    hide Sound, SameBytes, HeapMade;
    e := new Bucket(Slice(Metadata, 0, 0, NoData));
    w', n := HeapMake(w, e, mem, length);
    n := n + {e};
  }

  /** A new heap bucket at the end of a brigade, with `length` bytes of `mem`. */
  method NewTail(ghost w: World, b: Brigade, mem: seq<Byte>, length: nat)
    returns (e: Bucket, ghost w': World, ghost n: set<object>)
    requires Good(w) && b.Valid(w) && length <= |mem| < UNKNOWN
    modifies b`items, b.items`next, b.items`prev, b.list`next, b.list`prev
    ensures Good(w') && b.Valid(w') && fresh(e) && SameBytes(w, w') && HeapMade(w, w', e, mem, length)
    ensures b.items == old(b.items) + [e] && fresh(n) && Within(w, w', n)
  {
    hide Good, Ring, SameBytes, HeapMade, AllLive, Within;
    b.Open(w);
    ghost var r := [b.list] + b.items;
    e, w', n := HeapCreate(w, mem, length);
    assert Ring(r);
    LiveWith(w, w', b.items, e, mem, length);
    b.Close(w');
    b.InsertTail(w', e);
    assert Good(w');
  }

  lemma LiveWith(w: World, w': World, s: seq<Bucket>, e: Bucket, mem: seq<Byte>, length: nat)
    requires AllLive(w, s) && HeapMade(w, w', e, mem, length)
    ensures AllLive(w', s) && e in w'.at && (forall b :: b !in w.at && b != e ==> b !in w'.at)
  {
  }

  /** The last bucket is a heap bucket, into which the bytes fit. */
  ghost predicate Fitting(w: World, s: seq<Bucket>, n: nat) {
    && s != []
    && var e := s[|s| - 1];
       && e in w.at && w.at[e].kind == Heap && w.at[e].data.Res?
       && EndOfSlice(w.at[e]) + n <= w.at[e].data.r.size
  }

  /** A write does no harm to other buckets. */
  ghost predicate Safe(w: World, s: seq<Bucket>, str: seq<Byte>) {
    Fitting(w, s, |str|) ==>
      var e := s[|s| - 1];
      HasRoom(w, e, |str|) && forall x :: x in w.at && x != e ==> Harmless(w, e, str, x)
  }

  /** What a write does to the slices: the last one grows, or a bucket with memory of its
      own is added. */
  ghost predicate Appended(w: World, w': World, s: seq<Bucket>, s': seq<Bucket>, n: nat) {
    if s' == s then
      s != [] && var e := s[|s| - 1]; e in w.at && w'.at == w.at[e := w.at[e].(length := w.at[e].length + n)]
    else
      s' != [] && var e := s'[|s'| - 1];
        && s' == s + [e] && e !in w.at && e in w'.at && w'.at == w.at[e := w'.at[e]]
        && (w'.at[e].data.Mem? || (w'.at[e].data.Res? && w'.at[e].data.r !in w.res))
  }

  /** ... while no bucket elsewhere changes its length. */
  ghost predicate Grew(w: World, w': World, s: seq<Bucket>, s': seq<Bucket>, n: nat) {
    Appended(w, w', s, s', n)
    && forall x :: x in w.at && x !in s ==>
      x in w'.at && w'.at[x] == w.at[x] && |Bytes(w', w.at[x])| == |Bytes(w, w.at[x])|
  }

  lemma StreamedGrew(w: World, w': World, s: seq<Bucket>, s': seq<Bucket>, str: seq<Byte>)
    requires Streamed(w, w', s, s', str)
    ensures Grew(w, w', s, s', |str|)
  {
    hide Bytes, Content, Appended;
  }

  /** Buckets elsewhere are still there, and none of them has come in. */
  ghost predicate Evolved(w: World, w': World, s: seq<Bucket>, s': seq<Bucket>) {
    (forall b :: b in w.at && b !in s ==> b in w'.at) && Fresh(w, s, s')
  }

  lemma EvolvedStep(w: World, w1: World, w': World, s: seq<Bucket>, s1: seq<Bucket>, s': seq<Bucket>)
    requires Evolved(w, w1, s, s1) && Evolved(w1, w', s1, s')
    ensures Evolved(w, w', s, s')
  {
  }

  lemma EvolvedNothing(w: World, s: seq<Bucket>)
    ensures Evolved(w, w, s, s)
  {
  }

  lemma GrewEvolves(w: World, w': World, s: seq<Bucket>, s': seq<Bucket>, n: nat)
    requires Grew(w, w', s, s', n)
    ensures Evolved(w, w', s, s')
  {
    hide Bytes;
  }

  lemma WrittenGrew(w: World, s: seq<Bucket>, str: seq<Byte>)
    requires Sound(w) && s != [] && HasRoom(w, s[|s| - 1], |str|)
    ensures Grew(w, Written(w, s[|s| - 1], str), s, s, |str|)
  {
    hide Sound, Bytes, Poke;
    WrittenLengths(w, s[|s| - 1], str);
    WrittenParts(w, s[|s| - 1], str);
  }

  /** The bytes are at the end of the stream, and nothing else has changed. */
  ghost predicate Streamed(w: World, w': World, s: seq<Bucket>, s': seq<Bucket>, str: seq<Byte>) {
    Content(w', s') == Content(w, s) + str && Untouched(w, w', s) && Appended(w, w', s, s', |str|)
  }

  /** Into the last bucket. */
  lemma WrittenStreams(w: World, s: seq<Bucket>, str: seq<Byte>)
    requires Sound(w) && s != [] && Distinct(s) && AllLive(w, s) && HasRoom(w, s[|s| - 1], |str|)
    requires forall x :: x in w.at && x != s[|s| - 1] ==> Harmless(w, s[|s| - 1], str, x)
    ensures Streamed(w, Written(w, s[|s| - 1], str), s, s, str) && AllLive(Written(w, s[|s| - 1], str), s)
  {
    hide Bytes, Harmless, Poke, Sound, Lengths;
    var n, e := |s| - 1, s[|s| - 1];
    var w', p := Written(w, e, str), s[..n];
    assert forall b :: b in p ==> b in s && b != e;
    OthersSame(w, e, str);
    SlicesSame(w, w', p);
    GrownBytes(w, e, str);
    assert s == p + [e];
  }

  lemma OthersSame(w: World, e: Bucket, str: seq<Byte>)
    requires Sound(w) && HasRoom(w, e, |str|)
    requires forall x :: x in w.at && x != e ==> Harmless(w, e, str, x)
    ensures forall x :: x in w.at && x != e ==> Bytes(Written(w, e, str), w.at[x]) == Bytes(w, w.at[x])
  {
    hide Bytes, Harmless, Poke, Sound, Lengths, HasRoom, Written;
    forall x | x in w.at && x != e ensures Bytes(Written(w, e, str), w.at[x]) == Bytes(w, w.at[x]) {
      WriteIsHarmless(w, e, str, x);
    }
  }

  lemma {:induction false} SlicesSame(w: World, w': World, s: seq<Bucket>)
    requires forall b :: b in s ==>
      b in w.at && b in w'.at && w'.at[b] == w.at[b] && Bytes(w', w.at[b]) == Bytes(w, w.at[b])
    ensures Content(w', s) == Content(w, s)
  {
    hide Bytes;
    if s == [] {
    } else {
      SlicesSame(w, w', s[..|s| - 1]);
    }
  }

  lemma OthersExact(w: World, e: Bucket, rest: seq<Bucket>, str: seq<Byte>)
    requires Sound(w) && HasRoom(w, e, |str|) && AllLive(w, rest) && e !in rest
    ensures |Content(Written(w, e, str), rest)| == |Content(w, rest)|
    ensures Content(Written(w, e, str), rest) == Content(w, rest) <==> forall x :: x in rest ==> Harmless(w, e, str, x)
  {
    hide Sound, Bytes, Content, Harmless, Poke, Lengths;
    var w' := Written(w, e, str);
    WrittenLengths(w, e, str);
    forall x | x in rest
      ensures Bytes(w', w.at[x]) == Bytes(w, w.at[x]) <==> Harmless(w, e, str, x)
    {
      WriteIsHarmless(w, e, str, x);
    }
    SlicesDiffer(w, w', rest);
  }

  lemma LastBytes(w: World, s: seq<Bucket>)
    requires s != [] && s[|s| - 1] in w.at
    ensures Content(w, s) == Content(w, s[..|s| - 1]) + Bytes(w, w.at[s[|s| - 1]])
  {
    hide Bytes;
  }

  lemma WrittenLast(w: World, s: seq<Bucket>, str: seq<Byte>)
    requires Sound(w) && s != [] && HasRoom(w, s[|s| - 1], |str|)
    ensures Content(Written(w, s[|s| - 1], str), s) ==
              Content(Written(w, s[|s| - 1], str), s[..|s| - 1]) + (Bytes(w, w.at[s[|s| - 1]]) + str)
  {
    hide Sound, Bytes, Content, Poke;
    LastBytes(Written(w, s[|s| - 1], str), s);
    GrownBytes(w, s[|s| - 1], str);
  }

  lemma AllButLast(w: World, s: seq<Bucket>)
    requires s != [] && Distinct(s) && AllLive(w, s)
    ensures var p, e := s[..|s| - 1], s[|s| - 1];
            s == p + [e] && e !in p && AllLive(w, p) && e in w.at && forall b :: b in p <==> b in s && b != e
  {
  }

  /** Writing into the room of the last bucket adds the bytes to the stream, if and only
      if it is harmless to every other bucket in it. */
  lemma WriteIsExact(w: World, s: seq<Bucket>, str: seq<Byte>)
    requires Sound(w) && s != [] && Distinct(s) && AllLive(w, s) && HasRoom(w, s[|s| - 1], |str|)
    ensures var e := s[|s| - 1];
            Content(Written(w, e, str), s) == Content(w, s) + str <==>
              forall x :: x in s && x != e ==> Harmless(w, e, str, x)
    ensures |Content(Written(w, s[|s| - 1], str), s)| == |Content(w, s)| + |str|
  {
    hide Bytes, Harmless, Sound, Content, Written, HasRoom, AllLive, Distinct;
    var e, p := s[|s| - 1], s[..|s| - 1];
    AllButLast(w, s);
    OthersExact(w, e, p, str);
    WrittenLast(w, s, str);
    LastBytes(w, s);
    var a, b, c := Content(w, p), Content(Written(w, e, str), p), Bytes(w, w.at[e]);
    assert a + c + str == a + (c + str);
    Prefix(a, b, c + str);
  }

  lemma Prefix(a: seq<Byte>, b: seq<Byte>, c: seq<Byte>)
    requires |a| == |b|
    ensures a + c == b + c <==> a == b
  {
    assert (a + c)[..|a|] == a && (b + c)[..|b|] == b;
  }

  lemma WrittenLengths(w: World, e: Bucket, str: seq<Byte>)
    requires HasRoom(w, e, |str|)
    ensures forall x :: x in w.at ==> |Bytes(Written(w, e, str), w.at[x])| == |Bytes(w, w.at[x])|
    ensures forall x :: x in w.at && x != e ==> x in Written(w, e, str).at && Written(w, e, str).at[x] == w.at[x]
  {
    hide Poke;
  }

  /** Slices of the same lengths make the same stream only if each is the same. */
  lemma {:induction false} SlicesDiffer(w: World, w': World, s: seq<Bucket>)
    requires forall b :: b in s ==>
      b in w.at && b in w'.at && w'.at[b] == w.at[b] && |Bytes(w', w.at[b])| == |Bytes(w, w.at[b])|
    ensures |Content(w', s)| == |Content(w, s)|
    ensures Content(w', s) == Content(w, s) <==> forall b :: b in s ==> Bytes(w', w.at[b]) == Bytes(w, w.at[b])
  {
    hide Bytes;
    if s == [] {
    } else {
      var p, b := s[..|s| - 1], s[|s| - 1];
      assert s == p + [b];
      SlicesDiffer(w, w', p);
      Append(Content(w, p), Content(w', p), Bytes(w, w.at[b]), Bytes(w', w.at[b]));
    }
  }

  lemma Append(a: seq<Byte>, b: seq<Byte>, c: seq<Byte>, d: seq<Byte>)
    requires |a| == |b|
    ensures a + c == b + d <==> a == b && c == d
  {
    assert (a + c)[..|a|] == a && (b + d)[..|b|] == b && (a + c)[|a|..] == c && (b + d)[|b|..] == d;
  }

  /** Into a new bucket. */
  lemma MadeStreams(w: World, w': World, s: seq<Bucket>, e: Bucket, mem: seq<Byte>, length: nat)
    requires AllLive(w, s) && HeapMade(w, w', e, mem, length) && SameBytes(w, w') && e !in w.at
    ensures Streamed(w, w', s, s + [e], mem[..length])
  {
    hide Bytes, Lengths;
    ContentSame(w, w', s);
    assert (s + [e])[..|s|] == s;
  }

  /** Into a new bucket with room to spare, in two steps. */
  lemma RoomyStreams(w: World, w1: World, s: seq<Bucket>, e: Bucket, mem: seq<Byte>, str: seq<Byte>)
    requires AllLive(w, s) && HeapMade(w, w1, e, mem, 0) && SameBytes(w, w1) && e !in w.at && Sound(w1) && Sound(w)
    requires |str| <= |mem| < UNKNOWN && Distinct(s + [e])
    ensures HasRoom(w1, e, |str|) && Streamed(w, Written(w1, e, str), s, s + [e], str)
    ensures AllLive(Written(w1, e, str), s + [e])
  {
    hide Bytes, Lengths, Sound, Poke, Harmless, HeapMade, SameBytes, Streamed, Written, HasRoom, Distinct;
    NobodyElse(w, w1, e, mem, str);
    var s1, w' := s + [e], Written(w1, e, str);
    MadeStreams(w, w1, s, e, mem, 0);
    MadeRes(w, w1, e, mem, 0);
    LiveWith(w, w1, s, e, mem, 0);
    WrittenStreams(w1, s1, str);
    StreamedTwice(w, w1, w', s, e, str);
  }

  lemma StreamedTwice(w: World, w1: World, w': World, s: seq<Bucket>, e: Bucket, str: seq<Byte>)
    requires Streamed(w, w1, s, s + [e], []) && Streamed(w1, w', s + [e], s + [e], str) && AllLive(w, s) && e !in w.at
    ensures Streamed(w, w', s, s + [e], str)
  {
    hide Bytes, Content;
    assert s + [e] != s;
    assert Content(w, s) + [] + str == Content(w, s) + str;
  }

  lemma NobodyElse(w: World, w1: World, e: Bucket, mem: seq<Byte>, str: seq<Byte>)
    requires HeapMade(w, w1, e, mem, 0) && e !in w.at && Sound(w) && |str| <= |mem| < UNKNOWN
    ensures HasRoom(w1, e, |str|) && forall x :: x in w1.at && x != e ==> Harmless(w1, e, str, x)
  {
    forall x | x in w1.at && x != e ensures w1.at[x].data != w1.at[e].data {
      BucketInSound(w, x);
      FitsRefers(w, w.at[x]);
    }
  }

  /** The bytes go into the last bucket. */
  method FillTail(ghost w: World, b: Brigade, e: Bucket, str: seq<Byte>) returns (ghost w': World)
    requires Good(w) && b.Valid(w) && b.items != [] && e == b.items[|b.items| - 1] && HasRoom(w, e, |str|)
    modifies e`v, ResOf(e)`v
    ensures Good(w') && b.Valid(w') && w' == Written(w, e, str)
  {
    hide Good, Ring, Written, HasRoom;
    b.Open(w);
    ghost var r := [b.list] + b.items;
    w' := CopyToEnd(w, e, str);
    assert Ring(r);
    WrittenKeys(w, e, str);
    b.Close(w');
  }

  lemma WrittenKeys(w: World, e: Bucket, str: seq<Byte>)
    requires HasRoom(w, e, |str|)
    ensures Written(w, e, str).at.Keys == w.at.Keys && Within(w, Written(w, e, str), {})
  {
    hide Poke;
  }

  /** The room of the last bucket, if it is a heap bucket, or that of a new buffer. */
  ghost function Room(w: World, s: seq<Bucket>): int {
    if s != [] && var e := s[|s| - 1]; e in w.at && w.at[e].kind == Heap && w.at[e].data.Res? then
      w.at[s[|s| - 1]].data.r.size - EndOfSlice(w.at[s[|s| - 1]])
    else BUFF_SIZE
  }

  ghost predicate EndsInHeap(w: World, s: seq<Bucket>) {
    s != [] && var e := s[|s| - 1]; e in w.at && w.at[e].kind == Heap
  }

  lemma FittingRoom(w: World, s: seq<Bucket>, n: nat)
    requires Sound(w) && Fitting(w, s, n)
    ensures HasRoom(w, s[|s| - 1], n)
  {
    var e := s[|s| - 1];
    RoomInMemory(w, e);
    assert Buckets.Kept(w, w.at[e].data.r);
  }

  /** The room left in the last bucket: none counts as a whole new buffer. */
  method Remaining(ghost w: World, b: Brigade) returns (e: Bucket, remaining: int, buf: bool)
    requires Good(w) && b.Valid(w)
    ensures buf ==> b.items != [] && e == b.items[|b.items| - 1] && e in w.at && w.at[e].kind == Heap
    ensures buf <==> EndsInHeap(w, b.items)
    ensures forall n: nat :: buf && n <= remaining <==> Fitting(w, b.items, n)
    ensures remaining == Room(w, b.items) && (!buf ==> remaining == 8000)
    ensures Good(w) && b.Valid(w)
  {
    b.Links(w, 0);
    e, remaining, buf := b.list.prev, BUFF_SIZE, false;
    if b.list.next != b.list {
      Shown(w, e);
      if e.v.kind == Heap {
        BucketInSound(w, e);
        remaining, buf := e.v.data.r.size - (e.v.length + e.v.start), true;
      }
    }
  }

  /** apr_brigade_write, with a flush function or without: the bytes are at the end of the
      stream, when the write is harmless; and the brigade is to be handed to the flush
      function when there is not enough room. */
  method Write(ghost w: World, b: Brigade, str: seq<Byte>, flush: bool)
    returns (handed: bool, ghost w': World, ghost n: set<object>)
    requires Good(w) && b.Valid(w) && |str| < UNKNOWN
    modifies b`items, b.items, w.res.Keys, b.list`next, b.list`prev
    ensures Good(w') && b.Valid(w') && fresh(n) && Within(w, w', n)
    ensures Grew(w, w', old(b.items), b.items, |str|)
    ensures Safe(w, old(b.items), str) ==> Streamed(w, w', old(b.items), b.items, str)
    ensures handed <==> flush && |str| > Room(w, old(b.items))
    ensures handed ==> PassedOn(w', old(b.items), b.items, str)
    ensures !handed ==> Effect(w, w', old(b.items), b.items, str)
  {
    hide Good, Streamed, Grew, Fitting, HasRoom, Harmless, Within, Written, HeapMade, SameBytes, AllLive, Distinct,
         Ring, Safe, PassedOn, Room, Effect, Added, EndsInHeap;
    b.Open(w);
    var e, remaining, buf := Remaining(w, b);
    ghost var s := b.items;
    WithinNothing(w);
    handed := false;
    if |str| > remaining {
      if flush {
        w', n := WriteTransient(w, b, str);
        handed := true;
      } else {
        w', n := WriteNew(w, b, str);
      }
    } else if !buf {
      w', n := WriteBuffer(w, b, str);
    } else {
      Refers(w, e);
      SafeOpen(w, b.items, str);
      w', n := WriteLast(w, b, e, str);
    }
    if !handed { EffectIs(w, w', s, b.items, str); }
  }

  /** What has become of everything: bytes that fit are at the end of the last bucket,
      whatever lies there; other bytes are in a new one. */
  ghost predicate Effect(w: World, w': World, s: seq<Bucket>, s': seq<Bucket>, str: seq<Byte>) {
    if Fitting(w, s, |str|) then s' == s && HasRoom(w, s[|s| - 1], |str|) && w' == Written(w, s[|s| - 1], str)
    else Added(w, w', s, s', str, if EndsInHeap(w, s) || |str| > BUFF_SIZE then |str| else BUFF_SIZE)
  }

  lemma EffectIs(w: World, w': World, s: seq<Bucket>, s': seq<Bucket>, str: seq<Byte>)
    requires Fitting(w, s, |str|) ==>
      s != [] && s' == s && HasRoom(w, s[|s| - 1], |str|) && w' == Written(w, s[|s| - 1], str)
    requires !Fitting(w, s, |str|) ==>
      Added(w, w', s, s', str, if EndsInHeap(w, s) || |str| > BUFF_SIZE then |str| else BUFF_SIZE)
    ensures Effect(w, w', s, s', str)
  {
    hide HasRoom, Written, Added, EndsInHeap, Fitting;
  }

  /** The bytes are in a new bucket, and every other bucket stands for the same bytes. */
  ghost predicate Added(w: World, w': World, s: seq<Bucket>, s': seq<Bucket>, str: seq<Byte>, size: nat) {
    && Stored(w', s, s', |str|, size) && SameBytes(w, w') && PoolsStay(w, w')
    && var c := s'[|s'| - 1];
       && c !in w.at && w'.at == w.at[c := w'.at[c]] && w'.at[c].data.r !in w.res && Bytes(w', w'.at[c]) == str
  }

  lemma MadeAdded(w: World, w': World, s: seq<Bucket>, e: Bucket, mem: seq<Byte>, length: nat)
    requires HeapMade(w, w', e, mem, length) && SameBytes(w, w') && e !in w.at
    ensures Added(w, w', s, s + [e], mem[..length], |mem|)
  {
    hide Bytes, SameBytes;
    MadeStored(w, w', s, e, mem, length);
  }

  lemma WrittenAdded(w: World, w1: World, s: seq<Bucket>, e: Bucket, str: seq<Byte>, size: nat)
    requires Added(w, w1, s, s + [e], [], size) && Sound(w1) && HasRoom(w1, e, |str|)
    requires forall x :: x in w1.at && x != e ==> Harmless(w1, e, str, x)
    ensures Added(w, Written(w1, e, str), s, s + [e], str, size)
  {
    hide Sound, Bytes, Harmless, Poke, HasRoom;
    assert (s + [e])[|s|] == e;
    var w' := Written(w1, e, str);
    WrittenStored(w1, s, s + [e], str, size);
    WrittenParts(w1, e, str);
    GrownBytes(w1, e, str);
    forall x | x in w.at
      ensures x != e && x in w1.at && w1.at[x] == w.at[x] && Bytes(w', w.at[x]) == Bytes(w, w.at[x])
    {
      WriteIsHarmless(w1, e, str, x);
    }
  }

  /** The bytes are handed on in a transient bucket, without copying them. */
  ghost predicate PassedOn(w: World, s: seq<Bucket>, s': seq<Bucket>, str: seq<Byte>) {
    && s' != [] && var e := s'[|s'| - 1];
       && s' == s + [e] && e in w.at && w.at[e] == Slice(Transient, |str|, 0, Mem(str))
  }

  /** The bytes are in a new heap bucket with memory of the given size. */
  ghost predicate Stored(w: World, s: seq<Bucket>, s': seq<Bucket>, length: nat, size: nat) {
    && s' != [] && var e := s'[|s'| - 1];
       && s' == s + [e] && e in w.at && w.at[e].data.Res? && w.at[e].data.r.size == size
       && w.at[e] == Slice(Heap, length, 0, w.at[e].data)
  }

  lemma MadeStored(w: World, w': World, s: seq<Bucket>, e: Bucket, mem: seq<Byte>, length: nat)
    requires HeapMade(w, w', e, mem, length)
    ensures Stored(w', s, s + [e], length, |mem|)
  {
    hide Bytes;
  }

  lemma WrittenStored(w: World, s: seq<Bucket>, s': seq<Bucket>, str: seq<Byte>, size: nat)
    requires Stored(w, s, s', 0, size) && HasRoom(w, s'[|s'| - 1], |str|)
    ensures Stored(Written(w, s'[|s'| - 1], str), s, s', |str|, size)
  {
    hide Poke;
    WrittenParts(w, s'[|s'| - 1], str);
  }

  lemma SafeOpen(w: World, s: seq<Bucket>, str: seq<Byte>)
    requires Good(w) && Fitting(w, s, |str|)
    ensures s != [] && HasRoom(w, s[|s| - 1], |str|)
    ensures Safe(w, s, str) ==> forall x :: x in w.at && x != s[|s| - 1] ==> Harmless(w, s[|s| - 1], str, x)
  {
    hide Sound, Shows, HasRoom, Harmless;
    FittingRoom(w, s, |str|);
  }

  /** The branch that hands the bytes to the flush function. */
  method WriteTransient(ghost w: World, b: Brigade, str: seq<Byte>) returns (ghost w': World, ghost n: set<object>)
    requires Good(w) && b.Valid(w) && |str| < UNKNOWN
    modifies b`items, b.items`next, b.items`prev, b.list`next, b.list`prev
    ensures Good(w') && b.Valid(w') && Streamed(w, w', old(b.items), b.items, str) && fresh(n) && Within(w, w', n)
    ensures Grew(w, w', old(b.items), b.items, |str|) && PassedOn(w', old(b.items), b.items, str)
  {
    hide Good, Streamed, Within, SameBytes, AllLive, Distinct, Ring, Grew, Bytes;
    b.Open(w);
    ghost var r, s := [b.list] + b.items, b.items;
    var e := new Bucket(Slice(Metadata, 0, 0, NoData));
    assert Ring(r) && Good(w);
    w' := PlainMake(w, e, Transient, str);
    assert Ring(r);
    PlainStreams(w, w', s, e, e.v, str);
    n := {e};
    b.Close(w');
    b.InsertTail(w', e);
    assert Good(w');
    StreamedGrew(w, w', s, s + [e], str);
  }

  lemma PlainStreams(w: World, w': World, s: seq<Bucket>, e: Bucket, t: Slice, str: seq<Byte>)
    requires AllLive(w, s) && e !in w.at && w' == WithPlain(w, e, t)
    requires t == Slice(Transient, |str|, 0, Mem(str)) && SameBytes(w, w')
    requires Bytes(w', t) == str
    ensures Streamed(w, w', s, s + [e], str) && AllLive(w', s) && e in w'.at && e !in s && PassedOn(w', s, s + [e], str)
    ensures Within(w, w', {e}) && forall b :: b !in w.at && b != e ==> b !in w'.at
  {
    hide Bytes, Lengths, Content, Streamed, SameBytes;
    ContentSame(w, w', s);
    LastBytes(w', s + [e]);
    assert (s + [e])[..|s|] == s;
    PlainParts(w, w', s, e, t, str);
  }

  lemma PlainParts(w: World, w': World, s: seq<Bucket>, e: Bucket, t: Slice, str: seq<Byte>)
    requires AllLive(w, s) && e !in w.at && w' == WithPlain(w, e, t)
    requires t == Slice(Transient, |str|, 0, Mem(str)) && SameBytes(w, w')
    requires Content(w', s + [e]) == Content(w, s) + str
    ensures Streamed(w, w', s, s + [e], str)
  {
    hide Bytes, Content;
  }

  /** The branch that copies the bytes into a bucket of their own. */
  method WriteNew(ghost w: World, b: Brigade, str: seq<Byte>) returns (ghost w': World, ghost n: set<object>)
    requires Good(w) && b.Valid(w) && |str| < UNKNOWN
    modifies b`items, b.items`next, b.items`prev, b.list`next, b.list`prev
    ensures Good(w') && b.Valid(w') && Streamed(w, w', old(b.items), b.items, str) && fresh(n) && Within(w, w', n)
    ensures Grew(w, w', old(b.items), b.items, |str|) && Added(w, w', old(b.items), b.items, str, |str|)
  {
    hide Good, Streamed, Within, HeapMade, SameBytes, AllLive, Distinct, Ring, Grew, Added;
    b.Open(w);
    var e;
    e, w', n := NewTail(w, b, str, |str|);
    MadeStreams(w, w', old(b.items), e, str, |str|);
    MadeAdded(w, w', old(b.items), e, str, |str|);
    assert str[..|str|] == str;
    StreamedGrew(w, w', old(b.items), b.items, str);
  }

  lemma MadeRes(w: World, w': World, e: Bucket, mem: seq<Byte>, length: nat)
    requires HeapMade(w, w', e, mem, length)
    ensures e in w'.at && w'.at[e].data.Res? && w'.at[e].data.r !in w.res && w'.at[e].data.r in w'.res
    ensures mem[..0] == []
  {
  }

  /** The branch that begins a new buffer. */
  method WriteBuffer(ghost w: World, b: Brigade, str: seq<Byte>) returns (ghost w': World, ghost n: set<object>)
    requires Good(w) && b.Valid(w) && |str| <= BUFF_SIZE
    modifies b`items, b.items`next, b.items`prev, b.list`next, b.list`prev
    ensures Good(w') && b.Valid(w') && Streamed(w, w', old(b.items), b.items, str) && fresh(n) && Within(w, w', n)
    ensures Grew(w, w', old(b.items), b.items, |str|) && Added(w, w', old(b.items), b.items, str, BUFF_SIZE)
  {
    hide Shows, Sound, Streamed, Grew, Added, Harmless, Within, HeapMade, SameBytes, AllLive, Distinct, Ring, Written,
         HasRoom;
    b.Open(w);
    var e;
    ghost var w1;
    e, w1, n := NewTail(w, b, seq(BUFF_SIZE, _ => 0), 0);
    MadeAdded(w, w1, old(b.items), e, seq(BUFF_SIZE, _ => 0), 0);
    NobodyElse(w, w1, e, seq(BUFF_SIZE, _ => 0), str);
    b.Open(w1);
    RoomyStreams(w, w1, old(b.items), e, seq(BUFF_SIZE, _ => 0), str);
    WrittenKeys(w1, e, str);
    Refers(w1, e);
    MadeRes(w, w1, e, seq(BUFF_SIZE, _ => 0), 0);
    WithinOpen(w, w1, n);
    WrittenAdded(w, w1, old(b.items), e, str, BUFF_SIZE);
    w' := FillTail(w1, b, e, str);
    WithinStep(w, w1, w', n, {});
    assert n + {} == n;
    StreamedGrew(w, w', old(b.items), b.items, str);
  }

  /** The branch that uses the room of the last bucket. */
  method WriteLast(ghost w: World, b: Brigade, e: Bucket, str: seq<Byte>)
    returns (ghost w': World, ghost n: set<object>)
    requires Good(w) && b.Valid(w) && b.items != [] && e == b.items[|b.items| - 1] && HasRoom(w, e, |str|)
    modifies e`v, ResOf(e)`v
    ensures Good(w') && b.Valid(w') && fresh(n) && Within(w, w', n) && Grew(w, w', b.items, b.items, |str|)
    ensures w' == Written(w, e, str)
    ensures (forall x :: x in w.at && x != e ==> Harmless(w, e, str, x)) ==> Streamed(w, w', b.items, b.items, str)
  {
    hide Shows, Sound, Streamed, Within, AllLive, Distinct, Ring, Written, HasRoom, Harmless, Grew;
    b.Open(w);
    if forall x :: x in w.at && x != e ==> Harmless(w, e, str, x) { WrittenStreams(w, b.items, str); }
    WrittenGrew(w, b.items, str);
    WrittenKeys(w, e, str);
    w' := FillTail(w, b, e, str);
    n := {};
  }

  /** One write after another. */
  ghost predicate Wrote(w: World, w': World, s: seq<Bucket>, s': seq<Bucket>, str: seq<Byte>) {
    Content(w', s') == Content(w, s) + str && Untouched(w, w', s) && Fresh(w, s, s')
  }

  lemma WroteMore(w: World, w1: World, w': World, s: seq<Bucket>, s1: seq<Bucket>, s': seq<Bucket>, a: seq<Byte>,
                  b: seq<Byte>)
    requires Wrote(w, w1, s, s1, a) && Streamed(w1, w', s1, s', b)
    ensures Wrote(w, w', s, s', a + b)
  {
    hide Content, Bytes, Untouched, Fresh;
    StreamedFresh(w1, w', s1, s', b);
    UntouchedStep(w, w1, w', s, s1);
    FreshStep(w, w1, s, s1, s');
    assert Content(w, s) + a + b == Content(w, s) + (a + b);
  }

  lemma StreamedFresh(w: World, w': World, s: seq<Bucket>, s': seq<Bucket>, str: seq<Byte>)
    requires Streamed(w, w', s, s', str)
    ensures Untouched(w, w', s) && Fresh(w, s, s')
  {
    hide Content, Bytes, Untouched;
  }

  lemma WroteNothing(w: World, s: seq<Bucket>)
    ensures Wrote(w, w, s, s, [])
  {
    hide Content, Bytes;
  }

  /** The buckets are those that were there, or new ones. */
  lemma EvolvedIn(w: World, w': World, s: seq<Bucket>, s': seq<Bucket>, n: set<object>)
    requires Evolved(w, w', s, s') && Within(w, w', n) && AllLive(w', s')
    ensures forall k :: 0 <= k < |s'| ==> s'[k] in s || s'[k] in n
  {
    assert forall k :: 0 <= k < |s'| ==> s'[k] in s';
  }

  lemma StreamedWrote(w: World, w': World, s: seq<Bucket>, s': seq<Bucket>, str: seq<Byte>)
    requires Streamed(w, w', s, s', str)
    ensures Wrote(w, w', s, s', str)
  {
    hide Content, Bytes, Untouched;
    StreamedFresh(w, w', s, s', str);
  }
}
