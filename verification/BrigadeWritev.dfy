/** apr_brigade_writev: writing several pieces at once. */
module BrigadeWritev {
  import opened Buckets
  import opened Rings
  import opened BucketOps
  import opened BucketRead
  import opened BrigadeSpec
  import opened Brigades
  import opened BrigadeWrite
  import opened BrigadeFlush

  /** The pieces, one after the other. */
  function Join(vec: seq<seq<Byte>>): seq<Byte> {
    if vec == [] then [] else Join(vec[..|vec| - 1]) + vec[|vec| - 1]
  }

  lemma {:induction false} JoinCat(a: seq<seq<Byte>>, b: seq<seq<Byte>>)
    ensures Join(a + b) == Join(a) + Join(b)
    decreases |b|
  {
    if b == [] {
      assert a + b == a;
    } else {
      var n := |b| - 1;
      JoinCat(a, b[..n]);
      assert (a + b)[..|a + b| - 1] == a + b[..n];
    }
  }

  lemma JoinNext(vec: seq<seq<Byte>>, i: nat, k: nat)
    requires i <= k < |vec|
    ensures Join(vec[i..k + 1]) == Join(vec[i..k]) + vec[k]
  {
    assert vec[i..k + 1][..k - i] == vec[i..k];
  }

  lemma JoinParts(vec: seq<seq<Byte>>, i: nat, k: nat)
    requires i <= k <= |vec|
    ensures Join(vec[i..]) == Join(vec[i..k]) + Join(vec[k..]) && Join(vec[i..i]) == [] && Join(vec[|vec|..]) == []
  {
    assert vec[i..] == vec[i..k] + vec[k..];
    JoinCat(vec[i..k], vec[k..]);
  }

  /** The first piece from `i` on for which there is no room any more. */
  function Fit(room: int, vec: seq<seq<Byte>>, i: nat): (k: nat)
    requires i <= |vec|
    ensures i <= k <= |vec|
    decreases |vec| - i
  {
    if i == |vec| || |vec[i]| > room then i else Fit(room - |vec[i]|, vec, i + 1)
  }

  /** The pieces before it have room; and all have, if they have room together. */
  lemma {:induction false} FitLength(room: int, vec: seq<seq<Byte>>, i: nat)
    requires i <= |vec| && room >= 0
    ensures |Join(vec[i..Fit(room, vec, i)])| <= room
    ensures Fit(room, vec, i) == |vec| <==> |Join(vec[i..])| <= room
    decreases |vec| - i
  {
    hide Join;
    var k := Fit(room, vec, i);
    JoinParts(vec, i, i);
    if i == |vec| {
    } else {
      JoinParts(vec, i, i + 1);
      JoinNext(vec, i, i);
      if |vec[i]| <= room {
        FitLength(room - |vec[i]|, vec, i + 1);
        assert vec[i..k] == vec[i..i + 1] + vec[i + 1..k];
        JoinCat(vec[i..i + 1], vec[i + 1..k]);
      }
    }
  }

  // ---------- copying ----------

  /** The bytes are in the spare room of a bucket, which has not grown yet. */
  ghost function Poked(w: World, e: Bucket, str: seq<Byte>): World
    requires HasRoom(w, e, |str|)
  {
    Written(w, e, str).(at := w.at)
  }

  lemma PokedParts(w: World, e: Bucket, str: seq<Byte>)
    requires HasRoom(w, e, |str|)
    ensures var s, r := w.at[e], w.at[e].data.r;
            Poked(w, e, str) == w.(res := w.res[r := w.res[r].(mem := Poke(w.res[r].mem, EndOfSlice(s), str))])
    ensures Written(w, e, str) == Poked(w, e, str).(at := w.at[e := w.at[e].(length := w.at[e].length + |str|)])
    ensures Poked(w, e, str).at == w.at
  {
    hide Poke;
  }

  lemma PokeNothing(m: seq<Byte>, at: nat)
    requires at <= |m|
    ensures Poke(m, at, []) == m
  {
  }

  lemma PokeMore(m: seq<Byte>, at: nat, a: seq<Byte>, b: seq<Byte>)
    requires at + |a| + |b| <= |m|
    ensures Poke(Poke(m, at, a), at + |a|, b) == Poke(m, at, a + b)
  {
  }

  lemma PokedNothing(w: World, e: Bucket)
    requires HasRoom(w, e, 0)
    ensures Poked(w, e, []) == w
  {
    hide Poke;
    PokeNothing(w.res[w.at[e].data.r].mem, EndOfSlice(w.at[e]));
    assert w.res == w.res[w.at[e].data.r := w.res[w.at[e].data.r]];
  }

  /** memcpy(buf, vec[i].iov_base, len) */
  method CopyPiece(ghost w: World, h: Shared, buf: nat, piece: seq<Byte>) returns (ghost w': World)
    requires Shows(w) && h in w.res && buf + |piece| <= |w.res[h].mem|
    modifies h`v
    ensures h in w.res && w' == w.(res := w.res[h := w.res[h].(mem := Poke(w.res[h].mem, buf, piece))]) && Shows(w')
  {
    hide Poke;
    h.v := h.v.(mem := Poke(h.v.mem, buf, piece));
    w' := w.(res := w.res[h := w.res[h].(mem := Poke(w.res[h].mem, buf, piece))]);
  }

  /** e->length += n */
  method Lengthen(ghost w: World, e: Bucket, n: nat) returns (ghost w': World)
    requires Shows(w) && e in w.at
    modifies e`v
    ensures Shows(w') && e in w.at && w' == w.(at := w.at[e := w.at[e].(length := w.at[e].length + n)])
  {
    e.v := e.v.(length := e.v.length + n);
    w' := w.(at := w.at[e := w.at[e].(length := w.at[e].length + n)]);
  }

  /** One more piece behind those copied so far. */
  method CopyNext(ghost w: World, ghost w1: World, e: Bucket, buf: nat, ghost done: seq<Byte>, piece: seq<Byte>)
    returns (ghost w': World)
    requires HasRoom(w, e, |done| + |piece|) && HasRoom(w, e, |done|) && w1 == Poked(w, e, done) && Shows(w1)
    requires buf == EndOfSlice(w.at[e]) + |done|
    modifies ResOf(e)`v
    ensures HasRoom(w, e, |done + piece|) && w' == Poked(w, e, done + piece) && Shows(w')
  {
    hide Poke, Written;
    PokedParts(w, e, done);
    PokedParts(w, e, done + piece);
    assert e.v == w1.at[e];
    var h := e.v.data.r;
    PokeMore(w.res[h].mem, EndOfSlice(w.at[e]), done, piece);
    w' := CopyPiece(w1, h, buf, piece);
  }

  /** for (; i < nvec; i++): all the pieces from `from` on. */
  method CopyAll(ghost w: World, e: Bucket, vec: seq<seq<Byte>>, from: nat) returns (ghost w': World)
    requires Good(w) && from <= |vec| && HasRoom(w, e, |Join(vec[from..])|)
    modifies e`v, ResOf(e)`v
    ensures Good(w') && w' == Written(w, e, Join(vec[from..]))
  {
    hide Join, Poke, Written, HasRoom, Shows, Sound;
    w' := Begin(w, e, |Join(vec[from..])|);
    JoinParts(vec, from, from);
    var i := from;
    var startBuf := EndOf(w, e);
    var buf := startBuf;
    while i < |vec|
      invariant from <= i <= |vec| && HasRoom(w, e, |Join(vec[from..i])|)
      invariant buf == EndOfSlice(w.at[e]) + |Join(vec[from..i])|
      invariant Shows(w') && w' == Poked(w, e, Join(vec[from..i])) && ResOf(e) == old(ResOf(e))
    {
      JoinNext(vec, from, i);
      JoinParts(vec, from, i + 1);
      LessRoom(w, e, |Join(vec[from..i])| + |vec[i]|, |Join(vec[from..])|);
      w' := CopyNext(w, w', e, buf, Join(vec[from..i]), vec[i]);
      buf, i := buf + |vec[i]|, i + 1;
    }
    assert vec[from..i] == vec[from..];
    w' := Finish(w, w', e, buf - startBuf, Join(vec[from..]));
  }

  /** The same, up to the first piece for which there is no room left. */
  method CopyFit(ghost w: World, e: Bucket, vec: seq<seq<Byte>>, room: nat) returns (i: nat, ghost w': World)
    requires Good(w) && HasRoom(w, e, room)
    modifies e`v, ResOf(e)`v
    ensures i == Fit(room, vec, 0) && |Join(vec[..i])| <= room && HasRoom(w, e, |Join(vec[..i])|)
    ensures Good(w') && w' == Written(w, e, Join(vec[..i]))
  {
    hide Join, Poke, Written, HasRoom, Shows, Sound;
    w' := Begin(w, e, room);
    JoinParts(vec, 0, 0);
    i := 0;
    var remaining := room;
    var startBuf := EndOf(w, e);
    var buf := startBuf;
    while i < |vec| && |vec[i]| <= remaining
      invariant i <= |vec| && 0 <= remaining == room - |Join(vec[0..i])| && Fit(room, vec, 0) == Fit(remaining, vec, i)
      invariant HasRoom(w, e, |Join(vec[0..i])|) && buf == EndOfSlice(w.at[e]) + |Join(vec[0..i])|
      invariant Shows(w') && w' == Poked(w, e, Join(vec[0..i])) && ResOf(e) == old(ResOf(e))
    {
      JoinNext(vec, 0, i);
      LessRoom(w, e, |Join(vec[0..i])| + |vec[i]|, room);
      w' := CopyNext(w, w', e, buf, Join(vec[0..i]), vec[i]);
      buf, remaining, i := buf + |vec[i]|, remaining - |vec[i]|, i + 1;
    }
    assert vec[0..i] == vec[..i];
    w' := Finish(w, w', e, buf - startBuf, Join(vec[..i]));
  }

  /** buf = h->base + e->start + e->length */
  method EndOf(ghost w: World, e: Bucket) returns (buf: nat)
    requires Good(w) && HasRoom(w, e, 0)
    ensures buf == EndOfSlice(w.at[e])
  {
    buf := e.v.start + e.v.length;
  }

  lemma LessRoom(w: World, e: Bucket, n: nat, m: nat)
    requires HasRoom(w, e, m) && n <= m
    ensures HasRoom(w, e, n)
  {
  }

  method Begin(ghost w: World, e: Bucket, ghost n: nat) returns (ghost w': World)
    requires Good(w) && HasRoom(w, e, n)
    ensures e in w.at && HasRoom(w, e, 0) && Shows(w') && w' == Poked(w, e, []) && Good(w)
  {
    hide Shows, Sound;
    PokedNothing(w, e);
    w' := w;
  }

  method Finish(ghost w: World, ghost w1: World, e: Bucket, n: nat, ghost str: seq<Byte>) returns (ghost w': World)
    requires Sound(w) && HasRoom(w, e, |str|) && Shows(w1) && w1 == Poked(w, e, str) && n == |str|
    modifies e`v
    ensures Good(w') && w' == Written(w, e, str)
  {
    hide Shows, Sound, Poke, Written;
    PokedParts(w, e, str);
    WrittenSound(w, e, str);
    w' := Lengthen(w1, e, n);
  }

  // ---------- the brigade ----------

  /** Bytes copied to the end of the last bucket. */
  lemma FilledLast(w: World, s: seq<Bucket>, str: seq<Byte>)
    requires Sound(w) && s != [] && Distinct(s) && AllLive(w, s) && HasRoom(w, s[|s| - 1], |str|)
    ensures Evolved(w, Written(w, s[|s| - 1], str), s, s) && AllLive(Written(w, s[|s| - 1], str), s)
    ensures Within(w, Written(w, s[|s| - 1], str), {})
    ensures Safe(w, s, str) ==> Wrote(w, Written(w, s[|s| - 1], str), s, s, str)
  {
    hide Sound, Distinct, Written, Streamed, Wrote, HasRoom, Harmless, Grew, Evolved, AllLive, Within;
    var e := s[|s| - 1];
    WrittenGrew(w, s, str);
    GrewEvolves(w, Written(w, e, str), s, s, |str|);
    WrittenKeys(w, e, str);
    SameKeys(w, Written(w, e, str), s);
    if Safe(w, s, str) {
      RoomFits(w, s, |str|);
      WrittenStreams(w, s, str);
      StreamedWrote(w, Written(w, e, str), s, s, str);
    }
  }

  lemma SameKeys(w: World, w': World, s: seq<Bucket>)
    requires AllLive(w, s) && w'.at.Keys == w.at.Keys
    ensures AllLive(w', s)
  {
  }

  lemma RoomFits(w: World, s: seq<Bucket>, n: nat)
    requires Sound(w) && s != [] && HasRoom(w, s[|s| - 1], n)
    ensures Fitting(w, s, n)
  {
    RoomInMemory(w, s[|s| - 1]);
  }

  /** All pieces go into the last bucket. */
  method FillAll(ghost w: World, b: Brigade, e: Bucket, vec: seq<seq<Byte>>) returns (ghost w': World)
    requires Good(w) && b.Valid(w) && b.items != [] && e == b.items[|b.items| - 1] && HasRoom(w, e, |Join(vec[0..])|)
    modifies e`v, ResOf(e)`v
    ensures Good(w') && b.Valid(w') && w' == Written(w, e, Join(vec[0..]))
  {
    hide Good, Ring, Written, HasRoom, Join;
    b.Open(w);
    ghost var r := [b.list] + b.items;
    w' := CopyAll(w, e, vec, 0);
    assert Ring(r);
    WrittenKeys(w, e, Join(vec[0..]));
    b.Close(w');
  }

  /** The pieces that fit go there. */
  method FillFit(ghost w: World, b: Brigade, e: Bucket, vec: seq<seq<Byte>>, room: nat)
    returns (i: nat, ghost w': World)
    requires Good(w) && b.Valid(w) && b.items != [] && e == b.items[|b.items| - 1] && HasRoom(w, e, room)
    modifies e`v, ResOf(e)`v
    ensures i == Fit(room, vec, 0) && |Join(vec[..i])| <= room && HasRoom(w, e, |Join(vec[..i])|)
    ensures Good(w') && b.Valid(w') && w' == Written(w, e, Join(vec[..i]))
  {
    hide Good, Ring, Written, HasRoom, Join;
    b.Open(w);
    ghost var r := [b.list] + b.items;
    i, w' := CopyFit(w, e, vec, room);
    assert Ring(r);
    WrittenKeys(w, e, Join(vec[..i]));
    b.Close(w');
  }

  /** A new buffer, filled with the pieces from `from` on. */
  method MakeFilled(ghost w: World, ghost s: seq<Bucket>, vec: seq<seq<Byte>>, from: nat)
    returns (e: Bucket, ghost w': World, ghost n: set<object>)
    requires Good(w) && AllLive(w, s) && Distinct(s) && from <= |vec| && |Join(vec[from..])| <= BUFF_SIZE
    ensures Good(w') && fresh(e) && e !in s && fresh(n) && Within(w, w', n) && AllLive(w', s + [e])
    ensures Streamed(w, w', s, s + [e], Join(vec[from..])) && Stored(w', s, s + [e], |Join(vec[from..])|, BUFF_SIZE)
    ensures w'.at.Keys == w.at.Keys + {e}
  {
    hide Shows, Sound, Streamed, Stored, Within, HeapMade, SameBytes, AllLive, Distinct, Written, HasRoom, Join;
    ghost var str, w1 := Join(vec[from..]), w;
    e, w1, n := HeapCreate(w, seq(BUFF_SIZE, _ => 0), 0);
    NewAmong(w, w1, s, e, seq(BUFF_SIZE, _ => 0));
    RoomyStreams(w, w1, s, e, seq(BUFF_SIZE, _ => 0), str);
    assert (s + [e])[|s + [e]| - 1] == e;
    WrittenStored(w1, s, s + [e], str, BUFF_SIZE);
    WrittenKeys(w1, e, str);
    WithinOpen(w, w1, n);
    MadeRes(w, w1, e, seq(BUFF_SIZE, _ => 0), 0);
    Refers(w1, e);
    w' := CopyAll(w1, e, vec, from);
    WithinStep(w, w1, w', n, {});
    assert n + {} == n;
  }

  lemma NewAmong(w: World, w1: World, s: seq<Bucket>, e: Bucket, mem: seq<Byte>)
    requires AllLive(w, s) && Distinct(s) && e !in w.at && HeapMade(w, w1, e, mem, 0)
    ensures Distinct(s + [e]) && e !in s && Stored(w1, s, s + [e], 0, |mem|) && w1.at.Keys == w.at.Keys + {e}
  {
    hide Stored;
    Apart(w, s, e);
    MadeStored(w, w1, s, e, mem, 0);
  }

  /** The pieces from `from` on go into a new buffer, which comes in when it is filled. */
  method NewBuffer(ghost w: World, b: Brigade, vec: seq<seq<Byte>>, from: nat)
    returns (ghost w': World, ghost n: set<object>)
    requires Good(w) && b.Valid(w) && from <= |vec| && |Join(vec[from..])| <= BUFF_SIZE
    modifies b`items, b.items`next, b.items`prev, b.list`next, b.list`prev
    ensures Good(w') && b.Valid(w') && fresh(n) && Within(w, w', n)
    ensures Streamed(w, w', old(b.items), b.items, Join(vec[from..]))
    ensures Stored(w', old(b.items), b.items, |Join(vec[from..])|, BUFF_SIZE)
  {
    hide Good, Streamed, Stored, Within, AllLive, Distinct, Ring, Join;
    b.Open(w);
    ghost var r, s := [b.list] + b.items, b.items;
    var e;
    e, w', n := MakeFilled(w, s, vec, from);
    assert Ring(r);
    LiveBoth(w', s, e);
    b.Close(w');
    b.InsertTail(w', e);
    assert Good(w');
  }

  lemma Apart(w: World, s: seq<Bucket>, e: Bucket)
    requires AllLive(w, s) && Distinct(s) && e !in w.at
    ensures Distinct(s + [e]) && e !in s
  {
  }

  lemma LiveBoth(w: World, s: seq<Bucket>, e: Bucket)
    requires AllLive(w, s + [e])
    ensures AllLive(w, s) && e in w.at
  {
    assert (s + [e])[|s|] == e && forall b :: b in s ==> b in s + [e];
  }

  /** Each piece is in a bucket of its own behind `s`: a transient one for the flush
      function, or a heap bucket that has no room to spare. */
  ghost predicate Pieces(w: World, s: seq<Bucket>, s': seq<Bucket>, vec: seq<seq<Byte>>, flush: bool) {
    && |s'| == |s| + |vec| && s <= s'
    && forall j :: 0 <= j < |vec| ==> PieceIn(w, s'[|s| + j], vec[j], flush)
  }

  ghost predicate PieceIn(w: World, e: Bucket, piece: seq<Byte>, flush: bool) {
    && e in w.at
    && if flush then w.at[e] == Slice(Transient, |piece|, 0, Mem(piece))
       else w.at[e].data.Res? && w.at[e].data.r.size == |piece| && w.at[e] == Slice(Heap, |piece|, 0, w.at[e].data)
  }

  lemma NoPieces(w: World, s: seq<Bucket>, flush: bool)
    ensures Pieces(w, s, s, [], flush)
  {
  }

  lemma OnePiece(w: World, w': World, s: seq<Bucket>, s': seq<Bucket>, piece: seq<Byte>, flush: bool)
    requires if flush then PassedOn(w', s, s', piece) else Added(w, w', s, s', piece, |piece|)
    ensures s' != [] && s' == s + [s'[|s'| - 1]] && PieceIn(w', s'[|s'| - 1], piece, flush)
  {
    hide Bytes, SameBytes;
  }

  lemma MorePieces(w: World, w': World, s: seq<Bucket>, s1: seq<Bucket>, s': seq<Bucket>, vec: seq<seq<Byte>>, k: nat,
                   flush: bool)
    requires k < |vec| && Pieces(w, s, s1, vec[..k], flush) && Grew(w, w', s1, s', |vec[k]|)
    requires s' != [] && s' == s1 + [s'[|s'| - 1]] && PieceIn(w', s'[|s'| - 1], vec[k], flush)
    ensures Pieces(w', s, s', vec[..k + 1], flush)
  {
    hide Bytes;
    assert |s'| == |s1| + 1;
    var v := vec[..k + 1];
    forall j | 0 <= j < |v| ensures PieceIn(w', s'[|s| + j], v[j], flush) {
      if j < k { assert PieceIn(w, s1[|s| + j], vec[..k][j], flush); }
    }
  }

  /** One piece in a bucket of its own. */
  method WriteOne(ghost w: World, b: Brigade, piece: seq<Byte>, flush: bool)
    returns (ghost w': World, ghost n: set<object>)
    requires Good(w) && b.Valid(w) && |piece| < UNKNOWN
    modifies b`items, b.items`next, b.items`prev, b.list`next, b.list`prev
    ensures Good(w') && b.Valid(w') && fresh(n) && Within(w, w', n)
    ensures Streamed(w, w', old(b.items), b.items, piece) && Grew(w, w', old(b.items), b.items, |piece|)
    ensures b.items != [] && b.items == old(b.items) + [b.items[|b.items| - 1]]
    ensures PieceIn(w', b.items[|b.items| - 1], piece, flush)
  {
    hide Good, Streamed, Grew, Within, Added, PassedOn, PieceIn, AllLive, Ring, Brigade.Valid;
    ghost var s := b.items;
    if flush { w', n := WriteTransient(w, b, piece); } else { w', n := WriteNew(w, b, piece); }
    OnePiece(w, w', s, b.items, piece, flush);
  }

  /** The branch for much data. */
  method WriteApart(ghost w: World, b: Brigade, vec: seq<seq<Byte>>, flush: bool)
    returns (ghost w': World, ghost n: set<object>)
    requires Good(w) && b.Valid(w) && |Join(vec)| < UNKNOWN
    modifies b`items, b.items`next, b.items`prev, b.list`next, b.list`prev
    ensures Good(w') && b.Valid(w') && fresh(n) && Within(w, w', n)
    ensures Wrote(w, w', old(b.items), b.items, Join(vec)) && Pieces(w', old(b.items), b.items, vec, flush)
  {
    hide Good, Streamed, Grew, Within, Wrote, Pieces, PieceIn, AllLive, Ring, Brigade.Valid, Join, Evolved;
    w', n := w, {};
    var i := 0;
    WithinNothing(w);
    WroteNothing(w, b.items);
    NoPieces(w, b.items, flush);
    JoinParts(vec, 0, 0);
    assert vec[..0] == [] == vec[0..0];
    while i < |vec|
      invariant i <= |vec| && Good(w') && b.Valid(w') && fresh(n) && Within(w, w', n)
      invariant Wrote(w, w', old(b.items), b.items, Join(vec[..i]))
      invariant Pieces(w', old(b.items), b.items, vec[..i], flush)
    {
      b.Open(w');
      WroteEvolved(w, w', old(b.items), b.items, Join(vec[..i]));
      EvolvedIn(w, w', old(b.items), b.items, n);
      PieceShort(vec, i);
      ghost var w1, s1, n1 := w', b.items, n;
      w', n := WriteOne(w1, b, vec[i], flush);
      WroteMore(w, w1, w', old(b.items), s1, b.items, Join(vec[..i]), vec[i]);
      MorePieces(w1, w', old(b.items), s1, b.items, vec, i, flush);
      WithinStep(w, w1, w', n1, n);
      n, i := n1 + n, i + 1;
    }
    assert vec[..i] == vec;
  }

  lemma WroteEvolved(w: World, w': World, s: seq<Bucket>, s': seq<Bucket>, str: seq<Byte>)
    requires Wrote(w, w', s, s', str)
    ensures Evolved(w, w', s, s')
  {
    hide Content, Bytes;
  }

  lemma PieceShort(vec: seq<seq<Byte>>, i: nat)
    requires i < |vec|
    ensures |vec[i]| <= |Join(vec)| && Join(vec[..i + 1]) == Join(vec[..i]) + vec[i]
  {
    hide Join;
    JoinNext(vec, 0, i);
    JoinParts(vec, 0, i + 1);
    assert vec[0..i] == vec[..i] && vec[0..i + 1] == vec[..i + 1] && vec[0..] == vec;
  }

  /** total_len */
  method TotalLen(vec: seq<seq<Byte>>) returns (total: nat)
    ensures total == |Join(vec)|
  {
    hide Join;
    total := 0;
    var i := 0;
    JoinParts(vec, 0, 0);
    assert vec[..0] == vec[0..0];
    while i < |vec|
      invariant i <= |vec| && total == |Join(vec[..i])|
    {
      PieceShort(vec, i);
      total, i := total + |vec[i]|, i + 1;
    }
    assert vec[..i] == vec;
  }

  /** The write into the last bucket, of the pieces that fit, is harmless. */
  ghost predicate PiecesSafe(w: World, s: seq<Bucket>, vec: seq<seq<Byte>>) {
    |Join(vec)| > BUFF_SIZE || Safe(w, s, Join(vec[..Fit(Room(w, s), vec, 0)]))
  }

  lemma SafePieces(w: World, s: seq<Bucket>, vec: seq<seq<Byte>>, k: nat)
    requires |Join(vec)| <= BUFF_SIZE && k == Fit(Room(w, s), vec, 0)
    ensures PiecesSafe(w, s, vec) <==> Safe(w, s, Join(vec[..k]))
  {
    hide Safe, Fit, Room, Join;
  }

  lemma RoomOpen(w: World, s: seq<Bucket>, vec: seq<seq<Byte>>)
    requires Good(w) && EndsInHeap(w, s)
    ensures s != [] && Room(w, s) >= 0 && HasRoom(w, s[|s| - 1], Room(w, s)) && s[|s| - 1].v.data.Res?
    ensures ResOf(s[|s| - 1]) <= w.res.Keys
    ensures |Join(vec[..Fit(Room(w, s), vec, 0)])| <= Room(w, s)
    ensures Fit(Room(w, s), vec, 0) == |vec| <==> |Join(vec)| <= Room(w, s)
  {
    hide Join, Fit, Sound;
    var e := s[|s| - 1];
    RoomInMemory(w, e);
    KnownRoom(w, e);
    FitLength(Room(w, s), vec, 0);
    assert vec[0..] == vec && vec[0..Fit(Room(w, s), vec, 0)] == vec[..Fit(Room(w, s), vec, 0)];
  }

  lemma KnownRoom(w: World, e: Bucket)
    requires Sound(w) && e in w.at && w.at[e].kind == Heap && w.at[e].data.Res? && w.at[e].data.r in w.res
    ensures w.at[e].data.r.size < UNKNOWN
  {
    assert Buckets.Kept(w, w.at[e].data.r);
  }

  /** The last bucket has a buffer: what fits goes there, and, after a flush, the rest into
      one more. */
  method WriteHeap(ghost w: World, b: Brigade, e: Bucket, vec: seq<seq<Byte>>, total: nat, remaining: int, f: Flusher?)
    returns (rv: Status, next: nat, ghost w': World, ghost n: set<object>)
    requires Good(w) && b.Valid(w) && EndsInHeap(w, b.items) && e == b.items[|b.items| - 1]
    requires total == |Join(vec)| <= BUFF_SIZE && remaining == Room(w, b.items)
    modifies f, b`items, b.items, w.res.Keys, b.list`next, b.list`prev
    ensures Good(w') && b.Valid(w') && fresh(n) && Within(w, w', n) && Evolved(w, w', old(b.items), b.items)
    ensures rv != Success ==> f != null && total > Room(w, old(b.items))
    ensures next == if rv != Success then Fit(Room(w, old(b.items)), vec, 0) else |vec|
    ensures PiecesSafe(w, old(b.items), vec) ==>
      Sent(w, w', old(b.items), b.items, old(SentBy(f)), SentBy(f), Join(vec[..next]))
    ensures |b.items| <= |old(b.items)| + 1
  {
    hide Shows, Sound, Within, Wrote, AllLive, Distinct, Ring, Brigade.Valid, Join, Evolved, PiecesSafe, Room, Sent,
         EndsInHeap, HasRoom, Written, Fit, Safe;
    b.Open(w);
    RoomOpen(w, b.items, vec);
    ghost var s, x, k := b.items, SentBy(f), Fit(remaining, vec, 0);
    SafePieces(w, s, vec, k);
    FitsIn(w, e, vec, k, remaining);
    FilledLast(w, s, Join(vec[..k]));
    rv, n := Success, {};
    if remaining >= total {
      w' := FillAll(w, b, e, vec);
      next := |vec|;
      assert vec[0..] == vec[..k];
      if Wrote(w, w', s, s, Join(vec[..k])) { SentWritten(w, w', s, s, x, Join(vec[..k])); }
    } else {
      next, w' := FillFit(w, b, e, vec, remaining);
      if Wrote(w, w', s, s, Join(vec[..k])) { SentWritten(w, w', s, s, x, Join(vec[..k])); }
      WithinOpen(w, w', {});
      rv, w' := FlushBetween(w, w', b, f, s, x, Join(vec[..next]));
      if rv == Success {
        b.Open(w');
        SomeOf(s, b.items);
        w', n := Rest(w, w', b, vec, next, s, x, f);
        next := |vec|;
        assert vec[..next] == vec;
      }
    }
  }

  lemma SomeOf(s: seq<Bucket>, t: seq<Bucket>)
    requires exists k :: 0 <= k <= |s| && t == s[k..]
    ensures |t| <= |s| && forall j :: 0 <= j < |t| ==> t[j] in s
  {
  }

  /** A flush, if there is a function for it, of what has been written so far. */
  method FlushBetween(ghost w: World, ghost w1: World, b: Brigade, f: Flusher?, ghost s: seq<Bucket>,
                      ghost x: seq<Byte>, ghost str: seq<Byte>) returns (rv: Status, ghost w': World)
    requires Good(w1) && b.Valid(w1) && b.items == s && Within(w, w1, {}) && Evolved(w, w1, s, s) && x == SentBy(f)
    modifies f, b`items, b.items`next, b.items`prev, w1.res.Keys, b.list`next, b.list`prev
    ensures Good(w') && b.Valid(w') && Within(w, w', {}) && Evolved(w, w', s, b.items) && (f == null ==> rv == Success)
    ensures Sent(w, w1, s, s, x, x, str) ==> Sent(w, w', s, b.items, x, SentBy(f), str)
    ensures exists k :: 0 <= k <= |s| && b.items == s[k..]
  {
    hide Good, Within, AllLive, Ring, Brigade.Valid, Evolved, Sent, Flushed;
    rv, w' := Success, w1;
    assert s == s[0..];
    if f != null {
      b.Open(w1);
      ghost var k;
      rv, k, w' := Flush(w1, b, f);
      FlushedPart(w1, w', s, k, x, SentBy(f));
      assert b.items == s[k..];
      b.Open(w');
      SentFlushed(w1, w', s, k, x, SentBy(f));
      EvolvedStep(w, w1, w', s, s, b.items);
      WithinTwice(w, w1, w');
      if Sent(w, w1, s, s, x, x, str) {
        SentMore(w, w1, w', s, s, b.items, x, x, SentBy(f), str, []);
        assert str + [] == str;
      }
    }
  }

  lemma FlushedPart(w: World, w': World, s: seq<Bucket>, k: nat, x: seq<Byte>, x': seq<Byte>)
    requires Flushed(w, w', s, k, x, x')
    ensures k <= |s|
  {
    hide Gone, Content;
  }

  lemma FitsIn(w: World, e: Bucket, vec: seq<seq<Byte>>, k: nat, room: int)
    requires room >= 0 && HasRoom(w, e, room) && k <= |vec| && |Join(vec[..k])| <= room
    ensures HasRoom(w, e, |Join(vec[..k])|)
    ensures k == |vec| ==> HasRoom(w, e, |Join(vec[0..])|)
  {
    hide HasRoom, Join;
    LessRoom(w, e, |Join(vec[..k])|, room);
    if k == |vec| { assert vec[0..] == vec[..k]; }
  }

  /** What did not fit goes into a new buffer. */
  method Rest(ghost w: World, ghost w1: World, b: Brigade, vec: seq<seq<Byte>>, next: nat, ghost s: seq<Bucket>,
              ghost x: seq<Byte>, ghost f: Flusher?)
    returns (ghost w': World, ghost n: set<object>)
    requires Good(w1) && b.Valid(w1) && next <= |vec| && |Join(vec)| <= BUFF_SIZE
    requires Within(w, w1, {}) && Evolved(w, w1, s, b.items)
    modifies b`items, b.items`next, b.items`prev, b.list`next, b.list`prev
    ensures Good(w') && b.Valid(w') && fresh(n) && Within(w, w', n) && Evolved(w, w', s, b.items)
    ensures Sent(w, w1, s, old(b.items), x, SentBy(f), Join(vec[..next])) ==>
      Sent(w, w', s, b.items, x, SentBy(f), Join(vec))
    ensures |b.items| == |old(b.items)| + 1
  {
    hide Good, Within, Wrote, AllLive, Ring, Brigade.Valid, Join, Evolved, Streamed, Stored, Sent;
    JoinParts(vec, 0, next);
    assert vec[0..next] == vec[..next] && vec[0..] == vec;
    ghost var s1, x1 := b.items, SentBy(f);
    w', n := NewBuffer(w1, b, vec, next);
    OneMore(w', s1, b.items, |Join(vec[next..])|, BUFF_SIZE);
    StreamedWrote(w1, w', s1, b.items, Join(vec[next..]));
    WroteEvolved(w1, w', s1, b.items, Join(vec[next..]));
    EvolvedStep(w, w1, w', s, s1, b.items);
    WithinStep(w, w1, w', {}, n);
    assert {} + n == n;
    if Sent(w, w1, s, s1, x, x1, Join(vec[..next])) {
      SentWritten(w1, w', s1, b.items, x1, Join(vec[next..]));
      SentMore(w, w1, w', s, s1, b.items, x, x1, x1, Join(vec[..next]), Join(vec[next..]));
    }
  }

  lemma OneMore(w: World, s: seq<Bucket>, s': seq<Bucket>, length: nat, size: nat)
    requires Stored(w, s, s', length, size)
    ensures |s'| == |s| + 1
  {
  }

  /** Much data: each piece in a bucket of its own, and then the flush, before which `m`
      and `s1` show the state and the brigade. */
  method WriteMuch(ghost w: World, b: Brigade, vec: seq<seq<Byte>>, f: Flusher?)
    returns (rv: Status, ghost m: World, ghost s1: seq<Bucket>, ghost w': World, ghost n: set<object>)
    requires Good(w) && b.Valid(w) && |Join(vec)| < UNKNOWN
    modifies f, b`items, b.items`next, b.items`prev, w.res.Keys, b.list`next, b.list`prev
    ensures Good(w') && b.Valid(w') && fresh(n) && Within(w, w', n) && Evolved(w, w', old(b.items), b.items)
    ensures Pieces(m, old(b.items), s1, vec, f != null) && (f == null ==> rv == Success && w' == m && b.items == s1)
    ensures Sent(w, w', old(b.items), b.items, old(SentBy(f)), SentBy(f), Join(vec))
  {
    hide Good, Within, Wrote, Pieces, AllLive, Ring, Brigade.Valid, Join, Evolved, Sent, Flushed;
    ghost var s, x := b.items, SentBy(f);
    w', n := WriteApart(w, b, vec, f != null);
    WroteEvolved(w, w', s, b.items, Join(vec));
    SentWritten(w, w', s, b.items, x, Join(vec));
    rv, m, s1 := Success, w', b.items;
    if f != null {
      b.Open(m);
      EvolvedIn(w, m, s, s1, n);
      WithinOpen(w, m, n);
      ghost var k;
      rv, k, w' := Flush(m, b, f);
      b.Open(w');
      SentFlushed(m, w', s1, k, x, SentBy(f));
      EvolvedStep(w, m, w', s, s1, b.items);
      WithinStep(w, m, w', n, {});
      assert n + {} == n;
      SentMore(w, m, w', s, s1, b.items, x, x, SentBy(f), Join(vec), []);
      assert Join(vec) + [] == Join(vec);
    }
  }

  /** apr_brigade_writev: all the pieces come after the stream, of which a flush function
      may have passed some on, when what goes into the last bucket does no harm; or, when
      a flush between two of them fails, the pieces before `next`. One more bucket is
      enough for up to BUFF_SIZE bytes. */
  method WriteV(ghost w: World, b: Brigade, vec: seq<seq<Byte>>, f: Flusher?)
    returns (rv: Status, next: nat, ghost m: World, ghost s1: seq<Bucket>, ghost w': World, ghost n: set<object>)
    requires Good(w) && b.Valid(w) && |Join(vec)| < UNKNOWN
    modifies f, b`items, b.items, w.res.Keys, b.list`next, b.list`prev
    ensures Good(w') && b.Valid(w') && fresh(n) && Within(w, w', n) && Evolved(w, w', old(b.items), b.items)
    ensures rv != Success ==> f != null && (|Join(vec)| > BUFF_SIZE || |Join(vec)| > Room(w, old(b.items)))
    ensures next == if rv != Success && |Join(vec)| <= BUFF_SIZE then Fit(Room(w, old(b.items)), vec, 0) else |vec|
    ensures PiecesSafe(w, old(b.items), vec) ==>
      Sent(w, w', old(b.items), b.items, old(SentBy(f)), SentBy(f), Join(vec[..next]))
    ensures |Join(vec)| > BUFF_SIZE ==>
      Pieces(m, old(b.items), s1, vec, f != null) && (f == null ==> w' == m && b.items == s1)
    ensures |Join(vec)| <= BUFF_SIZE ==> |b.items| <= |old(b.items)| + 1
  {
    hide Good, Within, Wrote, Pieces, AllLive, Ring, Brigade.Valid, Join, Evolved, PiecesSafe, Room, EndsInHeap, Sent;
    var total := TotalLen(vec);
    ghost var s, x := b.items, SentBy(f);
    m, s1 := w, s;
    assert vec[..|vec|] == vec;
    if total > BUFF_SIZE {
      next := |vec|;
      rv, m, s1, w', n := WriteMuch(w, b, vec, f);
      return;
    }
    var e, remaining, buf := Remaining(w, b);
    if buf {
      rv, next, w', n := WriteHeap(w, b, e, vec, total, remaining, f);
    } else {
      rv, next := Success, |vec|;
      WithinNothing(w);
      EvolvedNothing(w, s);
      SentNothing(w, s, x);
      NoneFirst(vec);
      w', n := Rest(w, w, b, vec, 0, s, x, f);
    }
  }

  lemma NoneFirst(vec: seq<seq<Byte>>)
    ensures Join(vec[..0]) == []
  {
  }
}
