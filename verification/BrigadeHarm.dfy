/** apr_brigade_split_line: whether it does harm, decided before the call, for buckets whose
data is in memory. */
module BrigadeHarm {
  import opened Buckets
  import opened Rings
  import opened BucketRead
  import opened Brigades
  import opened BrigadeWrite
  import opened BrigadeLine

  // ---------- a run on paper ----------

  /** The slice of a bucket and the bytes it stands for. */
  datatype Piece = Piece(s: Slice, bytes: seq<Byte>)

  type Seen = map<Bucket, Piece>

  /** The last bucket of the output: no heap bucket, one of those that were there, or a new
      one with so much room left. */
  datatype Tail = NoHeap | Old(b: Bucket) | New(room: int)

  ghost function Look(w: World): Seen {
    map x | x in w.at :: Piece(w.at[x], Bytes(w, w.at[x]))
  }

  ghost function TailOf(w: World, o: seq<Bucket>): Tail {
    if EndsInHeap(w, o) then Old(o[|o| - 1]) else NoHeap
  }

  ghost predicate Fits(a: Seen, b: Bucket, n: nat) {
    b in a && a[b].s.data.Res? && EndOfSlice(a[b].s) + n <= a[b].s.data.r.size
  }

  /** The areas of the copy are the same or apart. */
  ghost predicate Apart(a: Seen, b: Bucket, e: Bucket, n: nat)
    requires b in a && e in a
  {
    var end, s := EndOfSlice(a[b].s), a[e].s;
    s.data == a[b].s.data ==> s.start == end || EndOfSlice(s) <= end || s.start >= end + n
  }

  /** Where `x` covers what is written, it has these bytes already. */
  ghost predicate Unharmed(a: Seen, b: Bucket, str: seq<Byte>, x: Bucket)
    requires b in a && x in a
  {
    var end, t, m := EndOfSlice(a[b].s), a[x].s, a[x].bytes;
    t.data == a[b].s.data ==>
      forall k :: 0 <= k < |str| && t.start <= end + k < EndOfSlice(t) ==>
        end + k - t.start < |m| && str[k] == m[end + k - t.start]
  }

  /** A copy of the bytes of `e` to the end of the output does no harm. */
  ghost predicate CopySafe(a: Seen, tail: Tail, e: Bucket, str: seq<Byte>)
    requires e in a
  {
    tail.Old? && Fits(a, tail.b, |str|) ==>
      Apart(a, tail.b, e, |str|) && forall x :: x in a && x != tail.b ==> Unharmed(a, tail.b, str, x)
  }

  /** The buckets after it. */
  ghost function Copied(a: Seen, tail: Tail, e: Bucket, str: seq<Byte>): Seen {
    if str != [] && tail.Old? && Fits(a, tail.b, |str|) then
      var b := tail.b;
      (a - {e})[b := Piece(a[b].s.(length := a[b].s.length + |str|), a[b].bytes + str)]
    else a - {e}
  }

  ghost function NewTail(a: Seen, tail: Tail, n: nat): Tail {
    if n == 0 then tail
    else
      match tail
      case Old(b) => if Fits(a, b, n) then tail else New(0)
      case New(room) => New(if n <= room then room - n else 0)
      case NoHeap => New(BUFF_SIZE - n)
  }

  /** The first bucket has been read. */
  ghost function Seeing(w: World, a: Seen, e: Bucket): Seen
    requires e in a
  {
    a[e := a[e].(s := Opened(w, a[e].s))]
  }

  ghost predicate Carried(s: Slice, n: nat) {
    s.kind == Metadata || n > BUFF_SIZE / 4
  }

  /** No pass of the run does harm; `w` is consulted for the pools. */
  ghost predicate RunSafe(w: World, a: Seen, tail: Tail, i: seq<Bucket>, left: int)
    decreases |i|
  {
    i != [] && i[0] in a ==>
      var e := i[0];
      var str, a1 := a[e].bytes, Seeing(w, a, e);
      || LF in str
      || (Carried(a1[e].s, |str|)
          && (|str| >= left || RunSafe(w, a1, if a1[e].s.kind == Heap then Old(e) else NoHeap, i[1..], left - |str|)))
      || (!Carried(a1[e].s, |str|) && CopySafe(a1, tail, e, str)
          && (|str| >= left || RunSafe(w, Copied(a1, tail, e, str), NewTail(a1, tail, |str|), i[1..], left - |str|)))
  }

  /** The data of all these buckets is in memory. */
  ghost predicate InMemory(w: World, i: seq<Bucket>) {
    forall x :: x in i ==> x in w.at && w.at[x].kind !in {File, Pipe}
  }

  // ---------- the run on paper and the run ----------

  ghost predicate SeenAt(w: World, a: Seen, x: Bucket)
    requires x in a
  {
    x in w.at && a[x] == Piece(w.at[x], Bytes(w, w.at[x]))
  }

  /** Pools are as they were at `w0`. */
  ghost predicate PoolAs(w0: World, w: World, x: Bucket)
    requires x in w.at
  {
    w.at[x].data.Res? && w.at[x].data.r in w.res ==>
      w.at[x].data.r in w0.res && w.res[w.at[x].data.r].pool == w0.res[w.at[x].data.r].pool
  }

  /** Nobody else points to the data of `c`. */
  ghost predicate Alone(w: World, c: Bucket) {
    c in w.at && forall x :: x in w.at && x != c ==> w.at[x].data != w.at[c].data
  }

  ghost predicate TailIs(w: World, a: Seen, tail: Tail, o: seq<Bucket>) {
    match tail
    case NoHeap => !EndsInHeap(w, o)
    case Old(b) => EndsInHeap(w, o) && b == o[|o| - 1] && b in a
    case New(room) => EndsInHeap(w, o) && o[|o| - 1] !in a && Alone(w, o[|o| - 1]) && room == Room(w, o)
  }

  /** `a` and `tail` show the buckets there were; what is new has memory of its own. */
  ghost predicate Sim(w0: World, w: World, a: Seen, tail: Tail, o: seq<Bucket>, i: seq<Bucket>) {
    && (forall x :: x in a ==> SeenAt(w, a, x) && PoolAs(w0, w, x))
    && (forall x :: x in w.at && x !in a ==> Alone(w, x))
    && TailIs(w, a, tail, o)
    && (forall x :: x in i ==> x in a && a[x].s.kind !in {File, Pipe})
  }

  lemma SimStart(w: World, o: seq<Bucket>, i: seq<Bucket>)
    requires InMemory(w, i)
    ensures Sim(w, w, Look(w), TailOf(w, o), o, i)
  {
    hide Bytes;
  }

  lemma OpenedSame(w0: World, w: World, s: Slice)
    requires s.data.Res? ==> s.data.r in w.res && s.data.r in w0.res && w.res[s.data.r].pool == w0.res[s.data.r].pool
    ensures Opened(w0, s) == Opened(w, s)
  {
  }

  lemma SimRead(w0: World, w: World, w1: World, a: Seen, tail: Tail, o: seq<Bucket>, i: seq<Bucket>, i1: seq<Bucket>,
                rv: Status)
    requires Sim(w0, w, a, tail, o, i) && Sound(w) && FirstRead(w, w1, i, i1, rv) && Distinct(o + i1)
    ensures rv == Success && i1 == i && i[0] in a && Sim(w0, w1, Seeing(w0, a, i[0]), tail, o, i1)
    ensures Seeing(w0, a, i[0])[i[0]].bytes == a[i[0]].bytes
  {
    hide Bytes, Sound, Opened, Room, SameBytes, TailIs, EndsInHeap;
    var e := i[0];
    assert e in i && SeenAt(w, a, e) && PoolAs(w0, w, e);
    InSoundRes(w, e);
    OpenedSame(w0, w, w.at[e]);
    OpenedKind(w, w.at[e]);
    assert (o + i1)[|o|] == e;
    if o != [] { assert (o + i1)[|o| - 1] == o[|o| - 1]; }
    SameRoom(w, w1, o);
    SeenRead(w0, w, w1, a, e);
    TailRead(w, w1, a, Seeing(w0, a, e), tail, o, e);
  }

  lemma SeenRead(w0: World, w: World, w1: World, a: Seen, e: Bucket)
    requires e in a && (forall x :: x in a ==> SeenAt(w, a, x) && PoolAs(w0, w, x))
    requires (forall x :: x in w.at && x !in a ==> Alone(w, x)) && e in w.at
    requires e in w1.at && w1.res == w.res && w1.at == w.at[e := w1.at[e]]
    requires w1.at[e].data == w.at[e].data && SameBytes(w, w1)
    requires Bytes(w1, w1.at[e]) == Bytes(w, w.at[e]) && w1.at[e] == Opened(w0, w.at[e])
    ensures forall x :: x in Seeing(w0, a, e) ==> SeenAt(w1, Seeing(w0, a, e), x) && PoolAs(w0, w1, x)
    ensures forall x :: x in w1.at && x !in Seeing(w0, a, e) ==> Alone(w1, x)
  {
    hide Bytes, Opened;
    forall x | x in a ensures SeenAt(w1, Seeing(w0, a, e), x) && PoolAs(w0, w1, x) {
      assert SeenAt(w, a, x) && PoolAs(w0, w, x);
    }
    forall x | x in w1.at && x !in a ensures Alone(w1, x) { assert Alone(w, x); }
  }

  lemma TailRead(w: World, w1: World, a: Seen, a1: Seen, tail: Tail, o: seq<Bucket>, e: Bucket)
    requires TailIs(w, a, tail, o) && a1.Keys == a.Keys && e in w.at && e in w1.at
    requires w1.at == w.at[e := w1.at[e]] && w1.at[e].data == w.at[e].data && (o != [] ==> o[|o| - 1] != e)
    ensures TailIs(w1, a1, tail, o)
  {
  }

  lemma InSoundRes(w: World, e: Bucket)
    requires Sound(w) && e in w.at
    ensures w.at[e].data.Res? ==> w.at[e].data.r in w.res
  {
    BucketInSound(w, e);
    FitsRefers(w, w.at[e]);
  }

  lemma OpenedKind(w: World, s: Slice)
    ensures Opened(w, s).data == s.data && (s.kind !in {File, Pipe} ==> Opened(w, s).kind !in {File, Pipe})
  {
  }

  lemma SameRoom(w: World, w1: World, o: seq<Bucket>)
    requires o != [] && o[|o| - 1] in w.at ==> o[|o| - 1] in w1.at && w1.at[o[|o| - 1]] == w.at[o[|o| - 1]]
    requires o != [] && o[|o| - 1] !in w.at ==> o[|o| - 1] !in w1.at
    ensures Room(w1, o) == Room(w, o) && (EndsInHeap(w1, o) <==> EndsInHeap(w, o))
  {
  }

  // ---------- one pass ----------

  /** Harmless on paper and harmless. */
  lemma UnharmedIs(w: World, a: Seen, b: Bucket, str: seq<Byte>, x: Bucket)
    requires Sound(w) && HasRoom(w, b, |str|) && b in a && SeenAt(w, a, b) && x in a && SeenAt(w, a, x)
    ensures Unharmed(a, b, str, x) <==> Harmless(w, b, str, x)
  {
    hide Sound, Bytes;
    if w.at[x].data == w.at[b].data {
      SharedSlice(w, b, x);
      SharedBytes(w, w.at[x], w.at[b].data.r);
      var t, m, end := w.at[x], w.res[w.at[b].data.r].mem, EndOfSlice(w.at[b]);
      ClipIs(m, t.start, t.length);
      if Harmless(w, b, str, x) {
        forall k | 0 <= k < |str| && t.start <= end + k < EndOfSlice(t) ensures str[k] == m[end + k] {
          assert str[end + k - end] == m[end + k];
        }
      }
    }
  }

  lemma ClipIs(m: seq<Byte>, start: nat, length: nat)
    requires start + length <= |m|
    ensures |Clip(m, start, length)| == length
    ensures forall k :: 0 <= k < length ==> Clip(m, start, length)[k] == m[start + k]
  {
  }

  /** A copy that does no harm on paper does none. */
  lemma CopySafeIs(w0: World, w: World, a: Seen, tail: Tail, o: seq<Bucket>, i: seq<Bucket>, str: seq<Byte>)
    requires Sound(w) && Sim(w0, w, a, tail, o, i) && i != [] && InHand(w, i[0], str)
    ensures i[0] in a && a[i[0]].bytes == str
    ensures CopySafe(a, tail, i[0], str) <==> Copyable(w, o, i[0], |str|) && Safe(w, o, str)
  {
    hide Sound, Bytes, Room, HasRoom, Harmless, Unharmed;
    var e := i[0];
    assert e in i && SeenAt(w, a, e);
    InHandLength(w, e, str);
    if Fitting(w, o, |str|) {
      FittingRoom(w, o, |str|);
      var b := o[|o| - 1];
      if tail.Old? {
        assert SeenAt(w, a, b);
        AllUnharmed(w, a, b, str);
      } else {
        assert Alone(w, b);
        AloneHarmless(w, b, str);
      }
    }
  }

  lemma AllUnharmed(w: World, a: Seen, b: Bucket, str: seq<Byte>)
    requires Sound(w) && HasRoom(w, b, |str|) && b in a && (forall x :: x in a ==> SeenAt(w, a, x))
    requires forall x :: x in w.at && x !in a ==> Alone(w, x)
    ensures (forall x :: x in a && x != b ==> Unharmed(a, b, str, x)) <==>
              forall x :: x in w.at && x != b ==> Harmless(w, b, str, x)
  {
    hide Sound, Bytes, Harmless, Unharmed;
    forall x | x in w.at && x != b
      ensures if x in a then Unharmed(a, b, str, x) <==> Harmless(w, b, str, x) else Harmless(w, b, str, x)
    {
      if x in a {
        assert SeenAt(w, a, x) && SeenAt(w, a, b);
        UnharmedIs(w, a, b, str, x);
      } else {
        assert Alone(w, x) && SeenAt(w, a, b);
        OtherHarmless(w, b, str, x);
      }
    }
    assert forall x :: x in a ==> SeenAt(w, a, x);
  }

  lemma OtherHarmless(w: World, b: Bucket, str: seq<Byte>, x: Bucket)
    requires HasRoom(w, b, |str|) && x in w.at && w.at[x].data != w.at[b].data
    ensures Harmless(w, b, str, x)
  {
  }

  lemma AloneHarmless(w: World, b: Bucket, str: seq<Byte>)
    requires HasRoom(w, b, |str|) && Alone(w, b)
    ensures forall x :: x in w.at && x != b ==> Harmless(w, b, str, x)
  {
  }

  lemma SimCarried(w0: World, w: World, a: Seen, tail: Tail, o: seq<Bucket>, i: seq<Bucket>)
    requires Sim(w0, w, a, tail, o, i) && i != []
    ensures i[0] in a && Sim(w0, w, a, if a[i[0]].s.kind == Heap then Old(i[0]) else NoHeap, o + [i[0]], i[1..])
  {
    hide Bytes, Room, PoolAs, Alone;
    var e := i[0];
    assert e in i && SeenAt(w, a, e);
    assert (o + [e])[|o + [e]| - 1] == e;
  }

  /** A bucket that is neither the last of the output nor in the input any more goes. */
  lemma SimDropped(w0: World, m: World, w': World, a: Seen, tail: Tail, o: seq<Bucket>, i: seq<Bucket>, e: Bucket)
    requires Sim(w0, m, a, tail, o, i) && e !in i && (o != [] ==> o[|o| - 1] != e)
    requires w'.at == m.at - {e} && SameBytes(m, w') && NoneMade(m, w')
    ensures Sim(w0, w', a - {e}, tail, o, i)
  {
    hide Bytes;
    forall x | x in a - {e} ensures SeenAt(w', a - {e}, x) && PoolAs(w0, w', x) {
      assert SeenAt(m, a, x) && PoolAs(w0, m, x);
    }
    forall x | x in w'.at && x !in a - {e} ensures Alone(w', x) { assert Alone(m, x); }
    forall x | x in i ensures x in a - {e} { assert x in a; }
  }

  /** Bytes are copied into the room of the last bucket. */
  lemma SimWritten(w0: World, w: World, a: Seen, tail: Tail, o: seq<Bucket>, i: seq<Bucket>, str: seq<Byte>)
    requires Sound(w) && Sim(w0, w, a, tail, o, i) && Fitting(w, o, |str|) && Safe(w, o, str) && o[|o| - 1] !in i
    ensures HasRoom(w, o[|o| - 1], |str|)
    ensures var b, a1 := o[|o| - 1], if tail.Old? then Grown(a, o[|o| - 1], str) else a;
            Sim(w0, Written(w, b, str), a1, if tail.New? then New(tail.room - |str|) else tail, o, i)
  {
    hide Sound, Bytes, Poke, Harmless;
    FittingRoom(w, o, |str|);
    var b := o[|o| - 1];
    var w' := Written(w, b, str);
    var a1 := if tail.Old? then Grown(a, b, str) else a;
    WrittenParts(w, b, str);
    GrownBytes(w, b, str);
    forall x | x in w.at && x != b ensures Bytes(w', w.at[x]) == Bytes(w, w.at[x]) { WriteIsHarmless(w, b, str, x); }
    forall x | x in a1 ensures SeenAt(w', a1, x) && PoolAs(w0, w', x) { assert SeenAt(w, a, x) && PoolAs(w0, w, x); }
    forall x | x in w'.at && x !in a1 ensures Alone(w', x) { assert Alone(w, x); }
    assert forall x :: x in i ==> x in a && x != b;
  }

  ghost function Grown(a: Seen, b: Bucket, str: seq<Byte>): Seen {
    if b in a then a[b := Piece(a[b].s.(length := a[b].s.length + |str|), a[b].bytes + str)] else a
  }

  /** Bytes go into a new bucket. */
  lemma SimAdded(w0: World, w: World, m: World, a: Seen, tail: Tail, o: seq<Bucket>, o': seq<Bucket>, i: seq<Bucket>,
                 str: seq<Byte>, size: nat)
    requires Sound(w) && Sim(w0, w, a, tail, o, i) && Added(w, m, o, o', str, size)
    ensures Sim(w0, m, a, New(size - |str|), o', i)
  {
    hide Sound, Bytes;
    var c := o'[|o'| - 1];
    forall x | x in w.at ensures m.at[x] == w.at[x] && w.at[x].data != m.at[c].data && x != c { InSoundRes(w, x); }
    forall x | x in a ensures SeenAt(m, a, x) && PoolAs(w0, m, x) {
      assert SeenAt(w, a, x) && PoolAs(w0, w, x);
      InSoundRes(w, x);
    }
    forall x | x in m.at && x !in a ensures Alone(m, x) {
      if x != c { assert Alone(w, x); }
    }
  }

  lemma SimRest(w0: World, w: World, a: Seen, tail: Tail, o: seq<Bucket>, i: seq<Bucket>)
    requires Sim(w0, w, a, tail, o, i) && i != []
    ensures Sim(w0, w, a, tail, o, i[1..])
  {
    hide Bytes, SeenAt, PoolAs, Alone, TailIs;
    assert forall x :: x in i[1..] ==> x in i;
  }

  lemma FirstApart(o: seq<Bucket>, i: seq<Bucket>)
    requires i != [] && Distinct(o + i)
    ensures i[0] !in i[1..] && (o != [] ==> o[|o| - 1] !in i)
  {
    var s := o + i;
    assert s[|o|] == i[0] && forall k :: 0 <= k < |i| ==> s[|o| + k] == i[k];
    if o != [] { assert s[|o| - 1] == o[|o| - 1]; }
  }

  /** Whether there is room, on paper. */
  lemma FitsSame(w: World, a: Seen, tail: Tail, o: seq<Bucket>, n: nat)
    requires Sound(w) && TailIs(w, a, tail, o) && (forall x :: x in a ==> SeenAt(w, a, x))
    ensures Fitting(w, o, n) <==> (tail.Old? && Fits(a, tail.b, n)) || (tail.New? && n <= tail.room)
    ensures EndsInHeap(w, o) <==> !tail.NoHeap?
  {
    hide Bytes, Alone;
    if EndsInHeap(w, o) {
      RoomInMemory(w, o[|o| - 1]);
      if tail.Old? { assert SeenAt(w, a, tail.b); }
    }
    hide Sound;
  }

  lemma SimPoured(w0: World, w: World, m: World, w': World, a: Seen, tail: Tail, o: seq<Bucket>, o': seq<Bucket>,
                  i: seq<Bucket>, str: seq<Byte>)
    requires Sound(w) && Sim(w0, w, a, tail, o, i) && i != [] && Distinct(o + i) && i[0] in w.at
    requires Poured(w, m, w', o, o', i[0], str) && Safe(w, o, str) && |str| <= BUFF_SIZE / 4
    ensures Sim(w0, w', Copied(a, tail, i[0], str), NewTail(a, tail, |str|), o', i[1..])
  {
    hide Sound, Bytes, SeenAt, PoolAs, Alone, Fitting, Written, HasRoom, Fits, Room, SameBytes, NoneMade, Added, Safe,
         EndsInHeap, Sim;
    var e := i[0];
    FirstApart(o, i);
    SimParts(w0, w, a, tail, o, i);
    FitsSame(w, a, tail, o, |str|);
    if str == [] {
      SimRest(w0, w, a, tail, o, i);
      SimDropped(w0, m, w', a, tail, o, i[1..], e);
    } else if Fitting(w, o, |str|) {
      SimWritten(w0, w, a, tail, o, i, str);
      var b := o[|o| - 1];
      var a1 := if tail.Old? then Grown(a, b, str) else a;
      var tail1 := if tail.New? then New(tail.room - |str|) else tail;
      SimRest(w0, m, a1, tail1, o, i);
      SimDropped(w0, m, w', a1, tail1, o, i[1..], e);
      assert a1 - {e} == Copied(a, tail, e, str);
    } else {
      var size: nat := if EndsInHeap(w, o) || |str| > BUFF_SIZE then |str| else BUFF_SIZE;
      SimAdded(w0, w, m, a, tail, o, o', i, str, size);
      SimRest(w0, m, a, New(size - |str|), o', i);
      LastAdded(w, m, o, o', str, size);
      SimDropped(w0, m, w', a, New(size - |str|), o', i[1..], e);
    }
  }

  lemma SimParts(w0: World, w: World, a: Seen, tail: Tail, o: seq<Bucket>, i: seq<Bucket>)
    requires Sim(w0, w, a, tail, o, i)
    ensures TailIs(w, a, tail, o) && (forall x :: x in a ==> SeenAt(w, a, x)) && forall x :: x in i ==> x in a
    ensures tail.Old? ==> o != [] && tail.b == o[|o| - 1] && tail.b in a
    ensures tail.New? ==> o != [] && o[|o| - 1] !in a
  {
    hide Bytes;
  }

  lemma LastAdded(w: World, m: World, o: seq<Bucket>, o': seq<Bucket>, str: seq<Byte>, size: nat)
    requires Added(w, m, o, o', str, size)
    ensures o' != [] && o'[|o'| - 1] !in w.at
  {
    hide Bytes, SameBytes;
  }

  // ---------- the run ----------

  /** The first pass, and what it leaves. */
  lemma PassIsSafe(p: Pass, w0: World, a: Seen, tail: Tail)
    requires IsPass(p) && Sim(w0, p.w, a, tail, p.o, p.i)
    ensures p.rv == Success && p.i != [] && p.i[0] in a && p.str == a[p.i[0]].bytes
    ensures LF in p.str ==> SafePass(p)
    ensures LF !in p.str ==>
      var e, str, a1 := p.i[0], p.str, Seeing(w0, a, p.i[0]);
      && p.moved == str && p.i2 == p.i[1..]
      && if Carried(a1[e].s, |str|) then
           SafePass(p) && Sim(w0, p.w2, a1, if a1[e].s.kind == Heap then Old(e) else NoHeap, p.o2, p.i2)
         else
           && (SafePass(p) <==> CopySafe(a1, tail, e, str))
           && (SafePass(p) ==> Sim(w0, p.w2, Copied(a1, tail, e, str), NewTail(a1, tail, |str|), p.o2, p.i2))
  {
    hide Bytes, Moved, Sound, Sim, Safe, Copyable, CopySafe, Poured, SeenAt, NewTail, Copied, Distinct, FirstRead,
         InHand, Opened;
    FirstOf(p.w, p.w1, p.i, p.i1, p.rv);
    var e := p.i[0];
    SimRead(w0, p.w, p.w1, a, tail, p.o, p.i, p.i1, p.rv);
    var a1 := Seeing(w0, a, e);
    CopySafeIs(w0, p.w1, a1, tail, p.o, p.i1, p.str);
    SeenFirst(w0, p.w1, a1, tail, p.o, p.i1);
    if LF !in p.str {
      if Carried(a1[e].s, |p.str|) {
        SimCarried(w0, p.w1, a1, tail, p.o, p.i1);
      } else if SafePass(p) {
        SimPoured(w0, p.w1, p.m, p.w2, a1, tail, p.o, p.o2, p.i1, p.str);
      }
    }
  }

  lemma FirstOf(w: World, w1: World, i: seq<Bucket>, i1: seq<Bucket>, rv: Status)
    requires FirstRead(w, w1, i, i1, rv)
    ensures i != [] && i[0] in w.at
  {
    hide Bytes, SameBytes;
  }

  lemma SeenFirst(w0: World, w: World, a: Seen, tail: Tail, o: seq<Bucket>, i: seq<Bucket>)
    requires Sim(w0, w, a, tail, o, i) && i != []
    ensures i[0] in a && i[0] in w.at && w.at[i[0]] == a[i[0]].s
  {
    hide Bytes;
    assert i[0] in i && SeenAt(w, a, i[0]);
  }

  lemma {:induction false} RunIsSafe(h: seq<Pass>, w0: World, a: Seen, tail: Tail, w: World, o: seq<Bucket>,
                                     i: seq<Bucket>, w': World, o': seq<Bucket>, i': seq<Bucket>, left: int)
    requires IsRun(h, w, o, i, w', o', i') && Complete(h, i, left) && Sim(w0, w, a, tail, o, i)
    ensures AllSafe(h) <==> RunSafe(w0, a, tail, i, left)
  {
    hide IsPass, SafePass, Sim, Carried, CopySafe, Copied, NewTail;
    if h == [] {
    } else {
      var p := h[0];
      PassIsSafe(p, w0, a, tail);
      var e, a1 := i[0], Seeing(w0, a, i[0]);
      if LF in p.str || |p.moved| >= left {
        assert h[1..] == [];
      } else if SafePass(p) {
        var a2 := if Carried(a1[e].s, |p.str|) then a1 else Copied(a1, tail, e, p.str);
        var t2 :=
          if Carried(a1[e].s, |p.str|) then (if a1[e].s.kind == Heap then Old(e) else NoHeap)
          else NewTail(a1, tail, |p.str|);
        RunIsSafe(h[1..], w0, a2, t2, p.w2, p.o2, p.i2, w', o', i', left - |p.moved|);
      }
    }
  }

  /** For input in memory, the run does no harm if and only if it does none on paper. */
  lemma HarmIsForeseen(h: seq<Pass>, w: World, o: seq<Bucket>, i: seq<Bucket>, w': World, o': seq<Bucket>,
                       i': seq<Bucket>, maxbytes: int)
    requires IsRun(h, w, o, i, w', o', i') && Complete(h, i, maxbytes) && InMemory(w, i)
    ensures AllSafe(h) <==> RunSafe(w, Look(w), TailOf(w, o), i, maxbytes)
  {
    hide IsRun, Complete, AllSafe, RunSafe, Sim, Look, TailOf;
    SimStart(w, o, i);
    RunIsSafe(h, w, Look(w), TailOf(w, o), w, o, i, w', o', i', maxbytes);
  }
}
