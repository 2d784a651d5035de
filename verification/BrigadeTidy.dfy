/** When apr_brigade_split_line may write into the spare room of a bucket: buckets of the
same memory are where they belong in the queue of buckets still to be gathered. */
module BrigadeTidy {
  import opened Buckets
  import opened Rings
  import opened BucketRead
  import opened BrigadeSpec
  import opened Brigades
  import opened BrigadeWrite

  /** Two buckets of the same memory. */
  ghost predicate Shares(w: World, b: Bucket, x: Bucket) {
    && b in w.at && x in w.at && w.at[b].kind in {Heap, Pool} && w.at[b].data.Res? && w.at[x].data == w.at[b].data
  }

  ghost predicate EndsBy(w: World, x: Bucket, b: Bucket) {
    b in w.at && x in w.at && EndOfSlice(w.at[x]) <= EndOfSlice(w.at[b])
  }

  ghost predicate StartsAt(w: World, x: Bucket, b: Bucket) {
    b in w.at && x in w.at && w.at[x].start == EndOfSlice(w.at[b])
  }

  ghost predicate StartsAfter(w: World, x: Bucket, b: Bucket) {
    b in w.at && x in w.at && w.at[x].start >= EndOfSlice(w.at[b])
  }

  /** The buckets a line is gathered from: the last one of `out`, and those of `input`. */
  ghost function Queue(out: seq<Bucket>, input: seq<Bucket>): seq<Bucket> {
    (if out == [] then [] else [out[|out| - 1]]) + input
  }

  /** No bucket elsewhere reaches beyond the end of one in the queue into the spare room
      of its memory. */
  ghost predicate NoneBeyond(w: World, q: seq<Bucket>) {
    forall b, x :: b in q && x in w.at && x !in q && Shares(w, b, x) ==> EndsBy(w, x, b)
  }

  /** Buckets of the same memory are one after another in the queue as they are in the
      memory. */
  ghost predicate InOrder(w: World, q: seq<Bucket>) {
    forall i, j :: 0 <= i < j < |q| ==> Placed(w, q, i, j)
  }

  ghost predicate Placed(w: World, q: seq<Bucket>, i: nat, j: nat)
    requires i < j < |q|
  {
    Shares(w, q[i], q[j]) ==>
      Shares(w, q[i], q[i + 1]) && StartsAt(w, q[i + 1], q[i]) && StartsAfter(w, q[j], q[i])
  }

  ghost predicate Tidy(w: World, q: seq<Bucket>) {
    NoneBeyond(w, q) && InOrder(w, q)
  }

  lemma Ordered(w: World, q: seq<Bucket>, i: nat, j: nat)
    requires InOrder(w, q) && i < j < |q| && Shares(w, q[i], q[j])
    ensures Shares(w, q[i], q[i + 1]) && StartsAt(w, q[i + 1], q[i]) && StartsAfter(w, q[j], q[i])
  {
    assert Placed(w, q, i, j);
  }

  /** The first bucket may be written to the end of the last one before it: it does no
      harm to any other. */
  lemma TidyIsSafe(w: World, out: seq<Bucket>, e: Bucket, rest: seq<Bucket>, str: seq<Byte>)
    requires Sound(w) && Tidy(w, Queue(out, [e] + rest)) && InHand(w, e, str)
    ensures Safe(w, out, str)
  {
    if Fitting(w, out, |str|) {
      var b, q := out[|out| - 1], Queue(out, [e] + rest);
      assert q[0] == b && q[1] == e;
      FittingRoom(w, out, |str|);
      hide Sound, Bytes, HasRoom, Harmless, InHand, Tidy;
      forall x | x in w.at && x != b ensures Harmless(w, b, str, x) {
        HarmlessTo(w, q, str, x);
      }
    }
  }

  lemma HarmlessTo(w: World, q: seq<Bucket>, str: seq<Byte>, x: Bucket)
    requires Sound(w) && |q| >= 2 && Tidy(w, q) && InHand(w, q[1], str)
    requires HasRoom(w, q[0], |str|) && x in w.at && x != q[0]
    ensures Harmless(w, q[0], str, x)
  {
    hide Sound, Bytes;
    if Shares(w, q[0], x) && x in q {
      var j :| 0 <= j < |q| && q[j] == x;
      Ordered(w, q, 0, j);
      NextBytes(w, q[0], q[1], str);
    } else {
      assert q[0] in q;
    }
  }

  /** A bucket that begins where another one ends. */
  lemma NextBytes(w: World, b: Bucket, e: Bucket, str: seq<Byte>)
    requires Sound(w) && HasRoom(w, b, |str|) && Shares(w, b, e)
    requires InHand(w, e, str) && w.at[e].start == EndOfSlice(w.at[b])
    ensures var m, end := w.res[w.at[b].data.r].mem, EndOfSlice(w.at[b]);
            0 <= end && end + |str| <= |m| && str == m[end..end + |str|]
  {
    RoomInMemory(w, b);
    SharedBytes(w, w.at[e], w.at[b].data.r);
    hide Sound, Bytes;
  }

  // ---------- reading ----------

  /** What a read of `e` does to the slices, `c` being the bucket for the rest. */
  ghost predicate Refreshed(w: World, w': World, e: Bucket, c: Bucket) {
    && Retargeted(w, w', e, c) && w'.at.Keys == w.at.Keys + {c} && (c != e ==> c !in w.at)
    && forall x :: x in w.at && x != e ==> w'.at[x] == w.at[x]
  }

  lemma ReadRefreshes(w: World, w': World, e: Bucket, c: Bucket, rv: Status, str: seq<Byte>)
    requires ReadTo(w, w', e, c, rv, str) && (c != e ==> c !in w.at)
    ensures Refreshed(w, w', e, c)
  {
    hide Bytes, SameBytes, Retargeted;
  }

  /** What shares memory after a read has done so before. */
  lemma SharedBefore(w: World, w': World, e: Bucket, c: Bucket, b: Bucket, x: Bucket)
    requires Sound(w) && Refreshed(w, w', e, c) && b != x && Shares(w', b, x)
    ensures Shares(w, b, x) && SamePlace(w, w', b) && SamePlace(w, w', x)
    ensures c != e ==> b != c && x != c && b != e && x != e
  {
    hide Sound;
    Forms(w, e);
    if b in w.at { Forms(w, b); }
    if x in w.at { Forms(w, x); }
  }

  ghost predicate SamePlace(w: World, w': World, b: Bucket) {
    b in w.at && b in w'.at && w'.at[b].data == w.at[b].data && w'.at[b].start == w.at[b].start &&
      w'.at[b].length == w.at[b].length
  }

  /** Files and pipes have no memory to share. */
  lemma Forms(w: World, e: Bucket)
    requires Sound(w) && e in w.at
    ensures w.at[e].kind == File ==> w.at[e].data.Res? && w.at[e].data.r.form == File
    ensures w.at[e].kind == Pipe ==> w.at[e].data.End?
    ensures w.at[e].kind in {Heap, Pool} ==> w.at[e].data.Res? && w.at[e].data.r.form != File
    ensures w.at[e].data.Res? ==> w.at[e].data.r in w.res
  {
    BucketInSound(w, e);
  }

  /** Buckets that share memory still do when one of them has been read, but for pool
      buckets. */
  lemma SharedAfter(w: World, w': World, e: Bucket, c: Bucket, b: Bucket, x: Bucket)
    requires Sound(w) && Refreshed(w, w', e, c) && Shares(w, b, x) && (b == e ==> w'.at[b].kind in {Heap, Pool})
    ensures Shares(w', b, x) && SamePlace(w, w', b) && SamePlace(w, w', x)
  {
    hide Sound;
    Forms(w, e);
    Forms(w, b);
  }

  lemma TidyRead(w: World, w': World, q: seq<Bucket>, k: nat, c: Bucket)
    requires Sound(w) && k < |q| && AllLive(w, q) && Distinct(q) && Tidy(w, q) && Refreshed(w, w', q[k], c)
    ensures Tidy(w', Grown(q, k, c))
  {
    hide Sound, Refreshed, Shares;
    BeyondRead(w, w', q, k, c);
    OrderRead(w, w', q, k, c);
  }

  lemma BeyondRead(w: World, w': World, q: seq<Bucket>, k: nat, c: Bucket)
    requires Sound(w) && k < |q| && NoneBeyond(w, q) && Refreshed(w, w', q[k], c)
    ensures NoneBeyond(w', Grown(q, k, c))
  {
    hide Sound, Refreshed, Shares;
    var q' := Grown(q, k, c);
    assert forall x :: x in q ==> x in q';
    forall b, x | b in q' && x in w'.at && x !in q' && Shares(w', b, x) ensures EndsBy(w', x, b) {
      SharedBefore(w, w', q[k], c, b, x);
    }
  }

  lemma OrderRead(w: World, w': World, q: seq<Bucket>, k: nat, c: Bucket)
    requires Sound(w) && k < |q| && Distinct(q) && AllLive(w, q) && InOrder(w, q) && Refreshed(w, w', q[k], c)
    ensures InOrder(w', Grown(q, k, c))
  {
    hide Sound, Refreshed, Shares;
    var q' := Grown(q, k, c);
    GrownDistinct(w, w', q, k, c);
    forall i, j | 0 <= i < j < |q'| ensures Placed(w', q', i, j) {
      if Shares(w', q'[i], q'[j]) { PairRead(w, w', q, k, c, i, j); }
    }
  }

  lemma GrownDistinct(w: World, w': World, q: seq<Bucket>, k: nat, c: Bucket)
    requires k < |q| && Distinct(q) && AllLive(w, q) && Refreshed(w, w', q[k], c)
    ensures Distinct(Grown(q, k, c))
  {
  }

  lemma PairRead(w: World, w': World, q: seq<Bucket>, k: nat, c: Bucket, i: nat, j: nat)
    requires Sound(w) && k < |q| && InOrder(w, q) && Refreshed(w, w', q[k], c) && Distinct(Grown(q, k, c))
    requires i < j < |Grown(q, k, c)| && Shares(w', Grown(q, k, c)[i], Grown(q, k, c)[j])
    ensures var q' := Grown(q, k, c);
            Shares(w', q'[i], q'[i + 1]) && StartsAt(w', q'[i + 1], q'[i]) && StartsAfter(w', q'[j], q'[i])
  {
    hide Sound, Refreshed;
    var q' := Grown(q, k, c);
    var b, x := q'[i], q'[j];
    SharedBefore(w, w', q[k], c, b, x);
    var m := if c == q[k] || i <= k then i else i - 1;
    var n := if c == q[k] || j <= k then j else j - 1;
    assert q[m] == b && q[n] == x;
    Ordered(w, q, m, n);
    SharedAfter(w, w', q[k], c, b, q[m + 1]);
    if c != q[k] { assert m + 1 != k + 1 || m + 1 == n; }
  }

  // ---------- moving and gathering ----------

  lemma SharesBack(w: World, b: Bucket, x: Bucket)
    requires Sound(w) && Shares(w, b, x)
    ensures Shares(w, x, b)
  {
    Forms(w, b);
    BucketInSound(w, x);
    hide Sound;
  }

  /** The queue without its first bucket, which is elsewhere then. */
  lemma TidyTail(w: World, q: seq<Bucket>)
    requires Sound(w) && q != [] && Tidy(w, q)
    ensures Tidy(w, q[1..])
  {
    hide Sound, Shares, EndsBy, StartsAt, StartsAfter;
    var q' := q[1..];
    forall b, x | b in q' && x in w.at && x !in q' && Shares(w, b, x) ensures EndsBy(w, x, b) {
      BeyondTail(w, q, b, x);
    }
    OrderTail(w, q);
  }

  lemma BeyondTail(w: World, q: seq<Bucket>, b: Bucket, x: Bucket)
    requires Sound(w) && q != [] && Tidy(w, q) && b in q[1..] && x !in q[1..] && x in w.at && Shares(w, b, x)
    ensures EndsBy(w, x, b)
  {
    hide Sound, Shares, EndsBy;
    assert b in q;
    if x in q {
      var j :| 0 < j < |q| && q[j] == b;
      assert q[0] == x;
      SharesBack(w, b, x);
      Ordered(w, q, 0, j);
      EarlierEnds(w, x, b);
    }
  }

  lemma OrderTail(w: World, q: seq<Bucket>)
    requires q != [] && InOrder(w, q)
    ensures InOrder(w, q[1..])
  {
    hide Shares, StartsAt, StartsAfter;
    var q' := q[1..];
    forall i, j | 0 <= i < j < |q'| ensures Placed(w, q', i, j) {
      assert Placed(w, q, i + 1, j + 1);
    }
  }

  lemma EarlierEnds(w: World, x: Bucket, b: Bucket)
    requires StartsAfter(w, b, x)
    ensures EndsBy(w, x, b)
  {
  }

  /** A bucket elsewhere goes. */
  lemma TidyWithout(w: World, w': World, q: seq<Bucket>, e: Bucket)
    requires Tidy(w, q) && e !in q && w'.at == w.at - {e}
    ensures Tidy(w', q)
  {
    forall i, j | 0 <= i < j < |q| ensures Placed(w', q, i, j) {
      assert Placed(w, q, i, j);
    }
  }

  /** A bucket with memory of its own comes in. */
  lemma TidyWithNew(w: World, w': World, q: seq<Bucket>, e: Bucket)
    requires Sound(w) && Tidy(w, q) && AllLive(w, q) && e !in w.at && e in w'.at && w'.at == w.at[e := w'.at[e]]
    requires w'.at[e].data.Mem? || (w'.at[e].data.Res? && w'.at[e].data.r !in w.res)
    ensures Tidy(w', [e] + q)
  {
    hide Sound;
    var q' := [e] + q;
    forall x | x in w.at
      ensures w'.at[x] == w.at[x] && !Shares(w', x, e) && !Shares(w', e, x) && x != e
    {
      Forms(w, x);
    }
    forall i, j | 0 <= i < j < |q'| ensures Placed(w', q', i, j) {
      assert q'[j] == q[j - 1] && q'[i + 1] == q[i];
      if i > 0 { assert Placed(w, q, i - 1, j - 1); }
    }
  }

  /** The first bucket grows by what the second one held, which goes. */
  lemma TidyGrown(w: World, w': World, q: seq<Bucket>, n: nat)
    requires Sound(w) && |q| >= 2 && Tidy(w, q) && AllLive(w, q) && Distinct(q) && w.at[q[1]].length == n
    requires w'.at == w.at[q[0] := w.at[q[0]].(length := w.at[q[0]].length + n)] - {q[1]}
    ensures Tidy(w', [q[0]] + q[2..])
  {
    hide Sound, NoneBeyond, Shares, StartsAt, StartsAfter;
    var q' := [q[0]] + q[2..];
    GrownBeyond(w, w', q, n);
    forall i, j | 0 <= i < j < |q'| ensures Placed(w', q', i, j) {
      if Shares(w', q'[i], q'[j]) { GrownPair(w, w', q, n, i, j); }
    }
  }

  lemma GrownPair(w: World, w': World, q: seq<Bucket>, n: nat, i: nat, j: nat)
    requires Sound(w) && |q| >= 2 && InOrder(w, q) && AllLive(w, q) && Distinct(q) && w.at[q[1]].length == n
    requires w'.at == w.at[q[0] := w.at[q[0]].(length := w.at[q[0]].length + n)] - {q[1]}
    requires i < j < |q| - 1 && Shares(w', ([q[0]] + q[2..])[i], ([q[0]] + q[2..])[j])
    ensures var q' := [q[0]] + q[2..];
            Shares(w', q'[i], q'[i + 1]) && StartsAt(w', q'[i + 1], q'[i]) && StartsAfter(w', q'[j], q'[i])
  {
    hide Sound;
    var q' := [q[0]] + q[2..];
    assert q'[j] == q[j + 1] && q'[i + 1] == q[i + 2];
    if i == 0 {
      Ordered(w, q, 0, j + 1);
      SharesBack(w, q[0], q[1]);
      Ordered(w, q, 1, j + 1);
    } else {
      Ordered(w, q, i + 1, j + 1);
    }
  }

  lemma GrownBeyond(w: World, w': World, q: seq<Bucket>, n: nat)
    requires |q| >= 2 && NoneBeyond(w, q) && AllLive(w, q)
    requires w'.at == w.at[q[0] := w.at[q[0]].(length := w.at[q[0]].length + n)] - {q[1]}
    ensures NoneBeyond(w', [q[0]] + q[2..])
  {
    var q' := [q[0]] + q[2..];
    assert forall x :: x in q ==> x in q' || x == q[1];
    assert forall x :: x in q' ==> x in q;
  }

  lemma NotInRest(out: seq<Bucket>, e: Bucket, rest: seq<Bucket>)
    requires Distinct(Queue(out, [e] + rest))
    ensures e !in rest
  {
    var q := Queue(out, [e] + rest);
    var k := if out == [] then 0 else 1;
    assert q[k] == e && forall i :: 0 <= i < |rest| ==> q[k + 1 + i] == rest[i];
  }

  /** The first bucket of `input` has been written to the end of `out`, and has gone. */
  lemma TidyGathered(w: World, w1: World, w': World, out: seq<Bucket>, out1: seq<Bucket>, e: Bucket, rest: seq<Bucket>,
                     n: nat)
    requires Sound(w) && AllLive(w, out + [e] + rest) && Distinct(Queue(out, [e] + rest)) && w.at[e].length == n
    requires Tidy(w, Queue(out, [e] + rest)) && w'.at == w1.at - {e}
    requires (out1 == out && w1.at == w.at && n == 0) || Appended(w, w1, out, out1, n)
    ensures Tidy(w', Queue(out1, rest))
  {
    hide Sound, Tidy;
    var q := Queue(out, [e] + rest);
    assert AllLive(w, q);
    if out1 == out && out != [] {
      var b := out[|out| - 1];
      assert q[0] == b && q[1] == e && q[2..] == rest;
      assert w.at[b].(length := w.at[b].length + 0) == w.at[b];
      TidyGrown(w, w', q, n);
    } else {
      if out != [] { TidyTail(w, q); }
      assert [e] + rest == if out == [] then q else q[1..];
      TidyTail(w, [e] + rest);
      assert ([e] + rest)[1..] == rest;
      if out1 == out {
        TidyWithout(w, w', rest, e);
      } else {
        var c := out1[|out1| - 1];
        TidyWithNew(w, w1, rest, c);
        assert e in [e] + rest && e in w.at && c != e;
        NotInRest(out, e, rest);
        assert e !in [c] + rest;
        TidyWithout(w1, w', [c] + rest, e);
      }
      assert Queue(out1, rest) == if out1 == out then rest else [out1[|out1| - 1]] + rest;
    }
  }
}
