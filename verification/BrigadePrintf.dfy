/** apr_brigade_vprintf: formatted output to the end of a brigade. */
module BrigadePrintf {
  import opened CStrings
  import F = FormatSpec
  import P = Snprintf
  import opened Buckets
  import opened Rings
  import opened BucketOps
  import opened BrigadeSpec
  import opened Brigades
  import opened BrigadeWrite
  import opened BrigadeTidy
  import opened BrigadeFlush
  import opened Machine

  lemma ToBytesCat(s: string, t: string)
    ensures ToBytes(s + t) == ToBytes(s) + ToBytes(t)
  {
  }

  /** No other live bucket reaches beyond the end of the last one into its spare room. */
  ghost predicate TailClear(w: World, s: seq<Bucket>) {
    NoneBeyond(w, Queue(s, []))
  }

  lemma TailIsSafe(w: World, s: seq<Bucket>, str: seq<Byte>)
    requires Sound(w) && TailClear(w, s)
    ensures Safe(w, s, str)
  {
    if Fitting(w, s, |str|) {
      var b := s[|s| - 1];
      FittingRoom(w, s, |str|);
      hide Sound;
      assert Queue(s, []) == [b];
      forall x | x in w.at && x != b ensures Harmless(w, b, str, x) { assert Shares(w, b, x) ==> EndsBy(w, x, b); }
    }
  }

  /** The end stays clear after a write. */
  lemma TailStaysClear(w: World, w': World, s: seq<Bucket>, s': seq<Bucket>, str: seq<Byte>)
    requires Sound(w) && TailClear(w, s) && Streamed(w, w', s, s', str)
    ensures TailClear(w', s')
  {
    hide Sound, Content, Bytes, Untouched;
    assert Queue(s', []) == [s'[|s'| - 1]];
    if s != [] { assert Queue(s, []) == [s[|s| - 1]]; }
    forall x | x in w.at ensures w.at[x].data.Res? ==> w.at[x].data.r in w.res { Forms(w, x); }
  }

  /** A flush function leaves the end clear. */
  lemma TailAfterFlush(w: World, w': World, s: seq<Bucket>, k: nat, x: seq<Byte>, x': seq<Byte>)
    requires TailClear(w, s) && Flushed(w, w', s, k, x, x') && AllLive(w', s[k..])
    ensures TailClear(w', s[k..])
  {
    hide Bytes, Content;
    if k < |s| {
      assert s[k..][|s| - k - 1] == s[|s| - 1];
      assert Queue(s, []) == [s[|s| - 1]] == Queue(s[k..], []);
    }
  }

  /** The text comes after the stream, when the end is clear, and the end stays clear. */
  ghost predicate Printed(w: World, w': World, s: seq<Bucket>, s': seq<Bucket>, x: seq<Byte>, x': seq<Byte>,
                          str: seq<Byte>) {
    Evolved(w, w', s, s') && (TailClear(w, s) ==> TailClear(w', s') && Sent(w, w', s, s', x, x', str))
  }

  lemma PrintedNothing(w: World, s: seq<Bucket>, x: seq<Byte>)
    ensures Printed(w, w, s, s, x, x, [])
  {
    hide TailClear, Sent;
    SentNothing(w, s, x);
    EvolvedNothing(w, s);
  }

  lemma PrintedMore(w: World, w1: World, w': World, s: seq<Bucket>, s1: seq<Bucket>, s': seq<Bucket>, x: seq<Byte>,
                    x1: seq<Byte>, x': seq<Byte>, a: seq<Byte>, b: seq<Byte>)
    requires Printed(w, w1, s, s1, x, x1, a) && Printed(w1, w', s1, s', x1, x', b)
    ensures Printed(w, w', s, s', x, x', a + b)
  {
    hide TailClear, Sent, Evolved;
    EvolvedStep(w, w1, w', s, s1, s');
    if TailClear(w, s) { SentMore(w, w1, w', s, s1, s', x, x1, x', a, b); }
  }

  lemma PrintedOpen(w: World, w': World, s: seq<Bucket>, s': seq<Bucket>, x: seq<Byte>, x': seq<Byte>, str: seq<Byte>)
    requires Printed(w, w', s, s', x, x', str)
    ensures Evolved(w, w', s, s')
  {
    hide TailClear, Sent;
  }

  /** apr_brigade_write of one piece of the output. */
  method WritePiece(ghost w: World, b: Brigade, piece: string, f: Flusher?)
    returns (rv: Status, ghost w': World, ghost n: set<object>)
    requires Good(w) && b.Valid(w) && |piece| <= BUFF_SIZE
    modifies f, b`items, b.items, w.res.Keys, b.list`next, b.list`prev
    ensures Good(w') && b.Valid(w') && fresh(n) && Within(w, w', n) && (f == null ==> rv == Success)
    ensures Printed(w, w', old(b.items), b.items, old(SentBy(f)), SentBy(f), ToBytes(piece))
  {
    hide Shows, Sound, Streamed, Safe, TailClear, Within, ToBytes, Ring, AllLive, Flushed, Sent, Evolved;
    ghost var s, m, s1, k := b.items, w, b.items, 0;
    GoodSound(w);
    rv, m, s1, k, w', n := WriteOut(w, b, ToBytes(piece), f);
    if TailClear(w, s) {
      TailIsSafe(w, s, ToBytes(piece));
      TailStaysClear(w, m, s, s1, ToBytes(piece));
      b.Open(w');
      TailAfterFlush(m, w', s1, k, old(SentBy(f)), SentBy(f));
    }
  }

  lemma GoodSound(w: World)
    requires Good(w)
    ensures Sound(w)
  {
  }

  /** One more piece. */
  method WriteNext(ghost w: World, ghost w1: World, ghost s: seq<Bucket>, ghost x: seq<Byte>, b: Brigade,
                   ghost before: string, piece: string, f: Flusher?, ghost n1: set<object>)
    returns (rv: Status, ghost w': World, ghost n: set<object>)
    requires Good(w1) && b.Valid(w1) && |piece| <= BUFF_SIZE && Within(w, w1, n1)
    requires Printed(w, w1, s, b.items, x, SentBy(f), ToBytes(before))
    modifies f, b`items, b.items, w1.res.Keys, b.list`next, b.list`prev
    ensures Good(w') && b.Valid(w') && fresh(n - n1) && n1 <= n && Within(w, w', n) && (f == null ==> rv == Success)
    ensures Printed(w, w', s, b.items, x, SentBy(f), ToBytes(before + piece))
  {
    hide Good, TailClear, Within, Printed, ToBytes, Ring, AllLive, Brigade.Valid, Evolved;
    ghost var s1, x1, n2 := b.items, SentBy(f), {};
    rv, w', n2 := WritePiece(w1, b, piece, f);
    PrintedMore(w, w1, w', s, s1, b.items, x, x1, SentBy(f), ToBytes(before), ToBytes(piece));
    ToBytesCat(before, piece);
    WithinStep(w, w1, w', n1, n2);
    n := n1 + n2;
  }

  /** The buffers that brigade_flush passes on, one after another, up to a flush that
      fails. */
  method WriteAll(ghost w: World, b: Brigade, pieces: seq<string>, f: Flusher?)
    returns (rv: Status, k: nat, ghost w': World, ghost n: set<object>)
    requires Good(w) && b.Valid(w) && forall k :: 0 <= k < |pieces| ==> |pieces[k]| <= BUFF_SIZE
    modifies f, b`items, b.items, w.res.Keys, b.list`next, b.list`prev
    ensures Good(w') && b.Valid(w') && fresh(n) && Within(w, w', n) && k <= |pieces|
    ensures (f == null ==> rv == Success) && (rv == Success ==> k == |pieces|)
    ensures Printed(w, w', old(b.items), b.items, old(SentBy(f)), SentBy(f), ToBytes(P.Flatten(pieces[..k])))
  {
    hide Good, TailClear, Within, Printed, ToBytes, Ring, AllLive, Brigade.Valid, Evolved;
    rv, w', n, k := Success, w, {}, 0;
    WithinNothing(w);
    PrintedNothing(w, b.items, SentBy(f));
    FlattenNone(pieces);
    while k < |pieces| && rv == Success
      invariant k <= |pieces| && Good(w') && b.Valid(w') && (f == null ==> rv == Success)
      invariant Printed(w, w', old(b.items), b.items, old(SentBy(f)), SentBy(f), ToBytes(P.Flatten(pieces[..k])))
      invariant fresh(n) && Within(w, w', n)
    {
      b.Open(w');
      PrintedOpen(w, w', old(b.items), b.items, old(SentBy(f)), SentBy(f), ToBytes(P.Flatten(pieces[..k])));
      EvolvedIn(w, w', old(b.items), b.items, n);
      WithinOpen(w, w', n);
      rv, w', n := WriteNext(w, w', old(b.items), old(SentBy(f)), b, P.Flatten(pieces[..k]), pieces[k], f, n);
      FlattenMore(pieces, k);
      k := k + 1;
    }
  }

  lemma FlattenNone(pieces: seq<string>)
    ensures ToBytes(P.Flatten(pieces[..0])) == []
  {
  }

  lemma FlattenMore(pieces: seq<string>, k: nat)
    requires k < |pieces|
    ensures P.Flatten(pieces[..k + 1]) == P.Flatten(pieces[..k]) + pieces[k]
  {
    assert pieces[..k + 1] == pieces[..k] + [pieces[k]];
    P.Passed(pieces[..k], pieces[k]);
  }

  /** apr_brigade_vprintf: all of the output comes after the stream, of which a flush
      function may have passed some on; or, when it returns -1, the buffers that were
      full. That happens when a flush fails, and when the count comes out as -1. */
  method VPrintf(ghost w: World, b: Brigade, f: Flusher?, host: F.Host, format: CString, args: seq<F.Arg>)
    returns (failed: bool, rv: Status, ghost done: string, ghost w': World, ghost n: set<object>)
    requires Good(w) && b.Valid(w) && P.Plain(host, format, args, 0)
    modifies f, b`items, b.items, w.res.Keys, b.list`next, b.list`prev
    ensures Good(w') && b.Valid(w') && fresh(n) && Within(w, w', n)
    ensures Printed(w, w', old(b.items), b.items, old(SentBy(f)), SentBy(f), ToBytes(done))
    ensures var out := F.Format(host, format, args, 0);
            && done <= out && (!failed ==> done == out) && (failed ==> |done| % BUFF_SIZE == 0)
            && (f == null ==> rv == Success && (failed <==> ToInt(|out|) == -1))
  {
    hide Good, TailClear, Within, Printed, Evolved, ToBytes, Ring, AllLive, Brigade.Valid, F.Format, ToInt;
    ghost var out := F.Format(host, format, args, 0);
    var chunks, rest, cc := Formatted(host, format, args);
    var k;
    rv, k, w', n := WriteAll(w, b, chunks, f);
    done := P.Flatten(chunks[..k]);
    FirstBuffers(chunks, k);
    failed := rv != Success || cc == -1;
    if !failed {
      b.Open(w');
      PrintedOpen(w, w', old(b.items), b.items, old(SentBy(f)), SentBy(f), ToBytes(done));
      EvolvedIn(w, w', old(b.items), b.items, n);
      WithinOpen(w, w', n);
      rv, w', n := WriteNext(w, w', old(b.items), old(SentBy(f)), b, done, rest, f, n);
      assert chunks[..k] == chunks;
      done := done + rest;
    }
  }

  /** Buffers that were full make up a beginning of the output. */
  lemma {:induction false} FirstBuffers(chunks: seq<string>, k: nat)
    requires k <= |chunks| && forall j :: 0 <= j < |chunks| ==> |chunks[j]| == BUFF_SIZE
    ensures P.Flatten(chunks[..k]) <= P.Flatten(chunks) && |P.Flatten(chunks[..k])| == k * BUFF_SIZE
    ensures k * BUFF_SIZE % BUFF_SIZE == 0
    decreases |chunks| + |chunks| - k
  {
    Multiple(k);
    if k == |chunks| {
      assert chunks[..k] == chunks;
      if k > 0 {
        var c := chunks[..k - 1];
        FirstBuffers(c, k - 1);
        assert c[..k - 1] == c && chunks == c + [chunks[k - 1]];
        P.Passed(c, chunks[k - 1]);
      }
    } else {
      var c := chunks[..|chunks| - 1];
      FirstBuffers(c, k);
      assert c[..k] == chunks[..k] && chunks == c + [chunks[|chunks| - 1]];
      P.Passed(c, chunks[|chunks| - 1]);
    }
  }

  lemma Multiple(k: nat)
    ensures k * BUFF_SIZE % BUFF_SIZE == 0
  {
  }

  /** The formatting, with a buffer of the size of a bucket: the full buffers, what is
      left in the last one, and the count. */
  method Formatted(host: F.Host, format: CString, args: seq<F.Arg>)
    returns (chunks: seq<string>, rest: string, cc: CInt)
    requires P.Plain(host, format, args, 0)
    ensures P.Flatten(chunks) + rest == F.Format(host, format, args, 0)
    ensures |rest| <= BUFF_SIZE && forall k :: 0 <= k < |chunks| ==> |chunks[k]| == BUFF_SIZE
    ensures cc == ToInt(|F.Format(host, format, args, 0)|)
  {
    hide F.Format, P.Plain, ToInt;
    var buf := new char[BUFF_SIZE];
    var vbuff := new P.Sink(buf, BUFF_SIZE, false, false);
    var fails := P.VFormatter(host, vbuff, format, args);
    chunks, rest, cc := vbuff.chunks, buf[..vbuff.curpos], vbuff.cc;
    assert "" + F.Format(host, format, args, 0) == F.Format(host, format, args, 0);
  }
}
