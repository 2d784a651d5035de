/** The compression function of SHA-1, sections 4.1.1, 4.2.1, 5.1.1, 5.3.1 and 6.1 of
FIPS 180-4. */
module Sha1Spec {
  import opened DigestSpec

  function Ch(x: bv32, y: bv32, z: bv32): bv32 { (x & y) ^ (!x & z) }
  function Parity(x: bv32, y: bv32, z: bv32): bv32 { x ^ y ^ z }
  function Maj(x: bv32, y: bv32, z: bv32): bv32 { (x & y) ^ (x & z) ^ (y & z) }

  function F(t: nat, x: bv32, y: bv32, z: bv32): bv32 {
    if t < 20 then Ch(x, y, z) else if t < 40 then Parity(x, y, z) else if t < 60 then Maj(x, y, z) else Parity(x, y, z)
  }

  function K(t: nat): bv32 {
    if t < 20 then 0x5a827999 else if t < 40 then 0x6ed9eba1 else if t < 60 then 0x8f1bbcdc else 0xca62c1d6
  }

  datatype State = State(a: bv32, b: bv32, c: bv32, d: bv32, e: bv32)

  const IV := State(0x67452301, 0xefcdab89, 0x98badcfe, 0x10325476, 0xc3d2e1f0)

  /** Word `i` of a block. */
  function M(block: Block, i: nat): bv32
    requires i < 16
  {
    BigEndian(block[4 * i], block[4 * i + 1], block[4 * i + 2], block[4 * i + 3])
  }

  /** The message schedule. */
  function W(block: Block, t: nat): bv32 {
    if t < 16 then M(block, t)
    else Rotl(W(block, t - 3) ^ W(block, t - 8) ^ W(block, t - 14) ^ W(block, t - 16), 1)
  }

  function Round(s: State, t: nat, w: bv32): State {
    State(Sum5(Rotl(s.a, 5), F(t, s.b, s.c, s.d), s.e, w, K(t)), s.a, Rotl(s.b, 30), s.c, s.d)
  }

  function Rounds(s: State, block: Block, t: nat): State {
    if t == 0 then s else Round(Rounds(s, block, t - 1), t - 1, W(block, t - 1))
  }

  function Plus(s: State, r: State): State {
    State(Add(s.a, r.a), Add(s.b, r.b), Add(s.c, r.c), Add(s.d, r.d), Add(s.e, r.e))
  }

  function Compress(s: State, block: Block): State {
    Plus(s, Rounds(s, block, 80))
  }

  function TwoWords(hi: Word, lo: Word): (r: seq<bv8>)
    ensures |r| == 8
  {
    BytesBE(hi as bv32) + BytesBE(lo as bv32)
  }

  /** The length of the message in bits, as a 64-bit number. */
  function Length(n: nat): (r: seq<bv8>)
    ensures |r| == 8
  {
    TwoWords(HighBits(n), LowBits(n))
  }

  function Pad(msg: seq<bv8>): (r: seq<bv8>)
    ensures |r| % BLOCK == 0
  {
    PaddingFills(|msg|, Length(|msg|));
    msg + Padding(|msg|, Length(|msg|))
  }

  function Hash(msg: seq<bv8>): State {
    Fold(Compress, IV, Pad(msg))
  }

  /** The message digest. */
  function Digest(msg: seq<bv8>): seq<bv8> {
    var h := Hash(msg);
    WordsBE([h.a, h.b, h.c, h.d, h.e])
  }
}

/** apr_sha1.c */
module Sha1 {
  import opened DigestSpec
  import opened Sha1Spec

  function F1(x: bv32, y: bv32, z: bv32): (r: bv32)
    ensures r == Ch(x, y, z)
  {
    assert (x & y) | (!x & z) == (x & y) ^ (!x & z);
    (x & y) | (!x & z)
  }

  function F2(x: bv32, y: bv32, z: bv32): bv32 { x ^ y ^ z }
  function F4(x: bv32, y: bv32, z: bv32): bv32 { x ^ y ^ z }

  function F3(x: bv32, y: bv32, z: bv32): (r: bv32)
    ensures r == Maj(x, y, z)
  {
    assert (x & y) | (x & z) | (y & z) == (x & y) ^ (x & z) ^ (y & z);
    (x & y) | (x & z) | (y & z)
  }

  function Rot32(x: bv32, n: nat): (r: bv32)
    requires 0 < n < 32
    ensures n == 1 || n == 5 || n == 30 ==> r == Rotl(x, n)
  {
    (x << n) | (x >> (32 - n))
  }

  /** A word of memory, read in the byte order of the host. */
  function HostWord(little: bool, b: seq<bv8>, i: nat): bv32
    requires 4 * i + 4 <= |b|
  {
    if little then LittleEndian(b[4 * i], b[4 * i + 1], b[4 * i + 2], b[4 * i + 3])
    else BigEndian(b[4 * i], b[4 * i + 1], b[4 * i + 2], b[4 * i + 3])
  }

  /** The bytes of a word as the host stores it. */
  function HostBytes(little: bool, k: bv32): (r: seq<bv8>)
    ensures |r| == 4
  {
    if little then BytesLE(k) else BytesBE(k)
  }

  class Context {
    const littleEndian: bool          // isLittleEndian()
    const digest: array<bv32>
    var countLo: Word
    var countHi: Word
    const data: array<bv8>            // the 16 words of a block, as bytes
    var local: nat                    // unprocessed bytes in data
    ghost var msg: seq<bv8>           // everything passed to update so far

    ghost predicate Shape()
      reads this
    {
      digest.Length == 5 && data.Length == BLOCK
    }

    function State(): (s: State)
      reads this, digest
      requires Shape()
    {
      Sha1Spec.State(digest[0], digest[1], digest[2], digest[3], digest[4])
    }

    /** The whole blocks of the message are compressed, the rest of it is buffered, and
        the two words hold its length. */
    ghost predicate Valid()
      reads this, digest, data
    {
      && Shape()
      && countLo == LowBits(|msg|) && countHi == HighBits(|msg|)
      && local == |msg| % BLOCK && data[..local] == Left(msg)
      && State() == Fold(Compress, IV, Whole(msg))
    }

    /** A context on some host. */
    constructor (littleEndian: bool)
      ensures Shape() && fresh(digest) && fresh(data) && this.littleEndian == littleEndian
    {
      this.littleEndian := littleEndian;
      digest := new bv32[5](_ => 0);
      data := new bv8[BLOCK](_ => 0);
      countLo, countHi, local, msg := 0, 0, 0, [];
    }

    /** apr_sha1_init */
    method Init()
      requires Shape()
      modifies this, digest
      ensures Valid() && msg == []
    {
      hide Fold, Whole, Left, LowBits, HighBits, Compress;
      NoMessage(Compress, IV);
      digest[0] := 0x67452301;
      digest[1] := 0xefcdab89;
      digest[2] := 0x98badcfe;
      digest[3] := 0x10325476;
      digest[4] := 0xc3d2e1f0;
      countLo, countHi, local, msg := 0, 0, 0, [];
    }

    /** memcpy into the block buffer */
    method CopyIn(at: nat, bytes: seq<bv8>)
      requires at + |bytes| <= data.Length
      modifies data
      ensures data[..] == old(data[..at]) + bytes + old(data[at + |bytes|..])
    {
      forall k | 0 <= k < |bytes| { data[at + k] := bytes[k]; }
    }

    /** maybe_byte_reverse: afterwards the host reads each word most significant byte
        first. */
    method MaybeByteReverse(count: nat)
      requires count <= data.Length
      modifies data
      ensures forall i :: 0 <= i < count / 4 ==> HostWord(littleEndian, data[..], i) == WordAt(old(data[..]), i)
      ensures data[count / 4 * 4..] == old(data[count / 4 * 4..])
    {
      if littleEndian {
        hide LittleEndian, BigEndian;
        var n := count / 4;
        ghost var was := data[..];
        for i := 0 to n
          invariant forall q :: 0 <= q < i ==> Flipped(was, data[..], q)
          invariant forall k :: 4 * i <= k < data.Length ==> data[k] == was[k]
        {
          ghost var now := data[..];
          var ct0, ct1, ct2, ct3 := data[4 * i], data[4 * i + 1], data[4 * i + 2], data[4 * i + 3];
          data[4 * i], data[4 * i + 1], data[4 * i + 2], data[4 * i + 3] := ct3, ct2, ct1, ct0;
          StillFlipped(was, now, data[..], i);
        }
        ghost var b := data[..];
        forall i | 0 <= i < n ensures HostWord(true, b, i) == WordAt(was, i) { FlippedWord(was, b, i); }
      }
    }

    /** A full buffer is turned to host order and compressed. */
    method Process(ghost block: Block)
      requires Shape() && data[..] == block
      modifies data, digest
      ensures State() == Compress(old(State()), block)
    {
      MaybeByteReverse(BLOCK);
      forall i | 0 <= i < 16 ensures HostWord(littleEndian, data[..], i) == M(block, i) {
        assert WordAt(block, i) == M(block, i);
      }
      Transform(block);
    }

    /** apr_sha1_update_binary: whatever the cut, the message goes on. */
    method UpdateBinary(buffer: seq<bv8>)
      requires Valid() && |buffer| < WORD
      modifies this, data, digest
      ensures Valid() && msg == old(msg) + buffer
    {
      hide Fold, Whole, Left, LowBits, HighBits, Compress;
      AddCount(|buffer|);
      var start := 0;
      assert msg == msg + buffer[..0];
      if local != 0 {
        var full;
        start, full := FillUp(buffer);
        if !full { return; }
      }
      var count, pos := Blocks(buffer, start);
      CopyIn(0, buffer[pos..]);
      local := count;
      LeftMore(msg, buffer[pos..]);
      CutMessage(msg);
      msg := msg + buffer[pos..];
      Rejoin(old(msg), buffer, start, pos);
    }

    /** The first part of apr_sha1_update_binary: the remainder is filled up to a block
        if there is enough input. */
    method FillUp(buffer: seq<bv8>) returns (i: nat, full: bool)
      requires Shape() && 0 < local == |msg| % BLOCK && data[..local] == Left(msg)
      requires State() == Fold(Compress, IV, Whole(msg))
      modifies `msg, `local, data, digest
      ensures i <= |buffer| && msg == old(msg) + buffer[..i]
      ensures State() == Fold(Compress, IV, Whole(msg))
      ensures if full then |msg| % BLOCK == 0
              else i == |buffer| && local == |msg| % BLOCK && data[..local] == Left(msg)
    {
      hide Fold, Whole, Left, Compress;
      i := BLOCK - local;
      if i > |buffer| { i := |buffer|; }
      CopyIn(local, buffer[..i]);
      local := local + i;
      msg := msg + buffer[..i];
      full := local == BLOCK;
      if full {
        FoldMore(Compress, IV, old(msg), buffer[..i]);
        assert data[..] == Left(old(msg)) + buffer[..i];
        Process(data[..]);
      } else {
        LeftMore(old(msg), buffer[..i]);
        assert buffer[..i] == buffer;
      }
    }

    /** The loop of apr_sha1_update_binary: whole blocks straight from the input. */
    method Blocks(buffer: seq<bv8>, start: nat) returns (count: nat, pos: nat)
      requires Shape() && start <= |buffer| && |msg| % BLOCK == 0 && State() == Fold(Compress, IV, Whole(msg))
      modifies `msg, data, digest
      ensures count < BLOCK && start <= pos <= |buffer| && count == |buffer| - pos
      ensures msg == old(msg) + buffer[start..pos] && |msg| % BLOCK == 0
      ensures State() == Fold(Compress, IV, Whole(msg))
    {
      hide Fold, Whole, Left, Compress;
      count, pos := |buffer| - start, start;
      assert msg + buffer[start..start] == msg;
      while count >= BLOCK
        invariant start <= pos <= |buffer| && count == |buffer| - pos
        invariant msg == old(msg) + buffer[start..pos] && |msg| % BLOCK == 0
        invariant State() == Fold(Compress, IV, Whole(msg))
      {
        var next := buffer[pos..pos + BLOCK];
        CopyIn(0, next);
        FoldMore(Compress, IV, msg, next);
        assert Left(msg) + next == next;
        pos, count := pos + BLOCK, count - BLOCK;
        Process(next);
        msg := msg + next;
      }
    }

    /** apr_sha1_final: the digest of everything passed to update. */
    method Final(out: array<bv8>)
      requires Valid() && out.Length == 20 && out != data
      modifies data, digest, out
      ensures out[..] == Digest(msg)
    {
      hide Fold, Whole, Left, LowBits, HighBits, Compress, W, WordsBE, Pad;
      Finish();
      assert digest[..] == [digest[0], digest[1], digest[2], digest[3], digest[4]];
      WriteDigest(out);
    }

    /** The padding. */
    method Finish()
      requires Valid()
      modifies data, digest
      ensures State() == Hash(msg)
    {
      hide Fold, Whole, Left, LowBits, HighBits, Compress, BytesBE, Padding;
      var loBitCount, hiBitCount := countLo, countHi;
      BytesLeft(|msg|);
      var count := loBitCount / 8 % BLOCK;
      data[count] := 0x80;
      count := count + 1;
      if count > BLOCK - 8 {
        TwoBlocks(count, hiBitCount, loBitCount);
      } else {
        OneBlock(count, hiBitCount, loBitCount);
      }
    }

    /** There is no room for the bit count in this block. */
    method TwoBlocks(count: nat, hiBitCount: Word, loBitCount: Word)
      requires Shape() && 56 < count <= BLOCK && count == |msg| % BLOCK + 1 && data[..count] == Left(msg) + [0x80]
      requires State() == Fold(Compress, IV, Whole(msg))
      requires hiBitCount == HighBits(|msg|) && loBitCount == LowBits(|msg|)
      modifies data, digest
      ensures State() == Hash(msg)
    {
      hide Fold, Whole, Left, LowBits, HighBits, Compress, TwoWords, Hash, IV;
      ghost var m := Left(msg) + [0x80];
      ZeroFrom(count, BLOCK);
      ghost var b: Block := m + Zeroed(63 - |msg| % BLOCK);
      assert data[..] == b;
      HashInTwo(msg, b);
      Process(b);
      ZeroFrom(0, BLOCK - 8);
      LastBlock(Zeroed(56), hiBitCount, loBitCount);
    }

    method OneBlock(count: nat, hiBitCount: Word, loBitCount: Word)
      requires Shape() && count <= 56 && count == |msg| % BLOCK + 1 && data[..count] == Left(msg) + [0x80]
      requires State() == Fold(Compress, IV, Whole(msg))
      requires hiBitCount == HighBits(|msg|) && loBitCount == LowBits(|msg|)
      modifies data, digest
      ensures State() == Hash(msg)
    {
      hide Fold, Whole, Left, LowBits, HighBits, Compress, TwoWords, Hash, IV;
      ghost var m := Left(msg) + [0x80];
      ZeroFrom(count, BLOCK - 8);
      ghost var front := m + Zeroed(55 - |msg| % BLOCK);
      assert data[..56] == front;
      HashInOne(msg, front);
      LastBlock(front, hiBitCount, loBitCount);
    }

    /** memset */
    method ZeroFrom(start: nat, end: nat)
      requires start <= end <= data.Length
      modifies data
      ensures data[..] == old(data[..start]) + Zeroed(end - start) + old(data[end..])
    {
      forall k | start <= k < end { data[k] := 0; }
    }

    /** The block that ends with the bit count, whose two words are stored in the
        order of the host. */
    method LastBlock(ghost front: seq<bv8>, hiBitCount: Word, loBitCount: Word)
      requires Shape() && |front| == 56 && data[..56] == front
      modifies data, digest
      ensures State() == Compress(old(State()), front + TwoWords(hiBitCount, loBitCount))
    {
      hide BytesBE, BytesLE, BigEndian, LittleEndian, Compress;
      ghost var block: Block := front + TwoWords(hiBitCount, loBitCount);
      ghost var was := data[..];
      MaybeByteReverse(BLOCK);
      ghost var flipped := data[..];
      CopyIn(56, HostBytes(littleEndian, hiBitCount as bv32) + HostBytes(littleEndian, loBitCount as bv32));
      LastWords(littleEndian, was, flipped, data[..], block, hiBitCount as bv32, loBitCount as bv32);
      Transform(block);
    }

    /** The loop that writes out the digest. */
    method WriteDigest(out: array<bv8>)
      requires Shape() && out.Length == 20
      modifies out
      ensures out[..] == WordsBE(digest[..])
    {
      hide WordsBE;
      var i, j := 0, 0;
      NoWords();
      assert digest[..0] == [] && out[..0] == [];
      while j < 20
        invariant j == 4 * i && i <= 5 && out[..j] == WordsBE(digest[..i])
      {
        var k := digest[i];
        ghost var was := out[..j];
        OneMoreWord(digest[..], i);
        out[j], out[j + 1], out[j + 2], out[j + 3] :=
          ((k >> 24) & 0xff) as bv8, ((k >> 16) & 0xff) as bv8, ((k >> 8) & 0xff) as bv8, (k & 0xff) as bv8;
        assert out[..j + 4] == was + BytesBE(k);
        i, j := i + 1, j + 4;
      }
      assert out[..20] == out[..] && digest[..5] == digest[..];
    }

    /** The bit count. */
    method AddCount(count: nat)
      requires countLo == LowBits(|msg|) && countHi == HighBits(|msg|) && count < WORD
      modifies this`countLo, this`countHi
      ensures countLo == LowBits(|msg| + count) && countHi == HighBits(|msg| + count)
    {
      hide LowBits, HighBits, AddWord;
      CountAdds(|msg|, count);
      if AddWord(countLo, count * 8 % WORD) < countLo { countHi := AddWord(countHi, 1); }
      countLo := AddWord(countLo, count * 8 % WORD);
      countHi := AddWord(countHi, count / 0x2000_0000);
    }

    /** sha_transform: the schedule, the rounds, and the sums. */
    method Transform(ghost block: Block)
      requires Shape() && forall i :: 0 <= i < 16 ==> HostWord(littleEndian, data[..], i) == M(block, i)
      modifies digest
      ensures State() == Compress(old(State()), block)
    {
      hide Rounds, W, Add;
      var w := Schedule(block);
      var a, b, c, d, e := digest[0], digest[1], digest[2], digest[3], digest[4];
      a, b, c, d, e := Mix(block, w, a, b, c, d, e);
      digest[0] := Add(digest[0], a);
      digest[1] := Add(digest[1], b);
      digest[2] := Add(digest[2], c);
      digest[3] := Add(digest[3], d);
      digest[4] := Add(digest[4], e);
    }

    /** The first two loops of sha_transform. */
    method Schedule(ghost block: Block) returns (w: array<bv32>)
      requires Shape() && forall i :: 0 <= i < 16 ==> HostWord(littleEndian, data[..], i) == M(block, i)
      ensures w.Length == 80 && fresh(w) && forall j :: 0 <= j < 80 ==> w[j] == W(block, j)
    {
      hide W, M, HostWord, Rotl, Rot32;
      w := new bv32[80](_ => 0);
      for i := 0 to 16
        invariant forall j :: 0 <= j < i ==> w[j] == W(block, j)
      {
        ScheduleAt(block, i);
        w[i] := HostWord(littleEndian, data[..], i);
      }
      for i := 16 to 80
        invariant forall j :: 0 <= j < i ==> w[j] == W(block, j)
      {
        ScheduleAt(block, i);
        w[i] := w[i - 3] ^ w[i - 8] ^ w[i - 14] ^ w[i - 16];
        w[i] := Rot32(w[i], 1);
      }
    }

    /** The four loops of sha_transform. */
    static method Mix(ghost block: Block, w: array<bv32>, a0: bv32, b0: bv32, c0: bv32, d0: bv32, e0: bv32)
      returns (a: bv32, b: bv32, c: bv32, d: bv32, e: bv32)
      requires w.Length == 80 && forall j :: 0 <= j < 80 ==> w[j] == W(block, j)
      ensures Sha1Spec.State(a, b, c, d, e) == Rounds(Sha1Spec.State(a0, b0, c0, d0, e0), block, 80)
    {
      hide Rounds, W, Ch, Maj, Sum5, Rotl, F1, F3;
      a, b, c, d, e := a0, b0, c0, d0, e0;
      ghost var s := Sha1Spec.State(a, b, c, d, e);
      NoRounds(s, block);
      for i := 0 to 20
        invariant Sha1Spec.State(a, b, c, d, e) == Rounds(s, block, i)
      {
        RoundAt(s, block, i);
        a, b, c, d, e := Func(a, b, c, d, e, F1(b, c, d), w[i], 0x5a827999);
      }
      for i := 20 to 40
        invariant Sha1Spec.State(a, b, c, d, e) == Rounds(s, block, i)
      {
        RoundAt(s, block, i);
        a, b, c, d, e := Func(a, b, c, d, e, F2(b, c, d), w[i], 0x6ed9eba1);
      }
      for i := 40 to 60
        invariant Sha1Spec.State(a, b, c, d, e) == Rounds(s, block, i)
      {
        RoundAt(s, block, i);
        a, b, c, d, e := Func(a, b, c, d, e, F3(b, c, d), w[i], 0x8f1bbcdc);
      }
      for i := 60 to 80
        invariant Sha1Spec.State(a, b, c, d, e) == Rounds(s, block, i)
      {
        RoundAt(s, block, i);
        a, b, c, d, e := Func(a, b, c, d, e, F4(b, c, d), w[i], 0xca62c1d6);
      }
    }

    /** FUNC */
    static method Func(a: bv32, b: bv32, c: bv32, d: bv32, e: bv32, f: bv32, w: bv32, k: bv32)
      returns (a': bv32, b': bv32, c': bv32, d': bv32, e': bv32)
      ensures a' == Sum5(Rotl(a, 5), f, e, w, k)
      ensures b' == a && c' == Rotl(b, 30) && d' == c && e' == d
    {
      hide Sum5, Rotl;
      var temp := Sum5(Rot32(a, 5), f, e, w, k);
      e', d', c', b', a' := d, c, Rot32(b, 30), a, temp;
    }
  }

  /** A run over a message cut into pieces: the digest depends on the message alone. */
  method HashPieces(littleEndian: bool, pieces: seq<seq<bv8>>, digest: array<bv8>)
    requires digest.Length == 20 && forall i :: 0 <= i < |pieces| ==> |pieces[i]| < WORD
    modifies digest
    ensures digest[..] == Digest(Joined(pieces))
  {
    hide Digest, Joined;
    var context := new Context(littleEndian);
    context.Init();
    JoinedNone(pieces);
    for i := 0 to |pieces|
      invariant context.Valid() && fresh(context) && fresh(context.data) && fresh(context.digest)
      invariant context.msg == Joined(pieces[..i])
    {
      JoinedNext(pieces, i);
      context.UpdateBinary(pieces[i]);
    }
    assert pieces[..|pieces|] == pieces;
    context.Final(digest);
  }

  /** Word `i` of bytes in network order. */
  function WordAt(b: seq<bv8>, i: nat): bv32
    requires 4 * i + 4 <= |b|
  {
    BigEndian(b[4 * i], b[4 * i + 1], b[4 * i + 2], b[4 * i + 3])
  }

  ghost predicate Flipped(b: seq<bv8>, b': seq<bv8>, i: nat) {
    && 4 * i + 4 <= |b| == |b'|
    && b'[4 * i] == b[4 * i + 3] && b'[4 * i + 1] == b[4 * i + 2]
    && b'[4 * i + 2] == b[4 * i + 1] && b'[4 * i + 3] == b[4 * i]
  }

  lemma StillFlipped(was: seq<bv8>, now: seq<bv8>, b: seq<bv8>, i: nat)
    requires 4 * i <= |was| == |now| == |b| && forall q :: 0 <= q < i ==> Flipped(was, now, q)
    requires forall k :: 0 <= k < 4 * i ==> b[k] == now[k]
    ensures forall q :: 0 <= q < i ==> Flipped(was, b, q)
  {
    forall q | 0 <= q < i ensures Flipped(was, b, q) { assert Flipped(was, now, q); }
  }

  lemma FlippedWord(was: seq<bv8>, b: seq<bv8>, i: nat)
    requires Flipped(was, b, i)
    ensures HostWord(true, b, i) == WordAt(was, i)
  {
    hide BigEndian;
  }

  function Zeroed(n: nat): seq<bv8> {
    seq(n, _ => 0)
  }

  lemma PadIs(msg: seq<bv8>)
    ensures Pad(msg) == msg + Padding(|msg|, Length(|msg|))
  {
    hide Padding, Length;
  }

  lemma HashInOne(msg: seq<bv8>, front: seq<bv8>)
    requires |msg| % BLOCK < 56 && front == Left(msg) + [0x80] + Zeroed(55 - |msg| % BLOCK)
    ensures |front| == 56 && Hash(msg) == Compress(Fold(Compress, IV, Whole(msg)), front + Length(|msg|))
  {
    hide Fold, Whole, Left, Compress, Length, Pad, Padding;
    PadIs(msg);
    PadInOneBlock(msg, Length(|msg|));
    FoldOne(Compress, IV, Whole(msg), front + Length(|msg|));
  }

  lemma HashInTwo(msg: seq<bv8>, b: Block)
    requires |msg| % BLOCK >= 56 && b == Left(msg) + [0x80] + Zeroed(63 - |msg| % BLOCK)
    ensures Hash(msg) == Compress(Compress(Fold(Compress, IV, Whole(msg)), b), Zeroed(56) + Length(|msg|))
  {
    hide Fold, Whole, Left, Compress, Length, Pad, Padding;
    PadIs(msg);
    PadInTwoBlocks(msg, Length(|msg|));
    FoldOne(Compress, IV, Whole(msg), b);
    FoldOne(Compress, IV, Whole(msg) + b, Zeroed(56) + Length(|msg|));
  }

  lemma NoWords()
    ensures WordsBE([]) == []
  {
  }

  lemma OneMoreWord(ws: seq<bv32>, i: nat)
    requires i < |ws|
    ensures WordsBE(ws[..i + 1]) == WordsBE(ws[..i]) + BytesBE(ws[i])
  {
    hide BytesBE;
    assert ws[..i + 1][..i] == ws[..i];
  }

  /** The words the host reads are those of the block. */
  lemma LastWords(little: bool, was: seq<bv8>, flipped: seq<bv8>, now: seq<bv8>, block: Block, hi: bv32, lo: bv32)
    requires |was| == |flipped| == |now| == BLOCK && block[..56] == was[..56]
    requires block[56..] == BytesBE(hi) + BytesBE(lo)
    requires forall i :: 0 <= i < 16 ==> HostWord(little, flipped, i) == WordAt(was, i)
    requires now == flipped[..56] + (HostBytes(little, hi) + HostBytes(little, lo))
    ensures forall i :: 0 <= i < 16 ==> HostWord(little, now, i) == M(block, i)
  {
    hide HostWord, M, WordAt, BytesBE, HostBytes;
    forall i | 0 <= i < 14 ensures HostWord(little, now, i) == M(block, i) {
      Slices(flipped, now, 56, i);
      Slices(was, block, 56, i);
      SameWord(little, flipped, now, i);
      SameWord(little, was, block, i);
    }
    assert block == block[..56] + (BytesBE(hi) + BytesBE(lo));
    Tail(now, flipped[..56], HostBytes(little, hi), HostBytes(little, lo));
    Tail(block, block[..56], BytesBE(hi), BytesBE(lo));
    LengthWord(little, now, block, 14, hi);
    LengthWord(little, now, block, 15, lo);
  }

  lemma Tail(b: seq<bv8>, head: seq<bv8>, p: seq<bv8>, q: seq<bv8>)
    requires |head| == 56 && |p| == |q| == 4 && b == head + (p + q)
    ensures |b| == BLOCK && b[56..60] == p && b[60..64] == q
  {
  }

  lemma Slices(b: seq<bv8>, b': seq<bv8>, n: nat, i: nat)
    requires 4 * i + 4 <= n <= |b| && n <= |b'| && b[..n] == b'[..n]
    ensures b[4 * i..4 * i + 4] == b'[4 * i..4 * i + 4]
  {
    assert b[4 * i..4 * i + 4] == b[..n][4 * i..4 * i + 4];
    assert b'[4 * i..4 * i + 4] == b'[..n][4 * i..4 * i + 4];
  }

  lemma SameWord(little: bool, b: seq<bv8>, b': seq<bv8>, i: nat)
    requires 4 * i + 4 <= |b| && 4 * i + 4 <= |b'| && b[4 * i..4 * i + 4] == b'[4 * i..4 * i + 4]
    ensures HostWord(little, b, i) == HostWord(little, b', i) && WordAt(b, i) == WordAt(b', i)
    ensures |b'| == BLOCK && i < 16 ==> M(b', i) == WordAt(b', i)
  {
    hide BigEndian, LittleEndian;
    var x, y := b[4 * i..4 * i + 4], b'[4 * i..4 * i + 4];
    assert forall q :: 0 <= q < 4 ==> x[q] == b[4 * i + q] && y[q] == b'[4 * i + q];
  }

  lemma LengthWord(little: bool, now: seq<bv8>, block: Block, i: nat, k: bv32)
    requires |now| == BLOCK && i < 16 && now[4 * i..4 * i + 4] == HostBytes(little, k)
    requires block[4 * i..4 * i + 4] == BytesBE(k)
    ensures HostWord(little, now, i) == M(block, i)
  {
    hide BigEndian, LittleEndian;
    WordOfBytes(k);
    var n, b := now[4 * i..4 * i + 4], block[4 * i..4 * i + 4];
    assert n[0] == now[4 * i] && n[1] == now[4 * i + 1] && n[2] == now[4 * i + 2] && n[3] == now[4 * i + 3];
    assert b[0] == block[4 * i] && b[1] == block[4 * i + 1] && b[2] == block[4 * i + 2] && b[3] == block[4 * i + 3];
  }

  lemma ScheduleAt(block: Block, i: nat)
    requires i < 80
    ensures i < 16 ==> W(block, i) == M(block, i)
    ensures i >= 16 ==>
      W(block, i) == Rotl(W(block, i - 3) ^ W(block, i - 8) ^ W(block, i - 14) ^ W(block, i - 16), 1)
  {
    hide M;
  }

  lemma NoRounds(s: State, block: Block)
    ensures Rounds(s, block, 0) == s
  {
  }

  lemma RoundAt(s: State, block: Block, t: nat)
    ensures Rounds(s, block, t + 1) == Round(Rounds(s, block, t), t, W(block, t))
  {
    hide W, Round;
  }
}
