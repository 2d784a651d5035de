/** Known answers of MD4, for "abc" and for the empty message: section A.5 of RFC 1320. */
module Md4Facts {
  import opened DigestSpec
  import opened Md4Spec

  // ---------- steps with known values ----------

  /** The sum that step `i` rotates. */
  function Total(i: nat, a: bv32, b: bv32, c: bv32, d: bv32, x: bv32): bv32 {
    if i < 16 then Sum3(a, (b & c) | (!b & d), x)
    else if i < 32 then Sum4(a, (b & c) | (b & d) | (c & d), x, 0x5a827999)
    else Sum4(a, b ^ c ^ d, x, 0x6ed9eba1)
  }

  /** The rotation of step `i`, undone. */
  function Unturn(i: nat, y: bv32): bv32 {
    var r := i % 4;
    if r == 0 then y.RotateRight(3)
    else if i < 16 then (if r == 1 then y.RotateRight(7) else if r == 2 then y.RotateRight(11) else y.RotateRight(19))
    else if i < 32 then (if r == 1 then y.RotateRight(5) else if r == 2 then y.RotateRight(9) else y.RotateRight(13))
    else if r == 1 then y.RotateRight(9) else if r == 2 then y.RotateRight(11) else y.RotateRight(15)
  }

  lemma Back(y: bv32)
    ensures Rotl(y.RotateRight(3), 3) == y && Rotl(y.RotateRight(5), 5) == y && Rotl(y.RotateRight(7), 7) == y
    ensures Rotl(y.RotateRight(9), 9) == y && Rotl(y.RotateRight(11), 11) == y && Rotl(y.RotateRight(13), 13) == y
    ensures Rotl(y.RotateRight(15), 15) == y && Rotl(y.RotateRight(19), 19) == y
  {
  }

  lemma Turned(i: nat, y: bv32)
    requires i < 48
    ensures Rotl(Unturn(i, y), Shift(i)) == y
  {
    hide Rotl;
    Back(y);
  }

  /** The register that step `i` changes takes the value `next`. */
  predicate Goes(i: nat, a: bv32, d: bv32, c: bv32, b: bv32, x: bv32, next: bv32) {
    Unturn(i, next) == Total(i, a, b, c, d, x)
  }

  lemma GoesIs(i: nat, a: bv32, d: bv32, c: bv32, b: bv32, x: bv32, next: bv32)
    requires i < 48 && Goes(i, a, d, c, b, x, next)
    ensures next == Op(i, a, b, c, d, x)
  {
    hide Sum3, Sum4, Rotl, Shift, Unturn;
    Turned(i, next);
  }

  lemma Step1(block: Block, i: nat, a: bv32, d: bv32, c: bv32, b: bv32, x: bv32, next: bv32)
    requires i < 48 && Steps(IV, block, i) == State(a, b, c, d)
    requires X(block, Index(i)) == x && Goes(i, a, d, c, b, x, next)
    ensures Steps(IV, block, i + 1) == State(d, next, b, c)
  {
    hide X, Index, Op, Goes;
    GoesIs(i, a, d, c, b, x, next);
  }

  /** A round. */
  lemma SixteenSteps(block: Block, i: nat, v0: bv32, v1: bv32, v2: bv32, v3: bv32, v4: bv32,
                     v5: bv32, v6: bv32, v7: bv32, v8: bv32, v9: bv32,
                     v10: bv32, v11: bv32, v12: bv32, v13: bv32, v14: bv32,
                     v15: bv32, v16: bv32, v17: bv32, v18: bv32, v19: bv32,
                     x0: bv32, x1: bv32, x2: bv32, x3: bv32, x4: bv32, x5: bv32, x6: bv32, x7: bv32,
                     x8: bv32, x9: bv32, x10: bv32, x11: bv32, x12: bv32, x13: bv32, x14: bv32, x15: bv32)
    requires i + 16 <= 48 && Steps(IV, block, i) == State(v0, v3, v2, v1)
    requires X(block, Index(i)) == x0 && X(block, Index(i + 1)) == x1 && X(block, Index(i + 2)) == x2
             && X(block, Index(i + 3)) == x3 && X(block, Index(i + 4)) == x4 && X(block, Index(i + 5)) == x5
             && X(block, Index(i + 6)) == x6 && X(block, Index(i + 7)) == x7 && X(block, Index(i + 8)) == x8
             && X(block, Index(i + 9)) == x9 && X(block, Index(i + 10)) == x10 && X(block, Index(i + 11)) == x11
             && X(block, Index(i + 12)) == x12 && X(block, Index(i + 13)) == x13 && X(block, Index(i + 14)) == x14
             && X(block, Index(i + 15)) == x15
    requires Goes(i, v0, v1, v2, v3, x0, v4) && Goes(i + 1, v1, v2, v3, v4, x1, v5)
             && Goes(i + 2, v2, v3, v4, v5, x2, v6) && Goes(i + 3, v3, v4, v5, v6, x3, v7)
             && Goes(i + 4, v4, v5, v6, v7, x4, v8) && Goes(i + 5, v5, v6, v7, v8, x5, v9)
             && Goes(i + 6, v6, v7, v8, v9, x6, v10) && Goes(i + 7, v7, v8, v9, v10, x7, v11)
             && Goes(i + 8, v8, v9, v10, v11, x8, v12) && Goes(i + 9, v9, v10, v11, v12, x9, v13)
             && Goes(i + 10, v10, v11, v12, v13, x10, v14) && Goes(i + 11, v11, v12, v13, v14, x11, v15)
             && Goes(i + 12, v12, v13, v14, v15, x12, v16) && Goes(i + 13, v13, v14, v15, v16, x13, v17)
             && Goes(i + 14, v14, v15, v16, v17, x14, v18) && Goes(i + 15, v15, v16, v17, v18, x15, v19)
    ensures Steps(IV, block, i + 16) == State(v16, v19, v18, v17)
  {
    hide Goes, Steps, X, Index;
    Step1(block, i, v0, v1, v2, v3, x0, v4);
    Step1(block, i + 1, v1, v2, v3, v4, x1, v5);
    Step1(block, i + 2, v2, v3, v4, v5, x2, v6);
    Step1(block, i + 3, v3, v4, v5, v6, x3, v7);
    Step1(block, i + 4, v4, v5, v6, v7, x4, v8);
    Step1(block, i + 5, v5, v6, v7, v8, x5, v9);
    Step1(block, i + 6, v6, v7, v8, v9, x6, v10);
    Step1(block, i + 7, v7, v8, v9, v10, x7, v11);
    Step1(block, i + 8, v8, v9, v10, v11, x8, v12);
    Step1(block, i + 9, v9, v10, v11, v12, x9, v13);
    Step1(block, i + 10, v10, v11, v12, v13, x10, v14);
    Step1(block, i + 11, v11, v12, v13, v14, x11, v15);
    Step1(block, i + 12, v12, v13, v14, v15, x12, v16);
    Step1(block, i + 13, v13, v14, v15, v16, x13, v17);
    Step1(block, i + 14, v14, v15, v16, v17, x14, v18);
    Step1(block, i + 15, v15, v16, v17, v18, x15, v19);
  }

  // ---------- a message of one block ----------

  lemma OneBlock(msg: seq<bv8>, b: Block)
    requires b == Pad(msg)
    ensures Hash(msg) == Compress(IV, b)
  {
    hide Steps, Pad, Compress;
    assert [] + b == b;
    FoldOne(Compress, IV, [], b);
  }

  lemma OneMore(ws: seq<bv32>, w: bv32)
    ensures WordsLE(ws + [w]) == WordsLE(ws) + BytesLE(w)
  {
    assert (ws + [w])[..|ws|] == ws;
  }

  lemma FourWords(a: bv32, b: bv32, c: bv32, d: bv32)
    ensures WordsLE([a, b, c, d]) == BytesLE(a) + BytesLE(b) + BytesLE(c) + BytesLE(d)
    ensures WordsLE([a, b]) == BytesLE(a) + BytesLE(b)
  {
    assert WordsLE([]) == [];
    hide *;
    var s2 := [a] + [b];
    var s3 := s2 + [c];
    OneMore([], a);
    OneMore([a], b);
    OneMore(s2, c);
    OneMore(s3, d);
    assert [] + [a] == [a] && [] + BytesLE(a) == BytesLE(a) && s2 == [a, b];
    assert s3 + [d] == [a, b, c, d];
  }

  lemma NoneYet(b: Block)
    ensures Steps(IV, b, 0) == State(0x67452301, 0xefcdab89, 0x98badcfe, 0x10325476)
  {
  }

  // ---------- the message "abc" ----------

  const ABC: seq<bv8> := [0x61, 0x62, 0x63]

  lemma AbcLength()
    ensures Length(3) == [0x18, 0, 0, 0, 0, 0, 0, 0]
  {
    assert BytesLE(0) == [0, 0, 0, 0] && BytesLE(0x18) == [0x18, 0, 0, 0];
    FourWords(0x18, 0, 0, 0);
    hide BytesLE, WordsLE;
    assert HighBits(3) == 0 && LowBits(3) == 0x18;
  }

  lemma AbcPadded()
    ensures Pad(ABC) == ABC + [0x80] + seq(52, _ => 0) + [0x18, 0, 0, 0, 0, 0, 0, 0]
  {
    hide HighBits, LowBits;
    AbcLength();
    Zeros(3);
  }

  lemma AbcBlock(b: Block)
    requires b == Pad(ABC)
    ensures X(b, 0) == 0x80636261 && X(b, 14) == 0x00000018 && X(b, 15) == 0
    ensures forall k: nat :: 1 <= k < 14 ==> X(b, k) == 0
  {
    hide Pad;
    AbcPadded();
    assert b[0] == 0x61 && b[1] == 0x62 && b[2] == 0x63 && b[3] == 0x80;
    forall k: nat | 1 <= k < 14 ensures X(b, k) == 0 {
      assert b[4 * k] == 0 && b[4 * k + 1] == 0 && b[4 * k + 2] == 0 && b[4 * k + 3] == 0;
    }
    assert b[56] == 0x18 && b[57] == 0 && b[58] == 0 && b[59] == 0;
    assert b[60] == 0 && b[61] == 0 && b[62] == 0 && b[63] == 0;
  }

  lemma AbcRound1(b: Block)
    requires b == Pad(ABC)
    ensures Steps(IV, b, 16) == State(0xa299a540, 0xda717395, 0x24baadcb, 0x04e19293)
  {
    hide Pad, Steps, X, IV;
    NoneYet(b);
    AbcBlock(b);
    SixteenSteps(b, 0, 0x67452301, 0x10325476, 0x98badcfe, 0xefcdab89, 0x031b1304, 0xee123855, 0xd38454e4, 0xf66d8f45,
                 0xe98a3ac6, 0x0f435cf0, 0x97854e65, 0x613b2bc8, 0xc65cc9b7, 0x6e365830, 0x15d2eef5, 0xa7d13acb,
                 0xa299a540, 0x04e19293, 0x24baadcb, 0xda717395,
                 0x80636261, 0x00000000, 0x00000000, 0x00000000, 0x00000000, 0x00000000, 0x00000000, 0x00000000,
                 0x00000000, 0x00000000, 0x00000000, 0x00000000, 0x00000000, 0x00000000, 0x00000018, 0x00000000);
  }

  lemma AbcRound2(b: Block)
    requires b == Pad(ABC)
    ensures Steps(IV, b, 32) == State(0x7296594c, 0x8e531b8f, 0x3dd42422, 0x4e7e1748)
  {
    hide Pad, Steps, X, IV;
    AbcRound1(b);
    AbcBlock(b);
    SixteenSteps(b, 16, 0xa299a540, 0x04e19293, 0x24baadcb, 0xda717395, 0x1389a66c, 0x43b67f2e, 0xdd3d21a5, 0x228b5116,
                 0x8e5c895d, 0x8abf3b85, 0xbd68a784, 0x4ec68171, 0xbe6d33db, 0x75cb1df4, 0x74661d2d, 0x0323e3b7,
                 0x7296594c, 0x4e7e1748, 0x3dd42422, 0x8e531b8f,
                 0x80636261, 0x00000000, 0x00000000, 0x00000000, 0x00000000, 0x00000000, 0x00000000, 0x00000000,
                 0x00000000, 0x00000000, 0x00000000, 0x00000018, 0x00000000, 0x00000000, 0x00000000, 0x00000000);
  }

  lemma AbcRound3(b: Block)
    requires b == Pad(ABC)
    ensures Steps(IV, b, 48) == State(0x12bc25a3, 0x630a7626, 0x4f4fe461, 0x8d405204)
  {
    hide Pad, Steps, X, IV;
    AbcRound2(b);
    AbcBlock(b);
    SixteenSteps(b, 32, 0x7296594c, 0x4e7e1748, 0x3dd42422, 0x8e531b8f, 0xfe66819a, 0x73824016, 0x2f4e3583, 0xfd9fcfeb,
                 0x74a13dc8, 0x99e6af11, 0x03f2b578, 0x71a2ad97, 0x798f0b3e, 0x3f5d0629, 0xea0ccd51, 0xacbf46ad,
                 0x12bc25a3, 0x8d405204, 0x4f4fe461, 0x630a7626,
                 0x80636261, 0x00000000, 0x00000000, 0x00000000, 0x00000000, 0x00000000, 0x00000000, 0x00000018,
                 0x00000000, 0x00000000, 0x00000000, 0x00000000, 0x00000000, 0x00000000, 0x00000000, 0x00000000);
  }

  lemma AbcBytes()
    ensures BytesLE(0x7a0148a4) == [0xa4, 0x48, 0x01, 0x7a]
    ensures BytesLE(0x52d821af) == [0xaf, 0x21, 0xd8, 0x52]
    ensures BytesLE(0xe80ac15f) == [0x5f, 0xc1, 0x0a, 0xe8]
    ensures BytesLE(0x9d72a67a) == [0x7a, 0xa6, 0x72, 0x9d]
  {
  }

  /** The digest of the message "abc". */
  lemma AbcDigest()
    ensures Digest(ABC) ==
            [0xa4, 0x48, 0x01, 0x7a, 0xaf, 0x21, 0xd8, 0x52, 0x5f, 0xc1, 0x0a, 0xe8,
             0x7a, 0xa6, 0x72, 0x9d]
  {
    hide Pad, Steps, Fold, BytesLE;
    var b := Pad(ABC);
    AbcPadded();
    AbcRound3(b);
    OneBlock(ABC, b);
    assert Hash(ABC) == State(0x7a0148a4, 0x52d821af, 0xe80ac15f, 0x9d72a67a);
    FourWords(0x7a0148a4, 0x52d821af, 0xe80ac15f, 0x9d72a67a);
    AbcBytes();
  }

  // ---------- the empty message ----------

  lemma EmptyLength()
    ensures Length(0) == [0x00, 0, 0, 0, 0, 0, 0, 0]
  {
    assert BytesLE(0) == [0, 0, 0, 0] && BytesLE(0x00) == [0x00, 0, 0, 0];
    FourWords(0x00, 0, 0, 0);
    hide BytesLE, WordsLE;
    assert HighBits(0) == 0 && LowBits(0) == 0x00;
  }

  lemma EmptyPadded()
    ensures Pad([]) == [0x80] + seq(55, _ => 0) + [0x00, 0, 0, 0, 0, 0, 0, 0]
  {
    hide HighBits, LowBits;
    EmptyLength();
    Zeros(0);
  }

  lemma EmptyBlock(b: Block)
    requires b == Pad([])
    ensures X(b, 0) == 0x00000080 && X(b, 14) == 0x00000000 && X(b, 15) == 0
    ensures forall k: nat :: 1 <= k < 14 ==> X(b, k) == 0
  {
    hide Pad;
    EmptyPadded();
    assert b[0] == 0x80 && b[1] == 0x00 && b[2] == 0x00 && b[3] == 0x00;
    forall k: nat | 1 <= k < 14 ensures X(b, k) == 0 {
      assert b[4 * k] == 0 && b[4 * k + 1] == 0 && b[4 * k + 2] == 0 && b[4 * k + 3] == 0;
    }
    assert b[56] == 0x00 && b[57] == 0 && b[58] == 0 && b[59] == 0;
    assert b[60] == 0 && b[61] == 0 && b[62] == 0 && b[63] == 0;
  }

  lemma EmptyRound1(b: Block)
    requires b == Pad([])
    ensures Steps(IV, b, 16) == State(0xaddcb303, 0x3665f296, 0x8ee8f245, 0xa483a664)
  {
    hide Pad, Steps, X, IV;
    NoneYet(b);
    EmptyBlock(b);
    SixteenSteps(b, 0, 0x67452301, 0x10325476, 0x98badcfe, 0xefcdab89, 0x000003f8, 0x769a0254, 0x0446b910, 0x740f9e7d,
                 0x34b4e040, 0x704dd255, 0x6c2bc1c2, 0xf5ef256b, 0xc7059cb4, 0xbe8bdbae, 0x8bf5399c, 0x18be2386,
                 0xaddcb303, 0xa483a664, 0x8ee8f245, 0x3665f296,
                 0x00000080, 0x00000000, 0x00000000, 0x00000000, 0x00000000, 0x00000000, 0x00000000, 0x00000000,
                 0x00000000, 0x00000000, 0x00000000, 0x00000000, 0x00000000, 0x00000000, 0x00000000, 0x00000000);
  }

  lemma EmptyRound2(b: Block)
    requires b == Pad([])
    ensures Steps(IV, b, 32) == State(0x374891bf, 0x6f952b2e, 0xb49a4dae, 0x0a15c329)
  {
    hide Pad, Steps, X, IV;
    EmptyRound1(b);
    EmptyBlock(b);
    SixteenSteps(b, 16, 0xaddcb303, 0xa483a664, 0x8ee8f245, 0x3665f296, 0x7a08fb05, 0xade24047, 0x98bbca4f, 0x66cec932,
                 0x0bb1e72c, 0x6410a1c2, 0x9e4a14b3, 0x3d0db9ec, 0x11e8953d, 0x7b76231b, 0x727f1264, 0xc8d84161,
                 0x374891bf, 0x0a15c329, 0xb49a4dae, 0x6f952b2e,
                 0x00000080, 0x00000000, 0x00000000, 0x00000000, 0x00000000, 0x00000000, 0x00000000, 0x00000000,
                 0x00000000, 0x00000000, 0x00000000, 0x00000000, 0x00000000, 0x00000000, 0x00000000, 0x00000000);
  }

  lemma EmptyRound3(b: Block)
    requires b == Pad([])
    ensures Steps(IV, b, 48) == State(0x798ab330, 0x421bbf48, 0x3e9e5fb9, 0xb0576c6a)
  {
    hide Pad, Steps, X, IV;
    EmptyRound2(b);
    EmptyBlock(b);
    SixteenSteps(b, 32, 0x374891bf, 0x0a15c329, 0xb49a4dae, 0x6f952b2e, 0xb9e91c4b, 0xac532bb7, 0x1ab10ced, 0x28f076bd,
                 0x36aace9e, 0x31984c40, 0x6f678dca, 0xb8b9000f, 0x5e5bde24, 0xef178453, 0xb69f1f41, 0x187317b3,
                 0x798ab330, 0xb0576c6a, 0x3e9e5fb9, 0x421bbf48,
                 0x00000080, 0x00000000, 0x00000000, 0x00000000, 0x00000000, 0x00000000, 0x00000000, 0x00000000,
                 0x00000000, 0x00000000, 0x00000000, 0x00000000, 0x00000000, 0x00000000, 0x00000000, 0x00000000);
  }

  lemma EmptyBytes()
    ensures BytesLE(0xe0cfd631) == [0x31, 0xd6, 0xcf, 0xe0]
    ensures BytesLE(0x31e96ad1) == [0xd1, 0x6a, 0xe9, 0x31]
    ensures BytesLE(0xd7593cb7) == [0xb7, 0x3c, 0x59, 0xd7]
    ensures BytesLE(0xc089c0e0) == [0xe0, 0xc0, 0x89, 0xc0]
  {
  }

  /** The digest of the empty message. */
  lemma EmptyDigest()
    ensures Digest([]) ==
            [0x31, 0xd6, 0xcf, 0xe0, 0xd1, 0x6a, 0xe9, 0x31, 0xb7, 0x3c, 0x59, 0xd7,
             0xe0, 0xc0, 0x89, 0xc0]
  {
    hide Pad, Steps, Fold, BytesLE;
    var b := Pad([]);
    EmptyPadded();
    EmptyRound3(b);
    OneBlock([], b);
    assert Hash([]) == State(0xe0cfd631, 0x31e96ad1, 0xd7593cb7, 0xc089c0e0);
    FourWords(0xe0cfd631, 0x31e96ad1, 0xd7593cb7, 0xc089c0e0);
    EmptyBytes();
  }
}
