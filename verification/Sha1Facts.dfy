/** Known answers of SHA-1, for "abc" (appendix A.1 of FIPS 180-2) and for the empty
message; and what its round constants are. */
module Sha1Facts {
  import opened DigestSpec
  import opened Sha1Spec

  /** The constants are the roots of 2, 3, 5 and 10, times 2 to the power of 30, without
      the fraction. */
  lemma ConstantsAreRoots(t: nat)
    requires t < 80
    ensures var k, n := K(t) as int, if t < 20 then 2 else if t < 40 then 3 else if t < 60 then 5 else 10;
            k * k <= n * 0x1000_0000_0000_0000 < (k + 1) * (k + 1)
  {
  }

  // ---------- rounds with known values ----------

  lemma Turn(x: bv32, n: nat)
    requires n < 32
    ensures Rotl(x, n) == x.RotateLeft(n)
  {
  }

  /** The first register takes the value `next` in round `t`; before it the registers hold
      the five values before this one, three of them rotated. */
  predicate Goes(t: nat, e: bv32, d: bv32, c: bv32, b: bv32, a: bv32, w: bv32, next: bv32) {
    next == Sum5(a.RotateLeft(5), F(t, b, c.RotateLeft(30), d.RotateLeft(30)), e.RotateLeft(30), w, K(t))
  }

  function Registers(e: bv32, d: bv32, c: bv32, b: bv32, a: bv32): State {
    State(a, b, Rotl(c, 30), Rotl(d, 30), Rotl(e, 30))
  }

  lemma Turned(t: nat, e: bv32, d: bv32, c: bv32, b: bv32, a: bv32, w: bv32)
    ensures Sum5(a.RotateLeft(5), F(t, b, c.RotateLeft(30), d.RotateLeft(30)), e.RotateLeft(30), w, K(t)) ==
            Sum5(Rotl(a, 5), F(t, b, Rotl(c, 30), Rotl(d, 30)), Rotl(e, 30), w, K(t))
  {
    hide *;
    Turn(a, 5);
    Turn(c, 30);
    Turn(d, 30);
    Turn(e, 30);
  }

  lemma OneRound(block: Block, t: nat, e: bv32, d: bv32, c: bv32, b: bv32, a: bv32, w: bv32, next: bv32)
    requires Rounds(IV, block, t) == Registers(e, d, c, b, a) && W(block, t) == w && Goes(t, e, d, c, b, a, w, next)
    ensures Rounds(IV, block, t + 1) == Registers(d, c, b, a, next)
  {
    hide W, Sum5, Rotl, F, K;
    Turned(t, e, d, c, b, a, w);
  }

  lemma TenRounds(block: Block, t: nat, a0: bv32, a1: bv32, a2: bv32, a3: bv32, a4: bv32,
                  a5: bv32, a6: bv32, a7: bv32, a8: bv32, a9: bv32,
                  a10: bv32, a11: bv32, a12: bv32, a13: bv32, a14: bv32,
                  w0: bv32, w1: bv32, w2: bv32, w3: bv32, w4: bv32, w5: bv32, w6: bv32, w7: bv32, w8: bv32, w9: bv32)
    requires Rounds(IV, block, t) == Registers(a0, a1, a2, a3, a4)
    requires W(block, t) == w0 && W(block, t + 1) == w1 && W(block, t + 2) == w2 && W(block, t + 3) == w3
             && W(block, t + 4) == w4 && W(block, t + 5) == w5 && W(block, t + 6) == w6 && W(block, t + 7) == w7
             && W(block, t + 8) == w8 && W(block, t + 9) == w9
    requires Goes(t, a0, a1, a2, a3, a4, w0, a5) && Goes(t + 1, a1, a2, a3, a4, a5, w1, a6)
             && Goes(t + 2, a2, a3, a4, a5, a6, w2, a7) && Goes(t + 3, a3, a4, a5, a6, a7, w3, a8)
             && Goes(t + 4, a4, a5, a6, a7, a8, w4, a9) && Goes(t + 5, a5, a6, a7, a8, a9, w5, a10)
             && Goes(t + 6, a6, a7, a8, a9, a10, w6, a11) && Goes(t + 7, a7, a8, a9, a10, a11, w7, a12)
             && Goes(t + 8, a8, a9, a10, a11, a12, w8, a13) && Goes(t + 9, a9, a10, a11, a12, a13, w9, a14)
    ensures Rounds(IV, block, t + 10) == Registers(a10, a11, a12, a13, a14)
  {
    hide Goes, Rounds, Registers, W;
    OneRound(block, t, a0, a1, a2, a3, a4, w0, a5);
    OneRound(block, t + 1, a1, a2, a3, a4, a5, w1, a6);
    OneRound(block, t + 2, a2, a3, a4, a5, a6, w2, a7);
    OneRound(block, t + 3, a3, a4, a5, a6, a7, w3, a8);
    OneRound(block, t + 4, a4, a5, a6, a7, a8, w4, a9);
    OneRound(block, t + 5, a5, a6, a7, a8, a9, w5, a10);
    OneRound(block, t + 6, a6, a7, a8, a9, a10, w6, a11);
    OneRound(block, t + 7, a7, a8, a9, a10, a11, w7, a12);
    OneRound(block, t + 8, a8, a9, a10, a11, a12, w8, a13);
    OneRound(block, t + 9, a9, a10, a11, a12, a13, w9, a14);
  }

  /** One word of the schedule, from four before it. */
  lemma Word(b: Block, t: nat, x: bv32, y: bv32, z: bv32, u: bv32, w: bv32)
    requires 16 <= t && W(b, t - 3) == x && W(b, t - 8) == y && W(b, t - 14) == z && W(b, t - 16) == u
    requires Rotl(x ^ y ^ z ^ u, 1) == w
    ensures W(b, t) == w
  {
    hide Rotl;
  }

  // ---------- a message of one block ----------

  lemma OneBlock(msg: seq<bv8>, b: Block)
    requires b == Pad(msg)
    ensures Hash(msg) == Plus(IV, Rounds(IV, b, 80))
  {
    hide Rounds, Pad, Plus;
    assert [] + b == b;
    FoldOne(Compress, IV, [], b);
  }

  lemma OneMore(ws: seq<bv32>, w: bv32)
    ensures WordsBE(ws + [w]) == WordsBE(ws) + BytesBE(w)
  {
    assert (ws + [w])[..|ws|] == ws;
  }

  lemma FiveWords(a: bv32, b: bv32, c: bv32, d: bv32, e: bv32)
    ensures WordsBE([a, b, c, d, e]) == BytesBE(a) + BytesBE(b) + BytesBE(c) + BytesBE(d) + BytesBE(e)
  {
    assert WordsBE([]) == [];
    hide *;
    var s2 := [a] + [b];
    var s3 := s2 + [c];
    var s4 := s3 + [d];
    OneMore([], a);
    OneMore([a], b);
    OneMore(s2, c);
    OneMore(s3, d);
    OneMore(s4, e);
    assert [] + [a] == [a] && [] + BytesBE(a) == BytesBE(a);
    assert s4 + [e] == [a, b, c, d, e];
  }

  lemma NoneYet(b: Block)
    ensures Rounds(IV, b, 0) == Registers(0x0f4b87c3, 0x40c951d8, 0x62eb73fa, 0xefcdab89, 0x67452301)
  {
  }

  // ---------- the message "abc" ----------

  const ABC: seq<bv8> := [0x61, 0x62, 0x63]

  lemma AbcLength()
    ensures Length(3) == [0, 0, 0, 0, 0, 0, 0, 0x18]
  {
    assert BytesBE(0) == [0, 0, 0, 0] && BytesBE(0x18) == [0, 0, 0, 0x18];
    hide BytesBE;
    assert HighBits(3) == 0 && LowBits(3) == 0x18;
  }

  lemma AbcPadded()
    ensures Pad(ABC) == ABC + [0x80] + seq(52, _ => 0) + [0, 0, 0, 0, 0, 0, 0, 0x18]
  {
    hide HighBits, LowBits;
    AbcLength();
    Zeros(3);
  }

  lemma AbcFirst(b: Block)
    requires b == Pad(ABC)
    ensures W(b, 0) == 0x61626380 && (forall t: nat :: 1 <= t < 15 ==> W(b, t) == 0) && W(b, 15) == 0x00000018
  {
    hide Pad;
    AbcPadded();
    assert b[0] == 0x61 && b[1] == 0x62 && b[2] == 0x63 && b[3] == 0x80;
    forall t: nat | 1 <= t < 15 ensures W(b, t) == 0 {
      assert b[4 * t] == 0 && b[4 * t + 1] == 0 && b[4 * t + 2] == 0 && b[4 * t + 3] == 0;
    }
    assert b[60] == 0 && b[61] == 0 && b[62] == 0 && b[63] == 0x18;
  }

  lemma AbcWords1(b: Block)
    requires b == Pad(ABC)
    ensures W(b, 16) == 0xc2c4c700 && W(b, 17) == 0x00000000 && W(b, 18) == 0x00000030 && W(b, 19) == 0x85898e01
            && W(b, 20) == 0x00000000 && W(b, 21) == 0x00000060 && W(b, 22) == 0x0b131c03 && W(b, 23) == 0x00000030
            && W(b, 24) == 0x85898ec1 && W(b, 25) == 0x16263806 && W(b, 26) == 0x00000000 && W(b, 27) == 0x00000180
            && W(b, 28) == 0x2c4c700c && W(b, 29) == 0x000000f0 && W(b, 30) == 0x93afb507 && W(b, 31) == 0x5898e048
  {
    hide Pad, W;
    AbcFirst(b);
    Word(b, 16, 0x00000000, 0x00000000, 0x00000000, 0x61626380, 0xc2c4c700);
    Word(b, 17, 0x00000000, 0x00000000, 0x00000000, 0x00000000, 0x00000000);
    Word(b, 18, 0x00000018, 0x00000000, 0x00000000, 0x00000000, 0x00000030);
    Word(b, 19, 0xc2c4c700, 0x00000000, 0x00000000, 0x00000000, 0x85898e01);
    Word(b, 20, 0x00000000, 0x00000000, 0x00000000, 0x00000000, 0x00000000);
    Word(b, 21, 0x00000030, 0x00000000, 0x00000000, 0x00000000, 0x00000060);
    Word(b, 22, 0x85898e01, 0x00000000, 0x00000000, 0x00000000, 0x0b131c03);
    Word(b, 23, 0x00000000, 0x00000018, 0x00000000, 0x00000000, 0x00000030);
    Word(b, 24, 0x00000060, 0xc2c4c700, 0x00000000, 0x00000000, 0x85898ec1);
    Word(b, 25, 0x0b131c03, 0x00000000, 0x00000000, 0x00000000, 0x16263806);
    Word(b, 26, 0x00000030, 0x00000030, 0x00000000, 0x00000000, 0x00000000);
    Word(b, 27, 0x85898ec1, 0x85898e01, 0x00000000, 0x00000000, 0x00000180);
    Word(b, 28, 0x16263806, 0x00000000, 0x00000000, 0x00000000, 0x2c4c700c);
    Word(b, 29, 0x00000000, 0x00000060, 0x00000018, 0x00000000, 0x000000f0);
    Word(b, 30, 0x00000180, 0x0b131c03, 0xc2c4c700, 0x00000000, 0x93afb507);
    Word(b, 31, 0x2c4c700c, 0x00000030, 0x00000000, 0x00000018, 0x5898e048);
  }

  lemma AbcWords2(b: Block)
    requires b == Pad(ABC)
    ensures W(b, 32) == 0x8e9a9202 && W(b, 33) == 0x00000600 && W(b, 34) == 0xb131c0f0 && W(b, 35) == 0x16263bc6
            && W(b, 36) == 0x4ebed41e && W(b, 37) == 0x626380a1 && W(b, 38) == 0x16263806 && W(b, 39) == 0x000018c0
            && W(b, 40) == 0xd2e138c4 && W(b, 41) == 0x00000f00 && W(b, 42) == 0x3afb5079 && W(b, 43) == 0x898e04e5
            && W(b, 44) == 0xe2ba3c2b && W(b, 45) == 0x000060c0 && W(b, 46) == 0x053a37cd && W(b, 47) == 0x74458547
  {
    hide Pad, W;
    AbcWords1(b);
    Word(b, 32, 0x000000f0, 0x85898ec1, 0x00000030, 0xc2c4c700, 0x8e9a9202);
    Word(b, 33, 0x93afb507, 0x16263806, 0x85898e01, 0x00000000, 0x00000600);
    Word(b, 34, 0x5898e048, 0x00000000, 0x00000000, 0x00000030, 0xb131c0f0);
    Word(b, 35, 0x8e9a9202, 0x00000180, 0x00000060, 0x85898e01, 0x16263bc6);
    Word(b, 36, 0x00000600, 0x2c4c700c, 0x0b131c03, 0x00000000, 0x4ebed41e);
    Word(b, 37, 0xb131c0f0, 0x000000f0, 0x00000030, 0x00000060, 0x626380a1);
    Word(b, 38, 0x16263bc6, 0x93afb507, 0x85898ec1, 0x0b131c03, 0x16263806);
    Word(b, 39, 0x4ebed41e, 0x5898e048, 0x16263806, 0x00000030, 0x000018c0);
    Word(b, 40, 0x626380a1, 0x8e9a9202, 0x00000000, 0x85898ec1, 0xd2e138c4);
    Word(b, 41, 0x16263806, 0x00000600, 0x00000180, 0x16263806, 0x00000f00);
    Word(b, 42, 0x000018c0, 0xb131c0f0, 0x2c4c700c, 0x00000000, 0x3afb5079);
    Word(b, 43, 0xd2e138c4, 0x16263bc6, 0x000000f0, 0x00000180, 0x898e04e5);
    Word(b, 44, 0x00000f00, 0x4ebed41e, 0x93afb507, 0x2c4c700c, 0xe2ba3c2b);
    Word(b, 45, 0x3afb5079, 0x626380a1, 0x5898e048, 0x000000f0, 0x000060c0);
    Word(b, 46, 0x898e04e5, 0x16263806, 0x8e9a9202, 0x93afb507, 0x053a37cd);
    Word(b, 47, 0xe2ba3c2b, 0x000018c0, 0x00000600, 0x5898e048, 0x74458547);
  }

  lemma AbcWords3(b: Block)
    requires b == Pad(ABC)
    ensures W(b, 48) == 0xda9415ed && W(b, 49) == 0x26380a16 && W(b, 50) == 0x626383a1 && W(b, 51) == 0x4ebf54de
            && W(b, 52) == 0x3835b44b && W(b, 53) == 0x0000f600 && W(b, 54) == 0x1e84c7a3 && W(b, 55) == 0x98e04d98
            && W(b, 56) == 0x651d16a0 && W(b, 57) == 0x62658ca1 && W(b, 58) == 0x458544d6 && W(b, 59) == 0x44584cb7
            && W(b, 60) == 0x7ba06619 && W(b, 61) == 0x6380aea2 && W(b, 62) == 0x0ae55269 && W(b, 63) == 0x627b49a1
  {
    hide Pad, W;
    AbcWords2(b);
    Word(b, 48, 0x000060c0, 0xd2e138c4, 0xb131c0f0, 0x8e9a9202, 0xda9415ed);
    Word(b, 49, 0x053a37cd, 0x00000f00, 0x16263bc6, 0x00000600, 0x26380a16);
    Word(b, 50, 0x74458547, 0x3afb5079, 0x4ebed41e, 0xb131c0f0, 0x626383a1);
    Word(b, 51, 0xda9415ed, 0x898e04e5, 0x626380a1, 0x16263bc6, 0x4ebf54de);
    Word(b, 52, 0x26380a16, 0xe2ba3c2b, 0x16263806, 0x4ebed41e, 0x3835b44b);
    Word(b, 53, 0x626383a1, 0x000060c0, 0x000018c0, 0x626380a1, 0x0000f600);
    Word(b, 54, 0x4ebf54de, 0x053a37cd, 0xd2e138c4, 0x16263806, 0x1e84c7a3);
    Word(b, 55, 0x3835b44b, 0x74458547, 0x00000f00, 0x000018c0, 0x98e04d98);
    Word(b, 56, 0x0000f600, 0xda9415ed, 0x3afb5079, 0xd2e138c4, 0x651d16a0);
    Word(b, 57, 0x1e84c7a3, 0x26380a16, 0x898e04e5, 0x00000f00, 0x62658ca1);
    Word(b, 58, 0x98e04d98, 0x626383a1, 0xe2ba3c2b, 0x3afb5079, 0x458544d6);
    Word(b, 59, 0x651d16a0, 0x4ebf54de, 0x000060c0, 0x898e04e5, 0x44584cb7);
    Word(b, 60, 0x62658ca1, 0x3835b44b, 0x053a37cd, 0xe2ba3c2b, 0x7ba06619);
    Word(b, 61, 0x458544d6, 0x0000f600, 0x74458547, 0x000060c0, 0x6380aea2);
    Word(b, 62, 0x44584cb7, 0x1e84c7a3, 0xda9415ed, 0x053a37cd, 0x0ae55269);
    Word(b, 63, 0x7ba06619, 0x98e04d98, 0x26380a16, 0x74458547, 0x627b49a1);
  }

  lemma AbcWords4(b: Block)
    requires b == Pad(ABC)
    ensures W(b, 64) == 0x7cd45c9d && W(b, 65) == 0x000f0000 && W(b, 66) == 0xfb50753a && W(b, 67) == 0xec6765e8
            && W(b, 68) == 0xba3c2be2 && W(b, 69) == 0x0060c000 && W(b, 70) == 0x3a37cd05 && W(b, 71) == 0x458546f4
            && W(b, 72) == 0xb8599dd6 && W(b, 73) == 0x380a1a26 && W(b, 74) == 0x01e02203 && W(b, 75) == 0xe7cc3456
            && W(b, 76) == 0xe6e60b69 && W(b, 77) == 0x00f60a00 && W(b, 78) == 0x5795ef4f && W(b, 79) == 0x822e0879
  {
    hide Pad, W;
    AbcWords3(b);
    Word(b, 64, 0x6380aea2, 0x651d16a0, 0x626383a1, 0xda9415ed, 0x7cd45c9d);
    Word(b, 65, 0x0ae55269, 0x62658ca1, 0x4ebf54de, 0x26380a16, 0x000f0000);
    Word(b, 66, 0x627b49a1, 0x458544d6, 0x3835b44b, 0x626383a1, 0xfb50753a);
    Word(b, 67, 0x7cd45c9d, 0x44584cb7, 0x0000f600, 0x4ebf54de, 0xec6765e8);
    Word(b, 68, 0x000f0000, 0x7ba06619, 0x1e84c7a3, 0x3835b44b, 0xba3c2be2);
    Word(b, 69, 0xfb50753a, 0x6380aea2, 0x98e04d98, 0x0000f600, 0x0060c000);
    Word(b, 70, 0xec6765e8, 0x0ae55269, 0x651d16a0, 0x1e84c7a3, 0x3a37cd05);
    Word(b, 71, 0xba3c2be2, 0x627b49a1, 0x62658ca1, 0x98e04d98, 0x458546f4);
    Word(b, 72, 0x0060c000, 0x7cd45c9d, 0x458544d6, 0x651d16a0, 0xb8599dd6);
    Word(b, 73, 0x3a37cd05, 0x000f0000, 0x44584cb7, 0x62658ca1, 0x380a1a26);
    Word(b, 74, 0x458546f4, 0xfb50753a, 0x7ba06619, 0x458544d6, 0x01e02203);
    Word(b, 75, 0xb8599dd6, 0xec6765e8, 0x6380aea2, 0x44584cb7, 0xe7cc3456);
    Word(b, 76, 0x380a1a26, 0xba3c2be2, 0x0ae55269, 0x7ba06619, 0xe6e60b69);
    Word(b, 77, 0x01e02203, 0x0060c000, 0x627b49a1, 0x6380aea2, 0x00f60a00);
    Word(b, 78, 0xe7cc3456, 0x3a37cd05, 0x7cd45c9d, 0x0ae55269, 0x5795ef4f);
    Word(b, 79, 0xe6e60b69, 0x458546f4, 0x000f0000, 0x627b49a1, 0x822e0879);
  }

  lemma AbcRounds1(b: Block)
    requires b == Pad(ABC)
    ensures Rounds(IV, b, 10) == Registers(0x3fc7ca40, 0x993e30c1, 0x9e8c07d4, 0x4b6ae328, 0x8351f929)
  {
    hide Pad, W, Rounds, Registers, IV;
    NoneYet(b);
    AbcFirst(b);
    TenRounds(b, 0, 0x0f4b87c3, 0x40c951d8, 0x62eb73fa, 0xefcdab89, 0x67452301, 0x0116fc33, 0x8990536d, 0xa1390f08,
              0xcdd8e11b, 0xcfd499de, 0x3fc7ca40, 0x993e30c1, 0x9e8c07d4, 0x4b6ae328, 0x8351f929,
              0x61626380, 0x00000000, 0x00000000, 0x00000000, 0x00000000, 0x00000000, 0x00000000, 0x00000000,
              0x00000000, 0x00000000);
  }

  lemma AbcRounds2(b: Block)
    requires b == Pad(ABC)
    ensures Rounds(IV, b, 20) == Registers(0x20bdd62f, 0x4e925823, 0x82aa6728, 0xdc64901d, 0xfd9e1d7d)
  {
    hide Pad, W, Rounds, Registers, IV;
    AbcRounds1(b);
    AbcFirst(b);
    AbcWords1(b);
    TenRounds(b, 10, 0x3fc7ca40, 0x993e30c1, 0x9e8c07d4, 0x4b6ae328, 0x8351f929, 0xfbda9e89, 0x63188fe4, 0x4607b664,
              0x9128f695, 0x196bee77, 0x20bdd62f, 0x4e925823, 0x82aa6728, 0xdc64901d, 0xfd9e1d7d,
              0x00000000, 0x00000000, 0x00000000, 0x00000000, 0x00000000, 0x00000018, 0xc2c4c700, 0x00000000,
              0x00000030, 0x85898e01);
  }

  lemma AbcRounds3(b: Block)
    requires b == Pad(ABC)
    ensures Rounds(IV, b, 30) == Registers(0x48413ba4, 0xbe35fbd5, 0x4aa84d97, 0x8370b52e, 0xc5fbaf5d)
  {
    hide Pad, W, Rounds, Registers, IV;
    AbcRounds2(b);
    AbcWords1(b);
    TenRounds(b, 20, 0x20bdd62f, 0x4e925823, 0x82aa6728, 0xdc64901d, 0xfd9e1d7d, 0x1a37b0ca, 0x33a23bfc, 0x21283486,
              0xd541f12d, 0xc7567dc6, 0x48413ba4, 0xbe35fbd5, 0x4aa84d97, 0x8370b52e, 0xc5fbaf5d,
              0x00000000, 0x00000060, 0x0b131c03, 0x00000030, 0x85898ec1, 0x16263806, 0x00000000, 0x00000180,
              0x2c4c700c, 0x000000f0);
  }

  lemma AbcRounds4(b: Block)
    requires b == Pad(ABC)
    ensures Rounds(IV, b, 40) == Registers(0xdcbbb0cb, 0x0f511fd8, 0xdc63973f, 0x4c986405, 0x32de1cba)
  {
    hide Pad, W, Rounds, Registers, IV;
    AbcRounds3(b);
    AbcWords1(b);
    AbcWords2(b);
    TenRounds(b, 30, 0x48413ba4, 0xbe35fbd5, 0x4aa84d97, 0x8370b52e, 0xc5fbaf5d, 0x1267b407, 0x3b845d33, 0x046faa0a,
              0x2c0ebc11, 0x21796ad4, 0xdcbbb0cb, 0x0f511fd8, 0xdc63973f, 0x4c986405, 0x32de1cba,
              0x93afb507, 0x5898e048, 0x8e9a9202, 0x00000600, 0xb131c0f0, 0x16263bc6, 0x4ebed41e, 0x626380a1,
              0x16263806, 0x000018c0);
  }

  lemma AbcRounds5(b: Block)
    requires b == Pad(ABC)
    ensures Rounds(IV, b, 50) == Registers(0x1c51e1f2, 0xa01b846c, 0xbead02ca, 0xbaf39337, 0x120731c5)
  {
    hide Pad, W, Rounds, Registers, IV;
    AbcRounds4(b);
    AbcWords2(b);
    AbcWords3(b);
    TenRounds(b, 40, 0xdcbbb0cb, 0x0f511fd8, 0xdc63973f, 0x4c986405, 0x32de1cba, 0xfc87dedf, 0x970a0d5c, 0x7f193dc5,
              0xee1b1aaf, 0x40f28e09, 0x1c51e1f2, 0xa01b846c, 0xbead02ca, 0xbaf39337, 0x120731c5,
              0xd2e138c4, 0x00000f00, 0x3afb5079, 0x898e04e5, 0xe2ba3c2b, 0x000060c0, 0x053a37cd, 0x74458547,
              0xda9415ed, 0x26380a16);
  }

  lemma AbcRounds6(b: Block)
    requires b == Pad(ABC)
    ensures Rounds(IV, b, 60) == Registers(0x5e6456af, 0xc846093f, 0xd262ff50, 0x09d785fd, 0x3f52de5a)
  {
    hide Pad, W, Rounds, Registers, IV;
    AbcRounds5(b);
    AbcWords3(b);
    TenRounds(b, 50, 0x1c51e1f2, 0xa01b846c, 0xbead02ca, 0xbaf39337, 0x120731c5, 0x641db2ce, 0x3847ad66, 0xe490436d,
              0x27e9f1d8, 0x7b71f76d, 0x5e6456af, 0xc846093f, 0xd262ff50, 0x09d785fd, 0x3f52de5a,
              0x626383a1, 0x4ebf54de, 0x3835b44b, 0x0000f600, 0x1e84c7a3, 0x98e04d98, 0x651d16a0, 0x62658ca1,
              0x458544d6, 0x44584cb7);
  }

  lemma AbcRounds7(b: Block)
    requires b == Pad(ABC)
    ensures Rounds(IV, b, 70) == Registers(0x101655f9, 0x0c3df2b4, 0x78dd4d2b, 0x497093c0, 0x3f2588c2)
  {
    hide Pad, W, Rounds, Registers, IV;
    AbcRounds6(b);
    AbcWords3(b);
    AbcWords4(b);
    TenRounds(b, 60, 0x5e6456af, 0xc846093f, 0xd262ff50, 0x09d785fd, 0x3f52de5a, 0xd756c147, 0x548c9cb2, 0xb66c020b,
              0x6b61c9e1, 0x19dfa7ac, 0x101655f9, 0x0c3df2b4, 0x78dd4d2b, 0x497093c0, 0x3f2588c2,
              0x7ba06619, 0x6380aea2, 0x0ae55269, 0x627b49a1, 0x7cd45c9d, 0x000f0000, 0xfb50753a, 0xec6765e8,
              0xba3c2be2, 0x0060c000);
  }

  lemma AbcRounds8(b: Block)
    requires b == Pad(ABC)
    ensures Rounds(IV, b, 80) == Registers(0x63f7dab7, 0xa079b7d9, 0x860d21cc, 0x5738d5e1, 0x42541b35)
  {
    hide Pad, W, Rounds, Registers, IV;
    AbcRounds7(b);
    AbcWords4(b);
    TenRounds(b, 70, 0x101655f9, 0x0c3df2b4, 0x78dd4d2b, 0x497093c0, 0x3f2588c2, 0xc199f8c7, 0x39859de7, 0xedb42de4,
              0x11793f6f, 0x5ee76897, 0x63f7dab7, 0xa079b7d9, 0x860d21cc, 0x5738d5e1, 0x42541b35,
              0x3a37cd05, 0x458546f4, 0xb8599dd6, 0x380a1a26, 0x01e02203, 0xe7cc3456, 0xe6e60b69, 0x00f60a00,
              0x5795ef4f, 0x822e0879);
  }

  lemma AbcBytes()
    ensures BytesBE(0xa9993e36) == [0xa9, 0x99, 0x3e, 0x36]
    ensures BytesBE(0x4706816a) == [0x47, 0x06, 0x81, 0x6a]
    ensures BytesBE(0xba3e2571) == [0xba, 0x3e, 0x25, 0x71]
    ensures BytesBE(0x7850c26c) == [0x78, 0x50, 0xc2, 0x6c]
    ensures BytesBE(0x9cd0d89d) == [0x9c, 0xd0, 0xd8, 0x9d]
  {
  }

  /** The digest of the message "abc". */
  lemma AbcDigest()
    ensures Digest(ABC) ==
            [0xa9, 0x99, 0x3e, 0x36, 0x47, 0x06, 0x81, 0x6a, 0xba, 0x3e, 0x25, 0x71,
             0x78, 0x50, 0xc2, 0x6c, 0x9c, 0xd0, 0xd8, 0x9d]
  {
    hide Pad, Rounds, Fold, BytesBE;
    var b := Pad(ABC);
    AbcPadded();
    AbcRounds8(b);
    OneBlock(ABC, b);
    assert Hash(ABC) == State(0xa9993e36, 0x4706816a, 0xba3e2571, 0x7850c26c, 0x9cd0d89d);
    FiveWords(0xa9993e36, 0x4706816a, 0xba3e2571, 0x7850c26c, 0x9cd0d89d);
    AbcBytes();
  }

  // ---------- the empty message ----------

  lemma EmptyLength()
    ensures Length(0) == [0, 0, 0, 0, 0, 0, 0, 0x00]
  {
    assert BytesBE(0) == [0, 0, 0, 0] && BytesBE(0x00) == [0, 0, 0, 0x00];
    hide BytesBE;
    assert HighBits(0) == 0 && LowBits(0) == 0x00;
  }

  lemma EmptyPadded()
    ensures Pad([]) == [0x80] + seq(55, _ => 0) + [0, 0, 0, 0, 0, 0, 0, 0x00]
  {
    hide HighBits, LowBits;
    EmptyLength();
    Zeros(0);
  }

  lemma EmptyFirst(b: Block)
    requires b == Pad([])
    ensures W(b, 0) == 0x80000000 && (forall t: nat :: 1 <= t < 15 ==> W(b, t) == 0) && W(b, 15) == 0x00000000
  {
    hide Pad;
    EmptyPadded();
    assert b[0] == 0x80 && b[1] == 0x00 && b[2] == 0x00 && b[3] == 0x00;
    forall t: nat | 1 <= t < 15 ensures W(b, t) == 0 {
      assert b[4 * t] == 0 && b[4 * t + 1] == 0 && b[4 * t + 2] == 0 && b[4 * t + 3] == 0;
    }
    assert b[60] == 0 && b[61] == 0 && b[62] == 0 && b[63] == 0x00;
  }

  lemma EmptyWords1(b: Block)
    requires b == Pad([])
    ensures W(b, 16) == 0x00000001 && W(b, 17) == 0x00000000 && W(b, 18) == 0x00000000 && W(b, 19) == 0x00000002
            && W(b, 20) == 0x00000000 && W(b, 21) == 0x00000000 && W(b, 22) == 0x00000004 && W(b, 23) == 0x00000000
            && W(b, 24) == 0x00000002 && W(b, 25) == 0x00000008 && W(b, 26) == 0x00000000 && W(b, 27) == 0x00000000
            && W(b, 28) == 0x00000010 && W(b, 29) == 0x00000000 && W(b, 30) == 0x0000000a && W(b, 31) == 0x00000020
  {
    hide Pad, W;
    EmptyFirst(b);
    Word(b, 16, 0x00000000, 0x00000000, 0x00000000, 0x80000000, 0x00000001);
    Word(b, 17, 0x00000000, 0x00000000, 0x00000000, 0x00000000, 0x00000000);
    Word(b, 18, 0x00000000, 0x00000000, 0x00000000, 0x00000000, 0x00000000);
    Word(b, 19, 0x00000001, 0x00000000, 0x00000000, 0x00000000, 0x00000002);
    Word(b, 20, 0x00000000, 0x00000000, 0x00000000, 0x00000000, 0x00000000);
    Word(b, 21, 0x00000000, 0x00000000, 0x00000000, 0x00000000, 0x00000000);
    Word(b, 22, 0x00000002, 0x00000000, 0x00000000, 0x00000000, 0x00000004);
    Word(b, 23, 0x00000000, 0x00000000, 0x00000000, 0x00000000, 0x00000000);
    Word(b, 24, 0x00000000, 0x00000001, 0x00000000, 0x00000000, 0x00000002);
    Word(b, 25, 0x00000004, 0x00000000, 0x00000000, 0x00000000, 0x00000008);
    Word(b, 26, 0x00000000, 0x00000000, 0x00000000, 0x00000000, 0x00000000);
    Word(b, 27, 0x00000002, 0x00000002, 0x00000000, 0x00000000, 0x00000000);
    Word(b, 28, 0x00000008, 0x00000000, 0x00000000, 0x00000000, 0x00000010);
    Word(b, 29, 0x00000000, 0x00000000, 0x00000000, 0x00000000, 0x00000000);
    Word(b, 30, 0x00000000, 0x00000004, 0x00000001, 0x00000000, 0x0000000a);
    Word(b, 31, 0x00000010, 0x00000000, 0x00000000, 0x00000000, 0x00000020);
  }

  lemma EmptyWords2(b: Block)
    requires b == Pad([])
    ensures W(b, 32) == 0x00000006 && W(b, 33) == 0x00000000 && W(b, 34) == 0x00000040 && W(b, 35) == 0x00000008
            && W(b, 36) == 0x00000028 && W(b, 37) == 0x00000080 && W(b, 38) == 0x00000008 && W(b, 39) == 0x00000000
            && W(b, 40) == 0x00000108 && W(b, 41) == 0x00000000 && W(b, 42) == 0x000000a0 && W(b, 43) == 0x00000200
            && W(b, 44) == 0x00000064 && W(b, 45) == 0x00000000 && W(b, 46) == 0x00000408 && W(b, 47) == 0x00000088
  {
    hide Pad, W;
    EmptyWords1(b);
    Word(b, 32, 0x00000000, 0x00000002, 0x00000000, 0x00000001, 0x00000006);
    Word(b, 33, 0x0000000a, 0x00000008, 0x00000002, 0x00000000, 0x00000000);
    Word(b, 34, 0x00000020, 0x00000000, 0x00000000, 0x00000000, 0x00000040);
    Word(b, 35, 0x00000006, 0x00000000, 0x00000000, 0x00000002, 0x00000008);
    Word(b, 36, 0x00000000, 0x00000010, 0x00000004, 0x00000000, 0x00000028);
    Word(b, 37, 0x00000040, 0x00000000, 0x00000000, 0x00000000, 0x00000080);
    Word(b, 38, 0x00000008, 0x0000000a, 0x00000002, 0x00000004, 0x00000008);
    Word(b, 39, 0x00000028, 0x00000020, 0x00000008, 0x00000000, 0x00000000);
    Word(b, 40, 0x00000080, 0x00000006, 0x00000000, 0x00000002, 0x00000108);
    Word(b, 41, 0x00000008, 0x00000000, 0x00000000, 0x00000008, 0x00000000);
    Word(b, 42, 0x00000000, 0x00000040, 0x00000010, 0x00000000, 0x000000a0);
    Word(b, 43, 0x00000108, 0x00000008, 0x00000000, 0x00000000, 0x00000200);
    Word(b, 44, 0x00000000, 0x00000028, 0x0000000a, 0x00000010, 0x00000064);
    Word(b, 45, 0x000000a0, 0x00000080, 0x00000020, 0x00000000, 0x00000000);
    Word(b, 46, 0x00000200, 0x00000008, 0x00000006, 0x0000000a, 0x00000408);
    Word(b, 47, 0x00000064, 0x00000000, 0x00000000, 0x00000020, 0x00000088);
  }

  lemma EmptyWords3(b: Block)
    requires b == Pad([])
    ensures W(b, 48) == 0x0000029c && W(b, 49) == 0x00000800 && W(b, 50) == 0x00000080 && W(b, 51) == 0x00000028
            && W(b, 52) == 0x00001088 && W(b, 53) == 0x00000000 && W(b, 54) == 0x00000a40 && W(b, 55) == 0x00002000
            && W(b, 56) == 0x00000668 && W(b, 57) == 0x00000080 && W(b, 58) == 0x00004088 && W(b, 59) == 0x00000880
            && W(b, 60) == 0x000028c8 && W(b, 61) == 0x00008000 && W(b, 62) == 0x000008a8 && W(b, 63) == 0x00000080
  {
    hide Pad, W;
    EmptyWords2(b);
    Word(b, 48, 0x00000000, 0x00000108, 0x00000040, 0x00000006, 0x0000029c);
    Word(b, 49, 0x00000408, 0x00000000, 0x00000008, 0x00000000, 0x00000800);
    Word(b, 50, 0x00000088, 0x000000a0, 0x00000028, 0x00000040, 0x00000080);
    Word(b, 51, 0x0000029c, 0x00000200, 0x00000080, 0x00000008, 0x00000028);
    Word(b, 52, 0x00000800, 0x00000064, 0x00000008, 0x00000028, 0x00001088);
    Word(b, 53, 0x00000080, 0x00000000, 0x00000000, 0x00000080, 0x00000000);
    Word(b, 54, 0x00000028, 0x00000408, 0x00000108, 0x00000008, 0x00000a40);
    Word(b, 55, 0x00001088, 0x00000088, 0x00000000, 0x00000000, 0x00002000);
    Word(b, 56, 0x00000000, 0x0000029c, 0x000000a0, 0x00000108, 0x00000668);
    Word(b, 57, 0x00000a40, 0x00000800, 0x00000200, 0x00000000, 0x00000080);
    Word(b, 58, 0x00002000, 0x00000080, 0x00000064, 0x000000a0, 0x00004088);
    Word(b, 59, 0x00000668, 0x00000028, 0x00000000, 0x00000200, 0x00000880);
    Word(b, 60, 0x00000080, 0x00001088, 0x00000408, 0x00000064, 0x000028c8);
    Word(b, 61, 0x00004088, 0x00000000, 0x00000088, 0x00000000, 0x00008000);
    Word(b, 62, 0x00000880, 0x00000a40, 0x0000029c, 0x00000408, 0x000008a8);
    Word(b, 63, 0x000028c8, 0x00002000, 0x00000800, 0x00000088, 0x00000080);
  }

  lemma EmptyWords4(b: Block)
    requires b == Pad([])
    ensures W(b, 64) == 0x000108e8 && W(b, 65) == 0x00000000 && W(b, 66) == 0x0000a000 && W(b, 67) == 0x00020080
            && W(b, 68) == 0x00006400 && W(b, 69) == 0x00000000 && W(b, 70) == 0x00040800 && W(b, 71) == 0x00008800
            && W(b, 72) == 0x00029c10 && W(b, 73) == 0x00080000 && W(b, 74) == 0x00008080 && W(b, 75) == 0x00002820
            && W(b, 76) == 0x001088c0 && W(b, 77) == 0x00000000 && W(b, 78) == 0x000a40c0 && W(b, 79) == 0x00200080
  {
    hide Pad, W;
    EmptyWords3(b);
    Word(b, 64, 0x00008000, 0x00000668, 0x00000080, 0x0000029c, 0x000108e8);
    Word(b, 65, 0x000008a8, 0x00000080, 0x00000028, 0x00000800, 0x00000000);
    Word(b, 66, 0x00000080, 0x00004088, 0x00001088, 0x00000080, 0x0000a000);
    Word(b, 67, 0x000108e8, 0x00000880, 0x00000000, 0x00000028, 0x00020080);
    Word(b, 68, 0x00000000, 0x000028c8, 0x00000a40, 0x00001088, 0x00006400);
    Word(b, 69, 0x0000a000, 0x00008000, 0x00002000, 0x00000000, 0x00000000);
    Word(b, 70, 0x00020080, 0x000008a8, 0x00000668, 0x00000a40, 0x00040800);
    Word(b, 71, 0x00006400, 0x00000080, 0x00000080, 0x00002000, 0x00008800);
    Word(b, 72, 0x00000000, 0x000108e8, 0x00004088, 0x00000668, 0x00029c10);
    Word(b, 73, 0x00040800, 0x00000000, 0x00000880, 0x00000080, 0x00080000);
    Word(b, 74, 0x00008800, 0x0000a000, 0x000028c8, 0x00004088, 0x00008080);
    Word(b, 75, 0x00029c10, 0x00020080, 0x00008000, 0x00000880, 0x00002820);
    Word(b, 76, 0x00080000, 0x00006400, 0x000008a8, 0x000028c8, 0x001088c0);
    Word(b, 77, 0x00008080, 0x00000000, 0x00000080, 0x00008000, 0x00000000);
    Word(b, 78, 0x00002820, 0x00040800, 0x000108e8, 0x000008a8, 0x000a40c0);
    Word(b, 79, 0x001088c0, 0x00008800, 0x00000000, 0x00000080, 0x00200080);
  }

  lemma EmptyRounds1(b: Block)
    requires b == Pad([])
    ensures Rounds(IV, b, 10) == Registers(0xe44ab766, 0xc09d7f27, 0x87074800, 0x41376611, 0xcbdbff31)
  {
    hide Pad, W, Rounds, Registers, IV;
    NoneYet(b);
    EmptyFirst(b);
    TenRounds(b, 0, 0x0f4b87c3, 0x40c951d8, 0x62eb73fa, 0xefcdab89, 0x67452301, 0x1fb498b3, 0x5d43e370, 0x158d2f62,
              0xcdecfb5d, 0x4953565e, 0xe44ab766, 0xc09d7f27, 0x87074800, 0x41376611, 0xcbdbff31,
              0x80000000, 0x00000000, 0x00000000, 0x00000000, 0x00000000, 0x00000000, 0x00000000, 0x00000000,
              0x00000000, 0x00000000);
  }

  lemma EmptyRounds2(b: Block)
    requires b == Pad([])
    ensures Rounds(IV, b, 20) == Registers(0xd8fd6547, 0x06bf9173, 0x28a9520e, 0x0b3088dd, 0xe758e8da)
  {
    hide Pad, W, Rounds, Registers, IV;
    EmptyRounds1(b);
    EmptyFirst(b);
    EmptyWords1(b);
    TenRounds(b, 10, 0xe44ab766, 0xc09d7f27, 0x87074800, 0x41376611, 0xcbdbff31, 0x40166973, 0xadc0e0ca, 0x84c05eb2,
              0x1512c8b9, 0x40182905, 0xd8fd6547, 0x06bf9173, 0x28a9520e, 0x0b3088dd, 0xe758e8da,
              0x00000000, 0x00000000, 0x00000000, 0x00000000, 0x00000000, 0x00000000, 0x00000001, 0x00000000,
              0x00000000, 0x00000002);
  }

  lemma EmptyRounds3(b: Block)
    requires b == Pad([])
    ensures Rounds(IV, b, 30) == Registers(0x34f3d6d8, 0x4f2ed1c1, 0xc7b11e2d, 0x874b786f, 0xca4556cb)
  {
    hide Pad, W, Rounds, Registers, IV;
    EmptyRounds2(b);
    EmptyWords1(b);
    TenRounds(b, 20, 0xd8fd6547, 0x06bf9173, 0x28a9520e, 0x0b3088dd, 0xe758e8da, 0x90eb9850, 0x7dbb787d, 0x1c64d028,
              0x1e97b73a, 0x62d7f53f, 0x34f3d6d8, 0x4f2ed1c1, 0xc7b11e2d, 0x874b786f, 0xca4556cb,
              0x00000000, 0x00000000, 0x00000004, 0x00000000, 0x00000002, 0x00000008, 0x00000000, 0x00000000,
              0x00000010, 0x00000000);
  }

  lemma EmptyRounds4(b: Block)
    requires b == Pad([])
    ensures Rounds(IV, b, 40) == Registers(0xabbab988, 0x04f07669, 0xb201788b, 0x62273351, 0x9bdbdd71)
  {
    hide Pad, W, Rounds, Registers, IV;
    EmptyRounds3(b);
    EmptyWords1(b);
    EmptyWords2(b);
    TenRounds(b, 30, 0x34f3d6d8, 0x4f2ed1c1, 0xc7b11e2d, 0x874b786f, 0xca4556cb, 0x6a2e466e, 0x62ea3d59, 0xb77bac25,
              0x4b1347e2, 0x391ef0c4, 0xabbab988, 0x04f07669, 0xb201788b, 0x62273351, 0x9bdbdd71,
              0x0000000a, 0x00000020, 0x00000006, 0x00000000, 0x00000040, 0x00000008, 0x00000028, 0x00000080,
              0x00000008, 0x00000000);
  }

  lemma EmptyRounds5(b: Block)
    requires b == Pad([])
    ensures Rounds(IV, b, 50) == Registers(0xafe695ab, 0xa195ba90, 0xe6d39f43, 0x0bca9922, 0x6ae826ff)
  {
    hide Pad, W, Rounds, Registers, IV;
    EmptyRounds4(b);
    EmptyWords2(b);
    EmptyWords3(b);
    TenRounds(b, 40, 0xabbab988, 0x04f07669, 0xb201788b, 0x62273351, 0x9bdbdd71, 0x95aa398b, 0x5e28e858, 0x95642485,
              0xfa950aba, 0xde1e3a01, 0xafe695ab, 0xa195ba90, 0xe6d39f43, 0x0bca9922, 0x6ae826ff,
              0x00000108, 0x00000000, 0x000000a0, 0x00000200, 0x00000064, 0x00000000, 0x00000408, 0x00000088,
              0x0000029c, 0x00000800);
  }

  lemma EmptyRounds6(b: Block)
    requires b == Pad([])
    ensures Rounds(IV, b, 60) == Registers(0xbe4a4bea, 0x168ce0bb, 0xe1afab22, 0x982bcbca, 0x9b9d2913)
  {
    hide Pad, W, Rounds, Registers, IV;
    EmptyRounds5(b);
    EmptyWords3(b);
    TenRounds(b, 50, 0xafe695ab, 0xa195ba90, 0xe6d39f43, 0x0bca9922, 0x6ae826ff, 0x01ff3253, 0xe2581ce0, 0x56ce73ab,
              0xae56e542, 0x8590c0e8, 0xbe4a4bea, 0x168ce0bb, 0xe1afab22, 0x982bcbca, 0x9b9d2913,
              0x00000080, 0x00000028, 0x00001088, 0x00000000, 0x00000a40, 0x00002000, 0x00000668, 0x00000080,
              0x00004088, 0x00000880);
  }

  lemma EmptyRounds7(b: Block)
    requires b == Pad([])
    ensures Rounds(IV, b, 70) == Registers(0xd37225cb, 0x111341f3, 0xe79afbf0, 0x8ba00627, 0x503c7ae0)
  {
    hide Pad, W, Rounds, Registers, IV;
    EmptyRounds6(b);
    EmptyWords3(b);
    EmptyWords4(b);
    TenRounds(b, 60, 0xbe4a4bea, 0x168ce0bb, 0xe1afab22, 0x982bcbca, 0x9b9d2913, 0xd37db937, 0x85b9d227, 0xcd98fbb7,
              0xbb0f226f, 0xeb59446c, 0xd37225cb, 0x111341f3, 0xe79afbf0, 0x8ba00627, 0x503c7ae0,
              0x000028c8, 0x00008000, 0x000008a8, 0x00000080, 0x000108e8, 0x00000000, 0x0000a000, 0x00020080,
              0x00006400, 0x00000000);
  }

  lemma EmptyRounds8(b: Block)
    requires b == Pad([])
    ensures Rounds(IV, b, 80) == Registers(0xb0149467, 0x14b7106a, 0x666b8bc6, 0x6e9d9f84, 0x72f480ed)
  {
    hide Pad, W, Rounds, Registers, IV;
    EmptyRounds7(b);
    EmptyWords4(b);
    TenRounds(b, 70, 0xd37225cb, 0x111341f3, 0xe79afbf0, 0x8ba00627, 0x503c7ae0, 0x3cd517f9, 0xb47ddf0e, 0x5e3a0780,
              0x63db37b2, 0x15e98d17, 0xb0149467, 0x14b7106a, 0x666b8bc6, 0x6e9d9f84, 0x72f480ed,
              0x00040800, 0x00008800, 0x00029c10, 0x00080000, 0x00008080, 0x00002820, 0x001088c0, 0x00000000,
              0x000a40c0, 0x00200080);
  }

  lemma EmptyBytes()
    ensures BytesBE(0xda39a3ee) == [0xda, 0x39, 0xa3, 0xee]
    ensures BytesBE(0x5e6b4b0d) == [0x5e, 0x6b, 0x4b, 0x0d]
    ensures BytesBE(0x3255bfef) == [0x32, 0x55, 0xbf, 0xef]
    ensures BytesBE(0x95601890) == [0x95, 0x60, 0x18, 0x90]
    ensures BytesBE(0xafd80709) == [0xaf, 0xd8, 0x07, 0x09]
  {
  }

  /** The digest of the empty message. */
  lemma EmptyDigest()
    ensures Digest([]) ==
            [0xda, 0x39, 0xa3, 0xee, 0x5e, 0x6b, 0x4b, 0x0d, 0x32, 0x55, 0xbf, 0xef,
             0x95, 0x60, 0x18, 0x90, 0xaf, 0xd8, 0x07, 0x09]
  {
    hide Pad, Rounds, Fold, BytesBE;
    var b := Pad([]);
    EmptyPadded();
    EmptyRounds8(b);
    OneBlock([], b);
    assert Hash([]) == State(0xda39a3ee, 0x5e6b4b0d, 0x3255bfef, 0x95601890, 0xafd80709);
    FiveWords(0xda39a3ee, 0x5e6b4b0d, 0x3255bfef, 0x95601890, 0xafd80709);
    EmptyBytes();
  }
}
