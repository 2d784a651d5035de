/** The MD4 compression function, section 3.4 of RFC 1320. */
module Md4Spec {
  import opened DigestSpec

  function F(x: bv32, y: bv32, z: bv32): bv32 { (x & y) | (!x & z) }
  function G(x: bv32, y: bv32, z: bv32): bv32 { (x & y) | (x & z) | (y & z) }
  function H(x: bv32, y: bv32, z: bv32): bv32 { x ^ y ^ z }

  datatype State = State(a: bv32, b: bv32, c: bv32, d: bv32)

  const IV := State(0x67452301, 0xefcdab89, 0x98badcfe, 0x10325476)

  /** The word of the block that step `i` takes in: in order, by columns of a 4 by 4
      square, and in bit-reversed order. */
  function Index(i: nat): (k: nat)
    requires i < 48
    ensures k < 16
  {
    if i < 16 then i
    else if i < 32 then 4 * (i % 4) + (i - 16) / 4
    else 8 * (i % 2) + 4 * (i / 2 % 2) + 2 * (i / 4 % 2) + (i - 32) / 8
  }

  /** The amount of its rotation. */
  function Shift(i: nat): (n: nat)
    requires i < 48
    ensures 0 < n < 32
  {
    var r := i % 4;
    if i < 16 then (if r == 0 then 3 else if r == 1 then 7 else if r == 2 then 11 else 19)
    else if i < 32 then (if r == 0 then 3 else if r == 1 then 5 else if r == 2 then 9 else 13)
    else if r == 0 then 3 else if r == 1 then 9 else if r == 2 then 11 else 15
  }

  /** The operation [abcd k s] of step `i`. */
  function Op(i: nat, a: bv32, b: bv32, c: bv32, d: bv32, x: bv32): bv32
    requires i < 48
  {
    var sum := if i < 16 then Sum3(a, F(b, c, d), x)
               else if i < 32 then Sum4(a, G(b, c, d), x, 0x5a827999)
               else Sum4(a, H(b, c, d), x, 0x6ed9eba1);
    Rotl(sum, Shift(i))
  }

  /** The registers change their parts from step to step: ABCD, DABC, CDAB, BCDA. */
  function Step(s: State, i: nat, x: bv32): State
    requires i < 48
  {
    State(s.d, Op(i, s.a, s.b, s.c, s.d, x), s.b, s.c)
  }

  function X(block: Block, k: nat): bv32
    requires k < 16
  {
    LittleEndian(block[4 * k], block[4 * k + 1], block[4 * k + 2], block[4 * k + 3])
  }

  function Steps(s: State, block: Block, i: nat): State
    requires i <= 48
  {
    if i == 0 then s else Step(Steps(s, block, i - 1), i - 1, X(block, Index(i - 1)))
  }

  function Compress(s: State, block: Block): State {
    var t := Steps(s, block, 48);
    State(Add(s.a, t.a), Add(s.b, t.b), Add(s.c, t.c), Add(s.d, t.d))
  }

  /** The length of the message in bits, low-order word first (section 3.2). */
  function Length(n: nat): (r: seq<bv8>)
    ensures |r| == 8
  {
    WordsLE([LowBits(n) as bv32, HighBits(n) as bv32])
  }

  function Pad(msg: seq<bv8>): (r: seq<bv8>)
    ensures |r| % BLOCK == 0
  {
    PaddingFills(|msg|, Length(|msg|));
    msg + Padding(|msg|, Length(|msg|))
  }

  function Hash(msg: seq<bv8>): State {
    Fold(Compress, IV, Pad(msg))
  }

  function Digest(msg: seq<bv8>): seq<bv8> {
    var h := Hash(msg);
    WordsLE([h.a, h.b, h.c, h.d])
  }
}

/** apr_md4.c */
module Md4 {
  import opened DigestSpec
  import opened Md4Spec

  function RotateLeft(x: bv32, n: nat): (r: bv32)
    requires 0 < n < 32
    ensures n in {3, 5, 7, 9, 11, 13, 15, 19} ==> r == Rotl(x, n)
  {
    (x << n) | (x >> (32 - n))
  }

  function FF(a: bv32, b: bv32, c: bv32, d: bv32, x: bv32, s: nat): bv32
    requires 0 < s < 32
  {
    RotateLeft(Sum3(a, F(b, c, d), x), s)
  }

  function GG(a: bv32, b: bv32, c: bv32, d: bv32, x: bv32, s: nat): bv32
    requires 0 < s < 32
  {
    RotateLeft(Sum4(a, G(b, c, d), x, 0x5a827999), s)
  }

  function HH(a: bv32, b: bv32, c: bv32, d: bv32, x: bv32, s: nat): bv32
    requires 0 < s < 32
  {
    RotateLeft(Sum4(a, H(b, c, d), x, 0x6ed9eba1), s)
  }

  /** The macros are the steps of their rounds. */
  lemma MacroIsOp(i: nat, a: bv32, b: bv32, c: bv32, d: bv32, x: bv32)
    requires i < 48
    ensures Op(i, a, b, c, d, x) ==
            if i < 16 then FF(a, b, c, d, x, Shift(i))
            else if i < 32 then GG(a, b, c, d, x, Shift(i))
            else HH(a, b, c, d, x, Shift(i))
  {
    hide F, G, H, Sum3, Sum4;
  }

  /** Four steps bring each register back to its place. */
  lemma FourSteps(s: State, block: Block, i: nat)
    requires i % 4 == 0 && i + 4 <= 48
    ensures var p := Steps(s, block, i);
            var a := Op(i, p.a, p.b, p.c, p.d, X(block, Index(i)));
            var d := Op(i + 1, p.d, a, p.b, p.c, X(block, Index(i + 1)));
            var c := Op(i + 2, p.c, d, a, p.b, X(block, Index(i + 2)));
            var b := Op(i + 3, p.b, c, d, a, X(block, Index(i + 3)));
            Steps(s, block, i + 4) == State(a, b, c, d)
  {
    hide Op, X, Index;
    OneStep(s, block, i);
    OneStep(s, block, i + 1);
    OneStep(s, block, i + 2);
    OneStep(s, block, i + 3);
  }

  lemma OneStep(s: State, block: Block, i: nat)
    requires i < 48
    ensures Steps(s, block, i + 1) == Step(Steps(s, block, i), i, X(block, Index(i)))
  {
    hide Step, X, Index;
  }

  /** The two bits of `c` in the other order. */
  function Swap(c: nat): nat { if c == 1 then 2 else if c == 2 then 1 else c }

  /** The tables in groups of four. */
  lemma Tables1(c: nat)
    requires c < 4
    ensures var i := 4 * c;
            && Index(i) == i && Index(i + 1) == i + 1 && Index(i + 2) == i + 2 && Index(i + 3) == i + 3
            && Shift(i) == 3 && Shift(i + 1) == 7 && Shift(i + 2) == 11 && Shift(i + 3) == 19
  {
    if c == 0 { } else if c == 1 { } else if c == 2 { } else { }
  }

  lemma Tables2(c: nat)
    requires c < 4
    ensures var i := 16 + 4 * c;
            && Index(i) == c && Index(i + 1) == c + 4 && Index(i + 2) == c + 8 && Index(i + 3) == c + 12
            && Shift(i) == 3 && Shift(i + 1) == 5 && Shift(i + 2) == 9 && Shift(i + 3) == 13
  {
    if c == 0 { } else if c == 1 { } else if c == 2 { } else { }
  }

  lemma Tables3(c: nat)
    requires c < 4
    ensures var i := 32 + 4 * c;
            && Index(i) == Swap(c) && Index(i + 1) == Swap(c) + 8 && Index(i + 2) == Swap(c) + 4
            && Index(i + 3) == Swap(c) + 12
            && Shift(i) == 3 && Shift(i + 1) == 9 && Shift(i + 2) == 11 && Shift(i + 3) == 15
  {
    if c == 0 { } else if c == 1 { } else if c == 2 { } else { }
  }

  lemma Group1(s: State, block: Block, x: seq<bv32>, k: nat)
    requires k < 4 && |x| == 16 && forall j :: 0 <= j < 16 ==> x[j] == X(block, j)
    ensures var p := Steps(s, block, 4 * k);
            var a := FF(p.a, p.b, p.c, p.d, x[4 * k], 3);
            var d := FF(p.d, a, p.b, p.c, x[4 * k + 1], 7);
            var c := FF(p.c, d, a, p.b, x[4 * k + 2], 11);
            var b := FF(p.b, c, d, a, x[4 * k + 3], 19);
            Steps(s, block, 4 * k + 4) == State(a, b, c, d)
  {
    hide Steps, X, Op, FF, Index, Shift;
    var i, p := 4 * k, Steps(s, block, 4 * k);
    FourSteps(s, block, i);
    Tables1(k);
    MacroIsOp(i, p.a, p.b, p.c, p.d, x[4 * k]);
    var a := FF(p.a, p.b, p.c, p.d, x[4 * k], 3);
    MacroIsOp(i + 1, p.d, a, p.b, p.c, x[4 * k + 1]);
    var d := FF(p.d, a, p.b, p.c, x[4 * k + 1], 7);
    MacroIsOp(i + 2, p.c, d, a, p.b, x[4 * k + 2]);
    var c := FF(p.c, d, a, p.b, x[4 * k + 2], 11);
    MacroIsOp(i + 3, p.b, c, d, a, x[4 * k + 3]);
  }

  lemma Group2(s: State, block: Block, x: seq<bv32>, k: nat)
    requires k < 4 && |x| == 16 && forall j :: 0 <= j < 16 ==> x[j] == X(block, j)
    ensures var p := Steps(s, block, 16 + 4 * k);
            var a := GG(p.a, p.b, p.c, p.d, x[k], 3);
            var d := GG(p.d, a, p.b, p.c, x[k + 4], 5);
            var c := GG(p.c, d, a, p.b, x[k + 8], 9);
            var b := GG(p.b, c, d, a, x[k + 12], 13);
            Steps(s, block, 16 + 4 * k + 4) == State(a, b, c, d)
  {
    hide Steps, X, Op, GG, Index, Shift;
    var i, p := 16 + 4 * k, Steps(s, block, 16 + 4 * k);
    FourSteps(s, block, i);
    Tables2(k);
    MacroIsOp(i, p.a, p.b, p.c, p.d, x[k]);
    var a := GG(p.a, p.b, p.c, p.d, x[k], 3);
    MacroIsOp(i + 1, p.d, a, p.b, p.c, x[k + 4]);
    var d := GG(p.d, a, p.b, p.c, x[k + 4], 5);
    MacroIsOp(i + 2, p.c, d, a, p.b, x[k + 8]);
    var c := GG(p.c, d, a, p.b, x[k + 8], 9);
    MacroIsOp(i + 3, p.b, c, d, a, x[k + 12]);
  }

  lemma Group3(s: State, block: Block, x: seq<bv32>, k: nat)
    requires k < 4 && |x| == 16 && forall j :: 0 <= j < 16 ==> x[j] == X(block, j)
    ensures var p := Steps(s, block, 32 + 4 * k);
            var a := HH(p.a, p.b, p.c, p.d, x[Swap(k)], 3);
            var d := HH(p.d, a, p.b, p.c, x[Swap(k) + 8], 9);
            var c := HH(p.c, d, a, p.b, x[Swap(k) + 4], 11);
            var b := HH(p.b, c, d, a, x[Swap(k) + 12], 15);
            Steps(s, block, 32 + 4 * k + 4) == State(a, b, c, d)
  {
    hide Steps, X, Op, HH, Index, Shift;
    var i, p := 32 + 4 * k, Steps(s, block, 32 + 4 * k);
    FourSteps(s, block, i);
    Tables3(k);
    MacroIsOp(i, p.a, p.b, p.c, p.d, x[Swap(k)]);
    var a := HH(p.a, p.b, p.c, p.d, x[Swap(k)], 3);
    MacroIsOp(i + 1, p.d, a, p.b, p.c, x[Swap(k) + 8]);
    var d := HH(p.d, a, p.b, p.c, x[Swap(k) + 8], 9);
    MacroIsOp(i + 2, p.c, d, a, p.b, x[Swap(k) + 4]);
    var c := HH(p.c, d, a, p.b, x[Swap(k) + 4], 11);
    MacroIsOp(i + 3, p.b, c, d, a, x[Swap(k) + 12]);
  }

  /** The straight-line rounds of MD4Transform. */
  method Round1(x: seq<bv32>, a0: bv32, b0: bv32, c0: bv32, d0: bv32, ghost s: State, ghost block: Block)
    returns (a: bv32, b: bv32, c: bv32, d: bv32)
    requires |x| == 16 && forall k :: 0 <= k < 16 ==> x[k] == X(block, k)
    requires State(a0, b0, c0, d0) == Steps(s, block, 0)
    ensures State(a, b, c, d) == Steps(s, block, 16)
  {
    hide Steps, X, FF;
    a, b, c, d := a0, b0, c0, d0;
    Group1(s, block, x, 0);
    a := FF(a, b, c, d, x[0], 3);
    d := FF(d, a, b, c, x[1], 7);
    c := FF(c, d, a, b, x[2], 11);
    b := FF(b, c, d, a, x[3], 19);
    assert State(a, b, c, d) == Steps(s, block, 4);
    Group1(s, block, x, 1);
    a := FF(a, b, c, d, x[4], 3);
    d := FF(d, a, b, c, x[5], 7);
    c := FF(c, d, a, b, x[6], 11);
    b := FF(b, c, d, a, x[7], 19);
    assert State(a, b, c, d) == Steps(s, block, 8);
    Group1(s, block, x, 2);
    a := FF(a, b, c, d, x[8], 3);
    d := FF(d, a, b, c, x[9], 7);
    c := FF(c, d, a, b, x[10], 11);
    b := FF(b, c, d, a, x[11], 19);
    assert State(a, b, c, d) == Steps(s, block, 12);
    Group1(s, block, x, 3);
    a := FF(a, b, c, d, x[12], 3);
    d := FF(d, a, b, c, x[13], 7);
    c := FF(c, d, a, b, x[14], 11);
    b := FF(b, c, d, a, x[15], 19);
  }

  method Round2(x: seq<bv32>, a0: bv32, b0: bv32, c0: bv32, d0: bv32, ghost s: State, ghost block: Block)
    returns (a: bv32, b: bv32, c: bv32, d: bv32)
    requires |x| == 16 && forall k :: 0 <= k < 16 ==> x[k] == X(block, k)
    requires State(a0, b0, c0, d0) == Steps(s, block, 16)
    ensures State(a, b, c, d) == Steps(s, block, 32)
  {
    hide Steps, X, GG;
    a, b, c, d := a0, b0, c0, d0;
    Group2(s, block, x, 0);
    a := GG(a, b, c, d, x[0], 3);
    d := GG(d, a, b, c, x[4], 5);
    c := GG(c, d, a, b, x[8], 9);
    b := GG(b, c, d, a, x[12], 13);
    assert State(a, b, c, d) == Steps(s, block, 20);
    Group2(s, block, x, 1);
    a := GG(a, b, c, d, x[1], 3);
    d := GG(d, a, b, c, x[5], 5);
    c := GG(c, d, a, b, x[9], 9);
    b := GG(b, c, d, a, x[13], 13);
    assert State(a, b, c, d) == Steps(s, block, 24);
    Group2(s, block, x, 2);
    a := GG(a, b, c, d, x[2], 3);
    d := GG(d, a, b, c, x[6], 5);
    c := GG(c, d, a, b, x[10], 9);
    b := GG(b, c, d, a, x[14], 13);
    assert State(a, b, c, d) == Steps(s, block, 28);
    Group2(s, block, x, 3);
    a := GG(a, b, c, d, x[3], 3);
    d := GG(d, a, b, c, x[7], 5);
    c := GG(c, d, a, b, x[11], 9);
    b := GG(b, c, d, a, x[15], 13);
  }

  method Round3(x: seq<bv32>, a0: bv32, b0: bv32, c0: bv32, d0: bv32, ghost s: State, ghost block: Block)
    returns (a: bv32, b: bv32, c: bv32, d: bv32)
    requires |x| == 16 && forall k :: 0 <= k < 16 ==> x[k] == X(block, k)
    requires State(a0, b0, c0, d0) == Steps(s, block, 32)
    ensures State(a, b, c, d) == Steps(s, block, 48)
  {
    hide Steps, X, HH;
    a, b, c, d := a0, b0, c0, d0;
    Group3(s, block, x, 0);
    a := HH(a, b, c, d, x[0], 3);
    d := HH(d, a, b, c, x[8], 9);
    c := HH(c, d, a, b, x[4], 11);
    b := HH(b, c, d, a, x[12], 15);
    assert State(a, b, c, d) == Steps(s, block, 36);
    Group3(s, block, x, 1);
    a := HH(a, b, c, d, x[2], 3);
    d := HH(d, a, b, c, x[10], 9);
    c := HH(c, d, a, b, x[6], 11);
    b := HH(b, c, d, a, x[14], 15);
    assert State(a, b, c, d) == Steps(s, block, 40);
    Group3(s, block, x, 2);
    a := HH(a, b, c, d, x[1], 3);
    d := HH(d, a, b, c, x[9], 9);
    c := HH(c, d, a, b, x[5], 11);
    b := HH(b, c, d, a, x[13], 15);
    assert State(a, b, c, d) == Steps(s, block, 44);
    Group3(s, block, x, 3);
    a := HH(a, b, c, d, x[3], 3);
    d := HH(d, a, b, c, x[11], 9);
    c := HH(c, d, a, b, x[7], 11);
    b := HH(b, c, d, a, x[15], 15);
  }

  /** Decode */
  method Decode(output: array<bv32>, input: seq<bv8>)
    requires 4 * output.Length == |input|
    modifies output
    ensures forall i :: 0 <= i < output.Length ==> output[i] == WordLE(input, i)
  {
    var i, j := 0, 0;
    while j < |input|
      invariant j == 4 * i <= |input| && forall q :: 0 <= q < i ==> output[q] == WordLE(input, q)
    {
      output[i] := LittleEndian(input[j], input[j + 1], input[j + 2], input[j + 3]);
      i, j := i + 1, j + 4;
    }
  }

  /** Encode */
  method Encode(output: array<bv8>, input: seq<bv32>)
    requires output.Length == 4 * |input|
    modifies output
    ensures output[..] == WordsLE(input)
  {
    hide WordsLE;
    var i, j := 0, 0;
    WordsNone();
    assert input[..0] == [] && output[..0] == [];
    while j < output.Length
      invariant j == 4 * i && i <= |input| && output[..j] == WordsLE(input[..i])
    {
      var k := input[i];
      ghost var was := output[..j];
      WordsNext(input, i);
      output[j] := (k & 0xff) as bv8;
      output[j + 1] := ((k >> 8) & 0xff) as bv8;
      output[j + 2] := ((k >> 16) & 0xff) as bv8;
      output[j + 3] := ((k >> 24) & 0xff) as bv8;
      assert output[..j + 4] == was + BytesLE(k);
      i, j := i + 1, j + 4;
    }
    assert output[..j] == output[..] && input[..i] == input;
  }

  function WordLE(b: seq<bv8>, i: nat): bv32
    requires 4 * i + 4 <= |b|
  {
    LittleEndian(b[4 * i], b[4 * i + 1], b[4 * i + 2], b[4 * i + 3])
  }

  lemma WordsNone()
    ensures WordsLE([]) == []
  {
  }

  lemma WordsNext(ws: seq<bv32>, i: nat)
    requires i < |ws|
    ensures WordsLE(ws[..i + 1]) == WordsLE(ws[..i]) + BytesLE(ws[i])
  {
    hide BytesLE;
    assert ws[..i + 1][..i] == ws[..i];
  }

  /** Decoding undoes encoding. */
  lemma {:induction false} EncodedWords(ws: seq<bv32>, i: nat)
    requires i < |ws|
    ensures WordLE(WordsLE(ws), i) == ws[i]
    decreases |ws|
  {
    hide BytesLE, LittleEndian;
    var n := |ws| - 1;
    var b, c := WordsLE(ws[..n]), WordsLE(ws);
    assert c == b + BytesLE(ws[n]);
    if i < n {
      EncodedWords(ws[..n], i);
      assert forall k :: 0 <= k < 4 * n ==> c[k] == b[k];
    } else {
      WordOfBytes(ws[n]);
    }
  }

  /** PADDING */
  const PADDING: Block := [0x80] + seq(63, _ => 0)

  /** i + 63 < inputLen with a counter of 32 bits and a length of 64. */
  predicate LoopTest(i: nat, inputLen: nat) {
    (i + 63) % WORD < inputLen
  }

  /** Where the last whole block of the input ends. */
  function Stop(partLen: nat, inputLen: nat): (r: nat)
    requires partLen <= inputLen
    ensures partLen <= r <= inputLen < r + BLOCK
  {
    partLen + (inputLen - partLen) / BLOCK * BLOCK
  }

  /** The counter does not wrap around there. */
  predicate NoWrap(before: nat, inputLen: nat) {
    var partLen := BLOCK - before % BLOCK;
    partLen <= inputLen ==> Stop(partLen, inputLen) + 63 < WORD
  }

  lemma StopsAt(partLen: nat, inputLen: nat, i: nat)
    requires partLen <= inputLen && partLen <= i <= Stop(partLen, inputLen) && (i - partLen) % BLOCK == 0
    requires Stop(partLen, inputLen) + 63 < WORD
    ensures LoopTest(i, inputLen) <==> i < Stop(partLen, inputLen)
    ensures i < Stop(partLen, inputLen) ==> i + BLOCK <= Stop(partLen, inputLen) && (i + BLOCK) % WORD == i + BLOCK
  {
  }

  /** After the first block of a call no bytes are left over. */
  lemma AtBlock(msg: seq<bv8>, input: seq<bv8>, idx: nat, i: nat)
    requires idx == |msg| % BLOCK && i == BLOCK - idx <= |input|
    ensures |msg + input[..i]| % BLOCK == 0
  {
  }

  lemma NoneLeft(m: seq<bv8>, next: seq<bv8>)
    requires |m| % BLOCK == 0 && |next| == BLOCK
    ensures Left(m) + next == next && |m + next| % BLOCK == 0
  {
  }

  lemma NoWrapCounts(before: nat, inputLen: nat)
    requires NoWrap(before, inputLen)
    ensures inputLen < WORD
  {
  }

  /** A call goes on with the message if and only if the counter does not wrap around:
      otherwise the loop does not end where the whole blocks do, even where the length,
      which is counted in 32 bits, is counted right. */
  lemma UpdateExact(before: nat, inputLen: nat)
    ensures var partLen, counted := BLOCK - before % BLOCK, inputLen % WORD;
            NoWrap(before, inputLen) <==>
              (partLen <= inputLen ==> !LoopTest(Stop(partLen, inputLen), inputLen))
              && LowBits(before + counted) == LowBits(before + inputLen)
              && HighBits(before + counted) == HighBits(before + inputLen)
  {
    hide LowBits, HighBits;
    if NoWrap(before, inputLen) { NoWrapCounts(before, inputLen); }
  }

  class Context {
    const state: array<bv32>
    var count0: Word
    var count1: Word
    const buffer: array<bv8>
    ghost var msg: seq<bv8>           // everything passed to update so far

    ghost predicate Shape()
      reads this
    {
      state.Length == 4 && buffer.Length == BLOCK
    }

    function State(): State
      reads this, state
      requires Shape()
    {
      Md4Spec.State(state[0], state[1], state[2], state[3])
    }

    /** The whole blocks of the message are compressed, the rest of it is buffered, and
        the two words hold its length. */
    ghost predicate Valid()
      reads this, state, buffer
    {
      && Shape()
      && count0 == LowBits(|msg|) && count1 == HighBits(|msg|)
      && buffer[..|msg| % BLOCK] == Left(msg)
      && State() == Fold(Compress, IV, Whole(msg))
    }

    constructor ()
      ensures Shape() && fresh(state) && fresh(buffer)
    {
      state := new bv32[4](_ => 0);
      buffer := new bv8[BLOCK](_ => 0);
      count0, count1, msg := 0, 0, [];
    }

    /** apr_md4_init */
    method Init()
      requires Shape()
      modifies this, state
      ensures Valid() && msg == []
    {
      hide Fold, Whole, Left, LowBits, HighBits, Compress;
      NoMessage(Compress, IV);
      count0, count1, msg := 0, 0, [];
      state[0] := 0x67452301;
      state[1] := 0xefcdab89;
      state[2] := 0x98badcfe;
      state[3] := 0x10325476;
    }

    /** MD4Transform */
    method Transform(block: Block)
      requires Shape()
      modifies state
      ensures State() == Compress(old(State()), block)
    {
      hide Steps, Add;
      var a, b, c, d := state[0], state[1], state[2], state[3];
      ghost var s := State();
      var x := new bv32[16](_ => 0);
      Decode(x, block);
      NoSteps(s, block);
      a, b, c, d := Round1(x[..], a, b, c, d, s, block);
      a, b, c, d := Round2(x[..], a, b, c, d, s, block);
      a, b, c, d := Round3(x[..], a, b, c, d, s, block);
      state[0] := Add(state[0], a);
      state[1] := Add(state[1], b);
      state[2] := Add(state[2], c);
      state[3] := Add(state[3], d);
    }

    method CopyIn(at: nat, bytes: seq<bv8>)
      requires at + |bytes| <= buffer.Length
      modifies buffer
      ensures buffer[..] == old(buffer[..at]) + bytes + old(buffer[at + |bytes|..])
    {
      forall k | 0 <= k < |bytes| { buffer[at + k] := bytes[k]; }
    }

    method AddCount(inputLen: nat)
      requires count0 == LowBits(|msg|) && count1 == HighBits(|msg|) && inputLen < WORD
      modifies `count0, `count1
      ensures count0 == LowBits(|msg| + inputLen) && count1 == HighBits(|msg| + inputLen)
    {
      hide LowBits, HighBits, AddWord;
      CountAdds(|msg|, inputLen);
      count0 := AddWord(count0, inputLen * 8 % WORD);
      if count0 < inputLen * 8 % WORD { count1 := AddWord(count1, 1); }
      count1 := AddWord(count1, inputLen / 0x2000_0000);
    }

    /** apr_md4_update: whatever the cut, the message goes on, for every length with which
        the loop ends where it should. */
    method Update(input: seq<bv8>)
      requires Valid() && NoWrap(|msg|, |input|)
      modifies this, state, buffer
      ensures Valid() && msg == old(msg) + input
    {
      hide Fold, Whole, Left, LowBits, HighBits, Compress;
      BytesLeft(|msg|);
      var idx := count0 / 8 % BLOCK;
      NoWrapCounts(|msg|, |input|);
      AddCount(|input|);
      var partLen := BLOCK - idx;
      var i := 0;
      ghost var m := msg;
      if |input| >= partLen {
        i := WholeBlocks(input, idx, partLen);
        m := msg + input[..i];
        idx := 0;
      }
      CopyIn(idx, input[i..]);
      LeftMore(m, input[i..]);
      msg := msg + input;
      assert m + input[i..] == msg;
    }

    /** The first block, from the buffer and the input, and those after it, from the
        input alone. */
    method WholeBlocks(input: seq<bv8>, idx: nat, partLen: nat) returns (i: nat)
      requires Shape() && idx == |msg| % BLOCK && partLen == BLOCK - idx <= |input|
      requires Stop(partLen, |input|) + 63 < WORD
      requires buffer[..idx] == Left(msg) && State() == Fold(Compress, IV, Whole(msg))
      modifies state, buffer
      ensures i <= |input| < i + BLOCK
      ensures |msg + input[..i]| % BLOCK == 0 && State() == Fold(Compress, IV, Whole(msg + input[..i]))
    {
      hide Fold, Whole, Left, Compress, Stop, LoopTest;
      CopyIn(idx, input[..partLen]);
      FoldMore(Compress, IV, msg, input[..partLen]);
      assert buffer[..] == Left(msg) + input[..partLen];
      Transform(buffer[..]);
      i := partLen;
      AtBlock(msg, input, idx, i);
      StopsAt(partLen, |input|, i);
      while LoopTest(i, |input|)
        invariant partLen <= i <= Stop(partLen, |input|) <= |input| && (i - partLen) % BLOCK == 0
        invariant |msg + input[..i]| % BLOCK == 0 && (LoopTest(i, |input|) <==> i < Stop(partLen, |input|))
        invariant State() == Fold(Compress, IV, Whole(msg + input[..i]))
        decreases Stop(partLen, |input|) - i
      {
        StopsAt(partLen, |input|, i);
        TransformAt(input, i);
        i := (i + BLOCK) % WORD;
        StopsAt(partLen, |input|, i);
      }
      StopsAt(partLen, |input|, i);
    }

    /** MD4Transform(context->state, &input[i]) */
    method TransformAt(input: seq<bv8>, i: nat)
      requires Shape() && i + BLOCK <= |input| && |msg + input[..i]| % BLOCK == 0
      requires State() == Fold(Compress, IV, Whole(msg + input[..i]))
      modifies state
      ensures |msg + input[..i + BLOCK]| % BLOCK == 0 && State() == Fold(Compress, IV, Whole(msg + input[..i + BLOCK]))
    {
      hide Fold, Whole, Left, Compress;
      ghost var m, next := msg + input[..i], input[i..i + BLOCK];
      FoldMore(Compress, IV, m, next);
      NoneLeft(m, next);
      assert m + next == msg + input[..i + BLOCK];
      Transform(input[i..i + BLOCK]);
    }

    /** apr_md4_final: the digest of everything passed to update; the context is
        cleared. */
    method Final(digest: array<bv8>)
      requires Valid() && digest.Length == 16 && digest != buffer
      modifies this, state, buffer, digest
      ensures digest[..] == Digest(old(msg))
      ensures Shape() && state[..] == [0, 0, 0, 0] && count0 == count1 == 0 && buffer[..] == seq(BLOCK, _ => 0)
    {
      hide Hash, WordsLE;
      PadOut();
      assert state[..] == [state[0], state[1], state[2], state[3]];
      Encode(digest, state[..]);
      Clear();
    }

    /** The first half of apr_md4_final: the padding and the length go in as input. */
    method PadOut()
      requires Valid()
      modifies this, state, buffer
      ensures Shape() && State() == Hash(old(msg))
    {
      hide Fold, Whole, Left, LowBits, HighBits, Compress, Pad, WordsLE, PADDING, Padding, Hash, Length;
      var bits := new bv8[8](_ => 0);
      Encode(bits, [count0 as bv32, count1 as bv32]);
      ghost var length := bits[..];
      assert length == Length(|msg|) by { LengthIs(|msg|); }
      BytesLeft(|msg|);
      var idx := count0 / 8 % BLOCK;
      var padLen := if idx < 56 then 56 - idx else 120 - idx;
      PadIs(msg, padLen);
      Update(PADDING[..padLen]);
      Update(bits[..]);
      assert msg == old(msg) + PADDING[..padLen] + length;
      HashIs(old(msg), msg);
    }

    /** memset */
    method Clear()
      requires Shape()
      modifies this, state, buffer
      ensures Shape() && state[..] == [0, 0, 0, 0] && count0 == count1 == 0 && buffer[..] == seq(BLOCK, _ => 0)
    {
      forall k | 0 <= k < 4 { state[k] := 0; }
      forall k | 0 <= k < BLOCK { buffer[k] := 0; }
      count0, count1 := 0, 0;
    }
  }

  lemma LengthIs(n: nat)
    ensures Length(n) == WordsLE([LowBits(n) as bv32, HighBits(n) as bv32])
  {
  }

  lemma HashIs(msg: seq<bv8>, padded: seq<bv8>)
    requires padded == Pad(msg)
    ensures Fold(Compress, IV, Whole(padded)) == Hash(msg)
  {
    hide Fold, Compress, Pad, Whole;
    CutMessage(padded);
  }

  lemma NoSteps(s: State, block: Block)
    ensures Steps(s, block, 0) == s
  {
  }

  /** The pieces of padding passed to update. */
  lemma PadIs(msg: seq<bv8>, padLen: nat)
    requires var idx := |msg| % BLOCK; padLen == if idx < 56 then 56 - idx else 120 - idx
    ensures padLen <= 64 && msg + PADDING[..padLen] + Length(|msg|) == Pad(msg)
  {
    hide Length;
    Zeros(|msg|);
    var z: seq<bv8> := seq((55 - |msg|) % BLOCK, _ => 0);
    assert PADDING[..padLen] == [0x80] + z;
    assert msg + ([0x80] + z) + Length(|msg|) == msg + ([0x80] + z + Length(|msg|));
  }

  /** apr_md4 over a message cut into pieces: the digest depends on the message alone. */
  method HashPieces(pieces: seq<seq<bv8>>, digest: array<bv8>)
    requires digest.Length == 16 && forall i :: 0 <= i < |pieces| ==> NoWrap(|Joined(pieces[..i])|, |pieces[i]|)
    modifies digest
    ensures digest[..] == Digest(Joined(pieces))
  {
    hide Digest, Joined;
    var ctx := new Context();
    ctx.Init();
    JoinedNone(pieces);
    for i := 0 to |pieces|
      invariant ctx.Valid() && fresh(ctx) && fresh(ctx.state) && fresh(ctx.buffer)
      invariant ctx.msg == Joined(pieces[..i])
    {
      JoinedNext(pieces, i);
      ctx.Update(pieces[i]);
    }
    assert pieces[..|pieces|] == pieces;
    ctx.Final(digest);
  }

}
