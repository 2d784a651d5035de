/** What SHA-1 and MD4 have in common: words and bytes, a compression function folded
over the blocks of a padded message, and a bit count kept in two words. */
module DigestSpec {
  const BLOCK := 64
  const WORD := 0x1_0000_0000

  type Word = x: int | 0 <= x < WORD
  type Block = b: seq<bv8> | |b| == BLOCK witness seq(BLOCK, _ => 0)

  /** Addition modulo 2^32, and rotation to the left. */
  function Add(x: bv32, y: bv32): bv32 { x + y }
  function Sum3(x: bv32, y: bv32, z: bv32): bv32 { x + y + z }
  function Sum4(x: bv32, y: bv32, z: bv32, u: bv32): bv32 { x + y + z + u }
  function Sum5(x: bv32, y: bv32, z: bv32, u: bv32, v: bv32): bv32 { x + y + z + u + v }

  function Rotl(x: bv32, n: nat): bv32
    requires n < 32
  {
    x.RotateLeft(n)
  }

  function BigEndian(b0: bv8, b1: bv8, b2: bv8, b3: bv8): bv32 {
    (b0 as bv32 << 24) | (b1 as bv32 << 16) | (b2 as bv32 << 8) | b3 as bv32
  }

  function LittleEndian(b0: bv8, b1: bv8, b2: bv8, b3: bv8): bv32 {
    BigEndian(b3, b2, b1, b0)
  }

  /** The bytes of a word, most significant first. */
  function BytesBE(k: bv32): (r: seq<bv8>)
    ensures |r| == 4
  {
    [((k >> 24) & 0xff) as bv8, ((k >> 16) & 0xff) as bv8, ((k >> 8) & 0xff) as bv8, (k & 0xff) as bv8]
  }

  /** ... and least significant first. */
  function BytesLE(k: bv32): (r: seq<bv8>)
    ensures |r| == 4
  {
    [(k & 0xff) as bv8, ((k >> 8) & 0xff) as bv8, ((k >> 16) & 0xff) as bv8, ((k >> 24) & 0xff) as bv8]
  }

  lemma WordOfBytes(k: bv32)
    ensures var b := BytesBE(k); BigEndian(b[0], b[1], b[2], b[3]) == k
    ensures var b := BytesLE(k); LittleEndian(b[0], b[1], b[2], b[3]) == k
  {
  }

  function WordsBE(ws: seq<bv32>): (r: seq<bv8>)
    ensures |r| == 4 * |ws|
  {
    if ws == [] then [] else WordsBE(ws[..|ws| - 1]) + BytesBE(ws[|ws| - 1])
  }

  function WordsLE(ws: seq<bv32>): (r: seq<bv8>)
    ensures |r| == 4 * |ws|
  {
    if ws == [] then [] else WordsLE(ws[..|ws| - 1]) + BytesLE(ws[|ws| - 1])
  }

  /** The compression function folded over the blocks of `data`. */
  function Fold<S>(f: (S, Block) -> S, s: S, data: seq<bv8>): S
    requires |data| % BLOCK == 0
    decreases |data|
  {
    if data == [] then s
    else
      var n := |data| - BLOCK;
      f(Fold(f, s, data[..n]), data[n..])
  }

  lemma FoldOne<S>(f: (S, Block) -> S, s: S, a: seq<bv8>, b: Block)
    requires |a| % BLOCK == 0
    ensures Fold(f, s, a + b) == f(Fold(f, s, a), b)
  {
    assert (a + b)[..|a|] == a && (a + b)[|a|..] == b;
  }

  /** The part of a message that fills whole blocks, and what is left over. */
  function Whole(msg: seq<bv8>): (r: seq<bv8>)
    ensures |r| % BLOCK == 0
  {
    msg[..|msg| - |msg| % BLOCK]
  }

  function Left(msg: seq<bv8>): (r: seq<bv8>)
    ensures |r| == |msg| % BLOCK
  {
    msg[|msg| - |msg| % BLOCK..]
  }

  /** A message longer by one block's worth of bytes, and by less. */
  lemma FoldMore<S>(f: (S, Block) -> S, s: S, msg: seq<bv8>, more: seq<bv8>)
    requires |msg| % BLOCK + |more| == BLOCK
    ensures Left(msg + more) == [] && |Left(msg) + more| == BLOCK
    ensures Fold(f, s, Whole(msg + more)) == f(Fold(f, s, Whole(msg)), Left(msg) + more)
  {
    hide Fold, Whole, Left;
    FillsUp(|msg|, |more|);
    CutMessage(msg);
    CutMessage(msg + more);
    FoldOne(f, s, Whole(msg), Left(msg) + more);
    assert msg + more == Whole(msg) + (Left(msg) + more);
  }

  lemma NoMessage<S>(f: (S, Block) -> S, s: S)
    ensures Fold(f, s, Whole([])) == s && Left([]) == [] && LowBits(0) == 0 && HighBits(0) == 0
  {
    assert Whole([]) == [];
    assert 8 * 0 == 0;
  }

  lemma CutMessage(msg: seq<bv8>)
    ensures msg == Whole(msg) + Left(msg)
    ensures |msg| % BLOCK == 0 ==> Whole(msg) == msg && Left(msg) == []
  {
  }

  lemma FillsUp(n: nat, more: nat)
    requires n % BLOCK + more == BLOCK
    ensures (n + more) % BLOCK == 0
  {
  }

  lemma LeftMore(msg: seq<bv8>, more: seq<bv8>)
    requires |msg| % BLOCK + |more| < BLOCK
    ensures Whole(msg + more) == Whole(msg) && Left(msg + more) == Left(msg) + more
  {
    assert |msg + more| % BLOCK == |msg| % BLOCK + |more|;
  }

  /** 0x80, the least number of zeros that leaves room for the length, the length. */
  function Padding(n: nat, length: seq<bv8>): seq<bv8> {
    [0x80] + seq((55 - n) % BLOCK, _ => 0) + length
  }

  /** The padding fills the last block, and no fewer zeros would. */
  lemma PaddingFills(n: nat, length: seq<bv8>)
    requires |length| == 8
    ensures (n + |Padding(n, length)|) % BLOCK == 0
  {
    Zeros(n);
  }

  lemma FewestZeros(n: nat, z: nat, length: seq<bv8>)
    requires |length| == 8 && (n + (1 + z + 8)) % BLOCK == 0
    ensures |Padding(n, length)| <= 1 + z + 8
  {
    Zeros(n);
  }

  /** The pieces of a message, one after the other. */
  function Joined(pieces: seq<seq<bv8>>): seq<bv8> {
    if pieces == [] then [] else Joined(pieces[..|pieces| - 1]) + pieces[|pieces| - 1]
  }

  lemma JoinedNone(pieces: seq<seq<bv8>>)
    ensures Joined(pieces[..0]) == []
  {
  }

  lemma JoinedNext(pieces: seq<seq<bv8>>, i: nat)
    requires i < |pieces|
    ensures Joined(pieces[..i + 1]) == Joined(pieces[..i]) + pieces[i]
  {
    assert pieces[..i + 1][..i] == pieces[..i];
  }

  lemma Rejoin(msg: seq<bv8>, more: seq<bv8>, i: nat, j: nat)
    requires i <= j <= |more|
    ensures msg + more[..i] + more[i..j] + more[j..] == msg + more
  {
  }

  /** The padding ends the block of the remainder when there is room for it ... */
  lemma PadInOneBlock(msg: seq<bv8>, length: seq<bv8>)
    requires |length| == 8 && |msg| % BLOCK < 56
    ensures var b := Left(msg) + [0x80] + seq(55 - |msg| % BLOCK, _ => 0) + length;
            |b| == BLOCK && msg + Padding(|msg|, length) == Whole(msg) + b
  {
    hide Whole, Left;
    CutMessage(msg);
    Zeros(|msg|);
    var z, z': seq<bv8> := seq(55 - |msg| % BLOCK, _ => 0), seq((55 - |msg|) % BLOCK, _ => 0);
    assert z == z';
    assert msg + ([0x80] + z' + length) == Whole(msg) + (Left(msg) + [0x80] + z + length);
  }

  /** ... and takes another block when there is not. */
  lemma PadInTwoBlocks(msg: seq<bv8>, length: seq<bv8>)
    requires |length| == 8 && |msg| % BLOCK >= 56
    ensures var b, c := Left(msg) + [0x80] + seq(63 - |msg| % BLOCK, _ => 0), seq(56, _ => 0) + length;
            && |b| == |c| == BLOCK && msg + Padding(|msg|, length) == Whole(msg) + b + c
            && |Whole(msg) + b| % BLOCK == 0
  {
    hide Whole, Left;
    CutMessage(msg);
    Zeros(|msg|);
    var z, z', y: seq<bv8> := seq(63 - |msg| % BLOCK, _ => 0), seq((55 - |msg|) % BLOCK, _ => 0), seq(56, _ => 0);
    assert z + y == z';
    assert msg + ([0x80] + z' + length) == Whole(msg) + (Left(msg) + [0x80] + z) + (y + length);
  }

  lemma Zeros(n: nat)
    ensures (55 - n) % BLOCK == if n % BLOCK < 56 then 55 - n % BLOCK else 119 - n % BLOCK
  {
  }

  // ---------- the bit count ----------

  /** The number of bits of `n` bytes, in two words. */
  function LowBits(n: nat): Word { 8 * n % WORD }
  function HighBits(n: nat): Word { 8 * n / WORD % WORD }

  /** Together they are the number of bits, modulo 2^64. */
  lemma BitCount(n: nat)
    ensures HighBits(n) * 0x1_0000_0000 + LowBits(n) == 8 * n % 0x1_0000_0000_0000_0000
  {
    var q := 8 * n / WORD;
    var r := HighBits(n) * WORD + LowBits(n);
    assert 8 * n == q * WORD + LowBits(n) && q == q / WORD * WORD + HighBits(n);
    assert 8 * n == q / WORD * 0x1_0000_0000_0000_0000 + r;
  }

  function AddWord(x: nat, y: nat): Word { (x + y) % WORD }

  /** The two-word addition of the update functions, with its carry. */
  lemma CountAdds(n: nat, count: nat)
    requires count < WORD
    ensures var add := count * 8 % WORD;
            var lo := AddWord(LowBits(n), add);
            var carry := lo < LowBits(n);
            && lo == LowBits(n + count) && (carry <==> lo < add)
            && AddWord(if carry then AddWord(HighBits(n), 1) else HighBits(n), count / 0x2000_0000) ==
              HighBits(n + count)
  {
    var q, c := 8 * n / WORD, count / 0x2000_0000;
    var lo0, add := LowBits(n), count * 8 % WORD;
    assert count * 8 == WORD * c + add;
    assert 8 * n == WORD * q + lo0;
    var carry := if lo0 + add >= WORD then 1 else 0;
    assert 8 * (n + count) == WORD * (q + c + carry) + (lo0 + add - carry * WORD);
    QuotRem(8 * (n + count), q + c + carry, lo0 + add - carry * WORD);
    QuotRem(lo0 + add, carry, lo0 + add - carry * WORD);
    ModPlus(q, carry);
    ModPlus(q + carry, c);
  }

  lemma QuotRem(x: nat, q: nat, r: nat)
    requires x == WORD * q + r && r < WORD
    ensures x / WORD == q && x % WORD == r
  {
  }

  lemma ModPlus(q: nat, c: nat)
    ensures (q % WORD + c) % WORD == (q + c) % WORD
  {
    var k := q / WORD;
    assert q % WORD + c == q + c - WORD * k;
    var j := (q + c) / WORD;
    assert q % WORD + c == WORD * (j - k) + (q + c) % WORD;
  }

  /** Bytes left over, as the final functions read them off the bit count. */
  lemma BytesLeft(n: nat)
    ensures LowBits(n) / 8 % BLOCK == n % BLOCK
  {
    var q := 8 * n / WORD;
    assert 8 * n == WORD * q + LowBits(n);
    assert n == 0x2000_0000 * q + LowBits(n) / 8;
  }
}
