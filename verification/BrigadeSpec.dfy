/** The byte stream that a sequence of buckets stands for. */
module BrigadeSpec {
  import opened Buckets
  import opened Rings
  import opened BucketOps
  import opened BucketRead

  /** The bytes of a text: characters are bytes. */
  function ToBytes(s: string): (b: seq<Byte>)
    ensures |b| == |s|
  {
    seq(|s|, i requires 0 <= i < |s| => s[i] as int % 256)
  }

  ghost predicate AllLive(w: World, s: seq<Bucket>) {
    forall b :: b in s ==> b in w.at
  }

  function Content(w: World, s: seq<Bucket>): seq<Byte> {
    if s == [] then []
    else Content(w, s[..|s| - 1]) + (var b := s[|s| - 1]; if b in w.at then Bytes(w, w.at[b]) else [])
  }

  /** The sum of the length fields. */
  function Lengths(w: World, s: seq<Bucket>): nat {
    if s == [] then 0 else Lengths(w, s[..|s| - 1]) + (var b := s[|s| - 1]; if b in w.at then w.at[b].length else 0)
  }

  lemma {:induction false} ContentCat(w: World, s: seq<Bucket>, t: seq<Bucket>)
    ensures Content(w, s + t) == Content(w, s) + Content(w, t) && Lengths(w, s + t) == Lengths(w, s) + Lengths(w, t)
    decreases |t|
  {
    hide Bytes;
    if t == [] {
      assert s + t == s;
    } else {
      var n := |t| - 1;
      ContentCat(w, s, t[..n]);
      assert (s + t)[..|s + t| - 1] == s + t[..n];
    }
  }

  lemma ContentOne(w: World, b: Bucket)
    requires b in w.at
    ensures Content(w, [b]) == Bytes(w, w.at[b]) && Lengths(w, [b]) == w.at[b].length
  {
    hide Bytes;
    assert Content(w, [b][..0]) == [] && Lengths(w, [b][..0]) == 0;
  }

  lemma {:induction false} ContentSame(w: World, w': World, s: seq<Bucket>)
    requires SameBytes(w, w') && AllLive(w, s) && forall b :: b in s ==> b in w'.at && w'.at[b] == w.at[b]
    ensures Content(w', s) == Content(w, s) && Lengths(w', s) == Lengths(w, s)
  {
    hide Bytes;
    if s == [] {
    } else {
      ContentSame(w, w', s[..|s| - 1]);
    }
  }

  /** `s` with `c` put in after element `i`, unless `c` is that element. */
  function Grown(s: seq<Bucket>, i: nat, c: Bucket): seq<Bucket>
    requires i < |s|
  {
    if c == s[i] then s else s[..i + 1] + [c] + s[i + 1..]
  }

  lemma GrownParts(s: seq<Bucket>, i: nat, c: Bucket)
    requires i < |s|
    ensures var s', n := Grown(s, i, c), if c == s[i] then i + 1 else i + 2;
            && n <= |s'| && |s| <= |s'| && s'[..i + 1] == s[..i + 1] && s'[i] == s[i] && s'[n..] == s[i + 1..]
            && s' == s[..i] + (if c == s[i] then [s[i]] else [s[i], c]) + s[i + 1..]
    ensures s == s[..i] + [s[i]] + s[i + 1..]
  {
  }

  lemma ContentMiddle(w: World, p: seq<Bucket>, m: seq<Bucket>, q: seq<Bucket>)
    ensures Content(w, p + m + q) == Content(w, p) + Content(w, m) + Content(w, q)
  {
    ContentCat(w, p + m, q);
    ContentCat(w, p, m);
  }

  lemma ContentTwo(w: World, b: Bucket, c: Bucket)
    requires b in w.at && c in w.at
    ensures Content(w, [b, c]) == Bytes(w, w.at[b]) + Bytes(w, w.at[c])
  {
    hide Bytes;
    ContentOne(w, b);
    assert [b, c][..1] == [b];
  }

  /** What is before element `i` and what is after it have not changed, and the bytes of
      all are the same. */
  lemma ConservedContent(w: World, w': World, s: seq<Bucket>, i: nat, c: Bucket)
    requires i < |s| && Distinct(s) && AllLive(w, s) && Conserved(w, w', s[i], c)
    ensures AllLive(w', Grown(s, i, c)) && Distinct(Grown(s, i, c)) && Content(w', Grown(s, i, c)) == Content(w, s)
    ensures Content(w', s[..i]) == Content(w, s[..i]) && Lengths(w', s[..i]) == Lengths(w, s[..i])
    ensures Content(w', s[i + 1..]) == Content(w, s[i + 1..])
  {
    hide Bytes, SameBytes, Conserved, Grown, Content, Lengths, Distinct;
    var e, p, q := s[i], s[..i], s[i + 1..];
    ConservedElsewhere(w, w', s, i, c);
    GrownParts(s, i, c);
    ContentSame(w, w', p);
    ContentSame(w, w', q);
    ContentMiddle(w, p, [e], q);
    ContentOne(w, e);
    ContentOne(w', e);
    if c == e {
      ContentMiddle(w', p, [e], q);
    } else {
      ContentTwo(w', e, c);
      ContentMiddle(w', p, [e, c], q);
    }
  }

  lemma ConservedElsewhere(w: World, w': World, s: seq<Bucket>, i: nat, c: Bucket)
    requires i < |s| && Distinct(s) && AllLive(w, s) && Conserved(w, w', s[i], c)
    ensures SameBytes(w, w') && s[i] in w'.at && c in w'.at
    ensures forall b :: b in s[..i] + s[i + 1..] ==> b in w.at && b in w'.at && w'.at[b] == w.at[b]
    ensures AllLive(w', Grown(s, i, c)) && Distinct(Grown(s, i, c))
    ensures Bytes(w, w.at[s[i]]) == Bytes(w', w'.at[s[i]]) + if c == s[i] then [] else Bytes(w', w'.at[c])
  {
    hide Bytes, SameBytes;
  }

  ghost predicate AllInside(w: World, s: seq<Bucket>) {
    forall b :: b in s && b in w.at ==> Inside(w.at[b])
  }

  /** Buckets elsewhere are as they were. */
  ghost predicate Untouched(w: World, w': World, s: seq<Bucket>) {
    forall b :: b in w.at && b !in s ==> b in w'.at && w'.at[b] == w.at[b] && Bytes(w', w.at[b]) == Bytes(w, w.at[b])
  }

  /** A step at element `i` of `s`: nothing before it and nothing elsewhere changes, and
      the stream is the same. */
  ghost predicate Advanced(w: World, w': World, s: seq<Bucket>, s': seq<Bucket>, i: nat) {
    && i < |s| <= |s'| && s'[..i + 1] == s[..i + 1]
    && (forall b :: b in s[..i] ==> b in w.at && b in w'.at && w'.at[b] == w.at[b])
    && Content(w', s[..i]) == Content(w, s[..i]) && Lengths(w', s[..i]) == Lengths(w, s[..i])
    && Content(w', s') == Content(w, s)
    && Untouched(w, w', s) && (AllInside(w, s) ==> AllInside(w', s'))
  }

  lemma ConservedAdvances(w: World, w': World, s: seq<Bucket>, i: nat, c: Bucket)
    requires i < |s| && Distinct(s) && AllLive(w, s) && Conserved(w, w', s[i], c)
    ensures Advanced(w, w', s, Grown(s, i, c), i)
  {
    hide Bytes, Conserved, SameBytes, Content, Lengths, Distinct, Untouched, Grown, AllLive, AllInside;
    ConservedContent(w, w', s, i, c);
    ConservedElsewhere(w, w', s, i, c);
    GrownParts(s, i, c);
    BeforeElement(s, i);
    ConservedOutside(w, w', s, i, c);
    if AllInside(w, s) { ConservedInside(w, w', s, i, c); }
  }

  lemma ConservedOutside(w: World, w': World, s: seq<Bucket>, i: nat, c: Bucket)
    requires i < |s| && Conserved(w, w', s[i], c)
    ensures Untouched(w, w', s)
  {
    hide Bytes;
  }

  lemma ConservedInside(w: World, w': World, s: seq<Bucket>, i: nat, c: Bucket)
    requires i < |s| && AllLive(w, s) && Conserved(w, w', s[i], c) && AllInside(w, s)
    ensures AllInside(w', Grown(s, i, c))
  {
    hide Bytes, SameBytes;
    forall b | b in Grown(s, i, c) && b in w'.at ensures Inside(w'.at[b]) {
      assert b in s || b == c;
    }
  }

  lemma BeforeElement(s: seq<Bucket>, i: nat)
    requires i < |s|
    ensures forall b :: b in s[..i] ==> b in s[..i] + s[i + 1..]
  {
  }

  lemma AdvancedTwice(w: World, w1: World, w': World, s: seq<Bucket>, s1: seq<Bucket>, s': seq<Bucket>, i: nat)
    requires Advanced(w, w1, s, s1, i) && Advanced(w1, w', s1, s', i)
    requires forall b :: b in s1 && b !in s ==> b !in w.at
    ensures Advanced(w, w', s, s', i)
  {
    hide Bytes, Content, Lengths;
    assert s1[..i] == s1[..i + 1][..i] == s[..i + 1][..i] == s[..i];
  }

  /** What is still ahead: bytes and buckets. */
  ghost function Ahead(w: World, s: seq<Bucket>, i: nat): nat
    requires i <= |s|
  {
    |Content(w, s[i..])| + |s| - i
  }
}
