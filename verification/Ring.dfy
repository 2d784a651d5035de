/** apr_ring.h: doubly linked rings. A ring is shown as the sequence of its elements
from the sentinel on. */
module Rings {
  import opened Buckets

  ghost predicate Distinct(s: seq<Bucket>) {
    forall i, j :: 0 <= i < j < |s| ==> s[i] != s[j]
  }

  /** Neighbours in `s` are linked both ways. */
  ghost predicate Linked(s: seq<Bucket>)
    reads s`next, s`prev
  {
    forall i, j :: 0 <= i && j == i + 1 && j < |s| ==> Joined(s[i], s[j])
  }

  ghost predicate Joined(x: Bucket, y: Bucket)
    reads x`next, y`prev
  {
    x.next == y && y.prev == x
  }

  ghost predicate Ring(s: seq<Bucket>)
    reads s`next, s`prev
  {
    && |s| > 0 && Distinct(s) && Linked(s)
    && Joined(s[|s| - 1], s[0])
  }

  ghost predicate Disjoint(s: seq<Bucket>, t: seq<Bucket>) {
    forall i, j :: 0 <= i < |s| && 0 <= j < |t| ==> s[i] != t[j]
  }

  /** APR_RING_INIT, and APR_RING_ELEM_INIT */
  method Init(e: Bucket)
    modifies e`next, e`prev
    ensures Ring([e])
  {
    e.next := e;
    e.prev := e;
  }

  /** The ring after a splice, from the pairs of neighbours. */
  lemma Spliced(s: seq<Bucket>, i: nat, t: seq<Bucket>)
    requires 0 < i <= |s| && t != [] && Distinct(s) && Distinct(t) && Disjoint(s, t)
    requires forall p, q :: 0 <= p && q == p + 1 && q < |s| && q != i ==> Joined(s[p], s[q])
    requires Linked(t) && Joined(s[i - 1], t[0]) && Joined(t[|t| - 1], if i < |s| then s[i] else s[0])
    requires i < |s| ==> Joined(s[|s| - 1], s[0])
    ensures Ring(s[..i] + t + s[i..])
  {
    var r := s[..i] + t + s[i..];
    forall p, q | 0 <= p && q == p + 1 && q < |r| ensures Joined(r[p], r[q]) {
      if q < i {
        assert Joined(s[p], s[q]);
      } else if i <= p && q < i + |t| {
        assert Joined(t[p - i], t[q - i]);
      } else if p >= i + |t| {
        assert Joined(s[p - |t|], s[q - |t|]);
      }
    }
  }

  /** APR_RING_SPLICE_BEFORE */
  method SpliceBefore(lep: Bucket, ep1: Bucket, epN: Bucket, ghost s: seq<Bucket>, ghost i: nat, ghost t: seq<Bucket>)
    requires Ring(s) && 0 < i <= |s| && lep == (if i < |s| then s[i] else s[0])
    requires t != [] && Linked(t) && Distinct(t) && Disjoint(s, t) && ep1 == t[0] && epN == t[|t| - 1]
    modifies s`next, s`prev, t`next, t`prev
    ensures Ring(s[..i] + t + s[i..])
  {
    var last := lep.prev;
    assert last == s[i - 1] && Joined(last, lep);
    epN.next := lep;
    ep1.prev := lep.prev;
    last.next := ep1;
    lep.prev := epN;
    Spliced(s, i, t);
  }

  /** APR_RING_SPLICE_AFTER */
  method SpliceAfter(lep: Bucket, ep1: Bucket, epN: Bucket, ghost s: seq<Bucket>, ghost i: nat, ghost t: seq<Bucket>)
    requires Ring(s) && 0 < i <= |s| && lep == s[i - 1]
    requires t != [] && Linked(t) && Distinct(t) && Disjoint(s, t) && ep1 == t[0] && epN == t[|t| - 1]
    modifies s`next, s`prev, t`next, t`prev
    ensures Ring(s[..i] + t + s[i..])
  {
    assert Joined(lep, if i < |s| then s[i] else s[0]);
    ep1.prev := lep;
    epN.next := lep.next;
    lep.next.prev := epN;
    lep.next := ep1;
    Spliced(s, i, t);
  }

  /** APR_RING_UNSPLICE */
  method Unsplice(ep1: Bucket, epN: Bucket, ghost s: seq<Bucket>, ghost i: nat, ghost j: nat)
    requires Ring(s) && 0 < i < j <= |s| && ep1 == s[i] && epN == s[j - 1]
    modifies s`next, s`prev
    ensures Ring(s[..i] + s[j..]) && Linked(s[i..j]) && Distinct(s[i..j])
  {
    ghost var a, b := s[i - 1], if j < |s| then s[j] else s[0];
    assert Joined(a, ep1) && Joined(epN, b);
    ep1.prev.next := epN.next;
    epN.next.prev := ep1.prev;
    ghost var r, t := s[..i] + s[j..], s[i..j];
    forall p, q | 0 <= p && q == p + 1 && q < |r| ensures Joined(r[p], r[q]) {
      if q < i { assert Joined(s[p], s[q]); } else if p >= i { assert Joined(s[p + (j - i)], s[q + (j - i)]); }
    }
    forall p, q | 0 <= p && q == p + 1 && q < |t| ensures Joined(t[p], t[q]) { assert Joined(s[i + p], s[i + q]); }
  }

  /** APR_RING_CONCAT: the elements of the second ring, after those of the first. */
  method Concat(h1: Bucket, h2: Bucket, ghost s1: seq<Bucket>, ghost s2: seq<Bucket>)
    requires Ring(s1) && Ring(s2) && h1 == s1[0] && h2 == s2[0] && Disjoint(s1, s2)
    modifies s1`next, s1`prev, s2`next, s2`prev
    ensures Ring(s1 + s2[1..]) && Ring([h2])
  {
    RingFacts(s2);
    if h2.next != h2 {
      SpliceBefore(h1, h2.next, h2.prev, s1, |s1|, s2[1..]);
      assert s1[..|s1|] + s2[1..] + s1[|s1|..] == s1 + s2[1..];
      Init(h2);
    } else {
      assert s2 == [h2] && s1 + s2[1..] == s1;
    }
  }

  /** APR_RING_PREPEND: ... before them. */
  method Prepend(h1: Bucket, h2: Bucket, ghost s1: seq<Bucket>, ghost s2: seq<Bucket>)
    requires Ring(s1) && Ring(s2) && h1 == s1[0] && h2 == s2[0] && Disjoint(s1, s2)
    modifies s1`next, s1`prev, s2`next, s2`prev
    ensures Ring([h1] + s2[1..] + s1[1..]) && Ring([h2])
  {
    RingFacts(s2);
    if h2.next != h2 {
      SpliceAfter(h1, h2.next, h2.prev, s1, 1, s2[1..]);
      assert s1[..1] == [h1];
      Init(h2);
    } else {
      assert s2 == [h2] && [h1] + s2[1..] + s1[1..] == s1;
    }
  }

  /** APR_RING_UNSPLICE of the elements from `e` to the last. */
  method CutTail(e: Bucket, f: Bucket, ghost s: seq<Bucket>, ghost k: nat)
    requires Ring(s) && 0 < k < |s| && e == s[k] && f == s[|s| - 1]
    modifies s`next, s`prev
    ensures Ring(s[..k]) && Linked(s[k..]) && Distinct(s[k..])
  {
    assert s[k..|s|] == s[k..] && s[..k] + s[|s|..] == s[..k];
    Unsplice(e, f, s, k, |s|);
  }

  /** APR_RING_SPLICE_HEAD into an empty ring. */
  method FillEmpty(g: Bucket, e: Bucket, f: Bucket, ghost t: seq<Bucket>)
    requires Ring([g]) && t != [] && Linked(t) && Distinct(t) && g !in t && e == t[0] && f == t[|t| - 1]
    modifies t`next, t`prev, g`next, g`prev
    ensures Ring([g] + t)
  {
    ghost var one := [g];
    assert one[..1] + t + one[1..] == [g] + t;
    SpliceAfter(g, e, f, one, 1, t);
  }

  /** Both. */
  method MoveTail(e: Bucket, f: Bucket, g: Bucket, ghost s: seq<Bucket>, ghost k: nat)
    requires Ring(s) && 0 < k < |s| && e == s[k] && f == s[|s| - 1] && Ring([g]) && g !in s
    modifies s`next, s`prev, g`next, g`prev
    ensures Ring(s[..k]) && Ring([g] + s[k..])
  {
    HeadApart(s, k, g);
    hide Ring, Linked, Distinct;
    ghost var head, tail := s[..k], s[k..];
    assert tail[0] == e && tail[|tail| - 1] == f;
    CutTail(e, f, s, k);
    assert Ring(head) && Ring([g]);
    FillBeside(g, e, f, tail, head);
  }

  /** ... with another ring beside it. */
  method FillBeside(g: Bucket, e: Bucket, f: Bucket, ghost t: seq<Bucket>, ghost s: seq<Bucket>)
    requires Ring([g]) && t != [] && Linked(t) && Distinct(t) && g !in t && e == t[0] && f == t[|t| - 1]
    requires Ring(s) && forall i :: 0 <= i < |s| ==> s[i] !in t && s[i] != g
    modifies t`next, t`prev, g`next, g`prev
    ensures Ring([g] + t) && Ring(s)
  {
    FillEmpty(g, e, f, t);
  }

  lemma HeadApart(s: seq<Bucket>, k: nat, g: Bucket)
    requires Ring(s) && k <= |s| && g !in s
    ensures forall x :: x in s[..k] ==> x !in s[k..] && x != g
    ensures g !in s[k..]
  {
  }

  /** APR_RING_REMOVE of the first element */
  method RemoveFirst(h: Bucket, e: Bucket, ghost s: seq<Bucket>)
    requires Ring([h] + s) && s != [] && e == s[0]
    modifies h`next, h`prev, s`next, s`prev
    ensures Ring([h] + s[1..])
  {
    ghost var r := [h] + s;
    assert r[1] == e && r[..1] + r[2..] == [h] + s[1..];
    Unsplice(e, e, r, 1, 2);
  }

  /** The neighbours of the sentinel; a ring is empty when they are itself. */
  lemma RingFacts(s: seq<Bucket>)
    requires Ring(s)
    ensures Linked(s[1..]) && Distinct(s[1..])
    ensures s[0].next == (if |s| > 1 then s[1] else s[0]) && s[0].prev == s[|s| - 1]
    ensures s[0].next == s[0] <==> |s| == 1
  {
    assert |s| > 1 ==> Joined(s[0], s[1]);
    forall p, q | 0 <= p && q == p + 1 && q < |s[1..]|
      ensures Joined(s[1..][p], s[1..][q])
    {
      assert Joined(s[p + 1], s[q + 1]);
    }
  }
}
