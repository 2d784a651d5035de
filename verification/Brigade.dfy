/** apr_brigade.c: brigades as rings of buckets around a sentinel. */
module Brigades {
  import opened Buckets
  import opened Machine
  import opened Rings
  import opened BucketOps
  import opened BucketRead
  import opened BrigadeSpec

  class Brigade {
    const list: Bucket               // the sentinel
    ghost var items: seq<Bucket>     // the buckets, in order

    ghost predicate Valid(w: World)
      reads this, list`next, list`prev, items`next, items`prev
    {
      Ring([list] + items) && AllLive(w, items) && list !in w.at
    }

    /** apr_brigade_create */
    constructor (ghost w: World)
      ensures items == [] && fresh(list) && Valid(w)
    {
      list := new Bucket(Slice(Metadata, 0, 0, NoData));
      items := [];
      new;
      assert [list] + items == [list];
    }

    /** The bucket at position `k`, or the sentinel. */
    ghost function Nth(k: nat): Bucket
      reads this
    {
      if k < |items| then items[k] else list
    }

    lemma Links(w: World, k: nat)
      requires Valid(w)
      ensures list.next == Nth(0) && list.prev == (if items == [] then list else items[|items| - 1])
      ensures k < |items| ==> items[k].next == Nth(k + 1) && items[k] != list && items[k] in w.at
      ensures list !in items && Distinct(items)
    {
      var r := [list] + items;
      RingFacts(r);
      assert r[1..] == items;
      if k < |items| { assert k + 2 < |r| ==> Joined(r[k + 1], r[k + 2]); }
    }

    lemma Open(w: World)
      requires Valid(w)
      ensures Ring([list] + items) && AllLive(w, items) && list !in w.at && Distinct(items)
    {
      Links(w, 0);
    }

    lemma Close(w: World)
      requires Ring([list] + items) && AllLive(w, items) && list !in w.at
      ensures Valid(w)
    {
    }

    /** The ghost list follows the ring. */
    ghost method Insert(w: World, w': World, i: nat, c: Bucket)
      requires i < |items| && Ring(RingOf([list] + items, i + 1, items[i], c)) && Conserved(w, w', items[i], c)
      requires AllLive(w, items) && Distinct(items) && list !in w'.at && (c != items[i] ==> c !in w.at)
      modifies `items
      ensures items == Grown(old(items), i, c) && Valid(w') && Stepped(w, w', old(items), items, i)
    {
      hide Ring, Conserved, Advanced, AllLive, Distinct, Fresh;
      GrownRing(list, items, i, c);
      GrownFresh(w, items, i, c);
      ConservedContent(w, w', items, i, c);
      ConservedAdvances(w, w', items, i, c);
      items := Grown(items, i, c);
    }

    /** ... after a split. */
    ghost method Divide(w: World, w': World, i: nat, e: Bucket, c: Bucket, point: nat)
      requires i < |items| && e == items[i] && Ring(After([list] + items, i + 1, c)) && SplitTo(w, w', e, c, point)
      requires AllLive(w, items) && Distinct(items) && list !in w.at && c != list
      modifies `items
      ensures Valid(w') && Stepped(w, w', old(items), items, i) && Shortened(w, w', e, point)
      ensures w'.at.Keys == w.at.Keys + {c} && w'.res.Keys == w.res.Keys && w'.pipes == w.pipes && SameRegistry(w, w')
      ensures items == Grown(old(items), i, c) && c !in w.at
    {
      hide Ring, SplitTo, Valid, Stepped, Conserved, Distinct, Grown, RingOf, Shortened, AllLive;
      SplitConserves(w, w', e, c, point);
      RingOfIs([list] + items, i + 1, e, c);
      Insert(w, w', i, c);
    }

    /** apr_bucket_split on the bucket at position `i`. */
    method SplitItem(ghost w: World, e: Bucket, ghost i: nat, point: nat)
      returns (rv: Status, ghost c: Bucket, ghost w': World, ghost n: set<object>)
      requires Good(w) && Valid(w) && i < |items| && items[i] == e
      modifies `items, items, w.res.Keys, w.pipes.Keys, list`next, list`prev
      ensures Good(w') && Valid(w') && rv == SplitStatus(w.at[e], point)
      ensures rv != Success ==> w' == w && items == old(items)
      ensures rv == Success ==> Stepped(w, w', old(items), items, i) && Shortened(w, w', e, point)
      ensures rv == Success ==>
        i < |old(items)| && c !in w.at && w'.at.Keys == w.at.Keys + {c} && items == Grown(old(items), i, c)
      ensures fresh(n) && Within(w, w', n)
    {
      hide Good, Ring, SplitTo, Valid, Stepped, Distinct, Shortened, AllLive, SplitStatus, Within;
      ghost var r := [list] + items;
      Open(w);
      Refers(w, e);
      assert r[i + 1] == e;
      rv, c, w' := Split(w, e, point, r, i + 1);
      assert rv == Success ==> c != list;
      n := if rv == Success then {c} else {};
      if rv == Success {
        Divide(w, w', i, e, c, point);
        WithinSplit(w, w', c);
      } else {
        Close(w);
        WithinNothing(w);
      }
    }

    /** ... after a read. */
    ghost method Extend(w: World, w': World, i: nat, e: Bucket, c: Bucket, rv: Status, str: seq<Byte>)
      requires i < |items| && e == items[i] && Ring(RingOf([list] + items, i + 1, e, c)) && ReadTo(w, w', e, c, rv, str)
      requires AllLive(w, items) && Distinct(items) && list !in w.at && c != list && (c != e ==> c !in w.at)
      modifies `items
      ensures Valid(w') && Stepped(w, w', old(items), items, i)
      ensures rv in {Success, EndOfFile, IoError} && (rv == Success ==> InHand(w', e, str))
      ensures rv == Success ==> i < |items| && Ahead(w', items, i + 1) < Ahead(w, old(items), i)
      ensures items == Grown(old(items), i, c)
    {
      hide Ring, ReadTo, Valid, Stepped, Conserved, Distinct, Grown, RingOf, AllLive, InHand, Ahead;
      ReadConserves(w, w', e, c, rv, str);
      if rv == Success { LessAhead(w, w', items, i, c, str); }
      Insert(w, w', i, c);
    }

    /** apr_bucket_read on the bucket at position `i`. */
    method ReadItem(ghost w: World, e: Bucket, ghost i: nat)
      returns (rv: Status, str: seq<Byte>, ghost c: Bucket, ghost io: seq<Io>, ghost w': World, ghost n: set<object>)
      requires Good(w) && Valid(w) && i < |items| && items[i] == e
      modifies `items, items, w.res.Keys, w.pipes.Keys, list`next, list`prev
      ensures Good(w') && Valid(w') && Stepped(w, w', old(items), items, i)
      ensures rv in {Success, EndOfFile, IoError} && (rv == Success ==> InHand(w', e, str))
      ensures rv == Success ==> i < |items| && Ahead(w', items, i + 1) < Ahead(w, old(items), i)
      ensures fresh(n) && Within(w, w', n)
      ensures ReadTo(w, w', e, c, rv, str) && (c != e ==> c !in w.at) && items == Grown(old(items), i, c)
      ensures e in w.at && Answered(w.at[e], io, rv, str) && Reported(io, rv)
    {
      hide Good, Ring, ReadTo, Valid, Stepped, Distinct, AllLive, RingOf, InHand, Ahead, Within, Answered, Reported;
      ghost var r := [list] + items;
      Open(w);
      Refers(w, e);
      assert r[i + 1] == e;
      rv, str, c, io, w', n := Read(w, e, r, i + 1);
      assert c != list;
      assert c != e ==> c !in w.at;
      Extend(w, w', i, e, c, rv, str);
      AnsweredReported(w.at[e], io, rv, str);
    }

    /** A bucket that cannot be split is read, and split if the point is inside it. */
    method ReadAndSplit(ghost w: World, e: Bucket, ghost i: nat, point64: nat)
      returns (done: bool, rv: Status, ghost io: seq<Io>, ghost w': World, ghost n: set<object>)
      requires Good(w) && Valid(w) && i < |items| && items[i] == e
      modifies `items, w.at.Keys, w.res.Keys, w.pipes.Keys, list`next, list`prev
      ensures Good(w') && Valid(w') && Stepped(w, w', old(items), items, i)
      ensures Halfway(w', e, point64, done, rv) && (!done ==> rv == Success)
      ensures !done ==> i < |items| && Ahead(w', items, i + 1) < Ahead(w, old(items), i)
      ensures fresh(n) && Within(w, w', n) && Reported(io, rv)
    {
      hide Sound, Shows, Valid, Stepped, Ahead, InHand, Shortened, Verdict, Known, Within;
      var str;
      ghost var c;
      Open(w);
      rv, str, c, io, w', n := ReadItem(w, e, i);
      done := rv != Success;
      StillThere(w, w', old(items), items, i);
      if done {
        Open(w');
        FailedVerdict(w, w', old(items), items, i, e, point64, rv);
      } else {
        InHandShown(w', e, str);
        if point64 < e.v.length {
          ghost var w1, s1, n1 := w', items, n;
          WithinOpen(w, w1, n1);
          done := true;
          rv, w', n := SplitInside(w1, e, i, point64);
          SteppedTwice(w, w1, w', old(items), s1, items, i);
          WithinStep(w, w1, w', n1, n);
          n := n1 + n;
        }
      }
    }

    /** A bucket is split at a point inside it. */
    method SplitInside(ghost w: World, e: Bucket, ghost i: nat, point64: nat)
      returns (rv: Status, ghost w': World, ghost n: set<object>)
      requires Good(w) && Valid(w) && i < |items| && items[i] == e && Known(w, e) && point64 < w.at[e].length
      modifies `items, w.at.Keys, w.res.Keys, w.pipes.Keys, list`next, list`prev
      ensures Good(w') && Valid(w') && Stepped(w, w', old(items), items, i)
      ensures Verdict(w', e, point64, true, rv) && rv == Success
      ensures fresh(n) && Within(w, w', n)
    {
      SplitVerdict(w, e, point64);
      hide Good, Valid, Stepped, Shortened, SplitStatus, Verdict, Within;
      Open(w);
      ghost var c;
      rv, c, w', n := SplitItem(w, e, i, point64);
      ShortenedVerdict(w, w', e, point64);
    }

    /** The middle branch of the loop of apr_brigade_partition: the bucket is split; one
        that cannot be is read first. */
    method SplitHere(ghost w: World, e: Bucket, ghost i: nat, point64: nat)
      returns (done: bool, rv: Status, ghost io: seq<Io>, ghost w': World, ghost n: set<object>)
      requires Good(w) && Valid(w) && i < |items| && items[i] == e
      requires e in w.at && (point64 < w.at[e].length || w.at[e].length == UNKNOWN)
      modifies `items, w.at.Keys, w.res.Keys, w.pipes.Keys, list`next, list`prev
      ensures Good(w') && Valid(w') && Stepped(w, w', old(items), items, i)
      ensures Halfway(w', e, point64, done, rv) && (!done ==> rv == Success)
      ensures !done ==> i < |items| && Ahead(w', items, i + 1) < Ahead(w, old(items), i)
      ensures fresh(n) && Within(w, w', n) && Reported(io, rv)
    {
      SplitVerdict(w, e, point64);
      hide Good, Valid, Stepped, Ahead, Shortened, SplitStatus, Verdict, Known, Within, Reported;
      NoReads();
      Open(w);
      ghost var c;
      rv, c, w', n := SplitItem(w, e, i, point64);
      done, io := rv != NotImplemented, [];
      if done {
        ShortenedVerdict(w, w', e, point64);
      } else {
        done, rv, io, w', n := ReadAndSplit(w, e, i, point64);
      }
    }

    /** A bucket of unknown length is read when the point is too far out to split it. */
    method ReadFar(ghost w: World, e: Bucket, ghost i: nat, point64: nat)
      returns (done: bool, rv: Status, ghost io: seq<Io>, ghost w': World, ghost n: set<object>)
      requires point64 > SIZE_MAX
      requires Good(w) && Valid(w) && i < |items| && items[i] == e
      modifies `items, w.at.Keys, w.res.Keys, w.pipes.Keys, list`next, list`prev
      ensures Good(w') && Valid(w') && Stepped(w, w', old(items), items, i)
      ensures Halfway(w', e, point64, done, rv) && (!done ==> rv == Success)
      ensures !done ==> i < |items| && Ahead(w', items, i + 1) < Ahead(w, old(items), i)
      ensures fresh(n) && Within(w, w', n) && Reported(io, rv)
    {
      hide Good, Valid, Stepped, Ahead, Within, Halfway, InHand;
      var str;
      ghost var c;
      Open(w);
      rv, str, c, io, w', n := ReadItem(w, e, i);
      done := rv != Success;
      Open(w');
      FarVerdict(w, w', old(items), items, i, e, point64, rv, str);
    }

    /** The branches of the loop of apr_brigade_partition at position `i`. */
    method Approach(ghost w: World, e: Bucket, ghost i: nat, point64: nat)
      returns (done: bool, rv: Status, ghost io: seq<Io>, ghost w': World, ghost n: set<object>)
      requires Good(w) && Valid(w) && i < |items| && items[i] == e
      modifies `items, w.at.Keys, w.res.Keys, w.pipes.Keys, list`next, list`prev
      ensures Good(w') && Valid(w') && Stepped(w, w', old(items), items, i)
      ensures Halfway(w', e, point64, done, rv) && (!done ==> rv == Success)
      ensures !done ==> i < |items| && Ahead(w', items, i + 1) < Ahead(w, old(items), i)
      ensures fresh(n) && Within(w, w', n) && Reported(io, rv)
    {
      Links(w, i);
      Shown(w, e);
      Open(w);
      hide Good, Valid, Stepped, Ahead, Within, Halfway, AllLive;
      if e.v.length == UNKNOWN && point64 > SIZE_MAX {
        done, rv, io, w', n := ReadFar(w, e, i, point64);
      } else if point64 < e.v.length || e.v.length == UNKNOWN {
        done, rv, io, w', n := SplitHere(w, e, i, point64);
      } else {
        done, rv, io, w', n := false, Success, [], w, {};
        Start(w, items, i, point64);
      }
    }

    /** The body of the loop of apr_brigade_partition at position `i`, with `point64`
        bytes to go: either the partition ends here, or the bucket is passed. */
    method AtBucket(ghost w: World, e: Bucket, ghost i: nat, point64: nat)
      returns (done: bool, rv: Status, after: Bucket, ghost io: seq<Io>, ghost w': World, ghost n: set<object>)
      requires Good(w) && Valid(w) && i < |items| && items[i] == e
      modifies `items, w.at.Keys, w.res.Keys, w.pipes.Keys, list`next, list`prev
      ensures Good(w') && Valid(w') && Stepped(w, w', old(items), items, i)
      ensures Verdict(w', e, point64, done, rv)
      ensures done ==> after == if rv == Success then Nth(i + 1) else e
      ensures !done ==> i < |items| && Ahead(w', items, i + 1) < Ahead(w, old(items), i)
      ensures fresh(n) && Within(w, w', n) && Reported(io, rv) && (!done ==> rv == Success)
    {
      hide Good, Valid, Stepped, Ahead, Within, Halfway, Verdict, Nth, Reported;
      var failed;
      failed, rv, io, w', n := Approach(w, e, i, point64);
      StillThere(w, w', old(items), items, i);
      done, after := Decide(w', e, i, point64, failed, rv);
    }

    /** The end of the body. */
    method Decide(ghost w: World, e: Bucket, ghost i: nat, point64: nat, failed: bool, rv: Status)
      returns (done: bool, after: Bucket)
      requires Good(w) && Valid(w) && i < |items| && items[i] == e
      requires Halfway(w, e, point64, failed, rv) && (!failed ==> rv == Success)
      ensures Verdict(w, e, point64, done, rv) && (done ==> after == if rv == Success then Nth(i + 1) else e)
      ensures (failed ==> done) && Good(w) && Valid(w)
    {
      hide Valid, Good;
      Links(w, i);
      Shown(w, e);
      done := failed || point64 == e.v.length;
      after := if rv == Success then e.next else e;
    }

    /** apr_brigade_partition: `after` begins the second part, at position `k`; it is the
        sentinel when the brigade is too short, and the bucket that could not be read
        after an error, which is that of the read, the last one. */
    method Partition(ghost w: World, point: int)
      returns (rv: Status, after: Bucket, ghost k: nat, ghost io: seq<Io>, ghost w': World, ghost n: set<object>)
      requires Good(w) && Valid(w)
      modifies `items, w.at.Keys, w.res.Keys, w.pipes.Keys, list`next, list`prev
      ensures Good(w') && Valid(w') && Partitioned(w, w', old(items), items, point, rv, k)
      ensures rv != Invalid ==> after == if rv == Incomplete then list else Nth(k)
      ensures fresh(n) && Within(w, w', n) && Reported(io, rv)
    {
      hide Good, Ring, Content, Lengths, Within, Ahead, Bytes, Known, Untouched, Walked, Partitioned, Stepped, Verdict,
           Valid, AllLive, Nth, Quiet, Reported;
      w', n, k, after, io := w, {}, 0, list, [];
      NoReads();
      Links(w, 0);
      NothingYet(w, items, point);
      if point < 0 { return Invalid, after, k, io, w', n; }
      if point == 0 { return Success, list.next, k, io, w', n; }
      var point64, e := point, list.next;
      while e != list
        invariant Good(w') && Valid(w') && fresh(n) && Within(w, w', n)
        invariant 0 < point64 <= point && k <= |items| && e == Nth(k)
        invariant Quiet(io)
        invariant Walked(w, w', old(items), items, k, point - point64)
        decreases if k <= |items| then Ahead(w', items, k) else 0
      {
        NthIs(k);
        Links(w', k);
        var done;
        ghost var w1, s1, n1, io1 := w', items, n, io;
        WithinOpen(w, w1, n1);
        done, rv, after, io, w', n := AtBucket(w1, e, k, point64);
        PassedOver(w, w1, w', old(items), s1, items, k, point, point64, done, rv);
        WithinStep(w, w1, w', n1, n);
        ReportedMore(io1, io, rv);
        n, io := n1 + n, io1 + io;
        if rv == Success { QuietWhen(io); }
        if done {
          NthIs(k);
          if rv == Success { k := k + 1; }
          return;
        }
        Links(w', k);
        Shown(w', e);
        point64, e, k := point64 - e.v.length, e.next, k + 1;
      }
      NthIs(k);
      Links(w', k);
      TooShort(w, w', old(items), items, k, point, point64);
      after, rv := list, Incomplete;
      QuietIs(io);
    }

    lemma First(w: World)
      requires Valid(w) && items != []
      ensures list.next == items[0] && items[0] in w.at && items[0] !in items[1..] && items[0] != list
      ensures Ring([list] + items) && AllLive(w, items[1..]) && list !in w.at
    {
      Links(w, 0);
    }

    /** APR_BUCKET_REMOVE on the first bucket. */
    method RemoveFirst(ghost w: World) returns (e: Bucket)
      requires Valid(w) && items != []
      modifies `items, items`next, items`prev, list`next, list`prev
      ensures Valid(w) && e == old(items[0]) && items == old(items[1..])
    {
      hide Ring, AllLive;
      First(w);
      e := list.next;
      Rings.RemoveFirst(list, e, items);
      items := items[1..];
    }

    /** apr_bucket_delete on the first bucket. */
    method DeleteFirst(ghost w: World) returns (ghost w': World)
      requires Good(w) && Valid(w) && items != []
      modifies `items, items`next, items`prev, w.res.Keys, list`next, list`prev
      ensures Good(w') && Valid(w') && items == old(items[1..]) && Within(w, w', {})
      ensures w'.at == w.at - {old(items[0])} && SameBytes(w, w')
    {
      hide Good, Ring, Valid, SameBytes, Within, AllLive;
      First(w);
      ghost var r, b := [list] + items[1..], items[0];
      var e := RemoveFirst(w);
      Open(w);
      assert Good(w);
      w' := DestroyOut(w, e);
      assert Ring(r);
      LiveWithout(w, w', items, e);
      Close(w');
    }

    /** apr_bucket_destroy, for a bucket that is in no ring. */
    method DestroyOut(ghost w: World, e: Bucket) returns (ghost w': World)
      requires Good(w) && e in w.at
      modifies w.res.Keys
      ensures Good(w') && Within(w, w', {}) && w'.at == w.at - {e} && SameBytes(w, w') && NoneMade(w, w')
    {
      hide Sound, Shows, SameBytes, Within, NoneMade;
      Refers(w, e);
      w' := Destroy(w, e);
      WithoutFacts(w, e);
    }

    /** The first bucket is deleted, which was number `i` of those there at the start. */
    method DeleteNext(ghost w: World, ghost w1: World, ghost s: seq<Bucket>, ghost i: nat) returns (ghost w': World)
      requires Good(w1) && Valid(w1) && i < |s| && items == s[i..] && Within(w, w1, {}) && Gone(w, w1, s[..i])
      modifies `items, items`next, items`prev, w1.res.Keys, list`next, list`prev
      ensures Good(w') && Valid(w') && items == s[i + 1..] && Within(w, w', {}) && Gone(w, w', s[..i + 1])
    {
      hide Good, Within, SameBytes, Gone, Ring, AllLive, Valid;
      ghost var none: set<object> := {};
      assert items[0] == s[i] && items[1..] == s[i + 1..];
      w' := DeleteFirst(w1);
      WithinStep(w, w1, w', none, none);
      assert none + none == none;
      OneMoreGone(w, w1, w', s, i);
    }

    /** apr_brigade_cleanup: every bucket is destroyed, and only those. */
    method Cleanup(ghost w: World) returns (ghost w': World)
      requires Good(w) && Valid(w)
      modifies `items, items`next, items`prev, w.res.Keys, list`next, list`prev
      ensures Good(w') && Valid(w') && items == [] && Within(w, w', {})
      ensures Gone(w, w', old(items))
    {
      hide Good, Within, SameBytes, Gone, Ring, AllLive, Valid;
      w' := w;
      ghost var i, none: set<object> := 0, {};
      Links(w, 0);
      Open(w);
      WithinNothing(w);
      NoneGone(w, items);
      while list.next != list
        invariant Good(w') && Valid(w') && i <= |old(items)| && items == old(items)[i..] && Within(w, w', {})
        invariant Gone(w, w', old(items)[..i])
        decreases |items|
      {
        Links(w', 0);
        WithinOpen(w, w', none);
        w' := DeleteNext(w, w', old(items), i);
        i := i + 1;
        Links(w', 0);
      }
      Links(w', 0);
      assert old(items)[..i] == old(items);
    }

    lemma Tail(w: World, k: nat, a: Brigade)
      requires Valid(w) && a.Valid(w) && Apart(a) && a.items == [] && k < |items|
      ensures var s := [list] + items;
              && Ring(s) && s[k + 1] == items[k] && s[|s| - 1] == list.prev && s[..k + 1] == [list] + items[..k]
              && s[k + 1..] == items[k..]
              && a.list !in s && Ring([a.list])
      ensures forall b :: b in items[..k] || b in items[k..] ==> b in items
      ensures AllLive(w, items[..k]) && AllLive(w, items[k..]) && list !in w.at && a.list !in w.at
    {
      Links(w, k);
      MovedParts(list, items, k);
      assert [a.list] + a.items == [a.list] && ([a.list] + a.items)[0] == a.list;
    }

    /** The buckets from `e` on move to `a`, which is empty. */
    method MoveTail(ghost w: World, e: Bucket, ghost k: nat, a: Brigade)
      requires Valid(w) && a.Valid(w) && a != this && Apart(a) && a.items == []
      requires k < |items| && e == items[k]
      modifies `items, a`items, items`next, items`prev, list`next, list`prev, a.list`next, a.list`prev
      ensures Valid(w) && a.Valid(w) && items == old(items[..k]) && a.items == old(items[k..])
    {
      hide Ring, AllLive, Apart;
      Tail(w, k, a);
      Rings.MoveTail(e, list.prev, a.list, [list] + items, k + 1);
      items, a.items := items[..k], items[k..];
    }

    /** apr_brigade_split_ex: the buckets from `e` on move to `a`, which is emptied first. */
    method SplitEx(ghost w: World, e: Bucket, ghost k: nat, a: Brigade) returns (ghost w': World)
      requires Good(w) && Valid(w) && a.Valid(w) && a != this && Apart(a)
      requires k <= |items| && e == Nth(k)
      modifies `items, a`items, w.at.Keys, w.res.Keys, list`next, list`prev, a.list`next, a.list`prev
      ensures Good(w') && Valid(w') && a.Valid(w')
      ensures items == old(items[..k]) && a.items == old(items[k..]) && Gone(w, w', old(a.items))
      ensures Content(w', items) + Content(w', a.items) == Content(w, old(items))
    {
      hide Good, Apart, Gone, Content, Within;
      w' := Emptied(w, a);
      Links(w', k);
      Open(w);
      Open(w');
      SplitContent(w, w', items, k, old(a.items));
      hide Valid;
      if e != list { MoveTail(w', e, k, a); }
      assert Good(w');
    }

    /** `a` is emptied; the buckets of this brigade are not touched. */
    method Emptied(ghost w: World, a: Brigade) returns (ghost w': World)
      requires Good(w) && Valid(w) && a.Valid(w) && a != this && Apart(a)
      modifies a`items, a.items`next, a.items`prev, w.res.Keys, a.list`next, a.list`prev
      ensures Good(w') && Valid(w') && a.Valid(w') && a.items == [] && Apart(a) && Gone(w, w', old(a.items))
    {
      hide Good, Ring, Distinct, AllLive, Gone, Within, Valid;
      Open(w);
      ghost var r := [list] + items;
      ApartLive(w, a);
      w' := a.Cleanup(w);
      assert Ring(r);
      StillLive(w, w', items, old(a.items));
      Close(w');
    }

    lemma ApartLive(w: World, a: Brigade)
      requires Apart(a)
      ensures Disjoint(items, a.items) && list !in a.items && a.list !in items && list != a.list
      ensures Disjoint([list] + items, [a.list] + [])
    {
      var r, q := [list] + items, [a.list] + a.items;
      assert r[0] == list && q[0] == a.list;
      assert forall i :: 0 <= i < |items| ==> items[i] == r[i + 1];
      assert forall i :: 0 <= i < |a.items| ==> a.items[i] == q[i + 1];
    }

    /** APR_BRIGADE_INSERT_TAIL */
    method InsertTail(ghost w: World, e: Bucket)
      requires Valid(w) && e in w.at && e !in items
      modifies `items, items`next, items`prev, list`next, list`prev, e`next, e`prev
      ensures Valid(w) && items == old(items) + [e]
    {
      hide Ring;
      Open(w);
      ghost var r, s := [list] + items, items + [e];
      assert r[..|r|] + [e] + r[|r|..] == [list] + s;
      SpliceBefore(list, e, e, r, |r|, [e]);
      items := s;
    }

    /** Two brigades share no bucket. */
    ghost predicate Apart(a: Brigade)
      reads this, a
    {
      Disjoint([list] + items, [a.list] + a.items)
    }

    lemma NthIs(k: nat)
      ensures Nth(k) == if k < |items| then items[k] else list
    {
    }
  }

  lemma WithinOpen(w: World, w': World, n: set<object>)
    requires Within(w, w', n)
    ensures forall b :: b in w'.at ==> b in w.at || b in n
    ensures forall r :: r in w'.res ==> r in w.res || r in n
    ensures w'.pipes.Keys == w.pipes.Keys && Lasting(w, w') && forall r :: r in Made(w') ==> r in Made(w) || r in n
  {
  }

  lemma WithinSplit(w: World, w': World, c: Bucket)
    requires w'.at.Keys == w.at.Keys + {c} && w'.res.Keys == w.res.Keys && w'.pipes == w.pipes && SameRegistry(w, w')
    ensures Within(w, w', {c})
  {
  }

  /** Buckets that have come in are new ones. */
  ghost predicate Fresh(w: World, s: seq<Bucket>, s': seq<Bucket>) {
    forall b :: b in s' && b !in s ==> b !in w.at
  }

  ghost predicate Stepped(w: World, w': World, s: seq<Bucket>, s': seq<Bucket>, i: nat) {
    Advanced(w, w', s, s', i) && Fresh(w, s, s')
  }

  ghost predicate Shortened(w: World, w': World, e: Bucket, length: nat) {
    e in w.at && e in w'.at && w'.at[e] == w.at[e].(length := length)
  }

  /** `e` holds exactly what was read, in memory or as nothing. */
  ghost predicate InHand(w: World, e: Bucket, str: seq<Byte>) {
    e in w.at && w.at[e].kind !in {Pipe, File} && w.at[e].length == |str| && Bytes(w, w.at[e]) == str
  }

  lemma ReadConserves(w: World, w': World, e: Bucket, c: Bucket, rv: Status, str: seq<Byte>)
    requires ReadTo(w, w', e, c, rv, str) && (c != e ==> c !in w.at)
    ensures Conserved(w, w', e, c) && rv in {Success, EndOfFile, IoError} && (rv == Success ==> InHand(w', e, str))
    ensures w'.at.Keys == w.at.Keys + {c} && (rv == Success && c != e ==> |str| > 0)
  {
    hide Bytes, SameBytes;
  }

  /** Reading element `i` leaves less ahead. */
  lemma LessAhead(w: World, w': World, s: seq<Bucket>, i: nat, c: Bucket, str: seq<Byte>)
    requires i < |s| && Distinct(s) && AllLive(w, s) && Conserved(w, w', s[i], c) && InHand(w', s[i], str)
    requires c != s[i] ==> |str| > 0
    ensures i < |Grown(s, i, c)| && Ahead(w', Grown(s, i, c), i + 1) < Ahead(w, s, i)
  {
    ConservedContent(w, w', s, i, c);
    ConservedElsewhere(w, w', s, i, c);
    GrownParts(s, i, c);
    GrownSize(s, i, c);
    hide Bytes, SameBytes, Conserved, Content, Distinct, AllLive, Grown;
    AheadStep(w, s, i);
    if c != s[i] {
      AheadStep(w', Grown(s, i, c), i + 1);
      GrownNext(s, i, c);
    }
  }

  lemma GrownNext(s: seq<Bucket>, i: nat, c: Bucket)
    requires i < |s| && c != s[i]
    ensures |Grown(s, i, c)| > i + 1 && Grown(s, i, c)[i + 1] == c
  {
  }

  lemma AheadStep(w: World, s: seq<Bucket>, i: nat)
    requires i < |s| && s[i] in w.at
    ensures Ahead(w, s, i) == |Bytes(w, w.at[s[i]])| + 1 + Ahead(w, s, i + 1)
  {
    hide Bytes, Content;
    assert s[i..] == [s[i]] + s[i + 1..];
    ContentCat(w, [s[i]], s[i + 1..]);
    ContentOne(w, s[i]);
  }

  ghost predicate Known(w: World, b: Bucket) {
    b in w.at && w.at[b].length < UNKNOWN
  }

  /** The partition ends at `e`, whose end is the point, or with an error; or the point
      is further on. */
  ghost predicate Verdict(w: World, e: Bucket, point64: nat, done: bool, rv: Status) {
    && e in w.at
    && (if done then rv in {Success, EndOfFile, IoError} && (rv == Success ==> Known(w, e) && w.at[e].length == point64)
        else Known(w, e) && w.at[e].length < point64)
  }

  /** ... or the point is at the end of `e`, which is yet to be seen. */
  ghost predicate Halfway(w: World, e: Bucket, point64: nat, done: bool, rv: Status) {
    if done then Verdict(w, e, point64, done, rv) else Known(w, e) && w.at[e].length <= point64
  }

  ghost predicate AllKnown(w: World, s: seq<Bucket>) {
    forall b :: b in s ==> Known(w, b)
  }

  /** The stream is the same; the first `k` buckets are of `gone` bytes. */
  ghost predicate Walked(w: World, w': World, s: seq<Bucket>, s': seq<Bucket>, k: nat, gone: nat) {
    && Content(w', s') == Content(w, s) && Untouched(w, w', s) && Fresh(w, s, s')
    && k <= |s'| && AllKnown(w', s'[..k]) && Lengths(w', s'[..k]) == gone
    && (AllInside(w, s) ==> AllInside(w', s'))
  }

  /** The result of a partition. The stream never changes. On success the first `k`
      buckets are of `point` bytes; when the brigade is too short all lengths are known
      and their sum is less. */
  ghost predicate Partitioned(w: World, w': World, s: seq<Bucket>, s': seq<Bucket>, point: int, rv: Status, k: nat) {
    && Content(w', s') == Content(w, s) && Untouched(w, w', s) && (AllInside(w, s) ==> AllInside(w', s'))
    && rv in {Success, Invalid, Incomplete, EndOfFile, IoError} && (rv == Invalid <==> point < 0)
    && k <= |s'| && AllKnown(w', s'[..k])
    && (rv == Success ==> Lengths(w', s'[..k]) == point)
    && (rv == Incomplete ==> AllKnown(w', s') && Lengths(w', s') < point)
    && (rv in {EndOfFile, IoError} ==> k < |s'| && Lengths(w', s'[..k]) < point)
  }

  lemma NothingYet(w: World, s: seq<Bucket>, point: int)
    ensures Walked(w, w, s, s, 0, 0) && Within(w, w, {})
    ensures point <= 0 ==> Partitioned(w, w, s, s, point, if point < 0 then Invalid else Success, 0)
  {
    hide Bytes, Content;
    assert s[..0] == [];
    assert Lengths(w, s[..0]) == 0;
  }

  lemma TooShort(w: World, w': World, s: seq<Bucket>, s': seq<Bucket>, k: nat, point: nat, point64: nat)
    requires 0 < point64 <= point && Walked(w, w', s, s', k, point - point64) && k == |s'|
    ensures Partitioned(w, w', s, s', point, Incomplete, k)
  {
    hide Bytes, Content, Lengths, Untouched;
    assert s'[..k] == s';
  }

  /** The loop invariant of the partition, after one more bucket. */
  lemma PassedOver(w: World, w1: World, w': World, s: seq<Bucket>, s1: seq<Bucket>, s': seq<Bucket>, k: nat,
                   point: nat, point64: nat, done: bool, rv: Status)
    requires Stepped(w1, w', s1, s', k) && Verdict(w', s1[k], point64, done, rv)
    requires 0 < point64 <= point && Walked(w, w1, s, s1, k, point - point64)
    ensures k < |s'| && s'[k] == s1[k] && s'[k] in w'.at && (done ==> rv in {Success, EndOfFile, IoError})
    ensures if done then Partitioned(w, w', s, s', point, rv, if rv == Success then k + 1 else k)
            else w'.at[s'[k]].length < point64 && Walked(w, w', s, s', k + 1, point - (point64 - w'.at[s'[k]].length))
  {
    hide Bytes, Content, Lengths, Known;
    PrefixKept(w1, w', s1, s', k);
    UntouchedStep(w, w1, w', s, s1);
    FreshStep(w, w1, s, s1, s');
    if !done || rv == Success { OneMoreKnown(w', s', k, point64, done, rv); }
  }

  lemma PrefixKept(w1: World, w': World, s1: seq<Bucket>, s': seq<Bucket>, k: nat)
    requires Advanced(w1, w', s1, s', k) && AllKnown(w1, s1[..k])
    ensures s'[..k] == s1[..k] && s'[k] == s1[k] && AllKnown(w', s'[..k])
  {
    hide Bytes, Content, Lengths, Untouched;
    assert s'[..k] == s'[..k + 1][..k] == s1[..k + 1][..k] == s1[..k];
    assert s'[k] == s'[..k + 1][k] == s1[..k + 1][k];
  }

  lemma UntouchedStep(w: World, w1: World, w': World, s: seq<Bucket>, s1: seq<Bucket>)
    requires Untouched(w, w1, s) && Untouched(w1, w', s1) && Fresh(w, s, s1)
    ensures Untouched(w, w', s)
  {
    hide Bytes;
  }

  lemma FreshStep(w: World, w1: World, s: seq<Bucket>, s1: seq<Bucket>, s': seq<Bucket>)
    requires Untouched(w, w1, s) && Fresh(w, s, s1) && Fresh(w1, s1, s')
    ensures Fresh(w, s, s')
  {
    hide Bytes;
  }

  lemma OneMoreKnown(w: World, s: seq<Bucket>, k: nat, point64: nat, done: bool, rv: Status)
    requires k < |s| && Verdict(w, s[k], point64, done, rv) && (!done || rv == Success) && AllKnown(w, s[..k])
    ensures AllKnown(w, s[..k + 1]) && Lengths(w, s[..k + 1]) == Lengths(w, s[..k]) + w.at[s[k]].length
  {
    assert s[..k + 1][..k] == s[..k];
    assert s[..k + 1] == s[..k] + [s[k]];
  }

  lemma FarVerdict(w: World, w': World, s: seq<Bucket>, s': seq<Bucket>, i: nat, e: Bucket, point64: nat, rv: Status,
                   str: seq<Byte>)
    requires Stepped(w, w', s, s', i) && AllLive(w', s') && s[i] == e && rv in {Success, EndOfFile, IoError}
    requires point64 > SIZE_MAX && Good(w') && (rv == Success ==> InHand(w', e, str))
    ensures Halfway(w', e, point64, rv != Success, rv)
  {
    if rv == Success { InHandShown(w', e, str); } else { FailedVerdict(w, w', s, s', i, e, point64, rv); }
  }

  /** Nothing has happened yet. */
  lemma Start(w: World, s: seq<Bucket>, i: nat, point64: nat)
    requires i < |s| && AllLive(w, s) && w.at[s[i]].length <= point64 && w.at[s[i]].length < UNKNOWN
    ensures Stepped(w, w, s, s, i) && Within(w, w, {}) && Ahead(w, s, i + 1) < Ahead(w, s, i)
    ensures Halfway(w, s[i], point64, false, Success)
  {
    hide Bytes, Content, Lengths;
    AheadStep(w, s, i);
    assert forall b :: b in s[..i] ==> b in s;
  }

  /** Splitting fails only where it is not implemented: at unknown lengths. */
  lemma SplitVerdict(w: World, e: Bucket, point64: nat)
    requires Sound(w) && e in w.at && (point64 < w.at[e].length || w.at[e].length == UNKNOWN)
    ensures SplitStatus(w.at[e], point64) == if w.at[e].length == UNKNOWN then NotImplemented else Success
  {
    BucketInSound(w, e);
  }

  lemma ShortenedVerdict(w: World, w': World, e: Bucket, point64: nat)
    requires Shortened(w, w', e, point64) && Sound(w) && w.at[e].length > point64
    ensures Verdict(w', e, point64, true, Success)
  {
    BucketInSound(w, e);
  }

  lemma FailedVerdict(w: World, w': World, s: seq<Bucket>, s': seq<Bucket>, i: nat, e: Bucket, point64: nat, rv: Status)
    requires Stepped(w, w', s, s', i) && AllLive(w', s') && s[i] == e && rv in {EndOfFile, IoError}
    ensures Verdict(w', e, point64, true, rv)
  {
    StillThere(w, w', s, s', i);
    assert s'[i] in s';
  }

  lemma InHandShown(w: World, e: Bucket, str: seq<Byte>)
    requires InHand(w, e, str) && Good(w)
    ensures e.v == w.at[e] && Known(w, e) && w.at[e].length == |str|
  {
    BucketInSound(w, e);
  }

  lemma StillThere(w: World, w': World, s: seq<Bucket>, s': seq<Bucket>, i: nat)
    requires Stepped(w, w', s, s', i)
    ensures i < |s| <= |s'| && s'[i] == s[i]
  {
    assert s'[i] == s'[..i + 1][i] == s[..i + 1][i];
  }

  lemma SteppedTwice(w: World, w1: World, w': World, s: seq<Bucket>, s1: seq<Bucket>, s': seq<Bucket>, i: nat)
    requires Stepped(w, w1, s, s1, i) && Stepped(w1, w', s1, s', i)
    ensures Stepped(w, w', s, s', i)
  {
    hide Bytes, Content, Lengths;
    AdvancedTwice(w, w1, w', s, s1, s', i);
  }

  lemma GrownFresh(w: World, s: seq<Bucket>, i: nat, c: Bucket)
    requires i < |s| && (c != s[i] ==> c !in w.at)
    ensures Fresh(w, s, Grown(s, i, c))
  {
  }

  lemma GrownSize(s: seq<Bucket>, i: nat, c: Bucket)
    requires i < |s|
    ensures |Grown(s, i, c)| == |s| + if c == s[i] then 0 else 1
  {
  }

  lemma RingOfIs(s: seq<Bucket>, i: nat, e: Bucket, c: Bucket)
    requires i < |s|
    ensures RingOf(s, i, e, c) == if c == e then s else After(s, i, c)
  {
  }

  lemma GrownRing(list: Bucket, s: seq<Bucket>, i: nat, c: Bucket)
    requires i < |s|
    ensures RingOf([list] + s, i + 1, s[i], c) == [list] + Grown(s, i, c)
  {
  }

  lemma SplitConserves(w: World, w': World, e: Bucket, c: Bucket, point: nat)
    requires SplitTo(w, w', e, c, point)
    ensures e != c && Conserved(w, w', e, c) && c !in w.at && Shortened(w, w', e, point)
    ensures w'.at.Keys == w.at.Keys + {c} && w'.res.Keys == w.res.Keys && w'.pipes == w.pipes && SameRegistry(w, w')
  {
  }

  /** What a live bucket refers to is live. */
  lemma Refers(w: World, b: Bucket)
    requires Good(w) && b in w.at
    ensures b.v == w.at[b] && ResOf(b) <= w.res.Keys && EndOf(b) <= w.pipes.Keys
  {
    BucketInSound(w, b);
    FitsRefers(w, w.at[b]);
  }

  lemma StillLive(w: World, w': World, s: seq<Bucket>, t: seq<Bucket>)
    requires AllLive(w, s) && Gone(w, w', t) && Disjoint(s, t)
    ensures AllLive(w', s) && forall b :: b !in w.at ==> b !in w'.at
  {
    hide SameBytes;
    forall b | b in s ensures b in w'.at {
      var i :| 0 <= i < |s| && s[i] == b;
      assert b !in t;
    }
  }

  lemma SplitContent(w: World, w': World, s: seq<Bucket>, k: nat, t: seq<Bucket>)
    requires k <= |s| && Gone(w, w', t) && AllLive(w, s) && AllLive(w', s)
    ensures Content(w', s[..k]) + Content(w', s[k..]) == Content(w, s)
  {
    hide SameBytes, Content;
    assert s == s[..k] + s[k..];
    ContentCat(w', s[..k], s[k..]);
    ContentSame(w, w', s);
  }

  lemma MovedParts(list: Bucket, s: seq<Bucket>, k: nat)
    requires k < |s|
    ensures var r := [list] + s;
            && r[..k + 1] == [list] + s[..k] && r[k + 1..] == s[k..] && r[k + 1] == s[k] && r[|r| - 1] == s[|s| - 1]
            && (forall b :: b in s[..k] ==> b in s) && (forall b :: b in s[k..] ==> b in s)
  {
  }

  /** The buckets of `s` have gone; every other one is as it was. */
  ghost predicate Gone(w: World, w': World, s: seq<Bucket>) {
    w'.at == w.at - SetOf(s) && SameBytes(w, w')
  }

  ghost function SetOf(s: seq<Bucket>): set<Bucket> {
    set b | b in s
  }

  lemma NoneGone(w: World, s: seq<Bucket>)
    ensures Gone(w, w, s[..0])
  {
  }

  lemma OneMoreGone(w: World, w1: World, w': World, s: seq<Bucket>, i: nat)
    requires i < |s| && Gone(w, w1, s[..i]) && w'.at == w1.at - {s[i]} && SameBytes(w1, w')
    ensures Gone(w, w', s[..i + 1])
  {
    hide Bytes;
    assert s[..i + 1] == s[..i] + [s[i]];
    assert SetOf(s[..i + 1]) == SetOf(s[..i]) + {s[i]};
  }

  lemma LiveWithout(w: World, w': World, s: seq<Bucket>, e: Bucket)
    requires AllLive(w, s) && w'.at == w.at - {e} && e !in s
    ensures AllLive(w', s)
  {
  }

  lemma WithoutFacts(w: World, b: Bucket)
    requires b in w.at && (w.at[b].data.Res? ==> w.at[b].data.r in w.res && w.res[w.at[b].data.r].refcount > 0)
    ensures Without(w, b).at == w.at - {b} && Within(w, Without(w, b), {}) && NoneMade(w, Without(w, b))
  {
  }


  // ---------- lengths and bytes ----------

  lemma LengthOfBytes(w: World, b: Bucket)
    requires Sound(w) && Known(w, b) && Inside(w.at[b])
    ensures |Bytes(w, w.at[b])| == w.at[b].length
  {
    BucketInSound(w, b);
    if w.at[b].data.Res? { assert Buckets.Kept(w, w.at[b].data.r); }
  }

  /** Known lengths are the numbers of bytes, unless a file is shorter than its slice. */
  lemma {:induction false} LengthsAreBytes(w: World, s: seq<Bucket>)
    requires Sound(w) && AllKnown(w, s) && AllInside(w, s)
    ensures |Content(w, s)| == Lengths(w, s)
  {
    hide Sound, Bytes, Inside;
    if s == [] {
    } else {
      var n := |s| - 1;
      assert s[n] in s;
      LengthsAreBytes(w, s[..n]);
      LengthOfBytes(w, s[n]);
    }
  }

  /** A partition succeeds at the point: before it are the first `point` bytes of the
      stream. When it is too short, so is the stream. */
  lemma PartitionPoint(w: World, w': World, s: seq<Bucket>, s': seq<Bucket>, point: int, rv: Status, k: nat)
    requires Partitioned(w, w', s, s', point, rv, k) && Sound(w') && AllInside(w, s)
    ensures rv == Success ==>
      var stream := Content(w, s);
      0 <= point <= |stream| && Content(w', s'[..k]) == stream[..point] && Content(w', s'[k..]) == stream[point..]
    ensures rv == Incomplete ==> |Content(w, s)| < point
  {
    hide Sound, Inside, Bytes, Content, Lengths;
    if rv == Success {
      assert s' == s'[..k] + s'[k..];
      ContentCat(w', s'[..k], s'[k..]);
      LengthsAreBytes(w', s'[..k]);
    } else if rv == Incomplete {
      LengthsAreBytes(w', s');
    }
  }
}
