/** Flush functions, and writing with one. */
module BrigadeFlush {
  import opened Buckets
  import opened Rings
  import opened BucketOps
  import opened BrigadeSpec
  import opened Brigades
  import opened BrigadeWrite

  /** A flush function with its context: it takes any number of buckets off the front of
      the brigade and passes their bytes on. */
  class Flusher {
    ghost var sent: seq<Byte>

    constructor ()
      ensures sent == []
    {
      sent := [];
    }
  }

  ghost function SentBy(f: Flusher?): seq<Byte>
    reads f
  {
    if f == null then [] else f.sent
  }

  /** The first `k` buckets have gone, and their bytes have been passed on after `x`. */
  ghost predicate Flushed(w: World, w': World, s: seq<Bucket>, k: nat, x: seq<Byte>, x': seq<Byte>) {
    k <= |s| && Gone(w, w', s[..k]) && x' == x + Content(w, s[..k])
  }

  lemma FlushedNothing(w: World, s: seq<Bucket>, x: seq<Byte>)
    ensures Flushed(w, w, s, 0, x, x) && s[0..] == s
  {
    NoneGone(w, s);
    assert Content(w, s[..0]) == [];
  }

  lemma FlushedMore(w: World, w1: World, w': World, s: seq<Bucket>, k: nat, x: seq<Byte>, x1: seq<Byte>, x': seq<Byte>)
    requires Flushed(w, w1, s, k, x, x1) && k < |s| && AllLive(w, s) && AllLive(w1, s[k..])
    requires w'.at == w1.at - {s[k]} && SameBytes(w1, w') && x' == x1 + Bytes(w1, w1.at[s[k..][0]])
    ensures Flushed(w, w', s, k + 1, x, x')
  {
    hide Bytes, Content, SameBytes, Gone;
    OneMoreGone(w, w1, w', s, k);
    StillSame(w, w1, s, k);
    assert s[..k + 1] == s[..k] + [s[k]];
    ContentCat(w, s[..k], [s[k]]);
    ContentOne(w, s[k]);
    assert x + Content(w, s[..k]) + Bytes(w, w.at[s[k]]) == x + (Content(w, s[..k]) + Bytes(w, w.at[s[k]]));
  }

  lemma StillSame(w: World, w1: World, s: seq<Bucket>, k: nat)
    requires k < |s| && Gone(w, w1, s[..k]) && AllLive(w, s) && AllLive(w1, s[k..])
    ensures s[k] in w.at && s[k] in w1.at && Bytes(w1, w1.at[s[k]]) == Bytes(w, w.at[s[k]])
  {
    hide Bytes;
    assert s[k..][0] == s[k];
  }

  /** The first bucket goes. */
  method PassOn(ghost w: World, b: Brigade, f: Flusher) returns (ghost w': World)
    requires Good(w) && b.Valid(w) && b.items != []
    modifies f, b`items, b.items`next, b.items`prev, w.res.Keys, b.list`next, b.list`prev
    ensures Good(w') && b.Valid(w') && Within(w, w', {}) && b.items == old(b.items[1..])
    ensures old(b.items[0]) in w.at && w'.at == w.at - {old(b.items[0])} && SameBytes(w, w')
    ensures f.sent == old(f.sent) + Bytes(w, w.at[old(b.items[0])])
  {
    hide Good, Within, SameBytes, Ring, AllLive, Brigade.Valid, Bytes;
    b.First(w);
    f.sent := f.sent + Bytes(w, w.at[b.items[0]]);
    assert Good(w) && b.Valid(w);
    w' := b.DeleteFirst(w);
  }

  /** flush(b, ctx) */
  method Flush(ghost w: World, b: Brigade, f: Flusher) returns (rv: Status, ghost k: nat, ghost w': World)
    requires Good(w) && b.Valid(w)
    modifies f, b`items, b.items`next, b.items`prev, w.res.Keys, b.list`next, b.list`prev
    ensures Good(w') && b.Valid(w') && Within(w, w', {}) && rv in {Success, IoError}
    ensures Flushed(w, w', old(b.items), k, old(f.sent), f.sent) && b.items == old(b.items)[k..]
  {
    hide Good, Within, SameBytes, Flushed, Ring, AllLive, Brigade.Valid, Bytes, Content;
    w', k := w, 0;
    ghost var s := b.items;
    WithinNothing(w);
    b.Open(w);
    FlushedNothing(w, s, f.sent);
    var more: bool := *;
    b.Links(w', 0);
    while more && b.list.next != b.list
      invariant Good(w') && b.Valid(w') && Within(w, w', {}) && k <= |s| && b.items == s[k..]
      invariant Flushed(w, w', s, k, old(f.sent), f.sent)
      decreases |b.items|
    {
      b.Links(w', 0);
      b.Open(w');
      ghost var w1, x := w', f.sent;
      Cut(s, k);
      WithinOpen(w, w1, {});
      w' := PassOn(w1, b, f);
      WithinTwice(w, w1, w');
      FlushedMore(w, w1, w', s, k, old(f.sent), x, f.sent);
      k := k + 1;
      more := *;
      b.Links(w', 0);
    }
    rv := *;
    if rv != Success { rv := IoError; }
  }

  lemma Cut(s: seq<Bucket>, k: nat)
    requires k < |s|
    ensures s[k..] != [] && s[k..][0] == s[k] && s[k..][1..] == s[k + 1..]
    ensures forall j :: 0 <= j < |s[k..]| ==> s[k..][j] in s
  {
  }

  lemma WithinTwice(w: World, w1: World, w': World)
    requires Within(w, w1, {}) && Within(w1, w', {})
    ensures Within(w, w', {})
  {
    hide Within;
    ghost var none: set<object> := {};
    WithinStep(w, w1, w', none, none);
    assert none + none == none;
  }

  // ---------- what was sent, and what is in the brigade ----------

  /** The text comes after the stream of the brigade, some of which may have been passed
      on; nothing else has changed. */
  ghost predicate Sent(w: World, w': World, s: seq<Bucket>, s': seq<Bucket>, x: seq<Byte>, x': seq<Byte>,
                       str: seq<Byte>) {
    x' + Content(w', s') == x + Content(w, s) + str && Untouched(w, w', s) && Fresh(w, s, s')
  }

  lemma SentNothing(w: World, s: seq<Bucket>, x: seq<Byte>)
    ensures Sent(w, w, s, s, x, x, [])
  {
    hide Content, Bytes;
  }

  lemma SentMore(w: World, w1: World, w': World, s: seq<Bucket>, s1: seq<Bucket>, s': seq<Bucket>, x: seq<Byte>,
                 x1: seq<Byte>, x': seq<Byte>, a: seq<Byte>, b: seq<Byte>)
    requires Sent(w, w1, s, s1, x, x1, a) && Sent(w1, w', s1, s', x1, x', b)
    ensures Sent(w, w', s, s', x, x', a + b)
  {
    hide Content, Bytes, Untouched, Fresh;
    UntouchedStep(w, w1, w', s, s1);
    FreshStep(w, w1, s, s1, s');
    assert x + Content(w, s) + a + b == x + Content(w, s) + (a + b);
  }

  lemma SentWritten(w: World, w': World, s: seq<Bucket>, s': seq<Bucket>, x: seq<Byte>, str: seq<Byte>)
    requires Wrote(w, w', s, s', str)
    ensures Sent(w, w', s, s', x, x, str)
  {
    hide Content, Bytes, Untouched, Fresh;
    assert x + (Content(w, s) + str) == x + Content(w, s) + str;
  }

  lemma SentFlushed(w: World, w': World, s: seq<Bucket>, k: nat, x: seq<Byte>, x': seq<Byte>)
    requires Flushed(w, w', s, k, x, x') && AllLive(w, s) && AllLive(w', s[k..])
    ensures Sent(w, w', s, s[k..], x, x', []) && Evolved(w, w', s, s[k..])
  {
    hide Bytes, Content;
    var p, q := s[..k], s[k..];
    assert s == p + q;
    ContentCat(w, p, q);
    ContentSame(w, w', q);
    assert x + Content(w, p) + Content(w, q) == x + (Content(w, p) + Content(w, q)) + [];
    forall b | b in w.at && b !in s
      ensures b in w'.at && w'.at[b] == w.at[b] && Bytes(w', w.at[b]) == Bytes(w, w.at[b])
    {
      assert b !in p;
    }
  }

  /** apr_brigade_write with a flush function, or with none; `m` and `s` are the state and
      the brigade before its call. */
  method WriteOut(ghost w: World, b: Brigade, str: seq<Byte>, f: Flusher?)
    returns (rv: Status, ghost m: World, ghost s: seq<Bucket>, ghost k: nat, ghost w': World, ghost n: set<object>)
    requires Good(w) && b.Valid(w) && |str| < UNKNOWN
    modifies f, b`items, b.items, w.res.Keys, b.list`next, b.list`prev
    ensures Good(w') && b.Valid(w') && fresh(n) && Within(w, w', n) && rv in {Success, IoError}
    ensures Evolved(w, w', old(b.items), b.items) && (f == null ==> rv == Success)
    ensures Safe(w, old(b.items), str) ==>
      Streamed(w, m, old(b.items), s, str) && Sent(w, w', old(b.items), b.items, old(SentBy(f)), SentBy(f), str)
    ensures Flushed(m, w', s, k, old(SentBy(f)), SentBy(f)) && b.items == s[k..]
  {
    hide Good, Streamed, Grew, Within, Safe, PassedOn, Effect, Room, Evolved, Sent, Flushed, Wrote, Ring, AllLive,
         Brigade.Valid;
    ghost var s0, x := b.items, SentBy(f);
    var handed;
    handed, m, n := Write(w, b, str, f != null);
    rv, s, k, w' := Success, b.items, 0, m;
    GrewEvolves(w, m, s0, s, |str|);
    if Safe(w, s0, str) {
      StreamedWrote(w, m, s0, s, str);
      SentWritten(w, m, s0, s, x, str);
    }
    FlushedNothing(m, s, x);
    if handed {
      b.Open(m);
      EvolvedIn(w, m, s0, s, n);
      WithinOpen(w, m, n);
      rv, k, w' := Flush(m, b, f);
      b.Open(w');
      SentFlushed(m, w', s, k, x, f.sent);
      EvolvedStep(w, m, w', s0, s, b.items);
      WithinStep(w, m, w', n, {});
      assert n + {} == n;
      if Safe(w, s0, str) {
        SentMore(w, m, w', s0, s, b.items, x, x, f.sent, str, []);
        assert str + [] == str;
      }
    }
  }
}
