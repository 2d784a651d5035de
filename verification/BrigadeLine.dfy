/** apr_brigade_split_line: moving buckets up to the end of a line, and gathering small
ones. */
module BrigadeLine {
  import opened Buckets
  import opened Rings
  import opened BucketOps
  import opened BucketRead
  import opened BrigadeSpec
  import opened Brigades
  import opened BrigadeWrite
  import opened BrigadeTidy

  const LF: Byte := 10

  /** memchr for LF: its first position, or the length. */
  method FindLF(str: seq<Byte>) returns (pos: nat)
    ensures pos <= |str| && LF !in str[..pos] && (pos < |str| ==> str[pos] == LF)
  {
    pos := 0;
    while pos < |str| && str[pos] != LF
      invariant pos <= |str| && LF !in str[..pos]
    {
      pos := pos + 1;
    }
  }

  // ---------- two brigades ----------

  ghost predicate Pair(w: World, out: Brigade, input: Brigade)
    reads out, input, out.list`next, out.list`prev, input.list`next, input.list`prev
    reads out.items`next, out.items`prev, input.items`next, input.items`prev
  {
    out != input && out.Valid(w) && input.Valid(w) && out.Apart(input)
  }

  lemma PairOpen(w: World, out: Brigade, input: Brigade)
    requires Pair(w, out, input)
    ensures out.Valid(w) && input.Valid(w) && out.list != input.list
    ensures out.list !in input.items && input.list !in out.items
    ensures Ring([out.list] + out.items) && Ring([input.list] + input.items)
    ensures AllLive(w, out.items) && AllLive(w, input.items)
    ensures out.list !in w.at && input.list !in w.at && Distinct(out.items) && Distinct(input.items)
    ensures forall b :: b in out.items ==> b !in input.items
  {
    out.Open(w);
    input.Open(w);
    var r, q := [out.list] + out.items, [input.list] + input.items;
    assert r[0] == out.list && q[0] == input.list;
    assert forall i :: 0 <= i < |out.items| ==> out.items[i] == r[i + 1];
    assert forall i :: 0 <= i < |input.items| ==> input.items[i] == q[i + 1];
  }

  lemma PairClose(w: World, out: Brigade, input: Brigade)
    requires out != input && out.Valid(w) && input.Valid(w)
    requires out.list != input.list && out.list !in input.items && input.list !in out.items
    requires forall b :: b in out.items ==> b !in input.items
    ensures Pair(w, out, input)
  {
    var r, q := [out.list] + out.items, [input.list] + input.items;
    forall i, j | 0 <= i < |r| && 0 <= j < |q| ensures r[i] != q[j] {
      assert i > 0 ==> r[i] in out.items;
      assert j > 0 ==> q[j] in input.items;
    }
    hide Ring, AllLive;
  }

  /** The elements of one ring are not in the other brigade. */
  ghost predicate Beside(r: seq<Bucket>, b: Brigade)
    reads b
  {
    forall i :: 0 <= i < |r| ==> r[i] !in b.items && r[i] != b.list
  }

  lemma PairBeside(w: World, out: Brigade, input: Brigade)
    requires Pair(w, out, input)
    ensures Beside([out.list] + out.items, input) && Beside([input.list] + input.items, out)
  {
    PairOpen(w, out, input);
    hide Ring, AllLive;
  }

  method RemoveBeside(ghost w: World, b: Brigade, ghost r: seq<Bucket>) returns (e: Bucket)
    requires b.Valid(w) && b.items != [] && Ring(r) && Beside(r, b)
    modifies b`items, b.items`next, b.items`prev, b.list`next, b.list`prev
    ensures b.Valid(w) && e == old(b.items[0]) && b.items == old(b.items[1..]) && Ring(r)
  {
    e := b.RemoveFirst(w);
  }

  method InsertBeside(ghost w: World, b: Brigade, e: Bucket, ghost r: seq<Bucket>)
    requires b.Valid(w) && e in w.at && e !in b.items && Ring(r) && Beside(r, b) && e !in r
    modifies b`items, b.items`next, b.items`prev, b.list`next, b.list`prev, e`next, e`prev
    ensures b.Valid(w) && b.items == old(b.items) + [e] && Ring(r)
  {
    b.InsertTail(w, e);
  }

  /** APR_BUCKET_REMOVE of the first bucket of the input. */
  method DetachFirst(ghost w: World, out: Brigade, input: Brigade) returns (e: Bucket)
    requires Pair(w, out, input) && input.items != []
    modifies input`items, input.items`next, input.items`prev, input.list`next, input.list`prev
    ensures Pair(w, out, input) && e == old(input.items[0]) && input.items == old(input.items[1..])
    ensures e in w.at && e !in out.items && e !in input.items
  {
    hide Ring, AllLive, Distinct, Pair, Beside;
    PairOpen(w, out, input);
    PairBeside(w, out, input);
    input.First(w);
    e := RemoveBeside(w, input, [out.list] + out.items);
    out.Close(w);
    input.Open(w);
    PairClose(w, out, input);
  }

  /** APR_BRIGADE_INSERT_TAIL into the output. */
  method AttachLast(ghost w: World, out: Brigade, input: Brigade, e: Bucket)
    requires Pair(w, out, input) && e in w.at && e !in out.items && e !in input.items
    modifies out`items, out.items`next, out.items`prev, out.list`next, out.list`prev, e`next, e`prev
    ensures Pair(w, out, input) && out.items == old(out.items) + [e]
  {
    hide Ring, AllLive, Distinct, Pair, Beside;
    PairOpen(w, out, input);
    PairBeside(w, out, input);
    InsertBeside(w, out, e, [input.list] + input.items);
    input.Close(w);
    PairClose(w, out, input);
  }

  method MoveFirst(ghost w: World, out: Brigade, input: Brigade)
    requires Good(w) && Pair(w, out, input) && input.items != []
    modifies out`items, input`items, out.items`next, out.items`prev, input.items`next, input.items`prev
    modifies out.list`next, out.list`prev, input.list`next, input.list`prev
    ensures Good(w) && Pair(w, out, input)
    ensures out.items == old(out.items) + [old(input.items[0])] && input.items == old(input.items[1..])
  {
    hide Good, Pair;
    PairDistinct(w, out, input);
    var e := DetachFirst(w, out, input);
    AttachLast(w, out, input, e);
    assert Good(w);
  }

  // ---------- the stream ----------

  /** The stream of a group of buckets is the same, and nothing elsewhere has changed. */
  ghost predicate Flow(w: World, w': World, s: seq<Bucket>, s': seq<Bucket>) {
    Content(w', s') == Content(w, s) && Untouched(w, w', s) && Fresh(w, s, s')
  }

  lemma FlowStep(w: World, w1: World, w': World, s: seq<Bucket>, s1: seq<Bucket>, s': seq<Bucket>)
    requires Flow(w, w1, s, s1) && Flow(w1, w', s1, s')
    ensures Flow(w, w', s, s')
  {
    hide Content, Untouched, Fresh;
    UntouchedFresh(w, w1, w', s, s1, s');
  }

  lemma UntouchedFresh(w: World, w1: World, w': World, s: seq<Bucket>, s1: seq<Bucket>, s': seq<Bucket>)
    requires Untouched(w, w1, s) && Fresh(w, s, s1) && Untouched(w1, w', s1) && Fresh(w1, s1, s')
    ensures Untouched(w, w', s) && Fresh(w, s, s')
  {
    UntouchedStep(w, w1, w', s, s1);
    FreshStep(w, w1, s, s1, s');
  }

  /** A step of one brigade beside another. */
  lemma FlowBeside(w: World, w': World, out: seq<Bucket>, s: seq<Bucket>, s': seq<Bucket>)
    requires Flow(w, w', s, s') && AllLive(w, out) && forall b :: b in out ==> b !in s
    ensures AllLive(w', out) && Content(w', out) == Content(w, out) && Flow(w, w', out + s, out + s')
  {
    hide Bytes, Content;
    SlicesSame(w, w', out);
    ContentCat(w, out, s);
    ContentCat(w', out, s');
  }

  lemma MovedEvolves(w: World, w': World, o: seq<Bucket>, i: seq<Bucket>, o': seq<Bucket>, i': seq<Bucket>,
                     moved: seq<Byte>)
    requires Moved(w, w', o, i, o', i', moved)
    ensures Evolved(w, w', o + i, o' + i')
  {
    hide Bytes, Content;
  }

  /** `moved` has gone from `i` to the end of `o`. */
  ghost predicate Moved(w: World, w': World, o: seq<Bucket>, i: seq<Bucket>, o': seq<Bucket>, i': seq<Bucket>,
                        moved: seq<Byte>) {
    Content(w', o') == Content(w, o) + moved && Flow(w, w', o + i, o' + i')
  }

  lemma MovedNothing(w: World, o: seq<Bucket>, i: seq<Bucket>)
    ensures Moved(w, w, o, i, o, i, [])
  {
    hide Bytes, Content;
  }

  lemma MovedMore(w: World, w1: World, w': World, o: seq<Bucket>, i: seq<Bucket>, o1: seq<Bucket>, i1: seq<Bucket>,
                  o': seq<Bucket>, i': seq<Bucket>, moved: seq<Byte>, str: seq<Byte>)
    requires Moved(w, w1, o, i, o1, i1, moved) && Moved(w1, w', o1, i1, o', i', str)
    ensures Moved(w, w', o, i, o', i', moved + str)
  {
    hide Content, Flow;
    FlowStep(w, w1, w', o + i, o1 + i1, o' + i');
  }

  /** What has moved is what is missing at the beginning of the input. */
  lemma MovedFrom(w: World, w': World, o: seq<Bucket>, i: seq<Bucket>, o': seq<Bucket>, i': seq<Bucket>,
                  moved: seq<Byte>)
    requires Moved(w, w', o, i, o', i', moved)
    ensures Content(w, i) == moved + Content(w', i')
  {
    hide Content, Untouched, Fresh;
    ContentCat(w, o, i);
    ContentCat(w', o', i');
    Cancel(Content(w, o), Content(w, i), moved + Content(w', i'));
  }

  lemma Cancel(a: seq<Byte>, b: seq<Byte>, c: seq<Byte>)
    requires a + b == a + c
    ensures b == c
  {
    assert (a + b)[|a|..] == b && (a + c)[|a|..] == c;
  }

  lemma MovedOne(w: World, o: seq<Bucket>, i: seq<Bucket>)
    requires i != [] && i[0] in w.at
    ensures Moved(w, w, o, i, o + [i[0]], i[1..], Bytes(w, w.at[i[0]]))
  {
    hide Bytes, Content;
    ContentCat(w, o, [i[0]]);
    ContentOne(w, i[0]);
    assert o + i == (o + [i[0]]) + i[1..];
  }

  /** The first bucket has been written to the end of `o`, and destroyed. */
  ghost predicate Gathered(w: World, w1: World, w': World, o: seq<Bucket>, o': seq<Bucket>, i: seq<Bucket>, n: nat) {
    && Untouched(w, w1, o) && (o' == o || Appended(w, w1, o, o', n))
    && AllLive(w1, o') && i != [] && w'.at == w1.at - {i[0]} && SameBytes(w1, w')
  }

  lemma MovedWritten(w: World, w1: World, w': World, o: seq<Bucket>, o': seq<Bucket>, i: seq<Bucket>, str: seq<Byte>)
    requires i != [] && Gathered(w, w1, w', o, o', i, |str|) && AllLive(w, o + i) && Distinct(i)
    requires forall b :: b in o ==> b !in i
    requires Content(w1, o') == Content(w, o) + str && Bytes(w, w.at[i[0]]) == str
    ensures Moved(w, w', o, i, o', i[1..], str)
    ensures AllLive(w', o') && AllLive(w', i[1..]) && Content(w', i[1..]) == Content(w, i[1..])
  {
    hide Bytes, Content, Gathered, Untouched, Fresh, SameBytes, Distinct, Lengths;
    assert i[0] in o + i;
    GatheredOut(w, w1, w', o, o', i, |str|);
    GatheredRest(w, w1, w', o, o', i, |str|);
    GatheredFlow(w, w1, w', o, o', i, |str|);
    ContentCat(w, o, i);
    assert i == [i[0]] + i[1..];
    ContentCat(w, [i[0]], i[1..]);
    ContentOne(w, i[0]);
    ContentCat(w', o', i[1..]);
    assert Content(w, o) + str + Content(w, i[1..]) == Content(w, o) + (str + Content(w, i[1..]));
  }

  lemma GatheredOut(w: World, w1: World, w': World, o: seq<Bucket>, o': seq<Bucket>, i: seq<Bucket>, n: nat)
    requires Gathered(w, w1, w', o, o', i, n) && AllLive(w, o + i) && forall b :: b in o ==> b !in i
    ensures AllLive(w', o') && Content(w', o') == Content(w1, o')
  {
    hide Bytes, SameBytes, Untouched;
    assert i[0] in o + i;
    assert forall b :: b in o' ==> b in o || b !in w.at;
    ContentSame(w1, w', o');
  }

  lemma GatheredRest(w: World, w1: World, w': World, o: seq<Bucket>, o': seq<Bucket>, i: seq<Bucket>, n: nat)
    requires Gathered(w, w1, w', o, o', i, n) && AllLive(w, o + i) && Distinct(i) && forall b :: b in o ==> b !in i
    ensures AllLive(w', i[1..]) && Content(w', i[1..]) == Content(w, i[1..])
  {
    hide Bytes, Appended;
    var rest := i[1..];
    forall b | b in rest
      ensures b in w.at && b in w'.at && w'.at[b] == w.at[b] && Bytes(w', w.at[b]) == Bytes(w, w.at[b])
    {
      assert b in i && b != i[0] && b in o + i;
    }
    SlicesSame(w, w', rest);
  }

  lemma GatheredFlow(w: World, w1: World, w': World, o: seq<Bucket>, o': seq<Bucket>, i: seq<Bucket>, n: nat)
    requires Gathered(w, w1, w', o, o', i, n)
    ensures Untouched(w, w', o + i) && Fresh(w, o + i, o' + i[1..])
  {
    hide Bytes;
    assert forall b :: b in i[1..] ==> b in i;
    assert forall b :: b in o' ==> b in o || b !in w.at;
    forall b | b in w.at && b !in o + i
      ensures b in w'.at && w'.at[b] == w.at[b] && Bytes(w', w.at[b]) == Bytes(w, w.at[b])
    {
      assert b !in o && b != i[0];
    }
  }

  // ---------- the steps of the loop ----------

  method ReadBeside(ghost w: World, e: Bucket, b: Brigade, ghost r: seq<Bucket>)
    returns (rv: Status, str: seq<Byte>, ghost c: Bucket, ghost io: seq<Io>, ghost w': World, ghost n: set<object>)
    requires Good(w) && b.Valid(w) && b.items != [] && b.items[0] == e && Ring(r) && Beside(r, b)
    modifies b`items, b.items, w.res.Keys, w.pipes.Keys, b.list`next, b.list`prev
    ensures Good(w') && b.Valid(w') && Stepped(w, w', old(b.items), b.items, 0) && b.items == Grown(old(b.items), 0, c)
    ensures rv in {Success, EndOfFile, IoError} && (rv == Success ==> InHand(w', e, str))
    ensures rv == Success ==> b.items != [] && Ahead(w', b.items, 1) < Ahead(w, old(b.items), 0)
    ensures ReadTo(w, w', e, c, rv, str) && (c != e ==> c !in w.at)
    ensures e in w.at && Answered(w.at[e], io, rv, str) && Reported(io, rv)
    ensures Ring(r) && Beside(r, b) && fresh(n) && Within(w, w', n)
  {
    hide Good, ReadTo, Stepped, InHand, Ahead, Within, Conserved, Retargeted, Grown, Answered, Reported;
    b.Open(w);
    ghost var s := b.items;
    rv, str, c, io, w', n := b.ReadItem(w, e, 0);
    WithinOpen(w, w', n);
    RestLive(w, w', e, c, rv, str);
    GrownBeside(b, r, s, c);
  }

  lemma RestLive(w: World, w': World, e: Bucket, c: Bucket, rv: Status, str: seq<Byte>)
    requires ReadTo(w, w', e, c, rv, str)
    ensures c in w'.at
  {
  }

  lemma GrownBeside(b: Brigade, r: seq<Bucket>, s: seq<Bucket>, c: Bucket)
    requires s != [] && b.items == Grown(s, 0, c) && c !in r
    requires forall i :: 0 <= i < |r| ==> r[i] !in s && r[i] != b.list
    ensures Beside(r, b)
  {
  }

  lemma QueueFacts(w: World, o: seq<Bucket>, i: seq<Bucket>)
    requires AllLive(w, o) && AllLive(w, i) && Distinct(i) && forall b :: b in o ==> b !in i
    ensures AllLive(w, Queue(o, i)) && Distinct(Queue(o, i)) && AllLive(w, o + i)
  {
    var q := Queue(o, i);
    if o == [] {
      assert q == i;
    } else {
      assert q[0] in o && forall k :: 0 < k < |q| ==> q[k] == i[k - 1] && q[k] in i;
    }
  }

  /** The queue stays tidy when its first unread bucket is read. */
  lemma QueueRead(w: World, w': World, o: seq<Bucket>, i: seq<Bucket>, c: Bucket, rv: Status, str: seq<Byte>)
    requires Sound(w) && i != [] && AllLive(w, o) && AllLive(w, i) && Distinct(i) && forall b :: b in o ==> b !in i
    requires Tidy(w, Queue(o, i)) && ReadTo(w, w', i[0], c, rv, str) && (c != i[0] ==> c !in w.at)
    ensures Tidy(w', Queue(o, Grown(i, 0, c)))
  {
    hide Sound, Tidy, ReadTo, Refreshed, Distinct, AllLive;
    var k := if o == [] then 0 else 1;
    QueueFacts(w, o, i);
    ReadRefreshes(w, w', i[0], c, rv, str);
    assert Queue(o, i)[k] == i[0];
    TidyRead(w, w', Queue(o, i), k, c);
    assert Queue(o, Grown(i, 0, c)) == Grown(Queue(o, i), k, c);
  }

  lemma ReadMoves(w: World, w': World, o: seq<Bucket>, i: seq<Bucket>, i': seq<Bucket>)
    requires Stepped(w, w', i, i', 0) && AllLive(w, o) && forall b :: b in o ==> b !in i
    ensures Moved(w, w', o, i, o, i', []) && AllLive(w', o) && i != [] && i' != [] && i'[0] == i[0]
    ensures forall b :: b in i' ==> b in i || b !in w.at
  {
    hide Bytes, Content, Lengths;
    StillThere(w, w', i, i', 0);
    FlowBeside(w, w', o, i, i');
  }

  /** A read of the first bucket changes nothing when its data is in memory, but for the
      type of a bucket whose pool has gone. */
  ghost predicate FirstRead(w: World, w1: World, i: seq<Bucket>, i1: seq<Bucket>, rv: Status) {
    && i != [] && i[0] in w.at
    && (w.at[i[0]].kind !in {File, Pipe} ==>
          && rv == Success && i1 == i && w1.res == w.res && w1.at == w.at[i[0] := Opened(w, w.at[i[0]])]
          && SameBytes(w, w1) && Bytes(w1, w1.at[i[0]]) == Bytes(w, w.at[i[0]]))
  }

  lemma FirstReadIs(w: World, w1: World, i: seq<Bucket>, c: Bucket, rv: Status, str: seq<Byte>)
    requires i != [] && ReadTo(w, w1, i[0], c, rv, str)
    ensures FirstRead(w, w1, i, Grown(i, 0, c), rv)
  {
    hide Bytes, SameBytes;
  }

  /** apr_bucket_read on the first bucket of the input. */
  method ReadFirst(ghost w: World, out: Brigade, input: Brigade)
    returns (rv: Status, str: seq<Byte>, e: Bucket, ghost io: seq<Io>, ghost w': World, ghost n: set<object>)
    requires Good(w) && Pair(w, out, input) && input.items != []
    modifies input`items, input.items, w.res.Keys, w.pipes.Keys, input.list`next, input.list`prev
    ensures Good(w') && Pair(w', out, input)
    ensures Tidy(w, Queue(out.items, old(input.items))) ==> Tidy(w', Queue(out.items, input.items))
    ensures Moved(w, w', out.items, old(input.items), out.items, input.items, [])
    ensures input.items != [] && e == input.items[0] == old(input.items[0])
    ensures rv in {Success, EndOfFile, IoError} && (rv == Success ==> InHand(w', e, str))
    ensures rv == Success ==> Ahead(w', input.items, 1) < Ahead(w, old(input.items), 0)
    ensures FirstRead(w, w', old(input.items), input.items, rv)
    ensures e in w.at && Answered(w.at[e], io, rv, str) && Reported(io, rv)
    ensures fresh(n) && Within(w, w', n) && forall b :: b in input.items ==> b in old(input.items) || b in n
  {
    hide Ring, Shows, Sound, ReadTo, Stepped, InHand, Ahead, Within, Grown, Tidy, Queue, Moved, Pair, Beside, Distinct,
         AllLive, FirstRead, Answered, Reported;
    PairOpen(w, out, input);
    PairBeside(w, out, input);
    input.First(w);
    ghost var s, c, r := input.items, input.list.next, [out.list] + out.items;
    e := input.list.next;
    rv, str, c, io, w', n := ReadBeside(w, e, input, r);
    if Tidy(w, Queue(out.items, s)) { QueueRead(w, w', out.items, s, c, rv, str); }
    FirstReadIs(w, w', s, c, rv, str);
    SplitMoves(w, w', out.items, s, input.items, n);
    StillThere(w, w', s, input.items, 0);
    WithinOpen(w, w', n);
    input.Open(w');
    out.Close(w');
    BesideOpen(out, input);
    PairClose(w', out, input);
  }

  lemma BesideOpen(out: Brigade, input: Brigade)
    requires Beside([out.list] + out.items, input)
    ensures out.list != input.list && out.list !in input.items && input.list !in out.items
    ensures forall b :: b in out.items ==> b !in input.items
  {
    var r := [out.list] + out.items;
    assert r[0] == out.list && forall i :: 0 <= i < |out.items| ==> out.items[i] == r[i + 1];
  }

  method SplitBeside(ghost w: World, e: Bucket, b: Brigade, point: nat, ghost r: seq<Bucket>)
    returns (rv: Status, ghost w': World, ghost n: set<object>)
    requires Good(w) && b.Valid(w) && b.items != [] && b.items[0] == e && Ring(r) && Beside(r, b)
    modifies b`items, b.items, w.res.Keys, w.pipes.Keys, b.list`next, b.list`prev
    ensures Good(w') && b.Valid(w') && rv == SplitStatus(w.at[e], point)
    ensures rv == Success ==> Stepped(w, w', old(b.items), b.items, 0) && Shortened(w, w', e, point)
    ensures Ring(r) && Beside(r, b) && fresh(n) && Within(w, w', n)
  {
    hide Good, Stepped, Within, Shortened, SplitStatus;
    b.Open(w);
    ghost var s := b.items;
    ghost var c;
    rv, c, w', n := b.SplitItem(w, e, 0, point);
    WithinOpen(w, w', n);
    b.Open(w');
    if rv == Success { SteppedBeside(w, w', b, r, s); }
  }

  lemma SteppedBeside(w: World, w': World, b: Brigade, r: seq<Bucket>, s: seq<Bucket>)
    requires Stepped(w, w', s, b.items, 0) && AllLive(w', b.items)
    requires forall i :: 0 <= i < |r| ==> r[i] !in s && r[i] != b.list && (r[i] in w'.at ==> r[i] in w.at)
    ensures Beside(r, b)
  {
    hide Advanced;
  }

  /** The bytes of the first bucket after a split. */
  lemma SplitFirst(w: World, w': World, s: seq<Bucket>, s': seq<Bucket>, e: Bucket, str: seq<Byte>, point: nat)
    requires Sound(w) && Sound(w') && s != [] && s[0] == e && InHand(w, e, str) && point <= |str| && AllLive(w, s)
    requires Stepped(w, w', s, s', 0) && Shortened(w, w', e, point)
    ensures s' != [] && s'[0] == e && InHand(w', e, str[..point])
  {
    hide Sound, Bytes, Content, Lengths, Untouched;
    StillThere(w, w', s, s', 0);
    ShortBytes(w, w', e, str, point);
    FirstBytes(w, s);
    FirstBytes(w', s');
    var a, b := Content(w, s), Bytes(w', w'.at[e]);
    assert a[..point] == str[..point] && a[..point] == b;
  }

  lemma FirstBytes(w: World, s: seq<Bucket>)
    requires s != [] && s[0] in w.at
    ensures Content(w, s) == Bytes(w, w.at[s[0]]) + Content(w, s[1..])
  {
    hide Bytes, Content;
    assert s == [s[0]] + s[1..];
    ContentCat(w, [s[0]], s[1..]);
    ContentOne(w, s[0]);
  }

  lemma ShortBytes(w: World, w': World, e: Bucket, str: seq<Byte>, point: nat)
    requires Sound(w) && Sound(w') && InHand(w, e, str) && Shortened(w, w', e, point) && point <= |str|
    ensures e in w'.at && |Bytes(w', w'.at[e])| == point && w'.at[e].kind == w.at[e].kind
  {
    BucketInSound(w, e);
    LengthOfBytes(w', e);
  }

  /** What has been read can be split. */
  lemma CanSplit(w: World, e: Bucket, str: seq<Byte>, point: nat)
    requires Sound(w) && InHand(w, e, str) && 0 < point <= |str|
    ensures e in w.at && SplitStatus(w.at[e], point) == Success
  {
    BucketInSound(w, e);
  }

  /** apr_bucket_split on the first bucket of the input. */
  method SplitLineEnd(ghost w: World, out: Brigade, input: Brigade, e: Bucket, ghost str: seq<Byte>, point: nat)
    returns (ghost w': World, ghost n: set<object>)
    requires Good(w) && Pair(w, out, input) && input.items != []
    requires e == input.items[0] && InHand(w, e, str) && 0 < point <= |str|
    modifies input`items, input.items, w.res.Keys, w.pipes.Keys, input.list`next, input.list`prev
    ensures Good(w') && Pair(w', out, input) && fresh(n) && Within(w, w', n)
    ensures Moved(w, w', out.items, old(input.items), out.items, input.items, []) && input.items != []
    ensures InHand(w', input.items[0], str[..point]) && forall b :: b in input.items ==> b in old(input.items) || b in n
  {
    hide Ring, Shows, Sound, Stepped, Shortened, SplitStatus, InHand, Within, Moved, Pair, Beside, Distinct, AllLive;
    CanSplit(w, e, str, point);
    PairOpen(w, out, input);
    PairBeside(w, out, input);
    ghost var s, r := input.items, [out.list] + out.items;
    var rv;
    rv, w', n := SplitBeside(w, e, input, point, r);
    SplitFirst(w, w', s, input.items, e, str, point);
    SplitMoves(w, w', out.items, s, input.items, n);
    WithinOpen(w, w', n);
    input.Open(w');
    out.Close(w');
    BesideOpen(out, input);
    PairClose(w', out, input);
  }

  lemma SplitMoves(w: World, w': World, o: seq<Bucket>, i: seq<Bucket>, i': seq<Bucket>, n: set<object>)
    requires Stepped(w, w', i, i', 0) && AllLive(w, o) && (forall b :: b in o ==> b !in i) && Within(w, w', n)
    ensures Moved(w, w', o, i, o, i', []) && AllLive(w', o) && i' != []
    ensures AllLive(w', i') ==> forall b :: b in i' ==> b in i || b in n
  {
    ReadMoves(w, w', o, i, i');
    hide Stepped;
  }

  /** The first bucket is split, and its first part moves. */
  method TakeLine(ghost w: World, out: Brigade, input: Brigade, e: Bucket, ghost str: seq<Byte>, point: nat)
    returns (ghost w': World, ghost n: set<object>)
    requires Good(w) && Pair(w, out, input) && input.items != []
    requires e == input.items[0] && InHand(w, e, str) && 0 < point <= |str|
    modifies out`items, input`items, out.items`next, out.items`prev, input.items, w.res.Keys, w.pipes.Keys
    modifies out.list`next, out.list`prev, input.list`next, input.list`prev
    ensures Good(w') && Pair(w', out, input) && fresh(n) && Within(w, w', n)
    ensures Moved(w, w', old(out.items), old(input.items), out.items, input.items, str[..point])
  {
    hide Ring, Good, InHand, Within, Moved, Pair, Distinct, AllLive;
    PairDistinct(w, out, input);
    ghost var o, s := out.items, input.items;
    w', n := SplitLineEnd(w, out, input, e, str, point);
    MovedFirst(w, w', o, s, input.items, str[..point]);
    assert forall j :: 0 <= j < |input.items| ==> input.items[j] in s || fresh(input.items[j]);
    MoveFirst(w', out, input);
  }

  lemma PairDistinct(w: World, out: Brigade, input: Brigade)
    requires Pair(w, out, input)
    ensures out != input
  {
  }

  lemma MovedFirst(w: World, w': World, o: seq<Bucket>, s: seq<Bucket>, s': seq<Bucket>, str: seq<Byte>)
    requires Moved(w, w', o, s, o, s', []) && s' != [] && InHand(w', s'[0], str)
    ensures Moved(w, w', o, s, o + [s'[0]], s'[1..], str)
  {
    hide Moved, Bytes;
    MovedOne(w', o, s');
    MovedMore(w, w', w', o, s, o, s', o + [s'[0]], s'[1..], [], str);
    assert [] + str == str;
  }

  method WriteBeside(ghost w: World, b: Brigade, str: seq<Byte>, ghost r: seq<Bucket>)
    returns (ghost w': World, ghost n: set<object>)
    requires Good(w) && b.Valid(w) && |str| < UNKNOWN && Ring(r) && Beside(r, b)
    modifies b`items, b.items, w.res.Keys, b.list`next, b.list`prev
    ensures Good(w') && b.Valid(w') && Grew(w, w', old(b.items), b.items, |str|)
    ensures Safe(w, old(b.items), str) ==> Streamed(w, w', old(b.items), b.items, str)
    ensures Effect(w, w', old(b.items), b.items, str)
    ensures Ring(r) && Beside(r, b) && fresh(n) && Within(w, w', n)
  {
    hide Good, Streamed, Safe, Within, Grew, PassedOn, Effect, Room;
    b.Open(w);
    ghost var s := b.items;
    var handed;
    handed, w', n := Write(w, b, str, false);
    WithinOpen(w, w', n);
    GrewBeside(w, w', b, r, s, |str|);
  }

  lemma GrewBeside(w: World, w': World, b: Brigade, r: seq<Bucket>, s: seq<Bucket>, n: nat)
    requires Grew(w, w', s, b.items, n)
    requires forall i :: 0 <= i < |r| ==> r[i] !in s && r[i] != b.list && (r[i] in w'.at ==> r[i] in w.at)
    ensures Beside(r, b)
  {
    hide Bytes, Content;
  }

  /** The bytes have been written to the end of `o`, if there are any. */
  ghost predicate Put(w: World, w': World, o: seq<Bucket>, o': seq<Bucket>, str: seq<Byte>) {
    && Content(w', o') == Content(w, o) + str && Untouched(w, w', o)
    && ((o' == o && w'.at == w.at && str == []) || Appended(w, w', o, o', |str|))
  }

  /** Whatever a write has done, the buckets elsewhere are as long as they were. */
  ghost predicate PutAny(w: World, w': World, o: seq<Bucket>, o': seq<Bucket>, n: nat) {
    (o' == o && w' == w) || Grew(w, w', o, o', n)
  }

  lemma PutNothing(w: World, o: seq<Bucket>)
    ensures Put(w, w, o, o, []) && PutAny(w, w, o, o, 0)
  {
    hide Bytes, Content;
  }

  /** apr_brigade_write beside another brigade, if there is something to write. */
  method PutBytes(ghost w: World, out: Brigade, input: Brigade, str: seq<Byte>)
    returns (ghost w': World, ghost n: set<object>)
    requires Good(w) && Pair(w, out, input) && |str| < UNKNOWN
    modifies out`items, out.items, w.res.Keys, out.list`next, out.list`prev
    ensures Good(w') && Pair(w', out, input) && PutAny(w, w', old(out.items), out.items, |str|)
    ensures Safe(w, old(out.items), str) ==> Put(w, w', old(out.items), out.items, str)
    ensures if str == [] then out.items == old(out.items) && w' == w else Effect(w, w', old(out.items), out.items, str)
    ensures fresh(n) && Within(w, w', n)
  {
    hide Ring, Good, Safe, Streamed, Grew, Put, PutAny, Within, Pair, Beside, Distinct, AllLive, Effect;
    PairDistinct(w, out, input);
    if |str| == 0 {
      PutNothing(w, out.items);
      WithinNothing(w);
      w', n := w, {};
    } else {
      PairOpen(w, out, input);
      PairBeside(w, out, input);
      ghost var o := out.items;
      w', n := WriteBeside(w, out, str, [input.list] + input.items);
      WithinOpen(w, w', n);
      GrewPuts(w, w', o, out.items, input.items, |str|);
      if Safe(w, o, str) { StreamedPuts(w, w', o, out.items, input.items, str); }
      input.Close(w');
      BesideOpen(input, out);
      PairClose(w', out, input);
    }
  }

  lemma GrewPuts(w: World, w': World, o: seq<Bucket>, o': seq<Bucket>, i: seq<Bucket>, n: nat)
    requires Grew(w, w', o, o', n) && AllLive(w, i) && forall b :: b in o ==> b !in i
    ensures PutAny(w, w', o, o', n) && AllLive(w', i)
  {
    hide Bytes, Content, Appended;
  }

  lemma StreamedPuts(w: World, w': World, o: seq<Bucket>, o': seq<Bucket>, i: seq<Bucket>, str: seq<Byte>)
    requires Streamed(w, w', o, o', str)
    ensures Put(w, w', o, o', str)
  {
    hide Bytes, Content, Appended;
  }

  /** apr_bucket_destroy on a bucket of neither brigade. */
  method DestroyAside(ghost w: World, out: Brigade, input: Brigade, e: Bucket) returns (ghost w': World)
    requires Good(w) && Pair(w, out, input) && e in w.at && e !in out.items && e !in input.items
    modifies w.res.Keys
    ensures Good(w') && Pair(w', out, input) && Within(w, w', {}) && w'.at == w.at - {e} && SameBytes(w, w')
    ensures NoneMade(w, w')
  {
    hide Ring, AllLive, Distinct, Pair, Good, Within, SameBytes, NoneMade;
    PairOpen(w, out, input);
    ghost var r, q := [out.list] + out.items, [input.list] + input.items;
    w' := out.DestroyOut(w, e);
    assert Ring(r) && Ring(q);
    LiveWithout(w, w', out.items, e);
    LiveWithout(w, w', input.items, e);
    out.Close(w');
    input.Close(w');
    PairDistinct(w, out, input);
    PairClose(w', out, input);
  }

  lemma Gatherable(w: World, out: Brigade, input: Brigade, str: seq<Byte>)
    requires Good(w) && Pair(w, out, input) && input.items != [] && InHand(w, input.items[0], str)
    ensures out != input && |str| < UNKNOWN && AllLive(w, out.items) && AllLive(w, input.items) && Distinct(input.items)
    ensures forall b :: b in out.items ==> b !in input.items
    ensures Tidy(w, Queue(out.items, input.items)) ==> Safe(w, out.items, str)
  {
    hide Ring, Sound, Shows, InHand, Safe, Distinct, Tidy, Queue;
    PairOpen(w, out, input);
    InHandShown(w, input.items[0], str);
    assert input.items == [input.items[0]] + input.items[1..];
    if Tidy(w, Queue(out.items, input.items)) { TidyIsSafe(w, out.items, input.items[0], input.items[1..], str); }
  }

  lemma PutKeeps(w: World, w': World, o: seq<Bucket>, o': seq<Bucket>, e: Bucket, n: nat)
    requires PutAny(w, w', o, o', n) && e in w.at && e !in o
    ensures e in w'.at && e !in o'
  {
    hide Bytes, Content;
  }

  /** What remains of the input, whatever a write has done. */
  lemma GatheredAny(w: World, w1: World, w': World, o: seq<Bucket>, o': seq<Bucket>, i: seq<Bucket>, n: nat)
    requires i != [] && AllLive(w, i) && Distinct(i) && forall b :: b in o ==> b !in i
    requires PutAny(w, w1, o, o', n) && AllLive(w1, o') && w'.at == w1.at - {i[0]} && SameBytes(w1, w')
    ensures Evolved(w, w', o + i, o' + i[1..]) && |Content(w', i[1..])| == |Content(w, i[1..])|
  {
    hide Bytes, Content, Lengths, Appended;
    var rest := i[1..];
    forall b | b in w.at && b !in o
      ensures b in w1.at && w1.at[b] == w.at[b] && |Bytes(w1, w.at[b])| == |Bytes(w, w.at[b])|
    {
    }
    assert forall k :: 0 <= k < |rest| ==> rest[k] == i[k + 1];
    forall b | b in rest
      ensures b in w.at && b in w'.at && w'.at[b] == w.at[b] && |Bytes(w', w.at[b])| == |Bytes(w, w.at[b])|
    {
      assert b in i && b != i[0];
    }
    SlicesDiffer(w, w', rest);
    AppendedIn(w, w1, o, o', n);
    assert i[0] in o + i && forall b :: b in rest ==> b in o + i;
  }

  lemma AppendedIn(w: World, w': World, o: seq<Bucket>, o': seq<Bucket>, n: nat)
    requires PutAny(w, w', o, o', n)
    ensures forall b :: b in o' ==> b in o || b !in w.at
  {
    hide Bytes;
  }

  lemma GatheredAll(w: World, w1: World, w': World, o: seq<Bucket>, o': seq<Bucket>, i: seq<Bucket>, str: seq<Byte>)
    requires Sound(w) && i != [] && AllLive(w, o) && AllLive(w, i) && Distinct(i) && forall b :: b in o ==> b !in i
    requires Put(w, w1, o, o', str) && AllLive(w1, o') && w'.at == w1.at - {i[0]}
    requires SameBytes(w1, w') && InHand(w, i[0], str)
    ensures Moved(w, w', o, i, o', i[1..], str)
    ensures Tidy(w, Queue(o, i)) ==> Tidy(w', Queue(o', i[1..]))
  {
    hide Sound, Bytes, Content, Tidy, Queue, Distinct, Moved, SameBytes, AllLive, Untouched, Appended;
    assert i == [i[0]] + i[1..];
    QueueFacts(w, o, i);
    MovedWritten(w, w1, w', o, o', i, str);
    assert o + i == o + [i[0]] + i[1..];
    if Tidy(w, Queue(o, i)) { TidyGathered(w, w1, w', o, o', i[0], i[1..], |str|); }
  }

  /** What has become of everything when `e` has been written, which `m` shows, and
      destroyed. */
  ghost predicate Poured(w: World, m: World, w': World, o: seq<Bucket>, o': seq<Bucket>, e: Bucket, str: seq<Byte>) {
    && (if str == [] then o' == o && m == w else Effect(w, m, o, o', str))
    && w'.at == m.at - {e} && SameBytes(m, w') && NoneMade(m, w')
  }

  /** The first bucket of the input is written to the output, and destroyed: its bytes
      move, when that does no harm. */
  method GatherFirst(ghost w: World, out: Brigade, input: Brigade, str: seq<Byte>)
    returns (ghost m: World, ghost w': World, ghost n: set<object>)
    requires Good(w) && Pair(w, out, input) && input.items != [] && InHand(w, input.items[0], str)
    modifies out`items, input`items, out.items, input.items`next, input.items`prev, w.res.Keys
    modifies out.list`next, out.list`prev, input.list`next, input.list`prev
    ensures Good(w') && Pair(w', out, input) && fresh(n) && Within(w, w', n) && input.items == old(input.items[1..])
    ensures Evolved(w, w', old(out.items + input.items), out.items + input.items)
    ensures |Content(w', input.items)| == |Content(w, input.items)|
    ensures Poured(w, m, w', old(out.items), out.items, old(input.items[0]), str)
    ensures Safe(w, old(out.items), str) ==> Moved(w, w', old(out.items), old(input.items), out.items, input.items, str)
    ensures Tidy(w, Queue(old(out.items), old(input.items))) ==>
      Safe(w, old(out.items), str) && Tidy(w', Queue(out.items, input.items))
  {
    hide Ring, Shows, Sound, InHand, Tidy, Queue, Safe, Put, PutAny, Within, Pair, Beside, Distinct, AllLive, Moved,
         Evolved, Content, SameBytes, Effect;
    Gatherable(w, out, input, str);
    ghost var o, i := out.items, input.items;
    var e := DetachFirst(w, out, input);
    m, n := PutBytes(w, out, input, str);
    WithinOpen(w, m, n);
    PutKeeps(w, m, o, out.items, e, |str|);
    PairOpen(m, out, input);
    w' := DestroyAside(m, out, input, e);
    WithinStep(w, m, w', n, {});
    assert n + {} == n;
    GatheredAny(w, m, w', o, out.items, i, |str|);
    if Safe(w, o, str) { GatheredAll(w, m, w', o, out.items, i, str); }
  }

  lemma QueueMoved(w: World, o: seq<Bucket>, i: seq<Bucket>)
    requires Sound(w) && i != [] && Tidy(w, Queue(o, i))
    ensures Tidy(w, Queue(o + [i[0]], i[1..]))
  {
    hide Sound, Tidy;
    var q := Queue(o, i);
    assert Queue(o + [i[0]], i[1..]) == i;
    if o == [] { assert q == i; } else { assert q[1..] == i; TidyTail(w, q); }
  }

  lemma HandsOver(w: World, o: seq<Bucket>, i: seq<Bucket>, str: seq<Byte>)
    requires i != [] && InHand(w, i[0], str)
    ensures Moved(w, w, o, i, o + [i[0]], i[1..], str)
  {
    hide Moved, Bytes;
    MovedOne(w, o, i);
  }

  /** The memory that `n` bytes of `e` are copied to, at the end of the last bucket, and
      that of `e` are one and the same, or do not overlap, as memcpy requires. */
  ghost predicate Copyable(w: World, o: seq<Bucket>, e: Bucket, n: nat)
    requires e in w.at
  {
    Fitting(w, o, n) && w.at[e].data == w.at[o[|o| - 1]].data ==>
      var end, s := EndOfSlice(w.at[o[|o| - 1]]), w.at[e];
      s.start == end || EndOfSlice(s) <= end || s.start >= end + n
  }

  /** The bytes of a bucket move with it, or by a copy without harm to others. */
  ghost predicate Passable(w: World, o: seq<Bucket>, e: Bucket, str: seq<Byte>) {
    && e in w.at
    && (w.at[e].kind == Metadata || |str| > BUFF_SIZE / 4 || (Copyable(w, o, e, |str|) && Safe(w, o, str)))
  }

  lemma PassableIs(w: World, o: seq<Bucket>, e: Bucket, str: seq<Byte>)
    requires e in w.at
    ensures Passable(w, o, e, str) <==>
      w.at[e].kind == Metadata || |str| > BUFF_SIZE / 4 || (Copyable(w, o, e, |str|) && Safe(w, o, str))
  {
    hide Safe, Copyable;
  }

  lemma TidyIsCopyable(w: World, o: seq<Bucket>, e: Bucket, rest: seq<Bucket>, n: nat)
    requires Sound(w) && e in w.at && Tidy(w, Queue(o, [e] + rest))
    ensures Copyable(w, o, e, n)
  {
    if Fitting(w, o, n) && w.at[e].data == w.at[o[|o| - 1]].data {
      var q := Queue(o, [e] + rest);
      assert q[0] == o[|o| - 1] && q[1] == e;
      Ordered(w, q, 0, 1);
    }
    hide Sound;
  }

  /** Such a copy leaves the bytes of the bucket itself as they are. */
  lemma CopyKeepsSource(w: World, o: seq<Bucket>, e: Bucket, str: seq<Byte>)
    requires Sound(w) && Fitting(w, o, |str|) && HasRoom(w, o[|o| - 1], |str|) && InHand(w, e, str) && e != o[|o| - 1]
    requires Copyable(w, o, e, |str|)
    ensures Harmless(w, o[|o| - 1], str, e)
  {
    hide Sound, Bytes, InHand;
    var b := o[|o| - 1];
    InHandLength(w, e, str);
    if w.at[e].data == w.at[b].data {
      SharedSlice(w, b, e);
      SharedBytes(w, w.at[e], w.at[b].data.r);
    }
  }

  lemma InHandLength(w: World, e: Bucket, str: seq<Byte>)
    requires InHand(w, e, str)
    ensures e in w.at && w.at[e].length == |str| && Bytes(w, w.at[e]) == str
  {
    hide Bytes;
  }

  /** What a pass does to the state and the brigades, whatever harm it does. */
  ghost predicate Acted(w: World, m: World, w': World, o: seq<Bucket>, i: seq<Bucket>, o': seq<Bucket>, i': seq<Bucket>,
                        str: seq<Byte>, moved: seq<Byte>) {
    && i != [] && InHand(w, i[0], str)
    && if LF in str then Moved(w, w', o, i, o', i', moved)
       else
         && moved == str && i' == i[1..]
         && if w.at[i[0]].kind == Metadata || |str| > BUFF_SIZE / 4 then w' == w && o' == o + [i[0]]
            else Poured(w, m, w', o, o', i[0], str)
  }

  lemma ActedCarried(w: World, o: seq<Bucket>, i: seq<Bucket>, str: seq<Byte>)
    requires i != [] && InHand(w, i[0], str) && LF !in str
    requires w.at[i[0]].kind == Metadata || |str| > BUFF_SIZE / 4
    ensures Acted(w, w, w, o, i, o + [i[0]], i[1..], str, str)
  {
    hide InHand, Moved;
  }

  lemma ActedPoured(w: World, m: World, w': World, o: seq<Bucket>, i: seq<Bucket>, o': seq<Bucket>, str: seq<Byte>)
    requires i != [] && InHand(w, i[0], str) && LF !in str && Poured(w, m, w', o, o', i[0], str)
    requires i[0] in w.at && !(w.at[i[0]].kind == Metadata || |str| > BUFF_SIZE / 4)
    ensures Acted(w, m, w', o, i, o', i[1..], str, str)
  {
    hide InHand, Moved, Poured;
  }

  lemma ActedLine(w: World, w': World, o: seq<Bucket>, i: seq<Bucket>, o': seq<Bucket>, i': seq<Bucket>, str: seq<Byte>,
                  moved: seq<Byte>)
    requires i != [] && InHand(w, i[0], str) && LF in str && Moved(w, w', o, i, o', i', moved)
    ensures Acted(w, w, w', o, i, o', i', str, moved)
  {
    hide InHand, Moved;
  }

  /** The branch of the loop without a line feed: large buckets and metadata move, small
      ones are gathered. */
  method PassFirst(ghost w: World, out: Brigade, input: Brigade, e: Bucket, str: seq<Byte>)
    returns (ghost m: World, ghost w': World, ghost n: set<object>)
    requires Good(w) && Pair(w, out, input) && input.items != [] && e == input.items[0] && InHand(w, e, str)
    requires LF !in str
    modifies out`items, input`items, out.items, input.items`next, input.items`prev, w.res.Keys
    modifies out.list`next, out.list`prev, input.list`next, input.list`prev
    ensures Good(w') && Pair(w', out, input) && fresh(n) && Within(w, w', n) && input.items == old(input.items[1..])
    ensures Evolved(w, w', old(out.items + input.items), out.items + input.items)
    ensures |Content(w', input.items)| == |Content(w, input.items)|
    ensures Acted(w, m, w', old(out.items), old(input.items), out.items, input.items, str, str)
    ensures Passable(w, old(out.items), e, str) ==>
      Moved(w, w', old(out.items), old(input.items), out.items, input.items, str)
    ensures Tidy(w, Queue(old(out.items), old(input.items))) ==>
      Passable(w, old(out.items), e, str) && Tidy(w', Queue(out.items, input.items))
  {
    hide Ring, Shows, Sound, InHand, Tidy, Queue, Within, Pair, Distinct, AllLive, Moved, Evolved, Content, Safe,
         Passable, Copyable, Acted, Poured;
    InHandShown(w, e, str);
    PassableIs(w, out.items, e, str);
    ghost var o, i := out.items, input.items;
    if Tidy(w, Queue(o, i)) { FirstCopyable(w, out, input, e, |str|); }
    if e.v.kind == Metadata || |str| > BUFF_SIZE / 4 {
      if Tidy(w, Queue(o, i)) { QueueMoved(w, o, i); }
      HandsOver(w, o, i, str);
      MovedEvolves(w, w, o, i, o + [i[0]], i[1..], str);
      ActedCarried(w, o, i, str);
      WithinNothing(w);
      m, w', n := w, w, {};
      MoveFirst(w, out, input);
    } else {
      m, w', n := GatherFirst(w, out, input, str);
      ActedPoured(w, m, w', o, i, out.items, str);
    }
  }

  /** Data of more than 2000 bytes moves with its bucket; up to 2000 bytes are copied, and
      their bucket goes. */
  lemma SmallIsGathered(p: Pass)
    requires IsPass(p) && p.rv == Success && LF !in p.str && p.i1[0] in p.w1.at && p.w1.at[p.i1[0]].kind != Metadata
    ensures |p.str| > 2000 ==> p.o2 == p.o + [p.i1[0]] && p.w2 == p.w1
    ensures |p.str| <= 2000 ==> p.i1[0] !in p.w2.at
  {
    hide Moved, Sound, FirstRead, Asked, SafePass, Effect, InHand, SameBytes;
  }

  lemma FirstCopyable(w: World, out: Brigade, input: Brigade, e: Bucket, n: nat)
    requires Good(w) && Pair(w, out, input) && input.items != [] && e == input.items[0] && e in w.at
    requires Tidy(w, Queue(out.items, input.items))
    ensures Copyable(w, out.items, e, n)
  {
    hide Sound, Shows, Tidy, Copyable, Pair;
    assert input.items == [e] + input.items[1..];
    TidyIsCopyable(w, out.items, e, input.items[1..], n);
  }

  /** What one pass of the loop moves: nothing when the read fails, all of a bucket, or
      what it holds up to its first line feed. */
  ghost predicate Passed(rv: Status, found: bool, moved: seq<Byte>) {
    && rv in {Success, EndOfFile, IoError} && (rv != Success ==> !found && moved == [])
    && (found ==> moved != [] && moved[|moved| - 1] == LF && LF !in moved[..|moved| - 1])
    && (!found ==> LF !in moved)
  }

  /** The two branches of the loop. */
  method TakeOrPass(ghost w: World, out: Brigade, input: Brigade, e: Bucket, str: seq<Byte>)
    returns (found: bool, ghost moved: seq<Byte>, ghost m: World, ghost w': World, ghost n: set<object>)
    requires Good(w) && Pair(w, out, input) && input.items != [] && e == input.items[0] && InHand(w, e, str)
    modifies out`items, input`items, out.items, input.items, w.res.Keys, w.pipes.Keys
    modifies out.list`next, out.list`prev, input.list`next, input.list`prev
    ensures Good(w') && Pair(w', out, input) && fresh(n) && Within(w, w', n)
    ensures Evolved(w, w', old(out.items + input.items), out.items + input.items) && Passed(Success, found, moved)
    ensures Acted(w, m, w', old(out.items), old(input.items), out.items, input.items, str, moved)
    ensures found <==> LF in str
    ensures found || Passable(w, old(out.items), e, str) ==>
      Moved(w, w', old(out.items), old(input.items), out.items, input.items, moved)
    ensures !found ==> input.items == old(input.items[1..]) && |Content(w', input.items)| == |Content(w, input.items)|
    ensures !found ==> moved == str
    ensures Tidy(w, Queue(old(out.items), old(input.items))) && !found ==>
      Passable(w, old(out.items), e, str) && Tidy(w', Queue(out.items, input.items))
  {
    hide Ring, Good, InHand, Tidy, Queue, Within, Pair, Distinct, AllLive, Moved, Evolved, Content, Passable, Acted;
    var pos := FindLF(str);
    found := pos < |str|;
    ghost var o, i := out.items, input.items;
    if found {
      moved, m := str[..pos + 1], w;
      assert moved[..|moved| - 1] == str[..pos];
      w', n := TakeLine(w, out, input, e, str, pos + 1);
      MovedEvolves(w, w', o, i, out.items, input.items, moved);
      ActedLine(w, w', o, i, out.items, input.items, str, moved);
    } else {
      moved := str;
      assert str[..pos] == str;
      m, w', n := PassFirst(w, out, input, e, str);
    }
  }

  /** A pass of the loop: the state and the brigades before it, after the read of the
      first bucket, and at its end; and what was read from its file or pipe. */
  datatype Pass = Pass(w: World, o: seq<Bucket>, i: seq<Bucket>, io: seq<Io>, rv: Status, str: seq<Byte>, w1: World,
                       i1: seq<Bucket>, m: World, moved: seq<Byte>, w2: World, o2: seq<Bucket>, i2: seq<Bucket>)

  /** The status and the bytes of the pass are those of its read. */
  ghost predicate Asked(p: Pass) {
    p.i != [] && p.i[0] in p.w.at && Answered(p.w.at[p.i[0]], p.io, p.rv, p.str) && Reported(p.io, p.rv)
  }

  ghost predicate SafePass(p: Pass) {
    p.rv != Success || LF in p.str || (p.i1 != [] && Passable(p.w1, p.o, p.i1[0], p.str))
  }

  /** What a pass does in any case, and what it does to the stream if it does no harm. */
  ghost predicate IsPass(p: Pass) {
    && Sound(p.w) && FirstRead(p.w, p.w1, p.i, p.i1, p.rv) && Moved(p.w, p.w1, p.o, p.i, p.o, p.i1, [])
    && Sound(p.w1) && Distinct(p.o + p.i1) && Asked(p)
    && (if p.rv == Success then Acted(p.w1, p.m, p.w2, p.o, p.i1, p.o2, p.i2, p.str, p.moved)
        else p.w2 == p.w1 && p.o2 == p.o && p.i2 == p.i1 && p.moved == [])
    && (SafePass(p) ==> Moved(p.w1, p.w2, p.o, p.i1, p.o2, p.i2, p.moved))
  }

  lemma PassMoves(p: Pass)
    requires IsPass(p) && SafePass(p)
    ensures Moved(p.w, p.w2, p.o, p.i, p.o2, p.i2, p.moved)
  {
    hide Asked, Moved, FirstRead, Sound, Acted, SafePass;
    MovedMore(p.w, p.w1, p.w2, p.o, p.i, p.o, p.i1, p.o2, p.i2, [], p.moved);
    assert [] + p.moved == p.moved;
  }

  /** The harm of a pass is a copy between areas that overlap in part, or that a bucket
      other than these two holds other bytes afterwards. */
  lemma HarmIsReal(p: Pass)
    requires IsPass(p) && !SafePass(p)
    ensures Fitting(p.w1, p.o, |p.str|) && p.i1 != [] && p.i1[0] in p.w1.at
    ensures HasRoom(p.w1, p.o[|p.o| - 1], |p.str|)
    ensures var b, e := p.o[|p.o| - 1], p.i1[0];
            !Copyable(p.w1, p.o, e, |p.str|)
            || exists x ::
              x in p.w1.at && x != b && x != e && Bytes(Written(p.w1, b, p.str), p.w1.at[x]) != Bytes(p.w1, p.w1.at[x])
  {
    hide Asked, Moved, Sound, Bytes, Harmless, HasRoom, Written, InHand, Copyable, FirstRead, Poured;
    InHandIs(p.w1, p.i1[0], p.str);
    PassableIs(p.w1, p.o, p.i1[0], p.str);
    NeverUnsafe(p.w1, p.o, p.i1[0], p.str);
    FittingRoom(p.w1, p.o, |p.str|);
    var b, e := p.o[|p.o| - 1], p.i1[0];
    assert (p.o + p.i1)[|p.o| - 1] == b && (p.o + p.i1)[|p.o|] == e;
    if Copyable(p.w1, p.o, e, |p.str|) {
      CopyKeepsSource(p.w1, p.o, e, p.str);
      var x :| x in p.w1.at && x != b && !Harmless(p.w1, b, p.str, x);
      WriteIsHarmless(p.w1, b, p.str, x);
    }
  }

  lemma NeverUnsafe(w: World, o: seq<Bucket>, e: Bucket, str: seq<Byte>)
    requires e in w.at && !Passable(w, o, e, str)
    ensures Fitting(w, o, |str|)
  {
    hide HasRoom, Harmless;
  }

  lemma BothDistinct(o: seq<Bucket>, i: seq<Bucket>)
    requires Distinct(o) && Distinct(i) && forall b :: b in o ==> b !in i
    ensures Distinct(o + i)
  {
    var s := o + i;
    forall k, l | 0 <= k < l < |s| ensures s[k] != s[l] {
      if k < |o| <= l { assert s[k] in o && s[l] in i; }
    }
  }

  lemma GoodIsSound(w: World)
    requires Good(w)
    ensures Sound(w)
  {
  }

  lemma AskedIs(p: Pass, e: Bucket)
    requires p.i != [] && e == p.i[0] && e in p.w.at
    requires Answered(p.w.at[e], p.io, p.rv, p.str) && Reported(p.io, p.rv)
    ensures Asked(p)
  {
  }

  lemma PassIs(p: Pass)
    requires FirstRead(p.w, p.w1, p.i, p.i1, p.rv) && Moved(p.w, p.w1, p.o, p.i, p.o, p.i1, [])
    requires Sound(p.w) && Sound(p.w1) && Distinct(p.o + p.i1) && p.i1 != [] && Asked(p)
    requires p.rv == Success ==>
      && Acted(p.w1, p.m, p.w2, p.o, p.i1, p.o2, p.i2, p.str, p.moved)
      && (LF in p.str || Passable(p.w1, p.o, p.i1[0], p.str) ==> Moved(p.w1, p.w2, p.o, p.i1, p.o2, p.i2, p.moved))
    requires p.rv != Success ==> p.w2 == p.w1 && p.o2 == p.o && p.i2 == p.i1 && p.moved == []
    ensures IsPass(p)
    ensures SafePass(p) <==> p.rv != Success || LF in p.str || Passable(p.w1, p.o, p.i1[0], p.str)
  {
    hide FirstRead, Moved, Sound, Distinct, Acted, Passable, Asked;
    if p.rv != Success { MovedNothing(p.w1, p.o, p.i1); }
  }

  lemma NothingPassed()
    ensures forall rv :: rv in {EndOfFile, IoError} ==> Passed(rv, false, [])
  {
  }

  /** The body of the loop, up to the test of the length. */
  method LineStep(ghost w: World, out: Brigade, input: Brigade)
    returns (rv: Status, found: bool, len: nat, ghost moved: seq<Byte>, ghost p: Pass, ghost w': World,
             ghost n: set<object>)
    requires Good(w) && Pair(w, out, input) && input.items != []
    modifies out`items, input`items, out.items, input.items, w.res.Keys, w.pipes.Keys
    modifies out.list`next, out.list`prev, input.list`next, input.list`prev
    ensures Good(w') && Pair(w', out, input) && fresh(n) && Within(w, w', n)
    ensures Evolved(w, w', old(out.items + input.items), out.items + input.items) && Passed(rv, found, moved)
    ensures IsPass(p) && Spans(p, w, old(out.items), old(input.items), w', out.items, input.items)
    ensures p.moved == moved && p.rv == rv && (rv == Success ==> (found <==> LF in p.str))
    ensures rv != Success ==> input.items != []
    ensures rv == Success && !found ==> len == |moved| && Ahead(w', input.items, 0) < Ahead(w, old(input.items), 0)
    ensures Tidy(w, Queue(old(out.items), old(input.items))) ==>
      SafePass(p) && (rv == Success && !found ==> Tidy(w', Queue(out.items, input.items)))
  {
    hide Ring, Good, Sound, InHand, Tidy, Queue, Within, Pair, Distinct, AllLive, Moved, Evolved, Ahead, Passable,
         FirstRead, Acted, IsPass, SafePass, Answered, Reported, Asked, Passed;
    NothingPassed();
    PairDistinct(w, out, input);
    ghost var o, i, e := out.items, input.items, input.items[0];
    var str, e';
    ghost var io;
    GoodIsSound(w);
    rv, str, e', io, w', n := ReadFirst(w, out, input);
    moved, found, len := [], false, |str|;
    ghost var w1, i1, m := w', input.items, w';
    GoodIsSound(w1);
    PairOpen(w1, out, input);
    BothDistinct(o, i1);
    MovedEvolves(w, w1, o, i, o, i1, []);
    if rv == Success {
      assert forall j :: 0 <= j < |input.items| ==> input.items[j] in i || fresh(input.items[j]);
      ghost var n1 := n;
      WithinOpen(w, w1, n1);
      found, moved, m, w', n := TakeOrPass(w1, out, input, e', str);
      WithinStep(w, w1, w', n1, n);
      EvolvedStep(w, w1, w', o + i, o + i1, out.items + input.items);
      assert fresh(n1) && fresh(n);
      n := n1 + n;
      if !found { AheadSame(w1, w', i1, input.items); }
    }
    p := Pass(w, o, i, io, rv, str, w1, i1, m, moved, w', out.items, input.items);
    AskedIs(p, e);
    PassIs(p);
  }

  ghost predicate Spans(p: Pass, w: World, o: seq<Bucket>, i: seq<Bucket>, w': World, o': seq<Bucket>,
                        i': seq<Bucket>) {
    p.w == w && p.o == o && p.i == i && p.w2 == w' && p.o2 == o' && p.i2 == i'
  }

  // ---------- runs ----------

  /** The passes of a run, from one state to another. */
  ghost predicate IsRun(h: seq<Pass>, w: World, o: seq<Bucket>, i: seq<Bucket>, w': World, o': seq<Bucket>,
                         i': seq<Bucket>) {
    if h == [] then w' == w && o' == o && i' == i
    else
      && IsPass(h[0]) && Spans(h[0], w, o, i, h[0].w2, h[0].o2, h[0].i2)
      && IsRun(h[1..], h[0].w2, h[0].o2, h[0].i2, w', o', i')
  }

  function Line(h: seq<Pass>): seq<Byte> {
    if h == [] then [] else h[0].moved + Line(h[1..])
  }

  /** All that was read from files and pipes. */
  ghost function Reads(h: seq<Pass>): seq<Io> {
    if h == [] then [] else h[0].io + Reads(h[1..])
  }

  lemma OneMoreRead(h: seq<Pass>, p: Pass)
    requires IsPass(p) && Quiet(Reads(h))
    ensures Reads(h + [p]) == Reads(h) + p.io && Reported(Reads(h + [p]), p.rv)
  {
    hide Moved, Sound, FirstRead, Acted, SafePass, Answered, Quiet, Reported;
    MoreReads(h, p);
    ReportedMore(Reads(h), p.io, p.rv);
  }

  lemma {:induction false} MoreReads(h: seq<Pass>, p: Pass)
    ensures Reads(h + [p]) == Reads(h) + p.io
  {
    var g := h + [p];
    if h == [] {
      assert g[1..] == [];
    } else {
      MoreReads(h[1..], p);
      assert g[1..] == h[1..] + [p] && g[0] == h[0];
    }
  }

  ghost predicate AllSafe(h: seq<Pass>) {
    h == [] || (SafePass(h[0]) && AllSafe(h[1..]))
  }

  /** A run is over when a read fails, a line feed is found, or `left` bytes have moved,
      and otherwise at the end of the input. */
  ghost predicate Complete(h: seq<Pass>, i: seq<Bucket>, left: int) {
    if h == [] then i == []
    else if h[0].rv != Success || LF in h[0].str || |h[0].moved| >= left then |h| == 1
    else Complete(h[1..], h[0].i2, left - |h[0].moved|)
  }

  /** ... and goes on otherwise. */
  ghost predicate Going(h: seq<Pass>, left: int) {
    h == [] || (h[0].rv == Success && LF !in h[0].str && |h[0].moved| < left && Going(h[1..], left - |h[0].moved|))
  }

  lemma {:induction false} OnePassMore(h: seq<Pass>, w: World, o: seq<Bucket>, i: seq<Bucket>, w1: World,
                                       o1: seq<Bucket>, i1: seq<Bucket>, p: Pass, w': World,
                                       o': seq<Bucket>, i': seq<Bucket>)
    requires IsRun(h, w, o, i, w1, o1, i1) && IsPass(p) && Spans(p, w1, o1, i1, w', o', i')
    ensures IsRun(h + [p], w, o, i, w', o', i') && Line(h + [p]) == Line(h) + p.moved
    ensures AllSafe(h + [p]) <==> AllSafe(h) && SafePass(p)
  {
    hide IsPass, SafePass;
    var g := h + [p];
    if h == [] {
      assert g[1..] == [] && g == [p];
    } else {
      OnePassMore(h[1..], h[0].w2, h[0].o2, h[0].i2, w1, o1, i1, p, w', o', i');
      assert g[1..] == h[1..] + [p] && g[0] == h[0];
      assert h[0].moved + (Line(h[1..]) + p.moved) == h[0].moved + Line(h[1..]) + p.moved;
    }
  }

  lemma {:induction false} GoesOn(h: seq<Pass>, p: Pass, left: int)
    requires Going(h, left) && p.rv == Success && LF !in p.str && |Line(h)| + |p.moved| < left
    ensures Going(h + [p], left)
  {
    var g := h + [p];
    if h == [] {
      assert g[1..] == [] && g == [p];
    } else {
      GoesOn(h[1..], p, left - |h[0].moved|);
      assert g[1..] == h[1..] + [p] && g[0] == h[0];
    }
  }

  lemma {:induction false} Stops(h: seq<Pass>, p: Pass, i: seq<Bucket>, left: int)
    requires Going(h, left) && (p.rv != Success || LF in p.str || |Line(h)| + |p.moved| >= left)
    ensures Complete(h + [p], i, left)
  {
    var g := h + [p];
    if h == [] {
      assert g == [p];
    } else {
      Stops(h[1..], p, h[0].i2, left - |h[0].moved|);
      assert g[1..] == h[1..] + [p] && g[0] == h[0];
    }
  }

  lemma {:induction false} RunsOut(h: seq<Pass>, w: World, o: seq<Bucket>, i: seq<Bucket>, w': World, o': seq<Bucket>,
                                   left: int)
    requires Going(h, left) && IsRun(h, w, o, i, w', o', [])
    ensures Complete(h, i, left)
  {
    hide IsPass;
    if h == [] {
    } else {
      RunsOut(h[1..], h[0].w2, h[0].o2, h[0].i2, w', o', left - |h[0].moved|);
    }
  }

  /** A run without harm keeps the stream. */
  lemma {:induction false} SafeMoves(h: seq<Pass>, w: World, o: seq<Bucket>, i: seq<Bucket>, w': World, o': seq<Bucket>,
                                     i': seq<Bucket>)
    requires IsRun(h, w, o, i, w', o', i') && AllSafe(h)
    ensures Moved(w, w', o, i, o', i', Line(h))
  {
    hide IsPass, SafePass, Moved;
    if h == [] {
      MovedNothing(w, o, i);
    } else {
      var p := h[0];
      PassMoves(p);
      SafeMoves(h[1..], p.w2, p.o2, p.i2, w', o', i');
      MovedMore(w, p.w2, w', o, i, p.o2, p.i2, o', i', p.moved, Line(h[1..]));
    }
  }

  lemma AheadSame(w: World, w': World, i: seq<Bucket>, i': seq<Bucket>)
    requires i != [] && i' == i[1..] && |Content(w', i')| == |Content(w, i')|
    ensures Ahead(w', i', 0) == Ahead(w, i, 1)
  {
    hide Content;
    assert i'[0..] == i';
  }

  /** The buckets that have come in are among the new ones. */
  lemma CameIn(w: World, w': World, s: seq<Bucket>, o': seq<Bucket>, i': seq<Bucket>, n: set<object>)
    requires Evolved(w, w', s, o' + i') && Within(w, w', n) && AllLive(w', o') && AllLive(w', i')
    ensures forall k :: 0 <= k < |o'| ==> o'[k] in s || o'[k] in n
    ensures forall k :: 0 <= k < |i'| ==> i'[k] in s || i'[k] in n
  {
    assert forall k :: 0 <= k < |o'| ==> o'[k] in o' + i';
    assert forall k :: 0 <= k < |i'| ==> i'[k] in o' + i';
  }

  lemma EmptyInput(w: World, out: Brigade, input: Brigade)
    requires Pair(w, out, input)
    ensures input.list.next == input.list <==> input.items == []
  {
    input.Links(w, 0);
  }

  /** A line, or part of one: its only line feed is the last byte. */
  ghost predicate OneLine(moved: seq<Byte>) {
    moved == [] || LF !in moved[..|moved| - 1]
  }

  lemma LineGrows(rv: Status, found: bool, line: seq<Byte>, moved: seq<Byte>)
    requires LF !in line && Passed(rv, found, moved)
    ensures OneLine(line + moved) && (found <==> LF in line + moved)
  {
    var all := line + moved;
    if moved != [] { assert all[..|all| - 1] == line + moved[..|moved| - 1]; }
    if found { assert all[|all| - 1] == LF; }
  }

  /** A stream up to its first line feed. */
  function FirstLine(s: seq<Byte>): seq<Byte> {
    if s == [] then [] else if s[0] == LF then [LF] else [s[0]] + FirstLine(s[1..])
  }

  /** What has moved is the first line; or a part of it. */
  lemma {:induction false} LineIsFirst(line: seq<Byte>, rest: seq<Byte>)
    requires OneLine(line)
    ensures line <= FirstLine(line + rest)
    ensures LF in line || rest == [] ==> line == FirstLine(line + rest)
  {
    var s := line + rest;
    if line == [] {
      assert s == rest;
    } else {
      assert s[0] == line[0] && s[1..] == line[1..] + rest;
      if line[0] == LF {
        assert line == [LF];
      } else {
        assert |line| > 1 ==> line[1..][..|line| - 2] == line[..|line| - 1][1..];
        LineIsFirst(line[1..], rest);
        assert line == [line[0]] + line[1..];
      }
    }
  }

  /** The first line of a text ends with its first newline. */
  lemma FirstLineOfText(line: string, rest: string)
    requires '\n' !in line && forall i :: 0 <= i < |line| ==> line[i] as int < 256
    ensures FirstLine(ToBytes(line + "\n" + rest)) == ToBytes(line + "\n")
    ensures FirstLine(ToBytes(line)) == ToBytes(line)
  {
    hide FirstLine;
    var s, t := ToBytes(line + "\n"), ToBytes(line);
    assert s[..|s| - 1] == t && LF !in t;
    LineIsFirst(s, ToBytes(rest));
    LineIsFirst(t, []);
    assert s[|s| - 1] == LF && t + [] == t;
    assert ToBytes(line + "\n" + rest) == s + ToBytes(rest);
  }

  /** The first line of the input has moved, or at least `maxbytes` of it. */
  ghost predicate LineTaken(w: World, i: seq<Bucket>, line: seq<Byte>, maxbytes: int) {
    var first := FirstLine(Content(w, i));
    line <= first && (line == first || |line| >= maxbytes)
  }

  lemma TakenLine(w: World, w': World, o: seq<Bucket>, i: seq<Bucket>, o': seq<Bucket>, i': seq<Bucket>,
                  line: seq<Byte>, maxbytes: int)
    requires Moved(w, w', o, i, o', i', line) && OneLine(line) && (LF in line || i' == [] || |line| >= maxbytes)
    ensures LineTaken(w, i, line, maxbytes)
  {
    hide Bytes, FirstLine, Moved, OneLine;
    MovedFrom(w, w', o, i, o', i', line);
    LineIsFirst(line, Content(w', i'));
  }

  /** The stream is kept up to the first pass that does harm. */
  lemma {:induction false} FirstHarm(h: seq<Pass>, w: World, o: seq<Bucket>, i: seq<Bucket>, w': World, o': seq<Bucket>,
                                     i': seq<Bucket>) returns (k: nat)
    requires IsRun(h, w, o, i, w', o', i') && !AllSafe(h)
    ensures k < |h| && IsPass(h[k]) && !SafePass(h[k]) && Moved(w, h[k].w, o, i, h[k].o, h[k].i, Line(h[..k]))
  {
    hide IsPass, SafePass, Moved;
    var p := h[0];
    if SafePass(p) {
      k := FirstHarm(h[1..], p.w2, p.o2, p.i2, w', o', i');
      PassMoves(p);
      MovedMore(w, p.w2, h[1..][k].w, o, i, p.o2, p.i2, h[1..][k].o, h[1..][k].i, p.moved, Line(h[1..][..k]));
      k := k + 1;
      assert h[..k][1..] == h[1..][..k - 1] && h[..k][0] == p;
    } else {
      k := 0;
      MovedNothing(w, o, i);
    }
  }

  /** The passes before the end of the loop, which have moved `n` bytes. */
  ghost predicate SoFar(h: seq<Pass>, n: int, left: int) {
    && LF !in Line(h) && n == |Line(h)| && (h == [] || n < left) && Going(h, left)
    && Quiet(Reads(h)) && Reported(Reads(h), Success)
  }

  /** All passes of the loop, and how it ends. */
  ghost predicate Over(h: seq<Pass>, i: seq<Bucket>, rv: Status, left: int, empty: bool) {
    && Complete(h, i, left) && OneLine(Line(h)) && rv in {Success, EndOfFile, IoError} && Reported(Reads(h), rv)
    && (rv == Success ==> LF in Line(h) || empty || |Line(h)| >= left)
    && (rv != Success ==> LF !in Line(h) && !empty && (Line(h) == [] || |Line(h)| < left))
  }

  /** One more pass. */
  lemma Onward(h1: seq<Pass>, p: Pass, h: seq<Pass>, i: seq<Bucket>, rv: Status, found: bool, n: int, n': int,
               left: int, empty: bool)
    requires SoFar(h1, n, left) && h == h1 + [p] && Line(h) == Line(h1) + p.moved && p.rv == rv
    requires Passed(rv, found, p.moved) && (rv == Success ==> (found <==> LF in p.str)) && Reported(Reads(h), rv)
    requires n' == (if rv == Success && !found then n + |p.moved| else n) && (rv != Success ==> !empty)
    ensures if rv != Success || found || n' >= left then Over(h, i, rv, left, empty) else SoFar(h, n', left)
  {
    hide Going, Complete, Line, Reads, Quiet, Reported, Passed, OneLine;
    LineGrows(rv, found, Line(h1), p.moved);
    StepOutcome(rv, found, p.moved);
    NoLine();
    if rv != Success || found || n' >= left {
      Stops(h1, p, i, left);
    } else {
      GoesOn(h1, p, left);
      QuietWhen(Reads(h));
    }
  }

  lemma NoLine()
    ensures Line([]) == []
  {
  }

  /** A pass on the way from `w`, with the buckets of `o` and `i`. */
  method NextPass(ghost w: World, ghost w1: World, out: Brigade, input: Brigade, ghost o: seq<Bucket>,
                  ghost i: seq<Bucket>, ghost h1: seq<Pass>, readbytes: int, left: int, ghost n1: set<object>)
    returns (rv: Status, found: bool, readbytes': int, ghost h: seq<Pass>, ghost w': World, ghost n: set<object>)
    requires Good(w1) && Pair(w1, out, input) && input.items != []
    requires Evolved(w, w1, o + i, out.items + input.items) && Within(w, w1, n1)
    requires IsRun(h1, w, o, i, w1, out.items, input.items) && SoFar(h1, readbytes, left)
    modifies out`items, input`items, out.items, input.items, w1.res.Keys, w1.pipes.Keys
    modifies out.list`next, out.list`prev, input.list`next, input.list`prev
    ensures Good(w') && Pair(w', out, input) && fresh(n - n1) && n1 <= n && Within(w, w', n)
    ensures Evolved(w, w', o + i, out.items + input.items)
    ensures IsRun(h, w, o, i, w', out.items, input.items)
    ensures if rv != Success || found || readbytes' >= left then Over(h, i, rv, left, input.items == [])
            else SoFar(h, readbytes', left) && Ahead(w', input.items, 0) < Ahead(w1, old(input.items), 0)
    ensures Tidy(w1, Queue(old(out.items), old(input.items))) && AllSafe(h1) ==>
      AllSafe(h) && (rv == Success && !found ==> Tidy(w', Queue(out.items, input.items)))
  {
    hide Ring, Good, Tidy, Queue, Within, Pair, Distinct, AllLive, Moved, Evolved, Ahead, Passed, IsPass, SafePass,
         IsRun, AllSafe, Line, Spans, Over, SoFar, Reads, Quiet, Reported;
    ghost var o1, i1, moved, p := out.items, input.items, [], AnyPass(w);
    var len;
    rv, found, len, moved, p, w', n := LineStep(w1, out, input);
    WithinStep(w, w1, w', n1, n);
    EvolvedStep(w, w1, w', o + i, o1 + i1, out.items + input.items);
    n, h := n1 + n, h1 + [p];
    OnePassMore(h1, w, o, i, w1, o1, i1, p, w', out.items, input.items);
    readbytes' := if rv == Success && !found then readbytes + len else readbytes;
    SoFarQuiet(h1, readbytes, left);
    OneMoreRead(h1, p);
    Onward(h1, p, h, i, rv, found, readbytes, readbytes', left, input.items == []);
  }

  lemma SoFarQuiet(h: seq<Pass>, n: int, left: int)
    requires SoFar(h, n, left)
    ensures Quiet(Reads(h))
  {
  }

  /** The loop of apr_brigade_split_line. */
  method Passes(ghost w: World, out: Brigade, input: Brigade, maxbytes: int)
    returns (rv: Status, ghost h: seq<Pass>, ghost w': World, ghost n: set<object>)
    requires Good(w) && Pair(w, out, input)
    modifies out`items, input`items, out.items, input.items, w.res.Keys, w.pipes.Keys
    modifies out.list`next, out.list`prev, input.list`next, input.list`prev
    ensures Good(w') && Pair(w', out, input) && fresh(n) && Within(w, w', n)
    ensures IsRun(h, w, old(out.items), old(input.items), w', out.items, input.items)
    ensures Tidy(w, Queue(old(out.items), old(input.items))) ==> AllSafe(h)
    ensures Over(h, old(input.items), rv, maxbytes, input.items == [])
  {
    hide Ring, Good, Tidy, Queue, Within, Pair, Distinct, AllLive, Evolved, Ahead, IsPass, IsRun, AllSafe, Over, SoFar;
    ghost var o, i := out.items, input.items;
    var readbytes := 0;
    rv, h, w', n := Success, [], w, {};
    WithinNothing(w);
    EvolvedNothing(w, o + i);
    EmptyInput(w, out, input);
    NotYet(w, o, i, maxbytes);
    ghost var over := false;
    while input.list.next != input.list
      invariant Good(w') && Pair(w', out, input) && fresh(n) && Within(w, w', n)
      invariant Evolved(w, w', o + i, out.items + input.items)
      invariant IsRun(h, w, o, i, w', out.items, input.items)
      invariant Tidy(w, Queue(o, i)) ==> AllSafe(h) && Tidy(w', Queue(out.items, input.items))
      invariant rv == Success && SoFar(h, readbytes, maxbytes)
      decreases Ahead(w', input.items, 0)
    {
      EmptyInput(w', out, input);
      var found;
      PairOpen(w', out, input);
      CameIn(w, w', o + i, out.items, input.items, n);
      WithinOpen(w, w', n);
      rv, found, readbytes, h, w', n := NextPass(w, w', out, input, o, i, h, readbytes, maxbytes, n);
      EmptyInput(w', out, input);
      if rv != Success || found || readbytes >= maxbytes {
        over := true;
        break;
      }
    }
    EmptyInput(w', out, input);
    if !over { RanOut(h, w, o, i, w', out.items, readbytes, maxbytes); }
  }

  lemma RanOut(h: seq<Pass>, w: World, o: seq<Bucket>, i: seq<Bucket>, w': World, o': seq<Bucket>, n: int, left: int)
    requires SoFar(h, n, left) && IsRun(h, w, o, i, w', o', [])
    ensures Over(h, i, Success, left, true)
  {
    hide Complete, Line, Reads, Reported, Going, IsRun;
    RunsOut(h, w, o, i, w', o', left);
  }

  /** apr_brigade_split_line: the passes of the loop, each with what it does to the state;
      the bytes up to the first line feed go from the input to the output, or all there
      are, or at least `maxbytes` of them, if none of the passes does harm; none does when
      the buckets are in order. */
  method SplitLine(ghost w: World, out: Brigade, input: Brigade, maxbytes: int)
    returns (rv: Status, ghost line: seq<Byte>, ghost h: seq<Pass>, ghost w': World, ghost n: set<object>)
    requires Good(w) && Pair(w, out, input)
    modifies out`items, input`items, out.items, input.items, w.res.Keys, w.pipes.Keys
    modifies out.list`next, out.list`prev, input.list`next, input.list`prev
    ensures Good(w') && Pair(w', out, input) && fresh(n) && Within(w, w', n)
    ensures IsRun(h, w, old(out.items), old(input.items), w', out.items, input.items) && line == Line(h)
    ensures Complete(h, old(input.items), maxbytes)
    ensures AllSafe(h) ==> Moved(w, w', old(out.items), old(input.items), out.items, input.items, line)
    ensures AllSafe(h) && rv == Success ==> LineTaken(w, old(input.items), line, maxbytes)
    ensures Tidy(w, Queue(old(out.items), old(input.items))) ==> AllSafe(h)
    ensures OneLine(line) && rv in {Success, EndOfFile, IoError}
    ensures rv == Success ==> LF in line || input.items == [] || |line| >= maxbytes
    ensures Reported(Reads(h), rv)
    ensures rv != Success ==> LF !in line && input.items != [] && (line == [] || |line| < maxbytes)
  {
    hide Ring, Good, Tidy, Queue, Within, Pair, AllLive, Moved, LineTaken, Complete, IsRun, AllSafe, Line, OneLine,
         Reads, Reported;
    rv, h, w', n := Passes(w, out, input, maxbytes);
    line := Line(h);
    RunEnds(h, w, old(out.items), old(input.items), w', out.items, input.items, maxbytes);
  }

  ghost function AnyPass(w: World): Pass {
    Pass(w, [], [], [], Success, [], w, [], w, [], w, [], [])
  }

  lemma NotYet(w: World, o: seq<Bucket>, i: seq<Bucket>, left: int)
    ensures Going([], left) && IsRun([], w, o, i, w, o, i) && AllSafe([]) && Line([]) == []
    ensures SoFar([], 0, left)
  {
  }

  lemma RunEnds(h: seq<Pass>, w: World, o: seq<Bucket>, i: seq<Bucket>, w': World, o': seq<Bucket>, i': seq<Bucket>,
                maxbytes: int)
    requires IsRun(h, w, o, i, w', o', i') && OneLine(Line(h))
    ensures AllSafe(h) ==> Moved(w, w', o, i, o', i', Line(h))
    ensures AllSafe(h) && (LF in Line(h) || i' == [] || |Line(h)| >= maxbytes) ==> LineTaken(w, i, Line(h), maxbytes)
  {
    hide Moved, LineTaken, OneLine, IsRun;
    if AllSafe(h) {
      SafeMoves(h, w, o, i, w', o', i');
      if LF in Line(h) || i' == [] || |Line(h)| >= maxbytes { TakenLine(w, w', o, i, o', i', Line(h), maxbytes); }
    }
  }

  lemma StepOutcome(rv: Status, found: bool, moved: seq<Byte>)
    requires Passed(rv, found, moved)
    ensures rv in {Success, EndOfFile, IoError} && (rv != Success ==> !found && moved == [])
    ensures !found ==> LF !in moved
  {
  }

  // ---------- without the order of Tidy ----------

  /** The first bucket of the input is written into the room of the last one of the
      output: the stream of both is kept if and only if that does no harm to the other
      buckets of the two. */
  lemma GatherIsExact(w: World, o: seq<Bucket>, i: seq<Bucket>, str: seq<Byte>)
    requires Sound(w) && o != [] && i != [] && Distinct(o) && AllLive(w, o)
    requires AllLive(w, i[1..]) && o[|o| - 1] !in i[1..]
    requires HasRoom(w, o[|o| - 1], |str|) && InHand(w, i[0], str) && Copyable(w, o, i[0], |str|)
    ensures var e, w' := o[|o| - 1], Written(w, o[|o| - 1], str);
            Content(w', o + i[1..]) == Content(w, o + i) <==>
              forall x :: x in o + i[1..] && x != e ==> Harmless(w, e, str, x)
  {
    hide Sound, Bytes, Content, Harmless, Written, HasRoom, Distinct, InHand;
    var e, rest := o[|o| - 1], i[1..];
    InHandIs(w, i[0], str);
    FirstBytes(w, i);
    ContentCat(w, o, i);
    ContentCat(Written(w, e, str), o, rest);
    WriteIsExact(w, o, str);
    OthersExact(w, e, rest, str);
    HarmlessToBoth(w, e, str, o, rest);
    SamePieces(Content(w, o), str, Content(w, rest), Content(Written(w, e, str), o), Content(Written(w, e, str), rest));
  }

  lemma SamePieces(a: seq<Byte>, str: seq<Byte>, c: seq<Byte>, b: seq<Byte>, d: seq<Byte>)
    requires |b| == |a| + |str|
    ensures b + d == a + (str + c) <==> b == a + str && d == c
  {
    assert a + (str + c) == a + str + c;
    Append(b, a + str, d, c);
  }

  lemma HarmlessToBoth(w: World, e: Bucket, str: seq<Byte>, o: seq<Bucket>, rest: seq<Bucket>)
    requires HasRoom(w, e, |str|) && AllLive(w, o) && AllLive(w, rest) && e !in rest
    ensures (forall x :: x in o + rest && x != e ==> Harmless(w, e, str, x)) <==>
              (forall x :: x in o && x != e ==> Harmless(w, e, str, x)) &&
              (forall x :: x in rest ==> Harmless(w, e, str, x))
  {
    hide Harmless, HasRoom;
    assert forall x :: x in o + rest <==> x in o || x in rest;
  }

  lemma InHandIs(w: World, e: Bucket, str: seq<Byte>)
    requires InHand(w, e, str)
    ensures e in w.at && Bytes(w, w.at[e]) == str
  {
    hide Bytes;
  }

  /** A heap bucket of 4000 bytes split after 3000, with one byte put in between. */
  ghost function Between(a: Bucket, s: Bucket, b: Bucket, h: Shared, mem: seq<Byte>, c: Byte): World {
    World(map[a := Slice(Heap, 3000, 0, Res(h)), s := Slice(Immortal, 1, 0, Mem([c])),
              b := Slice(Heap, 1000, 3000, Res(h))],
          map[h := Resource(2, mem, false, [])], map[], {}, {})
  }

  lemma BetweenSound(a: Bucket, s: Bucket, b: Bucket, h: Shared, mem: seq<Byte>, c: Byte)
    requires a != s && a != b && s != b && h.form == Heap && h.size == |mem| == 4000
    ensures Sound(Between(a, s, b, h, mem, c))
  {
    var w := Between(a, s, b, h, mem, c);
    assert Users(w, h) == {a, b};
    assert Memory(h, w.res[h]) == mem;
    assert Kept(w, h);
  }

  lemma BetweenHarmed(a: Bucket, s: Bucket, b: Bucket, h: Shared, mem: seq<Byte>, c: Byte)
    requires a != s && a != b && s != b && h.form == Heap && h.size == |mem| == 4000 && mem[3000] != c
    ensures var w := Between(a, s, b, h, mem, c);
            && InHand(w, a, mem[..3000]) && InHand(w, s, [c]) && Fitting(w, [a], 1) && HasRoom(w, a, 1)
            && b in w.at && !Harmless(w, a, [c], b) && !Tidy(w, Queue([], [a, s, b]))
  {
    var w := Between(a, s, b, h, mem, c);
    assert mem[0..3000] == mem[..3000];
    assert w.res[w.at[a].data.r].mem[3000] != [c][3000 - EndOfSlice(w.at[a])];
    var q := Queue([], [a, s, b]);
    assert q[0] == a && q[1] == s && q[2] == b;
    assert !Placed(w, q, 0, 2);
  }

  /** It is not in order, and the stream does change: the first part is large enough to
      move, the byte is written where the second part begins. */
  lemma SplitLineLosesByte(a: Bucket, s: Bucket, b: Bucket, h: Shared, mem: seq<Byte>, c: Byte)
    requires a != s && a != b && s != b && h.form == Heap && h.size == |mem| == 4000 && mem[3000] != c
    ensures var w := Between(a, s, b, h, mem, c);
            && Sound(w) && !Tidy(w, Queue([], [a, s, b]))
            && InHand(w, a, mem[..3000]) && 3000 > BUFF_SIZE / 4
            && InHand(w, s, [c]) && Fitting(w, [a], 1) && HasRoom(w, a, 1) && Copyable(w, [a], s, 1)
            && Content(Written(w, a, [c]), [a] + [b]) != Content(w, [a] + [s, b])
  {
    var w := Between(a, s, b, h, mem, c);
    BetweenSound(a, s, b, h, mem, c);
    hide Sound, Content;
    assert [s, b][1..] == [b];
    BetweenHarmed(a, s, b, h, mem, c);
    GatherIsExact(w, [a], [s, b], [c]);
  }
}
