/** Glob matching (apr_fnmatch.c): the pattern grammar, what a match is, and the
single-pass matcher that never goes back to an earlier `*`. */
module FnmatchSpec {
  import opened CStrings

  /** APR_FNM_NOESCAPE, APR_FNM_PATHNAME, APR_FNM_PERIOD, APR_FNM_CASE_BLIND */
  datatype Flags = Flags(noescape: bool, pathname: bool, period: bool, caseBlind: bool)

  const NO_FLAGS := Flags(false, false, false, false)

  datatype Item = Single(c: char) | Range(lo: char, hi: char)

  datatype Token =
    | Star                                     // any run of characters
    | Slash                                    // the separator of PATHNAME mode
    | Any                                      // ?
    | Lit(c: char)
    | Class(negate: bool, items: seq<Item>)    // bracket expression

  // ---------- pattern grammar ----------

  datatype ClassTail = Malformed | ClassTail(items: seq<Item>, end: nat)

  /** The list of a bracket expression from position `i` on; `end` is just after
      its closing bracket. */
  function ParseItems(p: CString, i: nat, fl: Flags): (r: ClassTail)
    requires i <= |p|
    ensures r.ClassTail? ==> i < r.end <= |p| && p[r.end - 1] == ']'
    decreases |p| - i, 1
  {
    if i == |p| then Malformed
    else if p[i] == ']' then ClassTail([], i + 1)
    else
      var k := if !fl.noescape && p[i] == '\\' then i + 1 else i;
      if k == |p| || (fl.pathname && p[k] == '/') then Malformed
      else ParseItem(p, k, fl)
  }

  /** One single character or range at `k`, then the rest of the list. */
  function ParseItem(p: CString, k: nat, fl: Flags): (r: ClassTail)
    requires k < |p|
    ensures r.ClassTail? ==> k < r.end <= |p| && p[r.end - 1] == ']'
    decreases |p| - k, 0
  {
    if At(p, k + 1) == '-' && At(p, k + 2) != ']' then
      var h := if !fl.noescape && At(p, k + 2) == '\\' then k + 3 else k + 2;
      if At(p, h) == '\0' || (fl.pathname && p[h] == '/') then Malformed
      else Cons(Range(p[k], p[h]), ParseItems(p, h + 1, fl))
    else
      Cons(Single(p[k]), ParseItems(p, k + 1, fl))
  }

  function Cons(item: Item, tail: ClassTail): ClassTail {
    if tail.Malformed? then Malformed else ClassTail([item] + tail.items, tail.end)
  }

  /** Where the list of the bracket expression opened at `i` starts. */
  function ListStart(p: CString, i: nat): nat {
    if At(p, i + 1) == '!' || At(p, i + 1) == '^' then i + 2 else i + 1
  }

  /** The bracket expression opened at `i`; a closing bracket is ordinary as its
      first list element. */
  function ParseClass(p: CString, i: nat, fl: Flags): (r: ClassTail)
    requires i < |p| && p[i] == '['
    ensures r.ClassTail? ==> i < r.end <= |p| && p[r.end - 1] == ']'
  {
    var k := ListStart(p, i);
    if At(p, k) == ']' then ParseItem(p, k, fl) else ParseItems(p, k, fl)
  }

  /** The pattern token at `i` and the position after it. */
  function Next(p: CString, i: nat, fl: Flags): (r: (Token, nat))
    requires i < |p|
    ensures i < r.1 <= |p|
  {
    if p[i] == '*' then (Star, i + 1)
    else if p[i] == '?' then (Any, i + 1)
    else if fl.pathname && p[i] == '/' then (Slash, i + 1)
    else if !fl.noescape && p[i] == '\\' && i + 1 < |p| then
      (if fl.pathname && p[i + 1] == '/' then Slash else Lit(p[i + 1]), i + 2)
    else if p[i] == '[' then
      var list := ParseClass(p, i, fl);
      if list.ClassTail? then (Class(ListStart(p, i) == i + 2, list.items), list.end) else (Lit('['), i + 1)
    else (Lit(p[i]), i + 1)
  }

  function Parse(p: CString, i: nat, fl: Flags): seq<Token>
    requires i <= |p|
    decreases |p| - i
  {
    if i == |p| then [] else [Next(p, i, fl).0] + Parse(p, Next(p, i, fl).1, fl)
  }

  // ---------- what a match is ----------

  predicate SameChar(a: char, b: char, fl: Flags) {
    a == b || (fl.caseBlind && Lower(a) == Lower(b))
  }

  predicate InItem(item: Item, c: char, fl: Flags) {
    match item
    case Single(d) => SameChar(c, d, fl)
    case Range(lo, hi) =>
      Code(lo) <= Code(c) <= Code(hi) || (fl.caseBlind && Code(Lower(lo)) <= Code(Lower(c)) <= Code(Lower(hi)))
  }

  /** No wildcard, class or literal crosses a separator in PATHNAME mode. */
  predicate InSegment(c: char, fl: Flags) {
    fl.pathname ==> c != '/'
  }

  /** Tokens that stand for exactly one character of a segment. */
  predicate OneChar(t: Token) { t.Any? || t.Lit? || t.Class? }

  predicate Accepts(t: Token, c: char, fl: Flags)
    requires OneChar(t)
  {
    InSegment(c, fl) &&
    match t
    case Any => true
    case Lit(d) => SameChar(c, d, fl)
    case Class(negate, items) => negate != exists k :: 0 <= k < |items| && InItem(items[k], c, fl)
  }

  /** Token `t` stands for the text `x`. */
  predicate Covers(t: Token, x: string, fl: Flags) {
    match t
    case Star => forall k :: 0 <= k < |x| ==> InSegment(x[k], fl)
    case Slash => x == "/"
    case _ => |x| == 1 && Accepts(t, x[0], fl)
  }

  /** Whether token `k` is the first of a segment; `start` decides for token 0. */
  predicate StartsSegment(ts: seq<Token>, k: nat, start: bool)
    requires k < |ts|
  {
    if k == 0 then start else ts[k - 1] == Slash
  }

  /** Token `k` stands for the piece of `s` between cuts `k` and `k + 1`. With
      PERIOD, a period that begins a segment is matched by a literal period only. */
  predicate PieceFits(ts: seq<Token>, s: string, cuts: seq<nat>, k: nat, start: bool, fl: Flags)
    requires k < |ts| && |cuts| == |ts| + 1
  {
    && cuts[k] <= cuts[k + 1] <= |s|
    && Covers(ts[k], s[cuts[k]..cuts[k + 1]], fl)
    && (fl.period && StartsSegment(ts, k, start) && cuts[k] < |s| && s[cuts[k]] == '.' ==> ts[k] == Lit('.'))
  }

  /** `cuts` divides `s` from `from` on into one fitting piece per token. */
  predicate Fits(ts: seq<Token>, s: string, from: nat, cuts: seq<nat>, start: bool, fl: Flags) {
    && |cuts| == |ts| + 1 && cuts[0] == from && cuts[|ts|] == |s|
    && forall k :: 0 <= k < |ts| ==> PieceFits(ts, s, cuts, k, start, fl)
  }

  ghost predicate Matches(p: CString, s: CString, fl: Flags) {
    exists cuts :: Fits(Parse(p, 0, fl), s, 0, cuts, true, fl)
  }
}

/** The bottom-up reading of a match, one token at a time from a position of the
pattern and one of the string, and its laws for runs between wildcards. */
module FnmatchRuns {
  import opened CStrings
  import opened FnmatchSpec

  /** The pattern from `i` on matches the string from `j` on; `start` says that a
      segment begins here. */
  predicate Run(p: CString, i: nat, s: CString, j: nat, start: bool, fl: Flags)
    requires i <= |p| && j <= |s|
    decreases |p| - i + |s| - j
  {
    if i == |p| then j == |s|
    else
      var (t, n) := Next(p, i, fl);
      && (fl.period && start && At(s, j) == '.' ==> t == Lit('.'))
      && match t
         case Star => Run(p, n, s, j, false, fl) || (j < |s| && InSegment(s[j], fl) && Run(p, i, s, j + 1, false, fl))
         case Slash => At(s, j) == '/' && Run(p, n, s, j + 1, true, fl)
         case _ => j < |s| && Accepts(t, s[j], fl) && Run(p, n, s, j + 1, false, fl)
  }

  lemma {:induction false} RunGivesCuts(p: CString, i: nat, s: CString, j: nat, start: bool, fl: Flags)
    returns (cuts: seq<nat>)
    requires i <= |p| && j <= |s| && Run(p, i, s, j, start, fl)
    ensures Fits(Parse(p, i, fl), s, j, cuts, start, fl)
    decreases |p| - i + |s| - j
  {
    if i == |p| {
      cuts := [j];
    } else {
      var ts := Parse(p, i, fl);
      var (t, n) := Next(p, i, fl);
      if t == Star && !Run(p, n, s, j, false, fl) {
        var rest := RunGivesCuts(p, i, s, j + 1, false, fl);
        cuts := rest[0 := j];
        assert PieceFits(ts, s, rest, 0, false, fl);
        assert s[j..rest[1]] == [s[j]] + s[j + 1..rest[1]];
        assert PieceFits(ts, s, cuts, 0, start, fl);
        forall k | 1 <= k < |ts| ensures PieceFits(ts, s, cuts, k, start, fl) {
          assert PieceFits(ts, s, rest, k, false, fl);
        }
      } else {
        var m := if t == Star then j else j + 1;
        var rest := RunGivesCuts(p, n, s, m, t == Slash, fl);
        cuts := [j] + rest;
        ShiftFits(ts, s, j, rest, t, start, fl);
      }
    }
  }

  /** Putting a fitting first piece before a fitting division. */
  lemma ShiftFits(ts: seq<Token>, s: string, j: nat, rest: seq<nat>, t: Token, start: bool, fl: Flags)
    requires |ts| > 0 && t == ts[0] && |rest| == |ts| && j <= rest[0] <= |s|
    requires Fits(ts[1..], s, rest[0], rest, t == Slash, fl)
    requires Covers(t, s[j..rest[0]], fl)
    requires fl.period && start && j < |s| && s[j] == '.' ==> t == Lit('.')
    ensures Fits(ts, s, j, [j] + rest, start, fl)
  {
    var cuts := [j] + rest;
    assert PieceFits(ts, s, cuts, 0, start, fl);
    forall k | 1 <= k < |ts| ensures PieceFits(ts, s, cuts, k, start, fl) {
      assert PieceFits(ts[1..], s, rest, k - 1, t == Slash, fl);
    }
  }

  lemma {:induction false} CutsGiveRun(p: CString, i: nat, s: CString, j: nat, cuts: seq<nat>, start: bool, fl: Flags)
    requires i <= |p| && j <= |s| && Fits(Parse(p, i, fl), s, j, cuts, start, fl)
    ensures Run(p, i, s, j, start, fl)
    decreases |p| - i + |s| - j
  {
    if i >= |p| {
    } else {
      var ts := Parse(p, i, fl);
      var (t, n) := Next(p, i, fl);
      assert PieceFits(ts, s, cuts, 0, start, fl);
      if t == Star && cuts[1] > j {
        var rest := cuts[0 := j + 1];
        assert s[j..cuts[1]][0] == s[j];
        var x, y := s[j..cuts[1]], s[j + 1..cuts[1]];
        forall k | 0 <= k < |y| ensures InSegment(y[k], fl) {
          assert y[k] == x[k + 1];
        }
        assert PieceFits(ts, s, rest, 0, false, fl);
        forall k | 1 <= k < |ts| ensures PieceFits(ts, s, rest, k, false, fl) {
          assert PieceFits(ts, s, cuts, k, start, fl);
        }
        CutsGiveRun(p, i, s, j + 1, rest, false, fl);
      } else {
        var rest, tail, slash := cuts[1..], ts[1..], t == Slash;
        assert tail == Parse(p, n, fl);
        forall k | 0 <= k < |tail| ensures PieceFits(tail, s, rest, k, slash, fl) {
          assert PieceFits(ts, s, cuts, k + 1, start, fl);
        }
        CutsGiveRun(p, n, s, cuts[1], rest, t == Slash, fl);
      }
    }
  }

  /** The bottom-up reading is the declared one. */
  lemma RunIsMatch(p: CString, s: CString, fl: Flags)
    ensures Run(p, 0, s, 0, true, fl) <==> Matches(p, s, fl)
  {
    if Run(p, 0, s, 0, true, fl) {
      var cuts := RunGivesCuts(p, 0, s, 0, true, fl);
    }
    if Matches(p, s, fl) {
      var cuts :| Fits(Parse(p, 0, fl), s, 0, cuts, true, fl);
      CutsGiveRun(p, 0, s, 0, cuts, true, fl);
    }
  }

  // ---------- after a star ----------

  /** The first position from `j` on that a star cannot step over. */
  function SegEnd(s: CString, j: nat, fl: Flags): (e: nat)
    requires j <= |s|
    ensures j <= e <= |s|
    ensures forall k :: j <= k < e ==> InSegment(s[k], fl)
    ensures e == |s| || !InSegment(s[e], fl)
    decreases |s| - j
  {
    if j == |s| || !InSegment(s[j], fl) then j else SegEnd(s, j + 1, fl)
  }

  /** The pattern from `i` on, preceded by a star, matches from `j` on. */
  predicate StarRun(p: CString, i: nat, s: CString, j: nat, fl: Flags)
    requires i <= |p| && j <= |s|
    decreases |s| - j
  {
    Run(p, i, s, j, false, fl) || (j < |s| && InSegment(s[j], fl) && StarRun(p, i, s, j + 1, fl))
  }

  lemma {:induction false} StarIsStarRun(p: CString, i: nat, s: CString, j: nat, fl: Flags)
    requires i < |p| && p[i] == '*' && j <= |s|
    ensures Run(p, i, s, j, false, fl) == StarRun(p, i + 1, s, j, fl) == StarRun(p, i, s, j, fl)
    decreases |s| - j
  {
    if j >= |s| {
    } else {
      StarIsStarRun(p, i, s, j + 1, fl);
    }
  }

  /** A star followed by `?` is `?` followed by a star. */
  lemma {:induction false} StarThenAny(p: CString, i: nat, s: CString, j: nat, fl: Flags)
    requires i < |p| && p[i] == '?' && j <= |s|
    ensures StarRun(p, i, s, j, fl) == (j < |s| && InSegment(s[j], fl) && StarRun(p, i + 1, s, j + 1, fl))
    decreases |s| - j
  {
    if j >= |s| {
    } else {
      StarThenAny(p, i, s, j + 1, fl);
    }
  }

  lemma {:induction false} StarRunAt(p: CString, i: nat, s: CString, j: nat, k: nat, fl: Flags)
    requires i <= |p| && j <= k <= |s| && k <= SegEnd(s, j, fl)
    requires Run(p, i, s, k, false, fl)
    ensures StarRun(p, i, s, j, fl)
    decreases k - j
  {
    if j >= k {
    } else {
      StarRunAt(p, i, s, j + 1, k, fl);
    }
  }

  // ---------- the fixed characters between wildcards ----------

  /** Whether `i` is past a run of one-character tokens. */
  predicate ChunkStop(p: CString, i: nat, fl: Flags)
    requires i <= |p|
  {
    i == |p| || !OneChar(Next(p, i, fl).0)
  }

  function ChunkEnd(p: CString, i: nat, fl: Flags): (r: nat)
    requires i <= |p|
    ensures i <= r <= |p| && ChunkStop(p, r, fl)
    decreases |p| - i
  {
    if ChunkStop(p, i, fl) then i else ChunkEnd(p, Next(p, i, fl).1, fl)
  }

  function ChunkLen(p: CString, i: nat, fl: Flags): nat
    requires i <= |p|
    decreases |p| - i
  {
    if ChunkStop(p, i, fl) then 0 else 1 + ChunkLen(p, Next(p, i, fl).1, fl)
  }

  /** The one-character tokens from `i` on accept the string from `j` on. */
  predicate ChunkFits(p: CString, i: nat, s: CString, j: nat, fl: Flags)
    requires i <= |p| && j <= |s|
    decreases |p| - i
  {
    ChunkStop(p, i, fl) ||
    var (t, n) := Next(p, i, fl);
    j < |s| && Accepts(t, s[j], fl) && ChunkFits(p, n, s, j + 1, fl)
  }

  lemma {:induction false} ChunkStaysInSegment(p: CString, i: nat, s: CString, j: nat, fl: Flags)
    requires i <= |p| && j <= |s| && ChunkFits(p, i, s, j, fl)
    ensures j + ChunkLen(p, i, fl) <= SegEnd(s, j, fl)
    decreases |p| - i
  {
    if ChunkStop(p, i, fl) {
    } else {
      ChunkStaysInSegment(p, Next(p, i, fl).1, s, j + 1, fl);
    }
  }

  /** A match inside a segment is a fitting chunk and a match after it. */
  lemma {:induction false} RunSplitsAtChunk(p: CString, i: nat, s: CString, j: nat, fl: Flags)
    requires i <= |p| && j <= |s|
    ensures Run(p, i, s, j, false, fl) ==
            (ChunkFits(p, i, s, j, fl) && j + ChunkLen(p, i, fl) <= |s|
             && Run(p, ChunkEnd(p, i, fl), s, j + ChunkLen(p, i, fl), false, fl))
    decreases |p| - i
  {
    if ChunkStop(p, i, fl) || j == |s| {
    } else {
      RunSplitsAtChunk(p, Next(p, i, fl).1, s, j + 1, fl);
    }
  }

  /** Too few characters are left in the segment for the chunk. */
  lemma {:induction false} StarRunNeedsRoom(p: CString, i: nat, s: CString, j: nat, fl: Flags)
    requires i <= |p| && j <= |s| && j + ChunkLen(p, i, fl) > SegEnd(s, j, fl)
    ensures !StarRun(p, i, s, j, fl)
    decreases |s| - j
  {
    RunSplitsAtChunk(p, i, s, j, fl);
    if ChunkFits(p, i, s, j, fl) { ChunkStaysInSegment(p, i, s, j, fl); }
    if j == |s| || !InSegment(s[j], fl) {
    } else {
      StarRunNeedsRoom(p, i, s, j + 1, fl);
    }
  }

  /** The last chunk of a segment can only sit at the end of the segment. */
  lemma {:induction false} LastChunkIsAnchored(p: CString, i: nat, s: CString, j: nat, fl: Flags)
    requires i <= |p| && j <= |s| && j + ChunkLen(p, i, fl) <= SegEnd(s, j, fl)
    requires ChunkEnd(p, i, fl) == |p| || Next(p, ChunkEnd(p, i, fl), fl).0 == Slash
    ensures StarRun(p, i, s, j, fl) == Run(p, i, s, SegEnd(s, j, fl) - ChunkLen(p, i, fl), false, fl)
    decreases |s| - j
  {
    var e, len := SegEnd(s, j, fl), ChunkLen(p, i, fl);
    RunSplitsAtChunk(p, i, s, j, fl);
    if j + len < e {
      LastChunkIsAnchored(p, i, s, j + 1, fl);
    } else if j < e {
      StarRunNeedsRoom(p, i, s, j + 1, fl);
    }
  }

  /** The first place where a chunk between two stars fits is as good as any later one. */
  lemma FirstFitSuffices(p: CString, i: nat, s: CString, j: nat, fl: Flags)
    requires i <= |p| && j <= |s| && ChunkFits(p, i, s, j, fl) && j + ChunkLen(p, i, fl) <= |s|
    requires ChunkEnd(p, i, fl) < |p| && p[ChunkEnd(p, i, fl)] == '*'
    ensures StarRun(p, i, s, j, fl) == Run(p, ChunkEnd(p, i, fl), s, j + ChunkLen(p, i, fl), false, fl)
  {
    hide Next, ChunkStop, ChunkFits, ChunkLen, ChunkEnd, Run;
    RunSplitsAtChunk(p, i, s, j, fl);
    ChunkStaysInSegment(p, i, s, j, fl);
    if StarRun(p, i, s, j, fl) { LaterFitIsNoBetter(p, i, s, j, j, fl); }
  }

  lemma {:induction false} LaterFitIsNoBetter(p: CString, i: nat, s: CString, j: nat, k: nat, fl: Flags)
    requires i <= |p| && j <= k <= |s| && k <= SegEnd(s, j, fl) && j + ChunkLen(p, i, fl) <= SegEnd(s, j, fl)
    requires ChunkEnd(p, i, fl) < |p| && p[ChunkEnd(p, i, fl)] == '*'
    requires StarRun(p, i, s, k, fl)
    ensures Run(p, ChunkEnd(p, i, fl), s, j + ChunkLen(p, i, fl), false, fl)
    decreases |s| - k
  {
    hide Next, ChunkStop, ChunkFits, ChunkLen, ChunkEnd, Run;
    var c, len := ChunkEnd(p, i, fl), ChunkLen(p, i, fl);
    if Run(p, i, s, k, false, fl) {
      RunSplitsAtChunk(p, i, s, k, fl);
      ChunkStaysInSegment(p, i, s, k, fl);
      SegEndFrom(s, j, k, fl);
      SegEndFrom(s, j, j + len, fl);
      StarRunAt(p, c, s, j + len, k + len, fl);
      StarIsStarRun(p, c, s, j + len, fl);
    } else {
      LaterFitIsNoBetter(p, i, s, j, k + 1, fl);
    }
  }

  lemma {:induction false} SegEndFrom(s: CString, j: nat, k: nat, fl: Flags)
    requires j <= k <= |s| && k <= SegEnd(s, j, fl)
    ensures SegEnd(s, k, fl) == SegEnd(s, j, fl)
    decreases k - j
  {
    if j >= k {
    } else {
      SegEndFrom(s, j + 1, k, fl);
    }
  }
}

/** The matcher itself: two cursors moved by loops. */
module Fnmatch {
  import opened CStrings
  import opened FnmatchSpec
  import opened FnmatchRuns

  predicate SomeItem(items: seq<Item>, c: char, fl: Flags) {
    exists k :: 0 <= k < |items| && InItem(items[k], c, fl)
  }

  /** The bracket scan of fnmatch_ch, from the opening bracket on. When the bracket
      expression is not closed, `closed` is false and the caller rewinds. */
  method ScanClass(p: CString, i0: nat, c: char, fl: Flags) returns (closed: bool, ok: bool, i: nat)
    requires i0 < |p| && p[i0] == '['
    ensures closed == ParseClass(p, i0, fl).ClassTail?
    ensures closed ==> i == ParseClass(p, i0, fl).end
    ensures closed ==> ok == ((ListStart(p, i0) == i0 + 2) != SomeItem(ParseClass(p, i0, fl).items, c, fl))
  {
    hide InItem, SameChar, ParseItems, ParseItem, Cons;
    closed, ok, i := false, false, i0 + 1;
    var negate := At(p, i) == '!' || At(p, i) == '^';
    if negate { i := i + 1; }
    var leading := At(p, i) == ']';
    ghost var seen: seq<Item> := [];
    ghost var whole := ParseClass(p, i0, fl);
    while leading || At(p, i) != '\0'
      invariant i0 < i <= |p|
      invariant leading ==> i < |p| && p[i] == ']'
      invariant whole == Prepend(seen, if leading then ParseItem(p, i, fl) else ParseItems(p, i, fl))
      invariant ok == SomeItem(seen, c, fl)
      decreases |p| - i
    {
      if !leading {
        ItemsAt(p, i, fl);
        if p[i] == ']' {
          PrependEnd(seen, i + 1);
          return true, ok != negate, i + 1;
        }
        if !fl.noescape && p[i] == '\\' {
          i := i + 1;
          if At(p, i) == '\0' { return; }
        }
        if fl.pathname && p[i] == '/' { return; }
      }
      leading := false;
      var hit, item, next := CompareItem(p, i, c, fl);
      if item.None? { return; }
      ok := ok || hit;
      PrependMore(seen, item.item, ParseItems(p, next, fl));
      SomeItemMore(seen, item.item, c, fl);
      i, seen := next, seen + [item.item];
    }
    ItemsAt(p, i, fl);
  }

  /** One unfolding of the list grammar. */
  lemma ItemsAt(p: CString, i: nat, fl: Flags)
    requires i <= |p|
    ensures i == |p| ==> ParseItems(p, i, fl) == Malformed
    ensures i < |p| && p[i] == ']' ==> ParseItems(p, i, fl) == ClassTail([], i + 1)
    ensures i < |p| && p[i] != ']' ==>
      var k := if !fl.noescape && p[i] == '\\' then i + 1 else i;
      ParseItems(p, i, fl) == if k == |p| || (fl.pathname && p[k] == '/') then Malformed else ParseItem(p, k, fl)
  {
    hide ParseItem;
  }

  lemma PrependEnd(seen: seq<Item>, end: nat)
    ensures Prepend(seen, ClassTail([], end)) == ClassTail(seen, end)
  {
    assert seen + [] == seen;
  }

  datatype MaybeItem = None | Some(item: Item)

  /** Compares `c` with the list element at `k`; None when a range is cut short. */
  method CompareItem(p: CString, k: nat, c: char, fl: Flags) returns (hit: bool, item: MaybeItem, next: nat)
    requires k < |p|
    ensures item.None? ==> ParseItem(p, k, fl) == Malformed
    ensures item.Some? ==> k < next <= |p| && ParseItem(p, k, fl) == Cons(item.item, ParseItems(p, next, fl))
    ensures item.Some? ==> hit == InItem(item.item, c, fl)
  {
    var i := k;
    hit := false;
    if At(p, i + 1) == '-' && At(p, i + 2) != ']' {
      var lo := p[i];
      i := i + if !fl.noescape && At(p, i + 2) == '\\' then 3 else 2;
      if At(p, i) == '\0' || (fl.pathname && p[i] == '/') {
        return false, None, k;
      }
      if Code(lo) <= Code(c) <= Code(p[i]) {
        hit := true;
      } else if fl.caseBlind && (IsUpper(c) || IsUpper(lo) || IsUpper(p[i]))
                && Code(Lower(lo)) <= Code(Lower(c)) <= Code(Lower(p[i])) {
        hit := true;
      }
      return hit, Some(Range(lo, p[i])), i + 1;
    }
    hit := CompareChar(c, p[i], fl);
    return hit, Some(Single(p[i])), i + 1;
  }

  method CompareChar(c: char, d: char, fl: Flags) returns (same: bool)
    ensures same == SameChar(c, d, fl)
  {
    if c == d { return true; }
    return fl.caseBlind && (IsUpper(c) || IsUpper(d)) && Lower(c) == Lower(d);
  }

  /** fnmatch_ch: compares one pattern token with one character. Both cursors are
      returned past what they compared, also after a mismatch; the pattern cursor
      does not depend on the character. */
  method FnmatchCh(p: CString, i0: nat, s: CString, j0: nat, fl: Flags) returns (ok: bool, i: nat, j: nat)
    requires i0 < |p| && j0 < |s| && InSegment(s[j0], fl)
    requires OneChar(Next(p, i0, fl).0)
    ensures ok == Accepts(Next(p, i0, fl).0, s[j0], fl)
    ensures i == Next(p, i0, fl).1 && j == j0 + 1
  {
    ok, i, j := false, i0, j0;
    if p[i] == '[' {
      var closed;
      closed, ok, i := ScanClass(p, i0, s[j], fl);
      if closed {
        return ok, i, j + 1;
      }
      ok, i := false, i0;
    } else if p[i] == '?' {
      return true, i + 1, j + 1;
    } else if !fl.noescape && p[i] == '\\' && i + 1 < |p| {
      i := i + 1;
    }
    ok := CompareChar(s[j], p[i], fl);
    if fl.pathname && (s[j] == '/' || p[i] == '/') {
      return;
    }
    i, j := i + 1, j + 1;
  }

  ghost function Prepend(items: seq<Item>, tail: ClassTail): ClassTail {
    if tail.Malformed? then Malformed else ClassTail(items + tail.items, tail.end)
  }

  lemma PrependMore(seen: seq<Item>, item: Item, tail: ClassTail)
    ensures Prepend(seen, Cons(item, tail)) == Prepend(seen + [item], tail)
  {
    if tail.ClassTail? { assert seen + ([item] + tail.items) == (seen + [item]) + tail.items; }
  }

  lemma SomeItemMore(seen: seq<Item>, item: Item, c: char, fl: Flags)
    ensures SomeItem(seen + [item], c, fl) == (SomeItem(seen, c, fl) || InItem(item, c, fl))
  {
    var more := seen + [item];
    if SomeItem(seen, c, fl) {
      var k :| 0 <= k < |seen| && InItem(seen[k], c, fl);
      assert more[k] == seen[k];
    }
    if InItem(item, c, fl) { assert more[|seen|] == item; }
  }

  predicate AtSlash(p: CString, i: nat, fl: Flags) {
    fl.pathname && (At(p, i) == '/' || (!fl.noescape && At(p, i) == '\\' && At(p, i + 1) == '/'))
  }

  /** What is asked of the rest: `wild` when a star stands before position `i`. */
  predicate Wanted(wild: bool, p: CString, i: nat, s: CString, j: nat, fl: Flags)
    requires i <= |p| && j <= |s|
  {
    if wild then StarRun(p, i, s, j, fl) else Run(p, i, s, j, false, fl)
  }

  /** Reduces a group of `*` and `?` to its `?` matches followed by one star test. */
  method SkipWilds(p: CString, i0: nat, s: CString, j0: nat, e: nat, fl: Flags)
    returns (fail: bool, wild: bool, i: nat, j: nat)
    requires i0 <= |p| && j0 <= e <= |s| && SegEnd(s, j0, fl) == e
    ensures fail ==> !Run(p, i0, s, j0, false, fl)
    ensures !fail ==> i0 <= i <= |p| && j0 <= j <= e && SegEnd(s, j, fl) == e
    ensures !fail ==> Run(p, i0, s, j0, false, fl) == Wanted(wild, p, i, s, j, fl)
    ensures !fail ==> At(p, i) != '*' && At(p, i) != '?' && (i == i0 ==> !wild && j == j0)
  {
    fail, wild, i, j := false, false, i0, j0;
    while At(p, i) == '*' || At(p, i) == '?'
      invariant i0 <= i <= |p| && j0 <= j <= e && SegEnd(s, j, fl) == e
      invariant Run(p, i0, s, j0, false, fl) == Wanted(wild, p, i, s, j, fl)
      invariant i == i0 ==> !wild && j == j0
      decreases |p| - i
    {
      if p[i] == '*' {
        StarIsStarRun(p, i, s, j, fl);
        wild := true;
      } else {
        StarThenAny(p, i, s, j, fl);
        if j < e {
          j := j + 1;
        } else {
          return true, wild, i, j;
        }
      }
      i := i + 1;
    }
  }

  /** Steps over what matches a single character. */
  method SkipChar(p: CString, k: nat, fl: Flags) returns (n: nat)
    requires k < |p| && !AtSlash(p, k, fl) && p[k] != '*'
    ensures n == Next(p, k, fl).1 && OneChar(Next(p, k, fl).0)
  {
    hide ParseItems, ParseItem, ParseClass, ListStart;
    if !fl.noescape && p[k] == '\\' && At(p, k + 1) != '\0' {
      n := k + 2;
    } else if p[k] == '[' {
      var dummy: CString := " ";
      var _, k', _ := FnmatchCh(p, k, dummy, 0, fl);
      n := k';
    } else {
      n := k + 1;
    }
  }

  /** Counts the fixed characters up to the next star or the end of the segment
      pattern, using a dummy comparison to get past a bracket expression. */
  method CountChunk(p: CString, i: nat, fl: Flags) returns (matchlen: nat, last: bool)
    requires i <= |p|
    ensures matchlen == ChunkLen(p, i, fl)
    ensures last <==> ChunkEnd(p, i, fl) == |p| || Next(p, ChunkEnd(p, i, fl), fl).0 == Slash
    ensures !last ==> p[ChunkEnd(p, i, fl)] == '*'
    ensures !last && At(p, i) != '*' ==> matchlen > 0
  {
    hide ParseItems, ParseItem, ParseClass, ListStart;
    var k := i;
    matchlen := 0;
    while true
      invariant k <= |p| && ChunkEnd(p, k, fl) == ChunkEnd(p, i, fl)
      invariant matchlen + ChunkLen(p, k, fl) == ChunkLen(p, i, fl)
      invariant k == i || matchlen > 0
      decreases |p| - k
    {
      if At(p, k) == '\0' || AtSlash(p, k, fl) { return matchlen, true; }
      if p[k] == '*' { return matchlen, false; }
      k := SkipChar(p, k, fl);
      matchlen := matchlen + 1;
    }
  }

  /** The incremental match: after a star the chunk is tried at one string position
      after the other, otherwise it must fit where it stands. */
  method MatchChunk(p: CString, i0: nat, s: CString, j0: nat, e: nat, wild: bool, matchlen: nat, fl: Flags)
    returns (fail: bool, i: nat, j: nat)
    requires i0 <= |p| && j0 <= e <= |s| && SegEnd(s, j0, fl) == e
    requires wild ==> matchlen == ChunkLen(p, i0, fl) > 0 && j0 + matchlen <= e
    requires wild ==> ChunkEnd(p, i0, fl) < |p| && p[ChunkEnd(p, i0, fl)] == '*'
    ensures fail ==> !Wanted(wild, p, i0, s, j0, fl)
    ensures !fail ==> i0 <= i <= |p| && j0 <= j <= e && SegEnd(s, j, fl) == e
    ensures !fail ==> Run(p, i, s, j, false, fl) == Wanted(wild, p, i0, s, j0, fl)
    ensures !fail && j0 < e && !ChunkStop(p, i0, fl) ==> i0 < i
  {
    hide Next, Run, StarRun, ChunkFits, ChunkLen, ChunkEnd, Accepts;
    if i0 < |p| { TokenKinds(p, i0, fl); }
    fail, i, j := false, i0, j0;
    var q := j0;
    while i < |p| && j < e
      invariant i0 <= i <= |p| && j0 <= q <= j <= e && SegEnd(s, j, fl) == e
      invariant !wild ==> Run(p, i, s, j, false, fl) == Wanted(wild, p, i0, s, j0, fl) && (i == i0 ==> j == j0)
      invariant wild ==> Trying(p, i0, s, q, e, i, j, fl)
      invariant wild ==> StarRun(p, i0, s, q, fl) == Wanted(wild, p, i0, s, j0, fl)
      decreases e - q, |p| - i
    {
      if p[i] == '*' || AtSlash(p, i, fl) { break; }
      TokenKinds(p, i, fl);
      var ok, i', j' := FnmatchCh(p, i, s, j, fl);
      OneStep(p, i, s, j, fl);
      SegEndFrom(s, j, j + 1, fl);
      if ok {
        i, j := i', j';
      } else if wild {
        StarMiss(p, i0, s, q, fl);
        SegEndFrom(s, q, q + 1, fl);
        q := q + 1;
        if q + matchlen > e {
          StarRunNeedsRoom(p, i0, s, q, fl);
          return true, i, j;
        }
        i, j := i0, q;
      } else {
        return true, i, j;
      }
    }
    if wild {
      TryIsOver(p, i0, s, q, e, i, j, fl);
    }
  }

  /** A chunk begun at `i0` against position `q` has reached `i` and `j`. */
  predicate Trying(p: CString, i0: nat, s: CString, q: nat, e: nat, i: nat, j: nat, fl: Flags) {
    && i0 <= i <= |p| && q <= j <= e <= |s| && SegEnd(s, q, fl) == e
    && q + ChunkLen(p, i0, fl) <= e && ChunkEnd(p, i, fl) == ChunkEnd(p, i0, fl)
    && j + ChunkLen(p, i, fl) == q + ChunkLen(p, i0, fl)
    && ChunkFits(p, i0, s, q, fl) == ChunkFits(p, i, s, j, fl)
  }

  /** One character against one token, for every reading of the rest. */
  lemma OneStep(p: CString, i: nat, s: CString, j: nat, fl: Flags)
    requires i < |p| && j < |s| && OneChar(Next(p, i, fl).0)
    ensures var (t, n) := Next(p, i, fl);
            && Run(p, i, s, j, false, fl) == (Accepts(t, s[j], fl) && Run(p, n, s, j + 1, false, fl))
            && ChunkFits(p, i, s, j, fl) == (Accepts(t, s[j], fl) && ChunkFits(p, n, s, j + 1, fl))
            && ChunkEnd(p, i, fl) == ChunkEnd(p, n, fl) && ChunkLen(p, i, fl) == 1 + ChunkLen(p, n, fl)
  {
    hide ParseItems, ParseItem, ParseClass, Accepts;
  }

  /** A chunk that does not fit leaves the star to step over one more character. */
  lemma StarMiss(p: CString, i0: nat, s: CString, q: nat, fl: Flags)
    requires i0 <= |p| && q <= |s| && !ChunkFits(p, i0, s, q, fl)
    ensures StarRun(p, i0, s, q, fl) == (q < |s| && InSegment(s[q], fl) && StarRun(p, i0, s, q + 1, fl))
  {
    hide Next, Run, ChunkFits, ChunkLen, ChunkEnd;
    RunSplitsAtChunk(p, i0, s, q, fl);
  }

  lemma TokenKinds(p: CString, i: nat, fl: Flags)
    requires i < |p|
    ensures Next(p, i, fl).0 == Star <==> p[i] == '*'
    ensures Next(p, i, fl).0 == Slash <==> AtSlash(p, i, fl)
    ensures ChunkStop(p, i, fl) <==> p[i] == '*' || AtSlash(p, i, fl)
  {
  }

  lemma TryIsOver(p: CString, i0: nat, s: CString, q: nat, e: nat, i: nat, j: nat, fl: Flags)
    requires i0 <= |p| && Trying(p, i0, s, q, e, i, j, fl)
    requires ChunkEnd(p, i0, fl) < |p| && p[ChunkEnd(p, i0, fl)] == '*'
    requires i < |p| && j < e ==> p[i] == '*' || AtSlash(p, i, fl)
    ensures Run(p, i, s, j, false, fl) == StarRun(p, i0, s, q, fl)
    ensures ChunkLen(p, i0, fl) > 0 ==> i0 < i
  {
    if i < |p| { TokenKinds(p, i, fl); }
    assert ChunkStop(p, i, fl);
    FirstFitSuffices(p, i0, s, q, fl);
  }

  /** Matches the pattern of one segment against `s[j0..e]`, chunk by chunk. */
  method MatchSegment(p: CString, i0: nat, s: CString, j0: nat, e: nat, fl: Flags)
    returns (fail: bool, i: nat, j: nat)
    requires i0 <= |p| && j0 <= e <= |s| && SegEnd(s, j0, fl) == e
    ensures fail ==> !Run(p, i0, s, j0, false, fl)
    ensures !fail ==> i0 <= i <= |p| && j0 <= j <= e && SegEnd(s, j, fl) == e
    ensures !fail ==> Run(p, i, s, j, false, fl) == Run(p, i0, s, j0, false, fl)
    ensures !fail ==> i == |p| || AtSlash(p, i, fl) || (j == e && p[i] != '*')
  {
    hide Next, Run, StarRun, ChunkFits, ChunkLen, ChunkEnd;
    fail, i, j := false, i0, j0;
    while i < |p|
      invariant i0 <= i <= |p| && j0 <= j <= e && SegEnd(s, j, fl) == e
      invariant Run(p, i, s, j, false, fl) == Run(p, i0, s, j0, false, fl)
      decreases |p| - i
    {
      if (j == e && p[i] != '*') || AtSlash(p, i, fl) { break; }
      TokenKinds(p, i, fl);
      var wild, i1, j1;
      fail, wild, i1, j1 := SkipWilds(p, i, s, j, e, fl);
      if fail { return; }
      var matchlen := 0;
      if wild {
        var last;
        matchlen, last := CountChunk(p, i1, fl);
        if j1 + matchlen > e {
          StarRunNeedsRoom(p, i1, s, j1, fl);
          return true, i, j;
        }
        if last {
          LastChunkIsAnchored(p, i1, s, j1, fl);
          SegEndFrom(s, j1, e - matchlen, fl);
          j1, wild := e - matchlen, false;
        }
      }
      fail, i, j := MatchChunk(p, i1, s, j1, e, wild, matchlen, fl);
      if fail { return; }
    }
  }

  /** Matches balanced separators. */
  method StepOverSlash(p: CString, i0: nat, s: CString, j0: nat, fl: Flags) returns (i: nat, j: nat)
    requires i0 <= |p| && j0 <= |s|
    ensures i0 <= i <= |p| && j0 <= j <= |s|
    ensures Run(p, i, s, j, true, fl) == Run(p, i0, s, j0, true, fl)
    ensures AtSlash(p, i0, fl) ==> if At(s, j0) == '/' then i > i0 else AtSlash(p, i, fl) && j == j0
    ensures !AtSlash(p, i0, fl) ==> i == i0 && j == j0
  {
    i, j := i0, j0;
    if AtSlash(p, i, fl) && p[i] == '\\' { i := i + 1; }
    if fl.pathname && At(p, i) == '/' && At(s, j) == '/' { i, j := i + 1, j + 1; }
  }

  /** The leading period of a segment is matched by a literal period only. */
  method LeadingPeriod(p: CString, i0: nat, s: CString, j0: nat, fl: Flags) returns (fail: bool, i: nat, j: nat)
    requires i0 <= |p| && j0 <= |s|
    ensures fail ==> !Run(p, i0, s, j0, true, fl)
    ensures !fail ==> i0 <= i <= |p| && j0 <= j <= |s| && Run(p, i, s, j, false, fl) == Run(p, i0, s, j0, true, fl)
    ensures AtSlash(p, i0, fl) && !fail ==> i == i0 && j == j0
  {
    fail, i, j := false, i0, j0;
    if fl.period && At(s, j) == '.' {
      if At(p, i) == '.' {
        i := i + 1;
      } else if !fl.noescape && At(p, i) == '\\' && At(p, i + 1) == '.' {
        i := i + 2;
      } else {
        return true, i, j;
      }
      j := j + 1;
    }
  }

  /** apr_fnmatch */
  method Fnmatch(p: CString, s: CString, fl: Flags) returns (matched: bool)
    ensures matched <==> Matches(p, s, fl)
  {
    RunIsMatch(p, s, fl);
    var i: nat, j: nat := 0, 0;
    var atStar := At(p, 0) == '*';
    ghost var first := true;
    while atStar || (i < |p| && j < |s|)
      invariant i <= |p| && j <= |s|
      invariant Run(p, i, s, j, true, fl) == Run(p, 0, s, 0, true, fl)
      invariant atStar == (first && At(p, 0) == '*')
      invariant if first then i == j == 0 else BetweenSegments(p, i, s, j, fl)
      decreases |p| - i, first
    {
      if !atStar {
        i, j := StepOverSlash(p, i, s, j, fl);
      }
      atStar := false;
      var fail;
      fail, i, j := LeadingPeriod(p, i, s, j, fl);
      if fail { return false; }
      var e := SegEnd(s, j, fl);
      fail, i, j := MatchSegment(p, i, s, j, e, fl);
      if fail { return false; }
      if (j < |s| && !(fl.pathname && s[j] == '/')) || (i < |p| && !AtSlash(p, i, fl)) {
        NotBetweenSegments(p, i, s, j, fl);
        return false;
      }
      first := false;
    }
    if i < |p| { TokenKinds(p, i, fl); }
    return i == |p| && j == |s|;
  }

  predicate BetweenSegments(p: CString, i: nat, s: CString, j: nat, fl: Flags) {
    && (j < |s| ==> fl.pathname && s[j] == '/')
    && (i < |p| ==> AtSlash(p, i, fl))
  }

  lemma NotBetweenSegments(p: CString, i: nat, s: CString, j: nat, fl: Flags)
    requires i <= |p| && j <= |s| && !BetweenSegments(p, i, s, j, fl)
    requires i == |p| || AtSlash(p, i, fl) || (j == SegEnd(s, j, fl) && p[i] != '*')
    ensures !Run(p, i, s, j, false, fl)
  {
    if i < |p| { TokenKinds(p, i, fl); }
  }
}

/** apr_fnmatch_test: a pattern it calls glob-free stands for one string only. */
module FnmatchTest {
  import opened CStrings
  import opened FnmatchSpec
  import opened FnmatchRuns

  /** No unescaped wildcard from `i` on, and no unescaped closing bracket after an
      unescaped opening one; `open` says one was seen before `i`. */
  predicate GlobFree(p: CString, i: nat, open: bool)
    decreases |p| - i
  {
    i >= |p| ||
    match p[i]
    case '?' => false
    case '*' => false
    case '\\' => GlobFree(p, i + 2, open)
    case '[' => GlobFree(p, i + 1, true)
    case ']' => !open && GlobFree(p, i + 1, open)
    case _ => GlobFree(p, i + 1, open)
  }

  /** How many backslashes there are right before `k`. */
  function Backslashes(p: CString, k: nat): nat
    requires k <= |p|
  {
    if k > 0 && p[k - 1] == '\\' then 1 + Backslashes(p, k - 1) else 0
  }

  /** The character at `k` stands for itself or not: no backslash quotes it. */
  predicate Unquoted(p: CString, k: nat, c: char) {
    k < |p| && p[k] == c && Backslashes(p, k) % 2 == 0
  }

  /** A wildcard, or a closing bracket after an opening one, that is not quoted. */
  predicate GlobAt(p: CString, k: nat) {
    || Unquoted(p, k, '*') || Unquoted(p, k, '?')
    || (Unquoted(p, k, ']') && exists j :: 0 <= j < k && Unquoted(p, j, '['))
  }

  lemma {:induction false} GlobFreeIs(p: CString, i: nat, open: bool)
    requires i <= |p| && Backslashes(p, i) % 2 == 0
    requires open <==> exists j :: 0 <= j < i && Unquoted(p, j, '[')
    ensures GlobFree(p, i, open) <==> forall k :: i <= k < |p| ==> !GlobAt(p, k)
    decreases |p| - i
  {
    if i == |p| {
    } else if p[i] == '\\' && i + 1 == |p| {
      assert !GlobAt(p, i);
    } else if p[i] == '\\' {
      assert Backslashes(p, i + 1) % 2 == 1 && !GlobAt(p, i) && !GlobAt(p, i + 1);
      assert !Unquoted(p, i, '[') && !Unquoted(p, i + 1, '[');
      GlobFreeIs(p, i + 2, open);
    } else {
      assert Backslashes(p, i + 1) == 0 && (Unquoted(p, i, '[') <==> p[i] == '[');
      if p[i] in "*?" || (p[i] == ']' && open) {
        assert GlobAt(p, i);
      } else {
        assert !GlobAt(p, i);
        GlobFreeIs(p, i + 1, open || p[i] == '[');
      }
    }
  }

  /** The pattern with its escapes removed; a backslash at the end stays. */
  function Unescape(p: CString, i: nat): string
    requires i <= |p|
    decreases |p| - i
  {
    if i == |p| then ""
    else if p[i] == '\\' && i + 1 < |p| then [p[i + 1]] + Unescape(p, i + 2)
    else [p[i]] + Unescape(p, i + 1)
  }

  lemma AllGlobFree(p: CString)
    ensures GlobFree(p, 0, false) <==> forall k :: 0 <= k < |p| ==> !GlobAt(p, k)
  {
    GlobFreeIs(p, 0, false);
  }

  /** apr_fnmatch_test */
  method Test(p: CString) returns (glob: bool)
    ensures glob == !GlobFree(p, 0, false)
    ensures glob <==> exists k :: 0 <= k < |p| && GlobAt(p, k)
    ensures !glob ==> forall s: CString :: Matches(p, s, NO_FLAGS) <==> s == Unescape(p, 0)
  {
    hide GlobAt, Backslashes;
    AllGlobFree(p);
    var i, nesting := 0, 0;
    while i < |p|
      invariant 0 <= i && 0 <= nesting && GlobFree(p, i, nesting > 0) == GlobFree(p, 0, false)
    {
      match p[i] {
        case '?' => return true;
        case '*' => return true;
        case '\\' =>
          i := i + 1;
          if At(p, i) == '\0' {
            forall s: CString { GlobFreeMatchesOneString(p, s); }
            return false;
          }
        case '[' => nesting := nesting + 1;
        case ']' => if nesting > 0 { return true; }
        case _ =>
      }
      i := i + 1;
    }
    forall s: CString { GlobFreeMatchesOneString(p, s); }
    return false;
  }

  lemma GlobFreeMatchesOneString(p: CString, s: CString)
    requires GlobFree(p, 0, false)
    ensures Matches(p, s, NO_FLAGS) <==> s == Unescape(p, 0)
  {
    RunIsMatch(p, s, NO_FLAGS);
    LiteralRun(p, 0, s, 0, true, false);
  }

  lemma {:induction false} LiteralRun(p: CString, i: nat, s: CString, j: nat, start: bool, open: bool)
    requires i <= |p| && j <= |s| && GlobFree(p, i, open)
    ensures Run(p, i, s, j, start, NO_FLAGS) <==> s[j..] == Unescape(p, i)
    decreases |p| - i
  {
    if i >= |p| {
    } else {
      LiteralToken(p, i, open);
      var (t, n) := Next(p, i, NO_FLAGS);
      if j < |s| {
        LiteralRun(p, n, s, j + 1, false, open || p[i] == '[');
        assert s[j..] == [s[j]] + s[j + 1..];
        assert Run(p, i, s, j, start, NO_FLAGS) == (s[j] == t.c && Run(p, n, s, j + 1, false, NO_FLAGS));
      }
    }
  }

  /** Every token of a glob-free pattern is a literal. */
  lemma LiteralToken(p: CString, i: nat, open: bool)
    requires i < |p| && GlobFree(p, i, open)
    ensures Next(p, i, NO_FLAGS).0.Lit?
    ensures GlobFree(p, Next(p, i, NO_FLAGS).1, open || p[i] == '[')
    ensures Unescape(p, i) == [Next(p, i, NO_FLAGS).0.c] + Unescape(p, Next(p, i, NO_FLAGS).1)
  {
    if p[i] == '[' { NeverClosed(p, i); }
  }

  /** The bracket expression opened at `i` of a glob-free pattern has no end. */
  lemma NeverClosed(p: CString, i: nat)
    requires i < |p| && p[i] == '[' && GlobFree(p, i + 1, true)
    ensures ParseClass(p, i, NO_FLAGS) == Malformed
  {
    var k := ListStart(p, i);
    assert GlobFree(p, k, true);
    if k < |p| { ItemsNeverClosed(p, k); }
  }

  lemma {:induction false} ItemsNeverClosed(p: CString, i: nat)
    requires i <= |p| && GlobFree(p, i, true)
    ensures ParseItems(p, i, NO_FLAGS) == Malformed
    decreases |p| - i, 1
  {
    if i < |p| {
      var k := if p[i] == '\\' then i + 1 else i;
      if k < |p| { ItemNeverClosed(p, k); }
    }
  }

  lemma {:induction false} ItemNeverClosed(p: CString, k: nat)
    requires k < |p| && GlobFree(p, k + 1, true)
    ensures ParseItem(p, k, NO_FLAGS) == Malformed
    decreases |p| - k, 0
  {
    if At(p, k + 1) == '-' && At(p, k + 2) != ']' {
      var h := if At(p, k + 2) == '\\' then k + 3 else k + 2;
      assert GlobFree(p, k + 2, true);
      if h < |p| { ItemsNeverClosed(p, h + 1); }
    } else {
      ItemsNeverClosed(p, k + 1);
    }
  }

  // ---------- which patterns stand for one string ----------

  predicate IsByte(c: char) { 0 < c as int < 256 }

  /** Token `t` accepts the character `c` and no other. */
  ghost predicate Sole(t: Token, c: char) {
    OneChar(t) && IsByte(c) && Accepts(t, c, NO_FLAGS) && forall d :: IsByte(d) && Accepts(t, d, NO_FLAGS) ==> d == c
  }

  /** A literal, or a bracket expression for exactly one character. */
  ghost predicate IsSingle(t: Token) {
    t.Lit? || (t.Class? && exists c :: Sole(t, c))
  }

  ghost predicate OnlyMatch(p: CString, s: CString) {
    forall t: CString :: Matches(p, t, NO_FLAGS) <==> t == s
  }

  /** Exactly one string matches. */
  ghost predicate MatchesOne(p: CString) {
    exists s: CString :: OnlyMatch(p, s)
  }

  ghost predicate AllSingle(ts: seq<Token>) {
    forall k :: 0 <= k < |ts| ==> IsSingle(ts[k])
  }

  /** A pattern stands for exactly one string if and only if all of its tokens do. So a
      positive answer of the test is right exactly for the others. */
  lemma OneStringExactly(p: CString)
    ensures MatchesOne(p) <==> AllSingle(Parse(p, 0, NO_FLAGS))
  {
    var ts := Parse(p, 0, NO_FLAGS);
    LitsAreBytes(p, 0);
    if AllSingle(ts) {
      OnlyString(p, ts);
    } else if MatchesOne(p) {
      var s: CString :| OnlyMatch(p, s);
      var k :| 0 <= k < |ts| && !IsSingle(ts[k]);
      AnotherMatch(p, s, k);
      assert false;
    }
  }

  /** The bytes of literals are those of the pattern. */
  lemma {:induction false} LitsAreBytes(p: CString, i: nat)
    requires i <= |p|
    ensures forall k :: 0 <= k < |Parse(p, i, NO_FLAGS)| ==>
      Parse(p, i, NO_FLAGS)[k] != Slash && (Parse(p, i, NO_FLAGS)[k].Lit? ==> IsByte(Parse(p, i, NO_FLAGS)[k].c))
    decreases |p| - i
  {
    if i >= |p| {
    } else {
      LitsAreBytes(p, Next(p, i, NO_FLAGS).1);
    }
  }

  lemma LitIsSole(t: Token)
    requires t.Lit? && IsByte(t.c)
    ensures Sole(t, t.c)
  {
  }

  lemma SoleIsByte(t: Token, c: char)
    requires Sole(t, c)
    ensures IsByte(c)
  {
  }

  /** The one character of each token. */
  lemma {:induction false} SoleChars(ts: seq<Token>) returns (s: CString)
    requires AllSingle(ts) && forall k :: 0 <= k < |ts| && ts[k].Lit? ==> IsByte(ts[k].c)
    ensures |s| == |ts| && forall k :: 0 <= k < |ts| ==> Sole(ts[k], s[k])
  {
    if ts == [] {
      s := "";
    } else {
      var n := |ts| - 1;
      var t := ts[n];
      var rest := SoleChars(ts[..n]);
      if t.Lit? { LitIsSole(t); }
      var c :| Sole(t, c);
      SoleIsByte(t, c);
      s := rest + [c];
    }
  }

  lemma OnlyString(p: CString, ts: seq<Token>)
    requires ts == Parse(p, 0, NO_FLAGS) && AllSingle(ts) && forall k :: 0 <= k < |ts| && ts[k].Lit? ==> IsByte(ts[k].c)
    ensures MatchesOne(p)
  {
    var s := SoleChars(ts);
    forall t: CString ensures Matches(p, t, NO_FLAGS) <==> t == s {
      if t == s { SoleFits(p, ts, s); }
      if Matches(p, t, NO_FLAGS) {
        var cuts :| Fits(ts, t, 0, cuts, true, NO_FLAGS);
        SoleCuts(ts, t, cuts, s, |ts|);
        assert t == s;
      }
    }
    assert OnlyMatch(p, s);
  }

  lemma SoleFits(p: CString, ts: seq<Token>, s: CString)
    requires ts == Parse(p, 0, NO_FLAGS) && |s| == |ts| && forall k :: 0 <= k < |ts| ==> Sole(ts[k], s[k])
    ensures Matches(p, s, NO_FLAGS)
  {
    var cuts: seq<nat> := seq(|ts| + 1, (i: nat) => i);
    forall k | 0 <= k < |ts| ensures PieceFits(ts, s, cuts, k, true, NO_FLAGS) {
      assert s[cuts[k]..cuts[k + 1]] == [s[k]] && Sole(ts[k], s[k]);
    }
    assert Fits(ts, s, 0, cuts, true, NO_FLAGS);
  }

  /** Every piece is the one character of its token. */
  lemma {:induction false} SoleCuts(ts: seq<Token>, t: CString, cuts: seq<nat>, s: CString, n: nat)
    requires Fits(ts, t, 0, cuts, true, NO_FLAGS) && n <= |ts| == |s| && forall k :: 0 <= k < |ts| ==> Sole(ts[k], s[k])
    ensures cuts[n] == n <= |t| && t[..n] == s[..n]
  {
    if n == 0 {
      assert t[..0] == s[..0];
    } else {
      SoleCuts(ts, t, cuts, s, n - 1);
      assert PieceFits(ts, t, cuts, n - 1, true, NO_FLAGS) && Sole(ts[n - 1], s[n - 1]);
      var x := t[cuts[n - 1]..cuts[n]];
      assert |x| == 1 && x[0] == t[n - 1];
      assert t[..n] == t[..n - 1] + [t[n - 1]] && s[..n] == s[..n - 1] + [s[n - 1]];
    }
  }

  /** Where one token can stand for something else, so can the pattern. */
  lemma AnotherMatch(p: CString, s: CString, k: nat)
    requires k < |Parse(p, 0, NO_FLAGS)| && !IsSingle(Parse(p, 0, NO_FLAGS)[k]) && Parse(p, 0, NO_FLAGS)[k] != Slash
    requires Matches(p, s, NO_FLAGS)
    ensures exists t: CString :: t != s && Matches(p, t, NO_FLAGS)
  {
    var ts := Parse(p, 0, NO_FLAGS);
    var cuts :| Fits(ts, s, 0, cuts, true, NO_FLAGS);
    assert PieceFits(ts, s, cuts, k, true, NO_FLAGS);
    var x := s[cuts[k]..cuts[k + 1]];
    var y := OtherPiece(ts[k], x);
    var t := Exchange(ts, s, cuts, k, y);
    var c :| Fits(ts, t, 0, c, true, NO_FLAGS);
    assert Matches(p, t, NO_FLAGS);
  }

  lemma OtherPiece(t: Token, x: CString) returns (y: CString)
    requires !IsSingle(t) && t != Slash && Covers(t, x, NO_FLAGS)
    ensures Covers(t, y, NO_FLAGS) && y != x
  {
    if t == Star {
      y := x + "a";
    } else if t == Any {
      y := if x == "a" then "b" else "a";
    } else {
      assert !Sole(t, x[0]);
      var d :| IsByte(d) && Accepts(t, d, NO_FLAGS) && d != x[0];
      y := [d];
    }
  }

  lemma {:induction false} CutsGrow(ts: seq<Token>, s: CString, cuts: seq<nat>, i: nat, j: nat)
    requires Fits(ts, s, 0, cuts, true, NO_FLAGS) && i <= j <= |ts|
    ensures cuts[i] <= cuts[j] <= |s|
    decreases j
  {
    if j < |ts| { assert PieceFits(ts, s, cuts, j, true, NO_FLAGS); }
    if i >= j {
    } else {
      assert PieceFits(ts, s, cuts, j - 1, true, NO_FLAGS);
      CutsGrow(ts, s, cuts, i, j - 1);
    }
  }

  /** One piece is replaced by another one for the same token. */
  lemma Exchange(ts: seq<Token>, s: CString, cuts: seq<nat>, k: nat, y: CString) returns (t: CString)
    requires Fits(ts, s, 0, cuts, true, NO_FLAGS) && k < |ts| && Covers(ts[k], y, NO_FLAGS)
    requires cuts[k] <= cuts[k + 1] <= |s| ==> y != s[cuts[k]..cuts[k + 1]]
    ensures t != s && exists c :: Fits(ts, t, 0, c, true, NO_FLAGS)
  {
    CutsGrow(ts, s, cuts, k, k + 1);
    var a, b := cuts[k], cuts[k + 1];
    t := s[..a] + y + s[b..];
    var c: seq<nat> := seq(|ts| + 1, (i: nat) requires i <= |ts| =>
      if i <= k || cuts[i] < b then cuts[i] else cuts[i] - b + a + |y|);
    forall i | 0 <= i < |ts| ensures PieceFits(ts, t, c, i, true, NO_FLAGS) {
      MovedPiece(ts, s, cuts, k, y, t, c, i);
    }
    CutsGrow(ts, s, cuts, k + 1, |ts|);
    assert Fits(ts, t, 0, c, true, NO_FLAGS);
    assert s == s[..a] + s[a..b] + s[b..];
  }

  lemma MovedPiece(ts: seq<Token>, s: CString, cuts: seq<nat>, k: nat, y: CString, t: CString, c: seq<nat>, i: nat)
    requires Fits(ts, s, 0, cuts, true, NO_FLAGS) && k < |ts| && i < |ts| && Covers(ts[k], y, NO_FLAGS)
    requires cuts[k] <= cuts[k + 1] <= |s| && t == s[..cuts[k]] + y + s[cuts[k + 1]..] && |c| == |ts| + 1
    requires forall j :: 0 <= j <= |ts| ==>
      c[j] == if j <= k || cuts[j] < cuts[k + 1] then cuts[j] else cuts[j] - cuts[k + 1] + cuts[k] + |y|
    ensures PieceFits(ts, t, c, i, true, NO_FLAGS)
  {
    var a, b := cuts[k], cuts[k + 1];
    assert PieceFits(ts, s, cuts, i, true, NO_FLAGS);
    if i < k {
      CutsGrow(ts, s, cuts, i + 1, k);
      assert t[c[i]..c[i + 1]] == s[cuts[i]..cuts[i + 1]];
    } else if i == k {
      assert t[c[i]..c[i + 1]] == y;
    } else {
      CutsGrow(ts, s, cuts, k + 1, i);
      assert t[c[i]..c[i + 1]] == s[cuts[i]..cuts[i + 1]];
    }
  }

  /** Two patterns that are called globs, and stand for one string each: in "[]" the
      bracket is never closed, and "[a]" is for one character. */
  lemma TestFalseAlarm()
    ensures !GlobFree("[]", 0, false) && OnlyMatch("[]", "[]")
    ensures !GlobFree("[a]", 0, false) && MatchesOne("[a]")
  {
    forall s: CString ensures Matches("[]", s, NO_FLAGS) <==> s == "[]" { UnclosedBracket(s); }
    var p: CString := "[a]";
    assert GlobFree(p, 1, true) == GlobFree(p, 2, true) == false;
    assert ParseItems(p, 2, NO_FLAGS) == ClassTail([], 3);
    assert ParseClass(p, 0, NO_FLAGS) == ClassTail([Single('a')], 3);
    var t := Class(false, [Single('a')]);
    assert Next(p, 0, NO_FLAGS) == (t, 3);
    assert Parse(p, 0, NO_FLAGS) == [t];
    assert InItem([Single('a')][0], 'a', NO_FLAGS);
    assert Sole(t, 'a');
    OneStringExactly(p);
  }

  lemma UnclosedBracket(s: CString)
    ensures Matches("[]", s, NO_FLAGS) <==> s == "[]"
  {
    var p: CString := "[]";
    RunIsMatch(p, s, NO_FLAGS);
    assert GlobFree(p, 1, true) == false;
    assert ParseItems(p, 2, NO_FLAGS) == Malformed;
    assert ParseClass(p, 0, NO_FLAGS) == Malformed;
    assert Next(p, 0, NO_FLAGS) == (Lit('['), 1);
    assert Next(p, 1, NO_FLAGS) == (Lit(']'), 2);
    if Run(p, 0, s, 0, true, NO_FLAGS) {
      assert Run(p, 1, s, 1, false, NO_FLAGS);
      assert Run(p, 2, s, 2, false, NO_FLAGS);
      assert s == [s[0], s[1]];
    }
    if s == "[]" {
      assert Run(p, 2, s, 2, false, NO_FLAGS);
      assert Run(p, 1, s, 1, false, NO_FLAGS);
    }
  }
}
