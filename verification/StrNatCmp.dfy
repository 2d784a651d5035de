/** Natural order: strings as sequences of tokens, compared token by token. */
module NaturalOrder {
  import opened CStrings

  predicate IsDigit(c: char) { '0' <= c <= '9' }
  predicate IsSpace(c: char) { c == ' ' || '\t' <= c <= '\r' }
  predicate IsLower(c: char) { 'a' <= c <= 'z' }

  function Upper(c: char): char {
    if IsLower(c) then (c as int - 32) as char else c
  }

  function Sign(n: int): int {
    if n < 0 then -1 else if n > 0 then 1 else 0
  }

  /** What is compared: a whole run of digits, or one other character; the terminator
      is the last token of every string. */
  datatype Token = Run(digits: string) | Chr(c: char)

  /** The length of the run of digits at the start of `s`. */
  function RunLength(s: string): (n: nat)
    ensures n <= |s| && (forall k :: 0 <= k < n ==> IsDigit(s[k])) && (n < |s| ==> !IsDigit(s[n]))
    ensures s != "" && IsDigit(s[0]) ==> n > 0
  {
    if s != "" && IsDigit(s[0]) then 1 + RunLength(s[1..]) else 0
  }

  /** White space is dropped; it ends a run. */
  function Tokens(s: string): (ts: seq<Token>)
    decreases |s|
  {
    if s == "" then [Chr('\0')]
    else if IsSpace(s[0]) then Tokens(s[1..])
    else if IsDigit(s[0]) then [Run(s[..RunLength(s)])] + Tokens(s[RunLength(s)..])
    else [Chr(s[0])] + Tokens(s[1..])
  }

  /** Left-aligned numbers: the first different digit decides, then the length. */
  function Aligned(x: string, y: string): int {
    if x == "" && y == "" then 0
    else if x == "" then -1
    else if y == "" then 1
    else if x[0] != y[0] then Sign(x[0] as int - y[0] as int)
    else Aligned(x[1..], y[1..])
  }

  /** Whole numbers: the longer is greater, then the first different digit decides. */
  function Whole(x: string, y: string): int {
    if |x| != |y| then Sign(|x| - |y|) else Aligned(x, y)
  }

  /** A run that starts with 0 is a fraction. */
  function RunCompare(x: string, y: string): int
    requires x != "" && y != ""
  {
    if x[0] == '0' || y[0] == '0' then Aligned(x, y) else Whole(x, y)
  }

  datatype Mode = Mode(fold: bool)

  /** The character a token is compared by when the other token is no run. */
  function Head(t: Token, m: Mode): int
    requires t.Run? ==> t.digits != ""
  {
    var c := if t.Run? then t.digits[0] else t.c;
    Code(if m.fold then Upper(c) else c)
  }

  predicate Proper(t: Token) {
    if t.Run? then t.digits != "" && forall k :: 0 <= k < |t.digits| ==> IsDigit(t.digits[k])
    else !IsDigit(t.c) && t.c as int < 256
  }

  function TokenCompare(t: Token, u: Token, m: Mode): int
    requires Proper(t) && Proper(u)
  {
    if t.Run? && u.Run? then RunCompare(t.digits, u.digits) else Sign(Head(t, m) - Head(u, m))
  }

  predicate AllProper(ts: seq<Token>) {
    forall i :: 0 <= i < |ts| ==> Proper(ts[i])
  }

  /** Lexicographic comparison. */
  function Compare(ts: seq<Token>, us: seq<Token>, m: Mode): int
    requires AllProper(ts) && AllProper(us)
  {
    if ts == [] && us == [] then 0
    else if ts == [] then -1
    else if us == [] then 1
    else
      var r := TokenCompare(ts[0], us[0], m);
      if r != 0 then r else Compare(ts[1..], us[1..], m)
  }

  lemma {:induction false} TokensProper(s: CString)
    ensures AllProper(Tokens(s))
    decreases |s|
  {
    if s == "" {
    } else if IsDigit(s[0]) {
      TokensProper(s[RunLength(s)..]);
    } else {
      TokensProper(s[1..]);
    }
  }

  function Natural(a: CString, b: CString, m: Mode): int {
    TokensProper(a);
    TokensProper(b);
    Compare(Tokens(a), Tokens(b), m)
  }

  // ---------- a total preorder ----------

  lemma {:induction false} AlignedAntisymmetric(x: string, y: string)
    ensures Aligned(x, y) == -Aligned(y, x) && -1 <= Aligned(x, y) <= 1
  {
    if x == "" || y == "" || x[0] != y[0] {
    } else {
      AlignedAntisymmetric(x[1..], y[1..]);
    }
  }

  lemma {:induction false} AlignedTransitive(x: string, y: string, z: string)
    requires Aligned(x, y) <= 0 && Aligned(y, z) <= 0
    ensures Aligned(x, z) <= 0 && (Aligned(x, z) == 0 ==> Aligned(x, y) == 0 && Aligned(y, z) == 0)
  {
    if x == "" || y == "" || z == "" || x[0] != y[0] || y[0] != z[0] {
    } else {
      AlignedTransitive(x[1..], y[1..], z[1..]);
    }
  }

  lemma {:induction false} AlignedZero(x: string, y: string)
    ensures Aligned(x, y) == 0 <==> x == y
  {
    if x == "" || y == "" || x[0] != y[0] {
    } else {
      AlignedZero(x[1..], y[1..]);
      assert x == [x[0]] + x[1..] && y == [y[0]] + y[1..];
    }
  }

  lemma TokenAntisymmetric(t: Token, u: Token, m: Mode)
    requires Proper(t) && Proper(u)
    ensures TokenCompare(t, u, m) == -TokenCompare(u, t, m) && -1 <= TokenCompare(t, u, m) <= 1
  {
    if t.Run? && u.Run? { AlignedAntisymmetric(t.digits, u.digits); }
  }

  /** Runs lie together in the order of the characters. */
  lemma TokenTransitive(t: Token, u: Token, v: Token, m: Mode)
    requires Proper(t) && Proper(u) && Proper(v) && TokenCompare(t, u, m) <= 0 && TokenCompare(u, v, m) <= 0
    ensures TokenCompare(t, v, m) <= 0
    ensures TokenCompare(t, v, m) == 0 ==> TokenCompare(t, u, m) == 0 && TokenCompare(u, v, m) == 0
  {
    if t.Run? && u.Run? && v.Run? {
      var x, y, z := t.digits, u.digits, v.digits;
      if Aligned(x, y) <= 0 && Aligned(y, z) <= 0 { AlignedTransitive(x, y, z); }
    }
  }

  lemma {:induction false} CompareAntisymmetric(ts: seq<Token>, us: seq<Token>, m: Mode)
    requires AllProper(ts) && AllProper(us)
    ensures Compare(ts, us, m) == -Compare(us, ts, m) && -1 <= Compare(ts, us, m) <= 1
  {
    if ts == [] || us == [] {
    } else {
      TokenAntisymmetric(ts[0], us[0], m);
      CompareAntisymmetric(ts[1..], us[1..], m);
    }
  }

  lemma {:induction false} CompareTransitive(ts: seq<Token>, us: seq<Token>, vs: seq<Token>, m: Mode)
    requires AllProper(ts) && AllProper(us) && AllProper(vs)
    requires Compare(ts, us, m) <= 0 && Compare(us, vs, m) <= 0
    ensures Compare(ts, vs, m) <= 0
    ensures Compare(ts, vs, m) == 0 ==> Compare(ts, us, m) == 0 && Compare(us, vs, m) == 0
  {
    hide TokenCompare;
    if ts == [] || us == [] || vs == [] {
    } else {
      TokenTransitive(ts[0], us[0], vs[0], m);
      if TokenCompare(ts[0], us[0], m) == 0 == TokenCompare(us[0], vs[0], m) {
        CompareTransitive(ts[1..], us[1..], vs[1..], m);
      }
    }
  }

  /** The natural order is reflexive, antisymmetric in sign, and transitive (with
      equality only through equality). */
  lemma NaturalIsTotalPreorder(a: CString, b: CString, c: CString, m: Mode)
    ensures Natural(a, a, m) == 0
    ensures Natural(a, b, m) == -Natural(b, a, m) && Natural(a, b, m) in {-1, 0, 1}
    ensures Natural(a, b, m) <= 0 && Natural(b, c, m) <= 0 ==> Natural(a, c, m) <= 0
    ensures Natural(a, b, m) <= 0 && Natural(b, c, m) < 0 ==> Natural(a, c, m) < 0
    ensures Natural(a, b, m) < 0 && Natural(b, c, m) <= 0 ==> Natural(a, c, m) < 0
  {
    hide Compare, Tokens;
    TokensProper(a);
    TokensProper(b);
    TokensProper(c);
    CompareAntisymmetric(Tokens(a), Tokens(a), m);
    CompareAntisymmetric(Tokens(a), Tokens(b), m);
    if Natural(a, b, m) <= 0 && Natural(b, c, m) <= 0 { CompareTransitive(Tokens(a), Tokens(b), Tokens(c), m); }
  }

  // ---------- numbers ----------

  predicate AllDigits(x: string) { forall k :: 0 <= k < |x| ==> IsDigit(x[k]) }

  function Power(n: nat): (p: nat)
    ensures p > 0
  {
    if n == 0 then 1 else 10 * Power(n - 1)
  }

  function Value(x: string): int
    requires AllDigits(x)
  {
    if x == "" then 0 else (x[0] as int - '0' as int) * Power(|x| - 1) + Value(x[1..])
  }

  lemma {:induction false} ValueBound(x: string)
    requires AllDigits(x)
    ensures 0 <= Value(x) < Power(|x|)
    ensures x != "" && x[0] != '0' ==> Value(x) >= Power(|x| - 1)
  {
    if x == "" {
    } else {
      ValueBound(x[1..]);
      Scale(x[0] as int - '0' as int, 9, Power(|x| - 1));
      if x[0] != '0' { Scale(1, x[0] as int - '0' as int, Power(|x| - 1)); }
    }
  }

  lemma Scale(d: nat, e: nat, p: nat)
    requires d <= e
    ensures d * p <= e * p
  {
  }

  lemma {:induction false} PowerGrows(m: nat, n: nat)
    requires m <= n
    ensures Power(m) <= Power(n)
    decreases n
  {
    if m >= n {
    } else {
      PowerGrows(m, n - 1);
    }
  }

  lemma {:induction false} AlignedIsValue(x: string, y: string)
    requires AllDigits(x) && AllDigits(y) && |x| == |y|
    ensures Aligned(x, y) == Sign(Value(x) - Value(y))
  {
    if x == "" {
    } else {
      var p, d, e := Power(|x| - 1), x[0] as int - '0' as int, y[0] as int - '0' as int;
      ValueBound(x[1..]);
      ValueBound(y[1..]);
      if d == e {
        AlignedIsValue(x[1..], y[1..]);
      } else {
        FirstDigit(d, e, p, Value(x[1..]), Value(y[1..]));
      }
    }
  }

  lemma FirstDigit(d: nat, e: nat, p: nat, v: nat, w: nat)
    requires d != e && v < p && w < p
    ensures Sign((d * p + v) - (e * p + w)) == Sign(d - e)
  {
    if d < e { Scale(d + 1, e, p); } else { Scale(e + 1, d, p); }
  }

  /** Runs that do not start with 0 compare as numbers. */
  lemma RunsCompareAsNumbers(x: string, y: string)
    requires x != "" && y != "" && AllDigits(x) && AllDigits(y) && x[0] != '0' && y[0] != '0'
    ensures RunCompare(x, y) == Sign(Value(x) - Value(y))
  {
    ValueBound(x);
    ValueBound(y);
    if |x| == |y| {
      AlignedIsValue(x, y);
    } else if |x| < |y| {
      PowerGrows(|x|, |y| - 1);
    } else {
      PowerGrows(|y|, |x| - 1);
    }
  }
}

/** apr_strnatcmp.c */
module StrNatCmp {
  import opened CStrings
  import opened NaturalOrder

  /** The run of digits at a position. */
  function RunAt(s: CString, i: nat): string {
    if i < |s| then s[i..][..RunLength(s[i..])] else ""
  }

  /** The comparison of what follows two positions. */
  function Ahead(a: CString, i: nat, b: CString, j: nat, m: Mode): int
    requires i <= |a| && j <= |b|
  {
    Natural(a[i..], b[j..], m)
  }

  lemma RunAtStep(s: CString, i: nat)
    ensures RunAt(s, i) == if IsDigit(At(s, i)) then [At(s, i)] + RunAt(s, i + 1) else ""
  {
    if i < |s| {
      assert s[i..][1..] == s[i + 1..];
    }
  }

  /** compare_right */
  method CompareRight(a: CString, i: nat, b: CString, j: nat) returns (r: int)
    ensures r == Whole(RunAt(a, i), RunAt(b, j))
  {
    hide RunAt;
    var k, bias := 0, 0;
    while true
      invariant Whole(RunAt(a, i), RunAt(b, j)) == Resumed(bias, RunAt(a, i + k), RunAt(b, j + k))
      decreases |a| - (i + k)
    {
      RunAtStep(a, i + k);
      RunAtStep(b, j + k);
      var ca, cb := At(a, i + k), At(b, j + k);
      if !IsDigit(ca) && !IsDigit(cb) {
        break;
      } else if !IsDigit(ca) {
        return -1;
      } else if !IsDigit(cb) {
        return 1;
      } else if ca < cb {
        if bias == 0 { bias := -1; }
      } else if ca > cb {
        if bias == 0 { bias := 1; }
      } else if ca == '\0' && cb == '\0' {
        break;
      }
      k := k + 1;
    }
    return bias;
  }

  /** The outcome when the digits so far are of the same number and have gone `bias`. */
  function Resumed(bias: int, x: string, y: string): int {
    if |x| != |y| then Sign(|x| - |y|) else if bias != 0 then bias else Aligned(x, y)
  }

  /** compare_left */
  method CompareLeft(a: CString, i: nat, b: CString, j: nat) returns (r: int)
    ensures r == Aligned(RunAt(a, i), RunAt(b, j))
  {
    hide RunAt;
    var k := 0;
    while true
      invariant Aligned(RunAt(a, i), RunAt(b, j)) == Aligned(RunAt(a, i + k), RunAt(b, j + k))
      decreases |a| - (i + k)
    {
      RunAtStep(a, i + k);
      RunAtStep(b, j + k);
      var ca, cb := At(a, i + k), At(b, j + k);
      if !IsDigit(ca) && !IsDigit(cb) {
        break;
      } else if !IsDigit(ca) {
        return -1;
      } else if !IsDigit(cb) {
        return 1;
      } else if ca < cb {
        return -1;
      } else if ca > cb {
        return 1;
      }
      k := k + 1;
    }
    return 0;
  }

  lemma SkipSpace(a: CString, i: nat)
    requires i < |a| && IsSpace(a[i])
    ensures Tokens(a[i..]) == Tokens(a[i + 1..])
  {
    assert a[i..][1..] == a[i + 1..];
  }

  /** The first token at a position that is not white space. */
  lemma FirstToken(a: CString, i: nat)
    requires i <= |a| && !IsSpace(At(a, i))
    ensures var c, n := At(a, i), |RunAt(a, i)|;
            if IsDigit(c) then 0 < n <= |a| - i && Tokens(a[i..]) == [Run(RunAt(a, i))] + Tokens(a[i + n..])
            else Tokens(a[i..]) == [Chr(c)] + (if i == |a| then [] else Tokens(a[i + 1..]))
  {
    hide RunLength;
    var s := a[i..];
    if i == |a| {
      assert s == "" && Tokens(s) == [Chr(At(a, i))];
    } else {
      assert s[0] == At(a, i);
      assert s[1..] == a[i + 1..];
      if IsDigit(s[0]) { assert s[RunLength(s)..] == a[i + RunLength(s)..]; }
    }
  }

  /** The tokens after the first character of a run of digits `x`: what is left of the
      run, then the same tokens as after the run. */
  lemma InsideRun(a: CString, i: nat)
    requires i < |a| && IsDigit(a[i])
    ensures var x := RunAt(a, i);
            && 0 < |x| <= |a| - i
            && Tokens(a[i + 1..]) == (if |x| == 1 then [] else [Run(x[1..])]) + Tokens(a[i + |x|..])
  {
    hide Tokens, RunAt;
    FirstToken(a, i);
    RunAtStep(a, i);
    RunAtStep(a, i + 1);
    if IsDigit(At(a, i + 1)) { FirstToken(a, i + 1); }
  }

  lemma CompareSame(t: Token, ts: seq<Token>, us: seq<Token>, m: Mode)
    requires Proper(t) && AllProper(ts) && AllProper(us)
    ensures AllProper([t] + ts) && AllProper([t] + us)
    ensures Compare([t] + ts, [t] + us, m) == Compare(ts, us, m)
  {
    if t.Run? { AlignedZero(t.digits, t.digits); }
    assert ([t] + ts)[1..] == ts && ([t] + us)[1..] == us;
  }

  /** Two runs at the front: they decide, or the comparison goes on one character
      further, still inside both of them. */
  lemma RunsAhead(a: CString, i: nat, b: CString, j: nat, m: Mode)
    requires i < |a| && j < |b| && IsDigit(a[i]) && IsDigit(b[j])
    ensures RunAt(a, i) != "" && RunAt(b, j) != ""
    ensures var r := RunCompare(RunAt(a, i), RunAt(b, j));
            Ahead(a, i, b, j, m) == if r != 0 then r else Ahead(a, i + 1, b, j + 1, m)
  {
    hide Tokens, RunAt, RunCompare, Compare;
    FirstToken(a, i);
    FirstToken(b, j);
    InsideRun(a, i);
    InsideRun(b, j);
    TokensProper(a[i..]);
    TokensProper(b[j..]);
    var x, y := RunAt(a, i), RunAt(b, j);
    var ts, us := Tokens(a[i + |x|..]), Tokens(b[j + |y|..]);
    TokensProper(a[i + |x|..]);
    TokensProper(b[j + |y|..]);
    assert Proper(Tokens(a[i..])[0]) && Proper(Tokens(b[j..])[0]);
    CompareFirst(Run(x), ts, Run(y), us, m);
    if RunCompare(x, y) == 0 {
      SameRun(x, y);
      if |x| > 1 {
        TokensProper(a[i + 1..]);
        assert Proper(Tokens(a[i + 1..])[0]);
        CompareSame(Run(x[1..]), ts, us, m);
      } else {
        assert [] + ts == ts && [] + us == us;
      }
    }
  }

  lemma SameRun(x: string, y: string)
    requires x != "" && y != ""
    ensures RunCompare(x, y) == 0 <==> x == y
  {
    AlignedZero(x, y);
  }

  lemma CompareFirst(t: Token, ts: seq<Token>, u: Token, us: seq<Token>, m: Mode)
    requires Proper(t) && Proper(u) && AllProper(ts) && AllProper(us)
    ensures AllProper([t] + ts) && AllProper([u] + us)
    ensures var r := TokenCompare(t, u, m);
            Compare([t] + ts, [u] + us, m) == if r != 0 then r else Compare(ts, us, m)
  {
    hide TokenCompare;
    assert ([t] + ts)[1..] == ts && ([u] + us)[1..] == us;
  }

  /** At most one run at the front: the first characters decide, or are equal, no
      digits, and followed by the rest. */
  lemma CharsAhead(a: CString, i: nat, b: CString, j: nat, m: Mode)
    requires i <= |a| && j <= |b| && !IsSpace(At(a, i)) && !IsSpace(At(b, j))
    requires !(IsDigit(At(a, i)) && IsDigit(At(b, j)))
    ensures var ca, cb := Folded(At(a, i), m), Folded(At(b, j), m);
            && (Code(ca) != Code(cb) ==>
                  Ahead(a, i, b, j, m) == Sign(Code(ca) - Code(cb)))
            && (Code(ca) == Code(cb) ==>
                  ((i == |a| <==> j == |b|) && Ahead(a, i, b, j, m) ==
                    if i == |a| then 0 else Ahead(a, i + 1, b, j + 1, m)))
  {
    hide Tokens, RunAt, Compare, RunCompare;
    FirstToken(a, i);
    FirstToken(b, j);
    TokensProper(a[i..]);
    TokensProper(b[j..]);
    var ts, us := Tokens(a[i..]), Tokens(b[j..]);
    assert Proper(ts[0]) && Proper(us[0]);
    assert AllProper(ts[1..]) && AllProper(us[1..]);
    RunAtStep(a, i);
    RunAtStep(b, j);
    CompareFirst(ts[0], ts[1..], us[0], us[1..], m);
    assert [ts[0]] + ts[1..] == ts && [us[0]] + us[1..] == us;
    CompareEmpty(m);
  }

  lemma CompareEmpty(m: Mode)
    ensures Compare([], [], m) == 0
  {
  }

  function Folded(c: char, m: Mode): char {
    if m.fold then Upper(c) else c
  }

  /** The two scans over white space. */
  method SkipSpaces(a: CString, i: nat) returns (k: nat)
    requires i <= |a|
    ensures i <= k <= |a| && !IsSpace(At(a, k)) && Tokens(a[k..]) == Tokens(a[i..])
  {
    hide Tokens;
    k := i;
    while IsSpace(At(a, k))
      invariant i <= k <= |a| && Tokens(a[k..]) == Tokens(a[i..])
      decreases |a| - k
    {
      SkipSpace(a, k);
      k := k + 1;
    }
  }

  /** strnatcmp0 */
  method StrNatCmp0(a: CString, b: CString, foldCase: bool) returns (r: int)
    ensures r == Natural(a, b, Mode(foldCase))
  {
    hide Natural, RunAt, Compare, Tokens;
    ghost var m := Mode(foldCase);
    var ai, bi := 0, 0;
    assert a[0..] == a && b[0..] == b;
    while true
      invariant ai <= |a| && bi <= |b| && Natural(a, b, m) == Ahead(a, ai, b, bi, m)
      decreases |a| - ai
    {
      ghost var ai0, bi0 := ai, bi;
      ai := SkipSpaces(a, ai);
      bi := SkipSpaces(b, bi);
      SameTokens(a, ai0, ai, b, bi0, bi, m);
      var ca, cb := At(a, ai), At(b, bi);
      if IsDigit(ca) && IsDigit(cb) {
        RunsAhead(a, ai, b, bi, m);
        var fractional := ca == '0' || cb == '0';
        RunAtStep(a, ai);
        RunAtStep(b, bi);
        if fractional {
          r := CompareLeft(a, ai, b, bi);
        } else {
          r := CompareRight(a, ai, b, bi);
        }
        if r != 0 { return r; }
        SameRun(RunAt(a, ai), RunAt(b, bi));
      } else {
        CharsAhead(a, ai, b, bi, m);
      }
      if ca == '\0' && cb == '\0' { return 0; }
      if foldCase { ca, cb := Upper(ca), Upper(cb); }
      if Code(ca) < Code(cb) {
        return -1;
      } else if Code(ca) > Code(cb) {
        return 1;
      }
      ai, bi := ai + 1, bi + 1;
    }
  }

  lemma SameTokens(a: CString, i: nat, i': nat, b: CString, j: nat, j': nat, m: Mode)
    requires i <= |a| && i' <= |a| && j <= |b| && j' <= |b|
    requires Tokens(a[i..]) == Tokens(a[i'..]) && Tokens(b[j..]) == Tokens(b[j'..])
    ensures Ahead(a, i, b, j, m) == Ahead(a, i', b, j', m)
  {
    hide Tokens;
  }
}
