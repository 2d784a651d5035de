/** What the natural order says of strings, in so many characters. */
module NaturalFacts {
  import opened CStrings
  import opened NaturalOrder

  // ---------- fractions ----------

  /** Runs of which one has a leading zero compare as the decimal fractions with these
      digits, and by length when the fractions are equal. */
  lemma RunsCompareAsFractions(x: string, y: string)
    requires x != "" && y != "" && AllDigits(x) && AllDigits(y) && (x[0] == '0' || y[0] == '0')
    ensures var p, q := Value(x) * Power(|y|), Value(y) * Power(|x|);
            RunCompare(x, y) == if p == q then Sign(|x| - |y|) else Sign(p - q)
  {
    AlignedIsFraction(x, y);
  }

  lemma {:induction false} AlignedIsFraction(x: string, y: string)
    requires AllDigits(x) && AllDigits(y)
    ensures var p, q := Value(x) * Power(|y|), Value(y) * Power(|x|);
            Aligned(x, y) == if p == q then Sign(|x| - |y|) else Sign(p - q)
  {
    hide Power, Value;
    if x == "" || y == "" {
      OneEmpty(x, y);
    } else {
      var d, e := x[0] as int - '0' as int, y[0] as int - '0' as int;
      Heads(x, y);
      ValueBound(x[1..]);
      ValueBound(y[1..]);
      if d == e {
        AlignedIsFraction(x[1..], y[1..]);
      } else {
        var a, b := Power(|x| - 1), Power(|y| - 1);
        HeadsDecide(d, e, a, b, Value(x[1..]), Value(y[1..]));
      }
    }
  }

  lemma OneEmpty(x: string, y: string)
    requires AllDigits(x) && AllDigits(y) && (x == "" || y == "")
    ensures var p, q := Value(x) * Power(|y|), Value(y) * Power(|x|);
            Aligned(x, y) == if p == q then Sign(|x| - |y|) else Sign(p - q)
  {
    ValueBound(x);
    ValueBound(y);
    if x == "" {
      assert Value(x) * Power(|y|) == 0 && Value(y) * Power(|x|) == Value(y);
    } else {
      assert Value(y) * Power(|x|) == 0 && Value(x) * Power(|y|) == Value(x);
    }
  }

  /** Both products by the first digits and the rest. */
  lemma Heads(x: string, y: string)
    requires x != "" && y != "" && AllDigits(x) && AllDigits(y)
    ensures var d, e, a, b := x[0] as int - '0' as int, y[0] as int - '0' as int, Power(|x| - 1), Power(|y| - 1);
            && Value(x) * Power(|y|) == 10 * (d * (a * b) + Value(x[1..]) * b)
            && Value(y) * Power(|x|) == 10 * (e * (a * b) + Value(y[1..]) * a)
  {
    hide Value, Power;
    var d, e, a, b := x[0] as int - '0' as int, y[0] as int - '0' as int, Power(|x| - 1), Power(|y| - 1);
    Head(x);
    Head(y);
    Product(d, a, Value(x[1..]), b, Value(x), Power(|y|));
    Product(e, b, Value(y[1..]), a, Value(y), Power(|x|));
  }

  lemma Head(x: string)
    requires x != "" && AllDigits(x)
    ensures Value(x) == (x[0] as int - '0' as int) * Power(|x| - 1) + Value(x[1..]) && Power(|x|) == 10 * Power(|x| - 1)
  {
  }

  lemma Product(d: int, a: int, v: int, b: int, value: int, power: int)
    requires value == d * a + v && power == 10 * b
    ensures value * power == 10 * (d * (a * b) + v * b) && a * b == b * a
  {
    Spread(d, a, v, 10 * b);
    assert d * a * (10 * b) == 10 * (d * (a * b));
  }

  lemma Spread(d: int, a: int, v: int, c: int)
    ensures (d * a + v) * c == d * a * c + v * c
  {
  }

  lemma HeadsDecide(d: nat, e: nat, a: nat, b: nat, v: nat, w: nat)
    requires d != e && v < a && w < b
    ensures Sign(10 * (d * (a * b) + v * b) - 10 * (e * (a * b) + w * a)) == Sign(d - e)
  {
    Less(v, a, b);
    Less(w, b, a);
    if d < e { Scale(d + 1, e, a * b); } else { Scale(e + 1, d, a * b); }
  }

  lemma Less(v: nat, a: nat, b: nat)
    requires v < a && b > 0
    ensures v * b < a * b
  {
  }

  // ---------- strings ----------

  lemma SpacesAndDigits(c: char)
    ensures IsSpace(c) <==> c in [' ', '\t', '\n', 11 as char, 12 as char, '\r']
    ensures IsDigit(c) <==> c in "0123456789"
  {
    if IsDigit(c) { assert "0123456789"[c as int - '0' as int] == c; }
  }

  /** The code that a character is compared by. */
  function Key(c: char, m: Mode): int {
    Code(if m.fold then Upper(c) else c)
  }

  lemma UpperIs(c: char)
    ensures forall k: nat :: k < 26 ==> Upper(SMALL[k]) == CAPITALS[k] == Upper(CAPITALS[k])
    ensures c !in SMALL ==> Upper(c) == c
  {
    Letters();
    if IsLower(c) { assert SMALL[c as int - 97] == c; }
  }

  predicate EndsNumber(p: string) {
    p == "" || !IsDigit(p[|p| - 1])
  }

  lemma {:induction false} RunInside(p: CString, s: CString)
    requires p != "" && IsDigit(p[0]) && EndsNumber(p)
    ensures RunLength(p + s) == RunLength(p) < |p|
    decreases |p|
  {
    assert |p| > 1;
    assert (p + s)[1..] == p[1..] + s;
    if !IsDigit(p[1]) {
    } else {
      RunInside(p[1..], s);
    }
  }

  /** The first token of a string that begins with `p`, and the characters it takes. */
  function FrontToken(p: CString): (Token, nat)
    requires p != ""
  {
    if IsDigit(p[0]) then (Run(p[..RunLength(p)]), RunLength(p)) else (Chr(p[0]), 1)
  }

  lemma Front(p: CString, s: CString)
    requires p != "" && EndsNumber(p)
    ensures var (t, n) := FrontToken(p);
            && 0 < n <= |p| && EndsNumber(p[n..])
            && if IsSpace(p[0]) then Tokens(p + s) == Tokens(p[n..] + s)
               else Tokens(p + s) == [t] + Tokens(p[n..] + s)
  {
    hide Tokens, RunLength;
    if IsDigit(p[0]) {
      FrontRun(p, s);
    } else {
      var all: CString := p + s;
      assert all[0] == p[0] && all[1..] == p[1..] + s;
      OtherToken(all);
    }
  }

  lemma FrontRun(p: CString, s: CString)
    requires p != "" && EndsNumber(p) && IsDigit(p[0])
    ensures var n := RunLength(p); 0 < n < |p| && Tokens(p + s) == [Run(p[..n])] + Tokens(p[n..] + s)
  {
    hide Tokens;
    var all: CString := p + s;
    var n := RunLength(p);
    assert all[0] == p[0];
    RunInside(p, s);
    RunToken(all);
    assert all[n..] == p[n..] + s && all[..n] == p[..n];
  }

  lemma RunToken(s: CString)
    requires s != "" && IsDigit(s[0])
    ensures Tokens(s) == [Run(s[..RunLength(s)])] + Tokens(s[RunLength(s)..])
  {
  }

  lemma OtherToken(s: CString)
    requires s != "" && !IsDigit(s[0])
    ensures Tokens(s) == if IsSpace(s[0]) then Tokens(s[1..]) else [Chr(s[0])] + Tokens(s[1..])
  {
  }

  /** What two strings have in common in front does not count, if it does not end within a
      number. */
  lemma {:induction false} CommonFront(p: CString, s: CString, t: CString, m: Mode)
    requires EndsNumber(p)
    ensures Natural(p + s, p + t, m) == Natural(s, t, m)
    decreases |p|
  {
    hide Compare, Tokens, FrontToken;
    if p == "" {
      assert p + s == s && p + t == t;
    } else {
      var n := FrontToken(p).1;
      Front(p, s);
      Front(p, t);
      CommonFront(p[n..], s, t, m);
      if !IsSpace(p[0]) { SameFirst(p + s, p + t, p[n..] + s, p[n..] + t, m); }
    }
  }

  lemma SameFirst(a: CString, b: CString, a': CString, b': CString, m: Mode)
    requires Tokens(a) != [] && Tokens(b) != [] && Tokens(a)[0] == Tokens(b)[0]
    requires Tokens(a)[1..] == Tokens(a') && Tokens(b)[1..] == Tokens(b')
    ensures Natural(a, b, m) == Natural(a', b', m)
  {
    hide Tokens;
    TokensProper(a);
    TokensProper(b);
    var t := Tokens(a)[0];
    if t.Run? { AlignedZero(t.digits, t.digits); }
  }

  /** White space in front is skipped; with CommonFront, so it is anywhere but in a number. */
  lemma SpaceSkipped(c: char, a: CString, b: CString, m: Mode)
    requires IsSpace(c)
    ensures Natural([c] + a, b, m) == Natural(a, b, m) && Natural(b, [c] + a, m) == Natural(b, a, m)
  {
    assert ([c] + a)[1..] == a;
    TokensProper([c] + a);
    hide Compare;
  }

  /** A character decides, if one of the two is no digit and neither is white space. */
  lemma CharDecides(a: CString, b: CString, m: Mode)
    requires !IsSpace(At(a, 0)) && !IsSpace(At(b, 0)) && !(IsDigit(At(a, 0)) && IsDigit(At(b, 0)))
    ensures Key(At(a, 0), m) < Key(At(b, 0), m) ==> Natural(a, b, m) == -1
    ensures Key(At(a, 0), m) > Key(At(b, 0), m) ==> Natural(a, b, m) == 1
  {
    FirstToken(a);
    FirstToken(b);
    hide Tokens;
    TokensProper(a);
    TokensProper(b);
  }

  lemma FirstToken(a: CString)
    requires !IsSpace(At(a, 0))
    ensures Tokens(a) != [] && if IsDigit(At(a, 0)) then Tokens(a)[0] == Run(a[..RunLength(a)]) && RunLength(a) > 0
            else Tokens(a)[0] == Chr(At(a, 0))
  {
  }

  /** A character that is the same but for its case, when case is folded. */
  lemma CharPasses(c: char, d: char, a: CString, b: CString, m: Mode)
    requires 0 < c as int < 256 && 0 < d as int < 256 && !IsSpace(c) && !IsSpace(d) && !IsDigit(c) && !IsDigit(d)
    requires Key(c, m) == Key(d, m)
    ensures Natural([c] + a, [d] + b, m) == Natural(a, b, m)
  {
    hide Compare;
    assert ([c] + a)[1..] == a && ([d] + b)[1..] == b;
    TokensProper([c] + a);
    TokensProper([d] + b);
    PassFirst(Tokens([c] + a), Tokens([d] + b), m);
  }

  lemma PassFirst(ts: seq<Token>, us: seq<Token>, m: Mode)
    requires AllProper(ts) && AllProper(us) && ts != [] && us != [] && TokenCompare(ts[0], us[0], m) == 0
    ensures Compare(ts, us, m) == Compare(ts[1..], us[1..], m)
  {
    hide TokenCompare;
  }

  predicate AfterNumber(r: string) {
    r == "" || !IsDigit(r[0])
  }

  lemma RunsDiffer(x: string, y: string)
    requires x != "" && y != ""
    ensures RunCompare(x, y) == 0 <==> x == y
  {
    AlignedZero(x, y);
  }

  /** Numbers without leading zero decide as numbers; runs of which one has a leading zero
      as fractions, and then by length. Equal runs decide nothing. */
  lemma NumberDecides(x: CString, y: CString, r: CString, t: CString, m: Mode)
    requires x != "" && y != "" && AllDigits(x) && AllDigits(y) && AfterNumber(r) && AfterNumber(t)
    ensures x[0] != '0' && y[0] != '0' ==>
      && (Value(x) < Value(y) ==> Natural(x + r, y + t, m) == -1)
      && (Value(x) > Value(y) ==> Natural(x + r, y + t, m) == 1)
    ensures x[0] == '0' || y[0] == '0' ==>
      var p, q := Value(x) * Power(|y|), Value(y) * Power(|x|);
      && (p < q || (p == q && |x| < |y|) ==> Natural(x + r, y + t, m) == -1)
      && (p > q || (p == q && |x| > |y|) ==> Natural(x + r, y + t, m) == 1)
    ensures x == y ==> Natural(x + r, y + t, m) == Natural(r, t, m)
  {
    hide *;
    if x[0] != '0' && y[0] != '0' { RunsCompareAsNumbers(x, y); } else { RunsCompareAsFractions(x, y); }
    RunsDiffer(x, y);
    Signs(Value(x) - Value(y));
    Signs(Value(x) * Power(|y|) - Value(y) * Power(|x|));
    Signs(|x| - |y|);
    RunDecides(x, y, r, t, m);
  }

  lemma Signs(n: int)
    ensures (n < 0 ==> Sign(n) == -1) && (n == 0 ==> Sign(n) == 0) && (n > 0 ==> Sign(n) == 1)
  {
  }

  lemma RunDecides(x: CString, y: CString, r: CString, t: CString, m: Mode)
    requires x != "" && y != "" && AllDigits(x) && AllDigits(y) && AfterNumber(r) && AfterNumber(t)
    ensures RunCompare(x, y) != 0 ==> Natural(x + r, y + t, m) == RunCompare(x, y)
    ensures RunCompare(x, y) == 0 ==> Natural(x + r, y + t, m) == Natural(r, t, m)
  {
    hide RunCompare;
    RunFirst(x, r);
    RunFirst(y, t);
    TokensProper(x + r);
    TokensProper(y + t);
    hide Tokens;
  }

  lemma RunFirst(x: CString, r: CString)
    requires x != "" && AllDigits(x) && AfterNumber(r)
    ensures var ts := Tokens(x + r); ts != [] && ts[0] == Run(x) && ts[1..] == Tokens(r)
  {
    RunIsAll(x, r);
    assert (x + r)[..|x|] == x && (x + r)[|x|..] == r && (x + r)[0] == x[0];
  }

  lemma {:induction false} RunIsAll(x: CString, r: CString)
    requires AllDigits(x) && AfterNumber(r)
    ensures RunLength(x + r) == |x|
  {
    if x == "" {
      assert x + r == r;
    } else {
      assert (x + r)[1..] == x[1..] + r;
      RunIsAll(x[1..], r);
    }
  }
}
