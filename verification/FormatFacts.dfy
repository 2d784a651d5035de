/** What the output of the formatter means: digits denote their number, fields have their
width, and a printed integer reads back as itself, with the exceptions. */
module FormatFacts {
  import opened CStrings
  import opened FormatSpec
  import opened Machine

  // ---------- digits ----------

  /** The value of a digit of either case. */
  function DigitValue(c: char): int {
    if '0' <= c <= '9' then c as int - '0' as int
    else if 'a' <= c <= 'f' then c as int - 'a' as int + 10
    else if 'A' <= c <= 'F' then c as int - 'A' as int + 10
    else -1
  }

  predicate AllDigits(s: string, base: nat) {
    forall i :: 0 <= i < |s| ==> 0 <= DigitValue(s[i]) < base
  }

  function Value(s: string, base: nat): nat
    requires AllDigits(s, base)
  {
    if s == "" then 0
    else
      var n := |s| - 1;
      assert 0 <= DigitValue(s[n]);
      Value(s[..n], base) * base + DigitValue(s[n])
  }

  lemma ValueEnd(s: string, c: char, base: nat)
    requires AllDigits(s, base) && AllDigits([c], base)
    ensures AllDigits(s + [c], base) && Value(s + [c], base) == Value(s, base) * base + DigitValue(c)
  {
    hide DigitValue;
    assert [c][0] == c && (s + [c])[..|s|] == s;
  }

  lemma DigitFacts(d: nat, upper: bool)
    requires d < 16
    ensures DigitValue(Digit(d, upper)) == d && (Digit(d, upper) == '0' <==> d == 0)
    ensures d < 10 ==> IsDigit(Digit(d, upper))
  {
  }

  /** The digits of a number denote it, and there is no leading zero. */
  lemma {:induction false} DigitsDenote(n: nat, base: nat, upper: bool)
    requires base == 8 || base == 10 || base == 16
    ensures var s := Digits(n, base, upper);
            AllDigits(s, base) && Value(s, base) == n && (s[0] == '0' <==> n == 0) && (n == 0 ==> s == "0")
  {
    hide Digit, DigitValue, Value, AllDigits;
    Divided(n, base);
    var c := Digit(n % base, upper);
    DigitFacts(n % base, upper);
    OneDigit(n % base, base, upper);
    if n < base {
      assert Digits(n, base, upper) == [c];
      ValueEnd("", c, base);
      assert "" + [c] == [c];
    } else {
      DigitsDenote(n / base, base, upper);
      ValueEnd(Digits(n / base, base, upper), c, base);
    }
  }

  lemma OneDigit(d: nat, base: nat, upper: bool)
    requires d < base <= 16
    ensures AllDigits([Digit(d, upper)], base) && AllDigits("", base) && Value("", base) == 0
  {
    DigitFacts(d, upper);
  }

  /** They are the only such digits of their case. */
  lemma {:induction false} DigitsUnique(s: string, base: nat, upper: bool)
    requires (base == 8 || base == 10 || base == 16) && s != "" && AllDigits(s, base) && (s[0] == '0' ==> s == "0")
    requires forall i :: 0 <= i < |s| ==> s[i] == Digit(DigitValue(s[i]), upper)
    ensures s == Digits(Value(s, base), base, upper)
  {
    hide Digit, DigitValue, Digits;
    var n := |s| - 1;
    var d := DigitValue(s[n]);
    if n == 0 {
      assert s[..0] == "";
      DigitsStep(0, d, base, upper);
    } else {
      var p := s[..n];
      assert p[0] == s[0];
      DigitsUnique(p, base, upper);
      DigitsDenote(Value(p, base), base, upper);
      DigitsStep(Value(p, base), d, base, upper);
    }
    assert s == s[..n] + [s[n]];
  }

  lemma DigitsStep(v: nat, d: nat, base: nat, upper: bool)
    requires (base == 8 || base == 10 || base == 16) && d < base
    ensures Digits(v * base + d, base, upper) == if v == 0 then [Digit(d, upper)]
      else Digits(v, base, upper) + [Digit(d, upper)]
  {
    hide Digit;
    if v > 0 { DivMod(v, base, d); }
  }

  lemma DivMod(v: nat, base: nat, d: nat)
    requires (base == 8 || base == 10 || base == 16) && d < base && v > 0
    ensures (v * base + d) / base == v && (v * base + d) % base == d && v * base + d >= base
  {
    if base == 8 {
      assert (v * 8 + d) / 8 == v;
    } else if base == 10 {
      assert (v * 10 + d) / 10 == v;
    } else {
      assert (v * 16 + d) / 16 == v;
    }
  }

  lemma Divided(n: nat, base: nat)
    requires base == 8 || base == 10 || base == 16
    ensures n / base * base + n % base == n && n % base < base && (n >= base <==> n / base > 0)
  {
  }

  function Pow2(k: nat): nat {
    if k == 0 then 1 else 2 * Pow2(k - 1)
  }

  lemma {:induction false} Pow2Sum(a: nat, b: nat, x: nat)
    requires Pow2(a) == x
    ensures Pow2(a + b) == x * Pow2(b)
  {
    if a == 0 {
    } else {
      var y, z := Pow2(a - 1), Pow2(b);
      Pow2Sum(a - 1, b, y);
      assert 2 * (y * z) == 2 * y * z;
    }
  }

  /** No more digits than bits. */
  lemma {:induction false} DigitsShort(n: nat, base: nat, upper: bool, k: nat)
    requires (base == 8 || base == 10 || base == 16) && n < Pow2(k) && k > 0
    ensures |Digits(n, base, upper)| <= k
    decreases k
  {
    hide Digit;
    if n < base {
    } else {
      Divided(n, base);
      assert n / base < Pow2(k - 1);
      if k == 1 { assert false; }
      DigitsShort(n / base, base, upper, k - 1);
    }
  }

  lemma Bits64()
    ensures Pow2(65) == 0x2_0000_0000_0000_0000
  {
    assert Pow2(13) == 0x2000;
    Pow2Sum(13, 13, 0x2000);
    Pow2Sum(13, 26, 0x2000);
    Pow2Sum(13, 39, 0x2000);
    Pow2Sum(13, 52, 0x2000);
  }

  lemma IntegerShort(n: nat, base: nat, upper: bool)
    requires (base == 8 || base == 10 || base == 16) && n <= 0x1_0000_0000_0000_0000
    ensures |Digits(n, base, upper)| <= 65
  {
    hide Pow2, Digits;
    Bits64();
    DigitsShort(n, base, upper, 65);
  }

  /** The least number of digits, but for one place in the buffer. */
  lemma PreciseLength(d: Directive, s: string)
    ensures |Precise(d, s)| == if d.hasPrecision && Places(d) > |s| then Places(d) else |s|
  {
    hide Fill, Places;
  }

  /** A number with its sign or prefix fits into the buffer it is built in, but for the
      greatest precision, and for the alternate form of hexadecimal numbers with a
      precision of 511 and more. */
  lemma BufferSuffices(d: Directive, args: seq<Arg>, last: nat)
    requires d.conv in "udioxX"
    ensures var t := Convert(d, args, last); |t.sign + t.body| <= NUM_BUF_SIZE <==> !Overruns(d, args, last)
  {
    hide Digits, Precise, Places;
    var m := Modulus(d.size);
    var n := if d.conv in "di" then Abs(Signed(NextNum(args), m)) else Unsigned(NextNum(args), m);
    var base := if d.conv == 'o' then 8 else if d.conv in "xX" then 16 else 10;
    IntegerShort(n, base, d.conv == 'X');
    PreciseLength(d, Digits(n, base, d.conv == 'X'));
    PlacesAre(d);
  }

  /** "%#.511x" with 1: one character too many. */
  lemma LongHex()
    ensures var d := Directive(false, false, false, true, false, false, 0, true, 511, Int, 'x');
            Overruns(d, [Num(1)], 0) && |Convert(d, [Num(1)], 0).body| == NUM_BUF_SIZE + 1
  {
    hide Fill, Places;
    var d := Directive(false, false, false, true, false, false, 0, true, 511, Int, 'x');
    PlacesAre(d);
    PreciseLength(d, Digits(1, 16, false));
  }

  /** "%.Nd" with the digits of the greatest apr_size_t for N: as many characters. */
  lemma LongDecimal(n: int)
    ensures var d := Directive(false, false, false, false, false, false, 0, true, SIZE_MAX, Int, 'd');
            Overruns(d, [Num(n)], 0) && |Convert(d, [Num(n)], 0).body| == SIZE_MAX
  {
    hide Fill, Places, Digits, Signed;
    var d := Directive(false, false, false, false, false, false, 0, true, SIZE_MAX, Int, 'd');
    PlacesAre(d);
    var k := Abs(Signed(n, Modulus(Int)));
    MagnitudeShort(n);
    IntegerShort(k, 10, false);
    PreciseLength(d, Digits(k, 10, false));
  }

  lemma MagnitudeShort(n: int)
    ensures Abs(Signed(n, Modulus(Int))) <= 0x1_0000_0000
  {
  }

  /** The digits of a number are read as the number; as a precision modulo SIZE_MAX + 1,
      so that those of SIZE_MAX + 1 ask for none. */
  lemma PrecisionRead(n: nat, rest: CString, args: seq<Arg>)
    requires rest == "" || !IsDigit(rest[0])
    ensures var f: string := "." + Digits(n, 10, false) + rest;
            && (forall i :: 0 <= i < |f| ==> 0 < f[i] as int < 256)
            && Precision(f, args) == Amount(true, ToSize(n), rest, args)
  {
    hide Digits, Number, Span, ToSize, Value, AllDigits;
    var s := Digits(n, 10, false);
    DigitsDenote(n, 10, false);
    DigitChars(s);
    var f: string := "." + s + rest;
    assert f[1..] == s + rest && f[0] == '.';
    SpanOver(s, rest);
    NumberIsValue(s);
    assert (s + rest)[..|s|] == s && (s + rest)[|s|..] == rest;
  }

  lemma DigitChars(s: string)
    requires AllDigits(s, 10)
    ensures forall i :: 0 <= i < |s| ==> IsDigit(s[i]) && 0 < s[i] as int < 256
  {
  }

  lemma {:induction false} SpanOver(s: CString, rest: CString)
    requires (forall i :: 0 <= i < |s| ==> IsDigit(s[i])) && (rest == "" || !IsDigit(rest[0]))
    ensures Span(s + rest, false) == |s|
  {
    if s == "" {
      assert s + rest == rest;
    } else {
      assert (s + rest)[1..] == s[1..] + rest;
      SpanOver(s[1..], rest);
    }
  }

  lemma {:induction false} NumberIsValue(s: string)
    requires AllDigits(s, 10) && forall i :: 0 <= i < |s| ==> IsDigit(s[i])
    ensures Number(s) == Value(s, 10)
  {
    if s == "" {
    } else {
      NumberIsValue(s[..|s| - 1]);
    }
  }

  // ---------- reading an integer back ----------

  function Leading(s: string): (k: nat)
    ensures k <= |s| && AllDigits(s[..k], 10) && (k < |s| ==> !IsDigit(s[k]))
  {
    if s != "" && IsDigit(s[0]) then
      var k := Leading(s[1..]);
      assert s[..k + 1] == [s[0]] + s[1..][..k];
      k + 1
    else 0
  }

  /** The number a text begins with: spaces, a sign, and all the digits that follow. */
  function ReadInt(s: string): int {
    if s == "" then 0
    else if s[0] == ' ' then ReadInt(s[1..])
    else if s[0] == '-' then 0 - Value(s[1..][..Leading(s[1..])], 10)
    else if s[0] == '+' then Value(s[1..][..Leading(s[1..])], 10)
    else Value(s[..Leading(s)], 10)
  }

  lemma {:induction false} ReadSpaces(k: int, s: string)
    ensures ReadInt(Fill(' ', k) + s) == ReadInt(s)
    decreases if k < 0 then 0 else k
  {
    if k <= 0 {
      assert Fill(' ', k) + s == s;
    } else {
      assert (Fill(' ', k) + s)[1..] == Fill(' ', k - 1) + s;
      ReadSpaces(k - 1, s);
    }
  }

  /** Digits up to the end, or up to something else. */
  lemma {:induction false} LeadingIs(s: string, t: string)
    requires AllDigits(s, 10) && (t == "" || !IsDigit(t[0]))
    ensures Leading(s + t) == |s| && (s + t)[..|s|] == s
  {
    if s == "" {
      assert s + t == t;
    } else {
      assert (s + t)[1..] == s[1..] + t && IsDigit(s[0]);
      LeadingIs(s[1..], t);
    }
  }

  lemma FirstDigit(s: string)
    requires s != "" && AllDigits(s, 10)
    ensures IsDigit(s[0])
  {
  }

  lemma ReadSigned(sign: string, s: string, t: string)
    requires sign in {"", "-", "+", " "} && s != "" && AllDigits(s, 10) && (t == "" || !IsDigit(t[0]))
    ensures ReadInt(sign + s + t) == if sign == "-" then 0 - Value(s, 10) else Value(s, 10)
  {
    hide Value, Leading, Fill;
    LeadingIs(s, t);
    FirstDigit(s);
    var all := sign + s + t;
    assert sign + (s + t) == all;
    if sign == "" { assert all == s + t; } else { assert all[1..] == s + t && all[0] == sign[0]; }
  }

  /** Zeros before a number do not count. */
  lemma {:induction false} LeadingZeros(k: int, s: string)
    requires AllDigits(s, 10)
    ensures AllDigits(Fill('0', k) + s, 10) && Value(Fill('0', k) + s, 10) == Value(s, 10)
    decreases |s|
  {
    hide DigitValue, Fill;
    var z := Fill('0', k);
    if s == "" {
      AllZeros(k);
      assert z + s == z;
    } else {
      var n := |s| - 1;
      LeadingZeros(k, s[..n]);
      assert s == s[..n] + [s[n]] && z + s == z + s[..n] + [s[n]];
      ValueEnd(z + s[..n], s[n], 10);
      ValueEnd(s[..n], s[n], 10);
    }
  }

  lemma {:induction false} AllZeros(k: int)
    ensures AllDigits(Fill('0', k), 10) && Value(Fill('0', k), 10) == 0
    decreases if k < 0 then 0 else k
  {
    if k <= 0 {
    } else {
      AllZeros(k - 1);
      FillEnd('0', k);
      ValueEnd(Fill('0', k - 1), '0', 10);
    }
  }

  lemma FillEnd(c: char, k: nat)
    requires k > 0
    ensures Fill(c, k) == Fill(c, k - 1) + [c]
  {
  }

  /** Zeros after it do. */
  lemma {:induction false} TrailingZeros(s: string, k: nat)
    requires AllDigits(s, 10) && k > 0
    ensures AllDigits(s + Fill('0', k), 10) && Value(s + Fill('0', k), 10) >= 10 * Value(s, 10)
  {
    FillEnd('0', k);
    var t := s + Fill('0', k - 1);
    assert s + Fill('0', k) == t + ['0'] && (t + ['0'])[..|t|] == t;
    if k == 1 { assert t == s; } else { TrailingZeros(s, k - 1); }
  }

  lemma PreciseDenotes(d: Directive, n: nat)
    ensures var s := Precise(d, Digits(n, 10, false)); s != "" && AllDigits(s, 10) && Value(s, 10) == n
  {
    hide Digits, Value, AllDigits, Fill, Places;
    DigitsDenote(n, 10, false);
    var s := Digits(n, 10, false);
    LeadingZeros(Places(d) - |s|, s);
  }

  /** A field that is adjusted to the left, but padded with zeros: on the right. */
  predicate ZerosBehind(d: Directive, t: Text) {
    d.hasWidth && d.left && d.zero && d.width > |t.sign + t.body|
  }

  predicate Denotes(sign: string, body: string, n: int) {
    sign in {"", "-", "+", " "} && (sign == "-" <==> n < 0) && body != "" && AllDigits(body, 10) &&
      Value(body, 10) == Abs(n)
  }

  lemma ReadPlain(sign: string, body: string, n: int)
    requires Denotes(sign, body, n)
    ensures ReadInt(sign + body) == n
  {
    hide Value, AllDigits, ReadInt;
    ReadSigned(sign, body, "");
    assert sign + body + "" == sign + body;
  }

  lemma ReadBefore(sign: string, body: string, gap: nat, n: int)
    requires Denotes(sign, body, n) && gap > 0
    ensures ReadInt(sign + body + Fill(' ', gap)) == n
  {
    hide Value, AllDigits, ReadInt;
    ReadSigned(sign, body, Fill(' ', gap));
  }

  lemma ReadAfter(sign: string, body: string, gap: nat, n: int)
    requires Denotes(sign, body, n)
    ensures ReadInt(Fill(' ', gap) + (sign + body)) == n
  {
    hide Denotes, ReadInt, Fill;
    ReadSpaces(gap, sign + body);
    ReadPlain(sign, body, n);
  }

  lemma ReadFilled(sign: string, body: string, gap: nat, n: int)
    requires Denotes(sign, body, n)
    ensures ReadInt(sign + Fill('0', gap) + body) == n
    ensures sign == "" ==> ReadInt(Fill('0', gap) + (sign + body)) == n
  {
    hide Value, AllDigits, ReadInt, Fill;
    LeadingZeros(gap, body);
    ReadPlain(sign, Fill('0', gap) + body, n);
    assert sign + Fill('0', gap) + body == sign + (Fill('0', gap) + body);
    if sign == "" { assert sign + Fill('0', gap) + body == Fill('0', gap) + (sign + body); }
  }

  lemma ReadZeros(sign: string, body: string, gap: nat, n: int)
    requires Denotes(sign, body, n) && gap > 0
    ensures ReadInt(sign + body + Fill('0', gap)) == n <==> n == 0
  {
    hide Value, AllDigits, ReadInt, Fill;
    if n == 0 { ReadZero(sign, body, gap); }
    TrailingZeros(body, gap);
    ReadSigned(sign, body + Fill('0', gap), "");
    assert sign + (body + Fill('0', gap)) + "" == sign + body + Fill('0', gap);
  }

  lemma ReadZero(sign: string, body: string, gap: nat)
    requires Denotes(sign, body, 0)
    ensures ReadInt(sign + body + Fill('0', gap)) == 0
  {
    hide AllDigits, ReadInt, Fill;
    NothingButZeros(body, gap);
    ReadPlain(sign, body + Fill('0', gap), 0);
    assert sign + (body + Fill('0', gap)) == sign + body + Fill('0', gap);
  }

  lemma {:induction false} NothingButZeros(s: string, k: nat)
    requires AllDigits(s, 10) && Value(s, 10) == 0
    ensures AllDigits(s + Fill('0', k), 10) && Value(s + Fill('0', k), 10) == 0
  {
    hide DigitValue, Value, AllDigits;
    OneDigit(0, 10, false);
    DigitFacts(0, false);
    if k == 0 {
      assert s + Fill('0', 0) == s;
    } else {
      FillEnd('0', k);
      NothingButZeros(s, k - 1);
      ValueEnd(s + Fill('0', k - 1), '0', 10);
      assert s + Fill('0', k) == s + Fill('0', k - 1) + ['0'];
    }
  }

  /** A printed integer reads back as itself, unless it is padded with zeros behind it
      and is not 0. */
  lemma IntegerReadsBack(d: Directive, args: seq<Arg>, last: nat)
    requires d.conv in "di"
    ensures var n, t := Signed(NextNum(args), Modulus(d.size)), Convert(d, args, last);
            ReadInt(Field(d, t)) == n <==> !ZerosBehind(d, t) || n == 0
  {
    hide Digits, Value, AllDigits, ReadInt, Precise, Signed, Fill;
    var n, t := Signed(NextNum(args), Modulus(d.size)), Convert(d, args, last);
    PreciseDenotes(d, Abs(n));
    var gap := d.width - |t.sign + t.body|;
    if !d.hasWidth || gap <= 0 {
      ReadPlain(t.sign, t.body, n);
    } else if d.left {
      if d.zero { ReadZeros(t.sign, t.body, gap, n); } else { ReadBefore(t.sign, t.body, gap, n); }
    } else {
      if d.zero { ReadFilled(t.sign, t.body, gap, n); } else { ReadAfter(t.sign, t.body, gap, n); }
    }
  }

  /** The alternate form has its prefix exactly for numbers other than 0, unless it is a
      quad that follows a number of another kind: the prefix depends on the latter. */
  lemma HexPrefix(d: Directive, args: seq<Arg>, last: nat)
    requires d.conv in "xX"
    ensures var n, t := Unsigned(NextNum(args), Modulus(d.size)), Convert(d, args, last);
            var s := (if d.alt && n != 0 then ['0', d.conv] else "") + Precise(d, Digits(n, 16, d.conv == 'X'));
            t.body == s <==> !d.alt || d.size != Quad || (last != 0 <==> n != 0)
  {
    hide Digits, Precise;
    var n := Unsigned(NextNum(args), Modulus(d.size));
    var s := Precise(d, Digits(n, 16, d.conv == 'X'));
    assert "" + s == s && |['0', d.conv] + s| == |s| + 2;
  }

  /** A field is as wide as its text or its width. */
  lemma FieldIsWide(d: Directive, t: Text)
    ensures var n := |t.sign + t.body|; |Field(d, t)| == if d.hasWidth && d.width > n then d.width else n
  {
    hide Fill;
  }

  /** "%2147483648d": one character more than an int can count. */
  lemma TooMany(n: int)
    ensures var d := Directive(false, false, false, false, false, true, 0x8000_0000, false, 0, Int, 'd');
            |Field(d, Convert(d, [Num(n)], 0))| == INT_MAX + 1
  {
    hide Fill, Digits, Signed, Field;
    var d := Directive(false, false, false, false, false, true, 0x8000_0000, false, 0, Int, 'd');
    var k := Abs(Signed(n, Modulus(Int)));
    MagnitudeShort(n);
    IntegerShort(k, 10, false);
    FieldIsWide(d, Convert(d, [Num(n)], 0));
  }
}
