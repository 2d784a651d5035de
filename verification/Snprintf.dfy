/** apr_snprintf.c: the formatter, which writes character by character into a buffer that
is passed on when it is full, or that ends the output. */
module Snprintf {
  import opened CStrings
  import opened FormatSpec
  import opened FormatFacts
  import opened Machine

  function Flatten(chunks: seq<string>): string {
    if chunks == [] then "" else Flatten(chunks[..|chunks| - 1]) + chunks[|chunks| - 1]
  }

  /** apr_vformatter_buff_t with its flush function: snprintf_flush stops, brigade_flush
      passes the full buffer on. Nothing is stored while curpos is NULL. */
  class Sink {
    const buf: array<char>
    const endpos: nat
    const stops: bool
    const discards: bool
    var curpos: nat
    var chunks: seq<string>          // what has been passed on
    var cc: CInt                     // the count of the formatter
    ghost const before: seq<char>    // what was in the buffer

    ghost predicate Valid()
      reads this, buf
    {
      && curpos <= endpos <= buf.Length
      && (stops ==> chunks == [] && |before| == buf.Length && buf[curpos..] == before[curpos..])
      && (!stops ==> endpos == buf.Length > 0) && forall k :: 0 <= k < |chunks| ==> |chunks[k]| == buf.Length
    }

    constructor (buf: array<char>, endpos: nat, stops: bool, discards: bool)
      requires endpos <= buf.Length && (!stops ==> endpos == buf.Length > 0)
      ensures Valid() && Out() == "" && cc == 0 && chunks == [] && curpos == 0
      ensures this.buf == buf && this.endpos == endpos && this.stops == stops && this.discards == discards
      ensures before == buf[..]
    {
      this.buf, this.endpos, this.stops, this.discards := buf, endpos, stops, discards;
      curpos, chunks, cc := 0, [], 0;
      before := buf[..];
    }

    /** All that has been written. */
    ghost function Out(): string
      requires Valid()
      reads this, buf
    {
      Flatten(chunks) + buf[..curpos]
    }

    /** The characters of `t` have been written after `s`; or the buffer is full before
        the last of them. */
    ghost predicate Emitted(s: string, n: int, t: string, fails: bool)
      reads this, buf
    {
      && Valid()
      && if fails then stops && !discards && curpos == endpos && Out() <= s + t && |Out()| < |s + t|
         else cc == ToInt(n + |t|) && (discards || Out() == s + t)
    }

    /** After a failure nothing more is written. */
    lemma Stopped(s: string, n: int, a: string, b: string)
      requires Emitted(s, n, a, true)
      ensures Emitted(s, n, a + b, true)
    {
      assert s + (a + b) == s + a + b;
    }

    lemma Done(s: string, n: int, a: string)
      requires Emitted(s, n, a, false)
      ensures Valid() && cc == ToInt(n + |a|) && (discards || Out() == s + a)
    {
    }

    /** What is in the buffer of a sink that stops when it is full. */
    lemma Stored(t: string, fails: bool)
      requires stops && Emitted("", 0, t, fails)
      ensures curpos <= endpos && |before| == buf.Length
      ensures discards || buf[..] == t[..curpos] + before[curpos..]
      ensures discards && endpos == 0 ==> buf[..] == before
      ensures !discards ==> curpos == if |t| <= endpos then |t| else endpos
      ensures fails <==> !discards && |t| > endpos
      ensures !fails ==> cc == ToInt(|t|)
    {
      assert Flatten(chunks) == "" && "" + t == t;
      assert Out() == buf[..curpos];
      assert buf[..] == buf[..curpos] + buf[curpos..];
      if !discards && fails { assert buf[..curpos] == t[..curpos]; }
    }

    lemma Nothing()
      requires Valid()
      ensures Emitted(Out(), cc, "", false)
    {
      ToIntSame(cc);
    }

    /** One text after another. */
    lemma Joined(s: string, n: int, a: string, s1: string, n1: int, b: string, fails: bool)
      requires n1 == ToInt(n + |a|) && (discards || s1 == s + a) && Emitted(s1, n1, b, fails)
      ensures Emitted(s, n, a + b, fails)
    {
      ToIntSum(n + |a|, |b|);
      assert s + a + b == s + (a + b);
    }

    /** INS_CHAR */
    method InsChar(c: char) returns (fails: bool)
      requires Valid()
      modifies this`curpos, this`chunks, this`cc, buf
      ensures Emitted(old(Out()), old(cc), [c], fails)
    {
      fails := false;
      if !discards {
        if curpos >= endpos {
          if stops { return true; }
          Passed(chunks, buf[..]);
          chunks, curpos := chunks + [buf[..]], 0;
        }
        ghost var s := buf[..curpos];
        buf[curpos] := c;
        curpos := curpos + 1;
        assert buf[..curpos] == s + [c];
      }
      cc := ToInt(cc + 1);
    }

    /** for (i = s_len; i != 0; i--) INS_CHAR(*s) */
    method Put(t: string) returns (fails: bool)
      requires Valid()
      modifies this`curpos, this`chunks, this`cc, buf
      ensures Emitted(old(Out()), old(cc), t, fails)
    {
      hide Emitted, Flatten, ToInt;
      fails := false;
      var i := 0;
      ghost var o, m := Out(), cc;
      Nothing();
      assert t[..0] == "";
      while i < |t|
        invariant i <= |t| && !fails && Emitted(o, m, t[..i], false)
      {
        Done(o, m, t[..i]);
        ghost var s, n := Out(), cc;
        fails := InsChar(t[i]);
        Joined(o, m, t[..i], s, n, [t[i]], fails);
        assert t[..i] + [t[i]] == t[..i + 1] && t[..i + 1] + t[i + 1..] == t;
        if fails {
          Stopped(o, m, t[..i + 1], t[i + 1..]);
          return;
        }
        i := i + 1;
      }
      assert t[..i] == t;
    }

    /** PAD: at least one character, until the width is used up. */
    method Pad(width: nat, length: nat, ch: char) returns (fails: bool)
      requires Valid() && width > length
      modifies this`curpos, this`chunks, this`cc, buf
      ensures Emitted(old(Out()), old(cc), Fill(ch, width - length), fails)
    {
      hide Emitted, Flatten, ToInt;
      fails := false;
      var left := width;
      assert Fill(ch, 0) == "";
      ghost var o, m := Out(), cc;
      Nothing();
      while left > length
        invariant length <= left <= width && !fails && Emitted(o, m, Fill(ch, width - left), false)
      {
        Done(o, m, Fill(ch, width - left));
        ghost var s, n := Out(), cc;
        fails := InsChar(ch);
        FillMore(ch, width - left, left - length - 1);
        Joined(o, m, Fill(ch, width - left), s, n, [ch], fails);
        if fails {
          Stopped(o, m, Fill(ch, width - left + 1), Fill(ch, left - length - 1));
          return;
        }
        left := left - 1;
      }
    }

    /** The padding of a field that is adjusted to the right, after a sign if it is
        padded with zeros. */
    method PadLeft(d: Directive, text: string, prefixChar: char, padChar: char) returns (fails: bool, s: string)
      requires Valid() && |text| < d.width && (prefixChar != '\0' ==> |text| > 0 && text[0] == prefixChar)
      modifies this`curpos, this`chunks, this`cc, buf
      ensures s == if padChar == '0' && prefixChar != '\0' then text[1..] else text
      ensures var gap := Fill(padChar, d.width - |text|);
              Emitted(old(Out()), old(cc),
                      if padChar == '0' && prefixChar != '\0' then [prefixChar] + gap else gap, fails)
    {
      hide Emitted, Fill;
      s := text;
      if padChar == '0' && prefixChar != '\0' {
        fails := InsChar(s[0]);
        s := s[1..];
        if fails {
          Stopped(old(Out()), old(cc), [prefixChar], Fill(padChar, d.width - |text|));
        } else {
          Done(old(Out()), old(cc), [prefixChar]);
          ghost var o, n := Out(), cc;
          fails := Pad(d.width - 1, |s|, padChar);
          Joined(old(Out()), old(cc), [prefixChar], o, n, Fill(padChar, d.width - |text|), fails);
        }
      } else {
        fails := Pad(d.width, |s|, padChar);
      }
    }

    /** The padding before the text, if any. */
    method Before(d: Directive, text: string, prefixChar: char, padChar: char) returns (fails: bool, s: string)
      requires Valid() && (prefixChar != '\0' ==> |text| > 0 && text[0] == prefixChar)
      modifies this`curpos, this`chunks, this`cc, buf
      ensures Emitted(old(Out()), old(cc), Lead(d, text, prefixChar, padChar), fails)
      ensures s == Tail(d, text, prefixChar, padChar)
    {
      hide Emitted, Fill;
      fails, s := false, text;
      if d.hasWidth && !d.left && d.width > |text| {
        fails, s := PadLeft(d, text, prefixChar, padChar);
      } else {
        Nothing();
      }
    }

    /** The padding after the text, if any. */
    method Behind(d: Directive, length: nat, padChar: char) returns (fails: bool)
      requires Valid()
      modifies this`curpos, this`chunks, this`cc, buf
      ensures Emitted(old(Out()), old(cc), Trail(d, length, padChar), fails)
    {
      hide Emitted, Fill;
      fails := false;
      if d.hasWidth && d.left && d.width > length {
        fails := Pad(d.width, length, padChar);
      } else {
        Nothing();
      }
    }

    /** The end of the loop of apr_vformatter: prefix, padding and text. */
    method PrintField(d: Directive, t: Text, text: string, prefixChar: char) returns (fails: bool)
      requires Valid() && t.sign == (if prefixChar == '\0' then "" else [prefixChar]) && text == t.sign + t.body
      modifies this`curpos, this`chunks, this`cc, buf
      ensures Emitted(old(Out()), old(cc), Field(d, t), fails)
    {
      hide Emitted, Fill, Field, Lead, Tail, Trail;
      ghost var o, n := Out(), cc;
      ghost var a, b, c := Lead(d, text, prefixChar, t.pad), Tail(d, text, prefixChar, t.pad), Trail(d, |text|, t.pad);
      FieldParts(d, t, text, prefixChar);
      var s;
      fails, s := Before(d, text, prefixChar, t.pad);
      if fails { Stopped(o, n, a, b + c); return; }
      Done(o, n, a);
      ghost var o1, n1 := Out(), cc;
      fails := Put(s);
      Joined(o, n, a, o1, n1, b, fails);
      if fails { Stopped(o, n, a + b, c); return; }
      Done(o, n, a + b);
      o1, n1 := Out(), cc;
      fails := Behind(d, |text|, t.pad);
      Joined(o, n, a + b, o1, n1, c, fails);
    }
  }

  lemma Passed(chunks: seq<string>, s: string)
    ensures Flatten(chunks + [s]) == Flatten(chunks) + s
  {
  }

  /** What comes before the text of a field, the rest of the text, and what follows. */
  ghost function Lead(d: Directive, text: string, prefixChar: char, padChar: char): string
    requires prefixChar != '\0' ==> |text| > 0
  {
    if d.hasWidth && !d.left && d.width > |text| then
      var gap := Fill(padChar, d.width - |text|);
      if padChar == '0' && prefixChar != '\0' then [prefixChar] + gap else gap
    else ""
  }

  ghost function Tail(d: Directive, text: string, prefixChar: char, padChar: char): string
    requires prefixChar != '\0' ==> |text| > 0
  {
    if d.hasWidth && !d.left && d.width > |text| && padChar == '0' && prefixChar != '\0' then text[1..] else text
  }

  ghost function Trail(d: Directive, length: nat, padChar: char): string {
    if d.hasWidth && d.left && d.width > length then Fill(padChar, d.width - length) else ""
  }

  lemma FieldParts(d: Directive, t: Text, text: string, prefixChar: char)
    requires text == t.sign + t.body && t.sign == (if prefixChar == '\0' then "" else [prefixChar])
    ensures var a, b, c := Lead(d, text, prefixChar, t.pad), Tail(d, text, prefixChar, t.pad), Trail(d, |text|, t.pad);
            Field(d, t) == a + b + c == a + (b + c)
  {
    hide Fill;
  }

  lemma FillMore(c: char, i: nat, j: nat)
    ensures Fill(c, i) + [c] == Fill(c, i + 1)
    ensures Fill(c, i) + [c] + Fill(c, j) == Fill(c, i + 1 + j)
  {
  }

  // ---------- conversions ----------

  /** num_buf of apr_vformatter with the place s in it: numbers are built from its end. */
  class NumBuf {
    const chars: array<char>
    var s: nat

    ghost predicate Valid()
      reads this
    {
      s <= chars.Length == NUM_BUF_SIZE
    }

    function Text(): (t: string)
      requires Valid()
      reads this, chars
      ensures |t| == NUM_BUF_SIZE - s
    {
      chars[s..]
    }

    constructor ()
      ensures Valid() && fresh(chars)
    {
      chars, s := new char[NUM_BUF_SIZE], NUM_BUF_SIZE;
    }

    /** s = &num_buf[NUM_BUF_SIZE] */
    method Clear()
      requires Valid()
      modifies this
      ensures Valid() && Text() == ""
    {
      s := NUM_BUF_SIZE;
    }

    /** *--s = c */
    method Push(c: char)
      requires Valid() && s > 0
      modifies this, chars
      ensures Valid() && Text() == [c] + old(Text())
    {
      ghost var t := Text();
      s := s - 1;
      chars[s] := c;
      assert chars[s + 1..] == t;
    }
  }

  /** The loop of conv_10 and conv_10_quad: digits from the last to the first. */
  method Decimal(b: NumBuf, n: nat)
    requires b.Valid() && n <= UINT64_MAX + 1
    modifies b, b.chars
    ensures b.Valid() && b.Text() == Digits(n, 10, false)
  {
    hide Digits;
    IntegerShort(n, 10, false);
    var magnitude: nat, more := n, true;
    b.Clear();
    while more
      invariant b.Valid() && Digits(n, 10, false) == if more then Digits(magnitude, 10, false) + b.Text() else b.Text()
      decreases more, magnitude
    {
      LastDigit(magnitude);
      var next := magnitude / 10;
      b.Push((magnitude - next * 10 + '0' as int) as char);
      magnitude := next;
      more := magnitude != 0;
    }
  }

  lemma LastDigit(n: nat)
    ensures n - n / 10 * 10 == n % 10
    ensures Digits(n, 10, false) ==
            (if n / 10 != 0 then Digits(n / 10, 10, false) else "") + [(n % 10 + '0' as int) as char]
  {
  }

  /** The magnitude of a negative number, in unsigned arithmetic. */
  lemma Negated(num: int, m: nat)
    requires m > 0 && num < 0 && num + m >= 0
    ensures (-(num + 1)) % m + 1 == -num
  {
    Small(-(num + 1), m);
  }

  lemma Small(n: int, m: nat)
    requires 0 <= n < m
    ensures n % m == n
  {
  }

  /** conv_10 */
  method Conv10(b: NumBuf, num: int, isUnsigned: bool) returns (isNegative: bool)
    requires b.Valid() && -0x8000_0000 <= num < 0x8000_0000
    modifies b, b.chars
    ensures b.Valid() && isNegative == (!isUnsigned && num < 0)
    ensures b.Text() == Digits(if isUnsigned then Unsigned(num, UINT32_MAX + 1) else Abs(num), 10, false)
  {
    var magnitude: nat := num % (UINT32_MAX + 1);
    if num >= 0 { Small(num, UINT32_MAX + 1); }
    isNegative := !isUnsigned && num < 0;
    if isNegative {
      Negated(num, UINT32_MAX + 1);
      var t := num + 1;
      magnitude := (-t) % (UINT32_MAX + 1) + 1;
    }
    Decimal(b, magnitude);
  }

  const INT32_MAX := 0x7fff_ffff
  const UINT32_MAX := 0xffff_ffff
  const UINT64_MAX := 0xffff_ffff_ffff_ffff

  /** A number that fits in 32 bits is the same in 32 bits. */
  lemma Narrow(num: int, isUnsigned: bool)
    requires if isUnsigned then 0 <= num <= UINT32_MAX else -INT32_MAX - 1 <= num <= INT32_MAX
    ensures var t := Signed(num, UINT32_MAX + 1);
            -INT32_MAX - 1 <= t <= INT32_MAX && if isUnsigned then Unsigned(t, UINT32_MAX + 1) == num else t == num
  {
  }

  /** The magnitude of a quad as an unsigned number. */
  lemma Wide(num: int)
    requires -(UINT64_MAX + 1) / 2 <= num <= UINT64_MAX / 2
    ensures num % (UINT64_MAX + 1) == if num < 0 then num + UINT64_MAX + 1 else num
  {
  }

  /** conv_10_quad */
  method Conv10Quad(b: NumBuf, num: int, isUnsigned: bool) returns (isNegative: bool)
    requires b.Valid() && -(UINT64_MAX + 1) / 2 <= num <= UINT64_MAX / 2
    modifies b, b.chars
    ensures b.Valid() && isNegative == (!isUnsigned && num < 0)
    ensures b.Text() == Digits(if isUnsigned then Unsigned(num, UINT64_MAX + 1) else Abs(num), 10, false)
  {
    hide Signed, Digits;
    Wide(num);
    var magnitude: nat := num % (UINT64_MAX + 1);
    if (magnitude <= UINT32_MAX && isUnsigned) || (-INT32_MAX - 1 <= num <= INT32_MAX && !isUnsigned) {
      Narrow(num, isUnsigned);
      isNegative := Conv10(b, Signed(num, UINT32_MAX + 1), isUnsigned);
    } else {
      isNegative := !isUnsigned && num < 0;
      if isNegative {
        Negated(num, UINT64_MAX + 1);
        var t := num + 1;
        magnitude := (-t) % (UINT64_MAX + 1) + 1;
      }
      Decimal(b, magnitude);
    }
  }

  const LOW_DIGITS := "0123456789abcdef"
  const UPPER_DIGITS := "0123456789ABCDEF"

  lemma DigitAt(k: nat, upper: bool)
    requires k < 16
    ensures |LOW_DIGITS| == |UPPER_DIGITS| == 16 && (if upper then UPPER_DIGITS else LOW_DIGITS)[k] == Digit(k, upper)
  {
  }

  /** conv_p2 and conv_p2_quad, which do the same for numbers of different sizes. */
  method ConvP2(b: NumBuf, n: nat, nbits: nat, format: char)
    requires b.Valid() && nbits in {3, 4} && n <= UINT64_MAX
    modifies b, b.chars
    ensures b.Valid() && b.Text() == Digits(n, if nbits == 3 then 8 else 16, format == 'X')
  {
    hide Digit;
    var num: nat, more, base: nat := n, true, if nbits == 3 then 8 else 16;
    IntegerShort(n, base, format == 'X');
    b.Clear();
    while more
      invariant b.Valid()
      invariant Digits(n, base, format == 'X') == if more then Digits(num, base, format == 'X') + b.Text() else b.Text()
      decreases more, num
    {
      var c := P2Step(num, base, format);
      b.Push(c);
      num := num / base;
      more := num != 0;
    }
  }

  /** digits[num & mask] */
  method P2Step(num: nat, base: nat, format: char) returns (c: char)
    requires base in {8, 16}
    ensures c == Digit(num % base, format == 'X')
  {
    DigitAt(num % base, format == 'X');
    var digits := if format == 'X' then UPPER_DIGITS else LOW_DIGITS;
    c := digits[num % base];
  }

  /** FIX_PRECISION: one place before the digits stays free. */
  method FixPrecision(b: NumBuf, d: Directive)
    requires b.Valid() && b.s > 0 && (d.hasPrecision ==> d.precision < SIZE_MAX)
    modifies b, b.chars
    ensures b.Valid() && b.Text() == Precise(d, old(b.Text())) && b.s > 0
  {
    if d.hasPrecision {
      var p := if ToSize(d.precision + 1) < NUM_BUF_SIZE then d.precision else NUM_BUF_SIZE - 1;
      PlacesAre(d);
      FillTo(b, p);
    }
  }

  /** while (s_len < p) *--s = '0' */
  method FillTo(b: NumBuf, p: nat)
    requires b.Valid() && b.s > 0 && p < NUM_BUF_SIZE
    modifies b, b.chars
    ensures b.Valid() && b.Text() == Fill('0', p - |old(b.Text())|) + old(b.Text()) && b.s > 0
  {
    hide Fill, NumBuf.Text;
    ghost var t, filled := b.Text(), 0;
    FillNone('0', p - |t|, t);
    while NUM_BUF_SIZE - b.s < p
      invariant b.Valid() && b.s > 0 && NUM_BUF_SIZE - b.s == |t| + filled && (|t| + filled <= p || filled == 0)
      invariant b.Text() == Fill('0', filled) + t
      decreases b.s
    {
      b.Push('0');
      FillFront('0', filled, t);
      filled := filled + 1;
    }
  }

  lemma FillNone(c: char, n: int, t: string)
    ensures Fill(c, 0) + t == t && (n <= 0 ==> Fill(c, n) + t == t)
  {
  }

  lemma FillFront(c: char, n: nat, t: string)
    ensures [c] + (Fill(c, n) + t) == Fill(c, n + 1) + t
  {
  }

  // ---------- directives ----------

  /** The loop over the flags. */
  method ReadFlags(f0: CString) returns (f: CString, left: bool, plus: bool, alt: bool, space: bool, zero: bool)
    ensures f == f0[Span(f0, true)..]
    ensures var flags := f0[..Span(f0, true)];
            left == ('-' in flags) && plus == ('+' in flags) && alt == ('#' in flags) && space == (' ' in flags) &&
            zero == ('0' in flags)
  {
    hide Span, IsFlag, IsDigit;
    f, left, plus, alt, space, zero := f0, false, false, false, false, false;
    ghost var k := 0;
    while true
      invariant k <= |f0| && f == f0[k..] && Span(f0, true) == k + Span(f, true)
      invariant left == ('-' in f0[..k]) && plus == ('+' in f0[..k]) && alt == ('#' in f0[..k])
      invariant space == (' ' in f0[..k]) && zero == ('0' in f0[..k])
      decreases |f|
    {
      var c := At(f, 0);
      FlagIs(c);
      if c == '-' { left := true; }
      else if c == '+' { plus := true; }
      else if c == '#' { alt := true; }
      else if c == ' ' { space := true; }
      else if c == '0' { zero := true; }
      else { break; }
      FlagStep(f0, k);
      f, k := f[1..], k + 1;
    }
    NoFlag(f);
  }

  lemma FlagStep(f: CString, k: nat)
    requires k <= |f| && IsFlag(At(f[k..], 0))
    ensures k < |f| && f[..k + 1] == f[..k] + [At(f[k..], 0)] && f[k..][1..] == f[k + 1..]
    ensures Span(f[k..], true) == 1 + Span(f[k..][1..], true)
  {
  }

  lemma NoFlag(f: CString)
    requires !IsFlag(At(f, 0))
    ensures Span(f, true) == 0
  {
  }

  lemma FlagIs(c: char)
    ensures IsFlag(c) <==> c == '-' || c == '+' || c == '#' || c == ' ' || c == '0'
  {
  }

  /** STR_TO_DEC */
  method ReadNumber(f0: CString) returns (num: SizeT, f: CString)
    requires IsDigit(At(f0, 0))
    ensures forall i :: 0 <= i < Span(f0, false) ==> IsDigit(f0[i])
    ensures num == ToSize(Number(f0[..Span(f0, false)])) && f == f0[Span(f0, false)..]
  {
    SpanIsDigits(f0);
    num, f := At(f0, 0) as int - '0' as int, f0[1..];
    ghost var k := 1;
    assert f0[..1][..0] == "";
    SmallNumber(num);
    while IsDigit(At(f, 0))
      invariant 0 < k <= Span(f0, false) && f == f0[k..] && Span(f0, false) == k + Span(f, false)
      invariant num == ToSize(Number(f0[..k]))
      decreases |f|
    {
      assert f0[..k + 1][..k] == f0[..k] && f0[..k + 1][k] == f[0];
      ToSizeStep(Number(f0[..k]), At(f, 0) as int - '0' as int);
      num := ToSize(num * 10);
      num, f := ToSize(num + (At(f, 0) as int - '0' as int)), f[1..];
      k := k + 1;
    }
  }

  lemma SmallNumber(n: nat)
    requires n < 10
    ensures ToSize(n) == n
  {
  }

  method ReadAmount(f0: CString, ap: seq<Arg>) returns (a: Amount)
    ensures a == Width(f0, ap)
  {
    if IsDigit(At(f0, 0)) {
      var num, f := ReadNumber(f0);
      a := Amount(true, num, f, ap);
    } else if At(f0, 0) == '*' {
      a := Amount(true, Signed(NextNum(ap), Modulus(Int)), f0[1..], After(ap));
    } else {
      a := Amount(false, 0, f0, ap);
    }
  }

  method ReadPrecision(f: CString, ap: seq<Arg>) returns (a: Amount)
    ensures a == Precision(f, ap)
  {
    hide Width;
    if At(f, 0) == '.' {
      a := ReadAmount(f[1..], ap);
      a := a.(given := true, value := if a.value < 0 then 0 else a.value);
    } else {
      a := Amount(false, 0, f, ap);
    }
  }

  method ReadModifier(host: Host, f0: CString) returns (size: Size, f: CString)
    ensures (size, f) == Modifier(host, f0)
  {
    f := f0;
    if |host.off| > |host.int64| && Begins(f, host.off) {
      size, f := Quad, f[|host.off|..];
    } else if Begins(f, host.int64) {
      size, f := Quad, f[|host.int64|..];
    } else if At(f, 0) == 'q' {
      size, f := Quad, f[1..];
    } else if At(f, 0) == 'l' {
      size, f := Long, f[1..];
    } else if At(f, 0) == 'h' {
      size, f := Short, f[1..];
    } else {
      size := Int;
    }
  }

  /** What stands after a percent sign. */
  method ReadDirective(host: Host, f0: CString, ap0: seq<Arg>) returns (d: Directive, f: CString, ap: seq<Arg>)
    ensures Parsed(d, f, ap) == Parse(host, f0, ap0)
  {
    hide Width, Precision, Modifier, Span, IsFlag, IsDigit;
    f, ap := f0, ap0;
    var left, plus, alt, space, zero := false, false, false, false, false;
    var adjustWidth, minWidth: SizeT, adjustPrecision, precision: SizeT := false, 0, false, 0;
    if !IsLower(At(f, 0)) {
      f, left, plus, alt, space, zero := ReadFlags(f);
      var a := ReadAmount(f, ap);
      adjustWidth, f, ap := a.given, a.rest, a.args;
      if a.value < 0 { left := true; minWidth := ToSize(ToInt(-a.value)); } else { minWidth := a.value; }
      a := ReadPrecision(f, ap);
      adjustPrecision, precision, f, ap := a.given, a.value, a.rest, a.args;
    }
    var size;
    size, f := ReadModifier(host, f);
    d := Directive(left, plus, space, alt, zero, adjustWidth, minWidth, adjustPrecision, precision, size, At(f, 0));
  }

  // ---------- arguments ----------

  /** The cases of the switch for integers: the digits. */
  method IntegerDigits(b: NumBuf, d: Directive, arg: int) returns (isNegative: bool)
    requires b.Valid() && d.conv in "udi" && !Endless(d)
    modifies b, b.chars
    ensures b.Valid() && b.s > 0
    ensures d.conv == 'u' ==> b.Text() == Precise(d, Digits(Unsigned(arg, Modulus(d.size)), 10, false)) && !isNegative
    ensures d.conv != 'u' ==>
      var n := Signed(arg, Modulus(d.size));
      b.Text() == Precise(d, Digits(Abs(n), 10, false)) && isNegative == (n < 0)
  {
    hide Digits, Precise, Signed, Unsigned;
    isNegative := IntegerNumber(b, d, arg);
    MagnitudeSmall(arg, d);
    var size := Modulus(d.size);
    IntegerShort(if d.conv == 'u' then Unsigned(arg, size) else Abs(Signed(arg, size)), 10, false);
    FixPrecision(b, d);
  }

  lemma MagnitudeSmall(arg: int, d: Directive)
    ensures Unsigned(arg, Modulus(d.size)) <= UINT64_MAX && Abs(Signed(arg, Modulus(d.size))) <= UINT64_MAX
  {
  }

  method IntegerNumber(b: NumBuf, d: Directive, arg: int) returns (isNegative: bool)
    requires b.Valid() && d.conv in "udi"
    modifies b, b.chars
    ensures b.Valid() && isNegative == (d.conv != 'u' && Signed(arg, Modulus(d.size)) < 0)
    ensures b.Text() ==
      Digits(if d.conv == 'u' then Unsigned(arg, Modulus(d.size)) else Abs(Signed(arg, Modulus(d.size))), 10, false)
  {
    hide Digits;
    if d.size == Quad {
      var quad := Signed(arg, UINT64_MAX + 1);
      SignedRange(arg, UINT64_MAX + 1);
      isNegative := Conv10Quad(b, quad, d.conv == 'u');
    } else {
      var num :=
        if d.size == Short then (if d.conv == 'u' then Unsigned(arg, 0x1_0000) else Signed(arg, 0x1_0000))
        else Signed(arg, UINT32_MAX + 1);
      SignedRange(arg, UINT32_MAX + 1);
      isNegative := Conv10(b, num, d.conv == 'u');
    }
  }

  lemma SignedRange(n: int, m: nat)
    requires m in {UINT32_MAX + 1, UINT64_MAX + 1}
    ensures 0 <= Signed(n, m) + m / 2 < m && Unsigned(Signed(n, m), m) == Unsigned(n, m)
  {
    var r := n % m;
    if r >= m / 2 { assert (r - m) % m == r; }
  }

  /** The cases for octal and hexadecimal numbers. */
  method PowerDigits(b: NumBuf, d: Directive, args: seq<Arg>, last: nat) returns (now: nat)
    requires b.Valid() && d.conv in "oxX" && !Overruns(d, args, last)
    modifies b, b.chars
    ensures b.Valid() && var t := Convert(d, args, last); b.Text() == t.body && now == t.last
  {
    hide Digits, Precise;
    var n := Unsigned(NextNum(args), Modulus(d.size));
    now := if d.size == Quad then last else n;
    PowerBase(b, d, n);
    if d.conv == 'o' { AlternateOctal(b, d); } else { AlternateHex(b, d, now); }
  }

  method PowerBase(b: NumBuf, d: Directive, n: nat)
    requires b.Valid() && d.conv in "oxX" && n <= UINT64_MAX && !Endless(d)
    modifies b, b.chars
    ensures b.Valid() && 0 < b.s < NUM_BUF_SIZE
    ensures b.Text() == Precise(d, Digits(n, if d.conv == 'o' then 8 else 16, d.conv == 'X'))
    ensures !d.hasPrecision || d.precision < NUM_BUF_SIZE - 1 ==> b.s > 1
  {
    hide Digits, Precise, Places;
    PlacesAre(d);
    IntegerShort(n, if d.conv == 'o' then 8 else 16, d.conv == 'X');
    ConvP2(b, n, if d.conv == 'o' then 3 else 4, d.conv);
    PreciseLength(d, b.Text());
    FixPrecision(b, d);
  }

  /** if (alternate_form && *s != '0') *--s = '0' */
  method AlternateOctal(b: NumBuf, d: Directive)
    requires b.Valid() && 0 < b.s < NUM_BUF_SIZE
    modifies b, b.chars
    ensures b.Valid() && var s := old(b.Text()); b.Text() == if d.alt && s[0] != '0' then "0" + s else s
  {
    if d.alt && b.chars[b.s] != '0' { b.Push('0'); }
  }

  /** if (alternate_form && ui_num != 0): *--s = *fmt, then *--s = '0' */
  method AlternateHex(b: NumBuf, d: Directive, now: nat)
    requires b.Valid() && (d.alt && now != 0 ==> b.s > 1)
    modifies b, b.chars
    ensures b.Valid() && var s := old(b.Text()); b.Text() == if d.alt && now != 0 then ['0', d.conv] + s else s
  {
    if d.alt && now != 0 {
      b.Push(d.conv);
      b.Push('0');
    }
  }

  /** The case for strings. */
  method StringText(d: Directive, arg: Arg) returns (s: string)
    ensures s == if arg.Str? then Shown(d, arg.s) else S_NULL
  {
    if arg.Str? {
      s := arg.s;
      if d.hasPrecision {
        var length := 0;
        while length < d.precision && length < |arg.s|
          invariant length <= d.precision && length <= |arg.s|
        {
          length := length + 1;
        }
        s := arg.s[..length];
      }
    } else {
      s := S_NULL;
    }
  }

  /** The switch of apr_vformatter: the text, and the sign that is to come before it,
      for which there is a place in the buffer. */
  method ConvertArg(b: NumBuf, d: Directive, ap: seq<Arg>, last: nat) returns (t: Text, prefixChar: char)
    requires b.Valid() && Supported(d.conv) && !Overruns(d, ap, last)
    modifies b, b.chars
    ensures b.Valid() && t == Convert(d, ap, last) && t.sign == if prefixChar == '\0' then "" else [prefixChar]
    ensures prefixChar != '\0' ==> b.s > 0 && b.Text() == t.body
  {
    hide Digits, Precise, Signed, Shown, Endless;
    var pad := if d.zero then '0' else ' ';
    prefixChar := '\0';
    match d.conv {
      case 'u' =>
        var isNegative := IntegerDigits(b, d, NextNum(ap));
        t := Text("", b.Text(), pad, After(ap), last);
      case 'd' => t, prefixChar := SignedText(b, d, ap, pad, last);
      case 'i' => t, prefixChar := SignedText(b, d, ap, pad, last);
      case 'o' => t := PowerText(b, d, ap, pad, last);
      case 'x' => t := PowerText(b, d, ap, pad, last);
      case 'X' => t := PowerText(b, d, ap, pad, last);
      case 's' =>
        var s := StringText(d, NextStr(ap));
        t := Text("", s, ' ', After(ap), last);
      case 'c' => t := Text("", [Unsigned(NextNum(ap), 256) as char], ' ', After(ap), last);
      case '%' => t := Text("", "%", ' ', ap, last);
      case _ => t := Text("", ['%', d.conv], ' ', ap, last);
    }
  }

  method SignedText(b: NumBuf, d: Directive, ap: seq<Arg>, pad: char, last: nat) returns (t: Text, prefixChar: char)
    requires b.Valid() && d.conv in "di" && !Endless(d)
    modifies b, b.chars
    ensures b.Valid() && b.s > 0 && b.Text() == t.body
    ensures t == Integer(d, Signed(NextNum(ap), Modulus(d.size)), pad, After(ap), last)
    ensures t.sign == if prefixChar == '\0' then "" else [prefixChar]
  {
    hide Digits, Precise, Signed;
    var isNegative := IntegerDigits(b, d, NextNum(ap));
    prefixChar := if isNegative then '-' else if d.plus then '+' else if d.space then ' ' else '\0';
    t := Text(if prefixChar == '\0' then "" else [prefixChar], b.Text(), pad, After(ap), last);
  }

  method PowerText(b: NumBuf, d: Directive, ap: seq<Arg>, pad: char, last: nat) returns (t: Text)
    requires b.Valid() && d.conv in "oxX" && pad == (if d.zero then '0' else ' ') && !Overruns(d, ap, last)
    modifies b, b.chars
    ensures b.Valid() && t == Convert(d, ap, last)
  {
    hide Digits, Precise, Unsigned, Overruns;
    var now := PowerDigits(b, d, ap, last);
    t := Text("", b.Text(), pad, After(ap), now);
  }

  /** if (prefix_char != NUL) *--s = prefix_char */
  method WithSign(b: NumBuf, t: Text, prefixChar: char) returns (text: string)
    requires b.Valid() && t.sign == (if prefixChar == '\0' then "" else [prefixChar])
    requires prefixChar != '\0' ==> b.s > 0 && b.Text() == t.body
    modifies b, b.chars
    ensures b.Valid() && text == t.sign + t.body
  {
    if prefixChar == '\0' {
      text := t.body;
    } else {
      b.Push(prefixChar);
      text := b.Text();
    }
  }

  /** Only directives of this model are reached, and none whose number overruns the
      buffer it is built in. */
  predicate Plain(host: Host, f: CString, args: seq<Arg>, last: nat)
    decreases |f|
  {
    if f == "" then true
    else if f[0] != '%' then Plain(host, f[1..], args, last)
    else
      var p := Parse(host, f[1..], args);
      p.rest != "" ==>
        && Supported(p.d.conv) && !Overruns(p.d, p.args, last)
        && var t := Convert(p.d, p.args, last); Plain(host, p.rest[1..], t.args, t.last)
  }

  /** The body of the loop of apr_vformatter. */
  method FormatStep(host: Host, sink: Sink, numBuf: NumBuf, f0: CString, ap0: seq<Arg>, last0: nat)
    returns (fails: bool, f: CString, ap: seq<Arg>, last: nat, ghost text: string)
    requires sink.Valid() && Plain(host, f0, ap0, last0) && f0 != "" && numBuf.Valid() && numBuf.chars != sink.buf
    modifies sink`curpos, sink`chunks, sink`cc, sink.buf, numBuf, numBuf.chars
    ensures numBuf.Valid() && sink.Emitted(old(sink.Out()), old(sink.cc), text, fails)
    ensures |f| < |f0| && Plain(host, f, ap, last) && Format(host, f0, ap0, last0) == text + Format(host, f, ap, last)
  {
    hide Convert, Parse, Field, Overruns, Sink.Emitted;
    fails, f, ap, last, text := false, f0, ap0, last0, "";
    if f[0] != '%' {
      text := [f[0]];
      fails := sink.InsChar(f[0]);
    } else {
      var d;
      d, f, ap := ReadDirective(host, f[1..], ap);
      sink.Nothing();
      if f == "" { return; }
      ghost var o := sink.Out();
      var t, prefixChar := ConvertArg(numBuf, d, ap, last);
      var s := WithSign(numBuf, t, prefixChar);
      assert sink.Out() == o;
      text := Field(d, t);
      fails := sink.PrintField(d, t, s, prefixChar);
      ap, last := t.args, t.last;
    }
    f := f[1..];
  }

  /** apr_vformatter */
  method VFormatter(host: Host, sink: Sink, format: CString, args: seq<Arg>) returns (fails: bool)
    requires sink.Valid() && sink.cc == 0 && Plain(host, format, args, 0)
    modifies sink`curpos, sink`chunks, sink`cc, sink.buf
    ensures sink.Emitted(old(sink.Out()), 0, Format(host, format, args, 0), fails)
  {
    hide Plain, Format, Sink.Emitted;
    var numBuf := new NumBuf();
    fails := false;
    var f, ap, last: nat := format, args, 0;
    ghost var done, o := "", sink.Out();
    sink.Nothing();
    while f != ""
      invariant numBuf.Valid() && Plain(host, f, ap, last) && sink.Emitted(o, 0, done, fails) && !fails
      invariant Format(host, format, args, 0) == done + Format(host, f, ap, last)
      decreases |f|
    {
      sink.Done(o, 0, done);
      ghost var s, n, text := sink.Out(), sink.cc, "";
      fails, f, ap, last, text := FormatStep(host, sink, numBuf, f, ap, last);
      sink.Joined(o, 0, done, s, n, text, fails);
      assert done + (text + Format(host, f, ap, last)) == done + text + Format(host, f, ap, last);
      done := done + text;
      if fails { sink.Stopped(o, 0, done, Format(host, f, ap, last)); return; }
    }
    FormatEnd(host, ap, last, done);
  }

  lemma FormatEnd(host: Host, args: seq<Arg>, last: nat, s: string)
    ensures s + Format(host, "", args, last) == s
  {
  }

  /** apr_snprintf: the beginning of the output that fits, and a NUL; the number of
      characters stored, or of all when there is no room at all, if that number is an
      int. */
  method AprSnprintf(host: Host, buf: array<char>, len: nat, format: CString, args: seq<Arg>) returns (r: CInt)
    requires len <= buf.Length && Plain(host, format, args, 0)
    modifies buf
    ensures var out := Format(host, format, args, 0);
            var n := if len == 0 || |out| < len then |out| else len - 1;
            && (r == n <==> n <= INT_MAX)
            && buf[..] == if len == 0 then old(buf[..]) else out[..n] + ['\0'] + old(buf[..])[n + 1..]
  {
    hide Format, Plain, Sink.Emitted, Flatten, ToInt;
    var vbuff := new Sink(buf, if len == 0 then 0 else len - 1, true, len == 0);
    var fails := VFormatter(host, vbuff, format, args);
    var cc := if fails then -1 else vbuff.cc;
    r := if cc == -1 then ToInt(ToInt(len) - 1) else cc;
    vbuff.Stored(Format(host, format, args, 0), fails);
    Counted(len, |Format(host, format, args, 0)|, fails, vbuff.cc);
    if len != 0 { Terminate(buf, vbuff.curpos, Format(host, format, args, 0), vbuff.before); }
  }

  /** The value returned is right where an int can be. */
  lemma Counted(len: nat, n: nat, fails: bool, cc: CInt)
    requires (fails <==> len != 0 && n >= len) && (!fails ==> cc == ToInt(n))
    ensures var r := if fails || cc == -1 then ToInt(ToInt(len) - 1) else cc;
            var m := if len == 0 || n < len then n else len - 1;
            r == m <==> m <= INT_MAX
  {
    hide ToInt;
    ToIntSum(len, -1);
    ToIntSame(len - 1);
    ToIntSame(n);
  }

  /** *vbuff.curpos = NUL */
  method Terminate(buf: array<char>, curpos: nat, ghost t: string, ghost before: seq<char>)
    requires curpos < buf.Length == |before| && curpos <= |t| && buf[..] == t[..curpos] + before[curpos..]
    modifies buf
    ensures buf[..] == t[..curpos] + ['\0'] + before[curpos + 1..]
  {
    buf[curpos] := '\0';
  }
}
