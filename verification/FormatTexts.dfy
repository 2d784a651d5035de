/** The output of the formatter in so many characters, directive by directive. */
module FormatTexts {
  import opened CStrings
  import opened FormatSpec
  import opened FormatFacts
  import opened Machine

  /** The length modifiers of the host are empty, or begin like "l", "q" or "I64". */
  predicate Usual(host: Host) {
    && (host.off == "" || host.off[0] in "lqhI")
    && (host.int64 == "" || host.int64[0] in "lqhI")
  }

  /** A character that can only be a conversion. */
  predicate Converts(c: char) {
    0 < c as int < 256 && !IsDigit(c) && !IsFlag(c) && c !in "*.lqhI"
  }

  /** No flags, width or precision. */
  function Bare(c: char): Directive {
    Directive(false, false, false, false, false, false, 0, false, 0, Int, c)
  }

  /** Text outside of directives is copied. */
  lemma {:induction false} Copied(host: Host, text: CString, f: CString, args: seq<Arg>, last: nat)
    requires '%' !in text
    ensures Format(host, text + f, args, last) == text + Format(host, f, args, last)
  {
    hide Convert, Field, Parse;
    if text == "" {
      assert text + f == f;
    } else {
      assert (text + f)[1..] == text[1..] + f && (text + f)[0] == text[0];
      Copied(host, text[1..], f, args, last);
    }
  }

  /** A directive, and the rest of the format. */
  lemma Directed(host: Host, x: CString, c: char, f: CString, args: seq<Arg>, last: nat, d: Directive, a: seq<Arg>)
    requires 0 < c as int < 256 && Parse(host, x + [c] + f, args) == Parsed(d, [c] + f, a)
    ensures var t := Convert(d, a, last);
            Format(host, "%" + (x + [c] + f), args, last) == Field(d, t) + Format(host, f, t.args, t.last)
  {
    hide Convert, Field, Parse;
    var g: CString := "%" + (x + [c] + f);
    assert g[0] == '%' && g[1..] == x + [c] + f && ([c] + f)[1..] == f;
  }

  lemma NoModifier(host: Host, c: char, f: CString)
    requires Usual(host) && Converts(c)
    ensures Modifier(host, [c] + f) == (Int, [c] + f)
  {
  }

  lemma BareParsed(host: Host, c: char, f: CString, args: seq<Arg>)
    requires Usual(host) && Converts(c)
    ensures Parse(host, "" + [c] + f, args) == Parsed(Bare(c), [c] + f, args)
  {
    hide Modifier;
    var g: CString := [c] + f;
    assert "" + [c] + f == g && g[0] == c && g[..0] == "" && g[0..] == g;
    NoModifier(host, c, f);
  }

  /** Without a width there is no padding. */
  lemma Unpadded(d: Directive, t: Text)
    requires !d.hasWidth
    ensures Field(d, t) == t.sign + t.body
  {
  }

  // ---------- strings and characters ----------

  /** "%s" */
  lemma StringText(host: Host, s: CString, f: CString, args: seq<Arg>, last: nat)
    requires Usual(host)
    ensures Format(host, "%s" + f, [Str(s)] + args, last) == s + Format(host, f, args, last)
    ensures Format(host, "%s" + f, [NullPointer] + args, last) == "(null)" + Format(host, f, args, last)
  {
    hide Parse, Format;
    assert "%" + ("" + ['s'] + f) == "%s" + f;
    forall a: Arg | a == Str(s) || a == NullPointer
      ensures Format(host, "%s" + f, [a] + args, last) ==
              (if a == NullPointer then S_NULL else s) + Format(host, f, args, last)
    {
      BareParsed(host, 's', f, [a] + args);
      Directed(host, "", 's', f, [a] + args, last, Bare('s'), [a] + args);
      assert ([a] + args)[1..] == args;
      Unpadded(Bare('s'), Convert(Bare('s'), [a] + args, last));
    }
  }

  /** "%c" */
  lemma CharText(host: Host, n: int, f: CString, args: seq<Arg>, last: nat)
    requires Usual(host) && 0 <= n < 256
    ensures Format(host, "%c" + f, [Num(n)] + args, last) == [n as char] + Format(host, f, args, last)
  {
    hide Parse, Format;
    var a := [Num(n)] + args;
    assert "%" + ("" + ['c'] + f) == "%c" + f && a[1..] == args;
    BareParsed(host, 'c', f, a);
    Directed(host, "", 'c', f, a, last, Bare('c'), a);
    Unpadded(Bare('c'), Convert(Bare('c'), a, last));
  }

  /** "%%" */
  lemma PercentText(host: Host, f: CString, args: seq<Arg>, last: nat)
    requires Usual(host)
    ensures Format(host, "%%" + f, args, last) == "%" + Format(host, f, args, last)
  {
    hide Parse, Format;
    assert "%" + ("" + ['%'] + f) == "%%" + f;
    BareParsed(host, '%', f, args);
    Directed(host, "", '%', f, args, last, Bare('%'), args);
    Unpadded(Bare('%'), Convert(Bare('%'), args, last));
  }

  /** A conversion that there is not. */
  lemma UnknownText(host: Host, c: char, f: CString, args: seq<Arg>, last: nat)
    requires Usual(host) && Converts(c) && c !in "udioxXsc%feEgGnp"
    ensures Format(host, ['%', c] + f, args, last) == ['%', c] + Format(host, f, args, last)
  {
    hide Parse, Format;
    assert "%" + ("" + [c] + f) == ['%', c] + f;
    BareParsed(host, c, f, args);
    Directed(host, "", c, f, args, last, Bare(c), args);
    Unpadded(Bare(c), Convert(Bare(c), args, last));
  }

  /** "%.Ns" with the digits of `n` for N: at most so many characters. */
  lemma CutText(host: Host, n: nat, x: CString, s: CString, f: CString, args: seq<Arg>, last: nat)
    requires Usual(host) && n <= SIZE_MAX && x == "." + Digits(n, 10, false)
    ensures Format(host, "%" + (x + "s" + f), [Str(s)] + args, last) ==
            (if n < |s| then s[..n] else s) + Format(host, f, args, last)
  {
    hide Parse, Format, Digits;
    var d := Bare('s').(hasPrecision := true, precision := n);
    var a := [Str(s)] + args;
    CutParsed(host, n, x, 's', f, a);
    Directed(host, x, 's', f, a, last, d, a);
    assert a[1..] == args;
    Unpadded(d, Convert(d, a, last));
  }

  lemma CutParsed(host: Host, n: nat, x: CString, c: char, f: CString, args: seq<Arg>)
    requires Usual(host) && Converts(c) && n <= SIZE_MAX && x == "." + Digits(n, 10, false)
    ensures Parse(host, x + [c] + f, args) ==
            Parsed(Bare(c).(hasPrecision := true, precision := n), [c] + f, args)
  {
    hide Modifier, Digits, Precision;
    var g: CString := x + [c] + f;
    assert g[0] == '.' && g[..0] == "" && g[0..] == g && g == "." + Digits(n, 10, false) + ([c] + f);
    PrecisionRead(n, [c] + f, args);
    NoModifier(host, c, f);
  }

  // ---------- integers ----------

  ghost predicate Apart(x: int, y: int, m: nat) {
    exists q: int :: x - y == q * m
  }

  /** The numbers of this size that differ by a multiple of the modulus: with two's
      complement, and without sign. */
  lemma SizedIs(n: int, size: Size)
    ensures var m := Modulus(size);
            && -(m / 2) <= Signed(n, m) < m / 2 && Apart(Signed(n, m), n, m)
            && 0 <= Unsigned(n, m) < m && Apart(Unsigned(n, m), n, m)
    ensures var m := Modulus(size);
            && (-(m / 2) <= n < m / 2 ==> Signed(n, m) == n)
            && (0 <= n < m ==> Unsigned(n, m) == n)
  {
    var m := Modulus(size);
    var q := n / m;
    assert n == q * m + n % m;
    assert Unsigned(n, m) - n == (-q) * m;
    assert (-q - 1) * m == (-q) * m - m;
    assert Signed(n, m) - n == (if n % m < m / 2 then -q else -q - 1) * m;
  }

  /** The text of an integer: a minus sign, or what there is for other numbers, and the
      digits. */
  function Signs(plus: string, n: int): string {
    (if n < 0 then "-" else plus) + Digits(Abs(n), 10, false)
  }

  /** "%d", "%+d" and "% d", and the same with "i" */
  lemma IntegerText(host: Host, flag: string, c: char, g: CString, n: int, f: CString, args: seq<Arg>, last: nat)
    requires Usual(host) && -0x8000_0000 <= n < 0x8000_0000
    requires flag in {"", "+", " "} && c in "di" && g == "%" + flag + [c] + f
    ensures Format(host, g, [Num(n)] + args, last) == Signs(flag, n) + Format(host, f, args, last)
  {
    hide Parse, Format, Digits, Convert, Signs;
    var a := [Num(n)] + args;
    var d := Bare(c).(plus := flag == "+", space := flag == " ");
    if flag == "" { BareParsed(host, c, f, a); } else { FlagParsed(host, flag[0], c, f, a); }
    var x: CString := flag;
    assert x == "" || x == [flag[0]];
    assert g == "%" + (x + [c] + f);
    Directed(host, x, c, f, a, last, d, a);
    IntegerIs(d, flag, n, args, last);
  }

  lemma IntegerIs(d: Directive, plus: string, n: int, args: seq<Arg>, last: nat)
    requires -0x8000_0000 <= n < 0x8000_0000 && d.conv in "di" && d.size == Int && !d.hasWidth && !d.hasPrecision
    requires plus == if d.plus then "+" else if d.space then " " else ""
    ensures var t := Convert(d, [Num(n)] + args, last);
            Field(d, t) == Signs(plus, n) && t.args == args && t.last == last
  {
    hide Digits, Signed;
    SizedIs(n, Int);
    assert ([Num(n)] + args)[1..] == args;
  }

  lemma FlagParsed(host: Host, flag: char, c: char, f: CString, args: seq<Arg>)
    requires Usual(host) && Converts(c) && flag in "-+ #0"
    ensures Parse(host, [flag] + [c] + f, args) ==
            Parsed(Bare(c).(left := flag == '-', plus := flag == '+', space := flag == ' ', alt := flag == '#',
                            zero := flag == '0'), [c] + f, args)
  {
    hide Modifier;
    var g, h: CString := [flag] + [c] + f, [c] + f;
    assert g[0] == flag && g[1..] == h && h[0] == c;
    assert Span(h, true) == 0 && Span(g, true) == 1 && g[..1] == [flag];
    NoModifier(host, c, f);
    assert Width(h, args) == Amount(false, 0, h, args) && Precision(h, args) == Amount(false, 0, h, args);
  }

  /** "%u", "%o", "%x" and "%X": the digits of the number. */
  lemma UnsignedText(host: Host, c: char, n: nat, f: CString, args: seq<Arg>, last: nat)
    requires Usual(host) && n < 0x1_0000_0000 && c in "uoxX"
    ensures Format(host, ['%', c] + f, [Num(n)] + args, last) ==
            Digits(n, if c == 'u' then 10 else if c == 'o' then 8 else 16, c == 'X')
              + Format(host, f, args, if c == 'u' then last else n)
  {
    hide Parse, Format, Digits;
    var a := [Num(n)] + args;
    assert a[1..] == args && "%" + ("" + [c] + f) == ['%', c] + f;
    BareParsed(host, c, f, a);
    Directed(host, "", c, f, a, last, Bare(c), a);
    Unpadded(Bare(c), Convert(Bare(c), a, last));
    SizedIs(n, Int);
  }

  /** "%#o", "%#x" and "%#X": with a prefix, but for 0. */
  lemma PrefixText(host: Host, c: char, n: nat, f: CString, args: seq<Arg>, last: nat)
    requires Usual(host) && n < 0x1_0000_0000 && c in "oxX"
    ensures Format(host, "%" + ("#" + [c] + f), [Num(n)] + args, last) ==
            (if n == 0 then "" else if c == 'o' then "0" else ['0', c])
              + Digits(n, if c == 'o' then 8 else 16, c == 'X') + Format(host, f, args, n)
  {
    hide Parse, Format, Digits;
    var a := [Num(n)] + args;
    var d := Bare(c).(alt := true);
    assert a[1..] == args && ['#'] == "#";
    FlagParsed(host, '#', c, f, a);
    Directed(host, "#", c, f, a, last, d, a);
    Unpadded(d, Convert(d, a, last));
    SizedIs(n, Int);
    DigitsDenote(n, if c == 'o' then 8 else 16, c == 'X');
  }

  /** "%.Nd" with the digits of `k` for N: at least so many digits, up to 511. */
  lemma PreciseText(host: Host, k: nat, x: CString, n: int, f: CString, args: seq<Arg>, last: nat)
    requires Usual(host) && -0x8000_0000 <= n < 0x8000_0000 && k < SIZE_MAX && x == "." + Digits(k, 10, false)
    ensures var s, most := Digits(Abs(n), 10, false), if k < 511 then k else 511;
            Format(host, "%" + (x + "d" + f), [Num(n)] + args, last) ==
              (if n < 0 then "-" else "") + (if |s| < most then seq(most - |s|, _ => '0') else "") + s
                + Format(host, f, args, last)
  {
    hide Parse, Format, Digits, Convert;
    var d := Bare('d').(hasPrecision := true, precision := k);
    var a := [Num(n)] + args;
    CutParsed(host, k, x, 'd', f, a);
    Directed(host, x, 'd', f, a, last, d, a);
    assert a[1..] == args;
    ZerosInFront(d, n, args, last);
  }

  lemma ZerosInFront(d: Directive, n: int, args: seq<Arg>, last: nat)
    requires -0x8000_0000 <= n < 0x8000_0000 && d.precision < SIZE_MAX
    requires d == Bare('d').(hasPrecision := true, precision := d.precision)
    ensures var s, most := Digits(Abs(n), 10, false), if d.precision < 511 then d.precision else 511;
            var t := Convert(d, [Num(n)] + args, last);
            && t.args == args && t.last == last
            && Field(d, t) ==
               (if n < 0 then "-" else "") + (if |s| < most then seq(most - |s|, _ => '0') else "") + s
  {
    hide Digits, Signed, Places;
    SizedIs(n, Int);
    PlacesAre(d);
    assert ([Num(n)] + args)[1..] == args;
    var gap := Places(d) - |Digits(Abs(n), 10, false)|;
    if gap > 0 { assert Fill('0', gap) == seq(gap, _ => '0'); }
  }

  /** "%hd", "%ld" and "%qd", where these letters are not part of a modifier of the host:
      the argument as a number of 16, of 32 or of 64 bits. */
  lemma SizedText(host: Host, k: char, n: int, f: CString, args: seq<Arg>, last: nat)
    requires Usual(host) && k in "hlq"
    requires (host.off == "" || host.off[0] != k) && (host.int64 == "" || host.int64[0] != k)
    ensures Format(host, "%" + ([k] + "d" + f), [Num(n)] + args, last) ==
            Signs("", Signed(n, if k == 'h' then 0x1_0000 else if k == 'l' then 0x1_0000_0000
                             else 0x1_0000_0000_0000_0000)) + Format(host, f, args, last)
  {
    hide Format, Digits, Convert, Signed;
    var d := Bare('d').(size := if k == 'h' then Short else if k == 'l' then Long else Quad);
    var a := [Num(n)] + args;
    var g: CString := [k] + ['d'] + f;
    assert g[0] == k && g[1..] == ['d'] + f && ['d'] == "d";
    Directed(host, [k], 'd', f, a, last, d, a);
    SizedInteger(d, n, args, last);
  }

  lemma SizedInteger(d: Directive, n: int, args: seq<Arg>, last: nat)
    requires d == Bare('d').(size := d.size)
    ensures var t := Convert(d, [Num(n)] + args, last);
            Field(d, t) == Signs("", Signed(n, Modulus(d.size))) && t.args == args && t.last == last
  {
    hide Digits, Signed;
    assert ([Num(n)] + args)[1..] == args;
  }

  // ---------- fields ----------

  /** "%Nd", "%-Nd" and "%0Nd" with the digits of `w` for N: spaces before the number or
      behind it, or zeros after its sign. */
  lemma FieldText(host: Host, flag: string, w: SizeT, g: CString, n: int, f: CString, args: seq<Arg>, last: nat)
    requires Usual(host) && -0x8000_0000 <= n < 0x8000_0000 && w > 0
    requires flag in {"", "-", "0"} && g == "%" + flag + Digits(w, 10, false) + "d" + f
    ensures var s, sign := Digits(Abs(n), 10, false), if n < 0 then "-" else "";
            var gap := w - |sign + s|;
            Format(host, g, [Num(n)] + args, last) ==
              (if gap <= 0 then sign + s
               else if flag == "-" then sign + s + seq(gap, _ => ' ')
               else if flag == "0" then sign + seq(gap, _ => '0') + s
               else seq(gap, _ => ' ') + (sign + s)) + Format(host, f, args, last)
  {
    hide Parse, Format, Digits, Convert, Field;
    DigitsDenote(w, 10, false);
    DigitChars(Digits(w, 10, false));
    var d := Bare('d').(hasWidth := true, width := w, left := flag == "-", zero := flag == "0");
    var x: CString := flag + Digits(w, 10, false);
    var a := [Num(n)] + args;
    assert g == "%" + (x + ['d'] + f);
    FieldParsed(host, flag, w, Digits(w, 10, false), x + ['d'] + f, 'd', f, a);
    Directed(host, x, 'd', f, a, last, d, a);
    Padded(d, n, args, last);
  }

  lemma FieldParsed(host: Host, flag: string, w: SizeT, s: CString, g: CString, c: char, f: CString, args: seq<Arg>)
    requires Usual(host) && Converts(c) && w > 0 && s == Digits(w, 10, false)
    requires flag in {"", "-", "0"} && g == flag + s + [c] + f
    ensures Parse(host, g, args) ==
            Parsed(Bare(c).(hasWidth := true, width := w, left := flag == "-", zero := flag == "0"), [c] + f, args)
  {
    hide Modifier, Digits, Number, AllDigits, Value, Width, Span, Precision, Parse;
    DigitsDenote(w, 10, false);
    DigitChars(s);
    var r: CString := [c] + f;
    FlagAndNumber(flag, s, r, g);
    WidthRead(w, s, r, args);
    NoPrecision(r, args);
    NoModifier(host, c, f);
    ParsedAs(host, g, |flag|, w, r, args);
  }

  lemma FlagAndNumber(flag: string, s: CString, r: CString, g: CString)
    requires flag in {"", "-", "0"} && s != "" && IsDigit(s[0]) && s[0] != '0' && g == flag + s + r
    ensures Span(g, true) == |flag| && g[..|flag|] == flag && g[|flag|..] == s + r && !IsLower(g[0])
  {
    assert g == flag + (s + r) && (s + r)[0] == s[0];
    OneFlag(flag, s + r);
  }

  lemma NoPrecision(r: CString, args: seq<Arg>)
    requires r != "" && r[0] != '.'
    ensures Precision(r, args) == Amount(false, 0, r, args)
  {
  }

  lemma ParsedAs(host: Host, g: CString, k: nat, w: SizeT, r: CString, args: seq<Arg>)
    requires g != "" && !IsLower(g[0]) && Span(g, true) == k && Width(g[k..], args) == Amount(true, w, r, args)
    requires Precision(r, args) == Amount(false, 0, r, args) && Modifier(host, r) == (Int, r) && r != ""
    ensures var flags := g[..k];
            Parse(host, g, args) ==
              Parsed(Bare(r[0]).(hasWidth := true, width := w, left := '-' in flags, plus := '+' in flags,
                                 space := ' ' in flags, alt := '#' in flags, zero := '0' in flags), r, args)
  {
    hide Modifier, Width, Span, Precision;
  }

  lemma OneFlag(flag: string, h: CString)
    requires flag in {"", "-", "0"} && h != "" && !IsFlag(h[0])
    ensures var g: CString := flag + h;
            Span(g, true) == |flag| && g[..|flag|] == flag && g[|flag|..] == h && (flag != "" ==> g[0] == flag[0])
  {
    var g: CString := flag + h;
    assert Span(h, true) == 0;
    assert flag != "" ==> g[0] == flag[0] && g[1..] == h;
  }

  lemma WidthRead(w: SizeT, s: CString, r: CString, args: seq<Arg>)
    requires s == Digits(w, 10, false) && (r == "" || !IsDigit(r[0]))
    ensures Width(s + r, args) == Amount(true, w, r, args)
  {
    hide Digits, Number, AllDigits, Value, Span;
    DigitsDenote(w, 10, false);
    DigitChars(s);
    SpanOver(s, r);
    NumberIsValue(s);
    var h: CString := s + r;
    assert h[..|s|] == s && h[|s|..] == r && h[0] == s[0];
  }

  lemma Padded(d: Directive, n: int, args: seq<Arg>, last: nat)
    requires -0x8000_0000 <= n < 0x8000_0000
    requires d == Bare('d').(hasWidth := true, width := d.width, left := d.left, zero := d.zero) && !(d.left && d.zero)
    ensures var t := Convert(d, [Num(n)] + args, last);
            var s, sign := Digits(Abs(n), 10, false), if n < 0 then "-" else "";
            var gap := d.width - |sign + s|;
            && t.args == args && t.last == last
            && Field(d, t) ==
               if gap <= 0 then sign + s
               else if d.left then sign + s + seq(gap, _ => ' ')
               else if d.zero then sign + seq(gap, _ => '0') + s
               else seq(gap, _ => ' ') + (sign + s)
  {
    hide Digits, Signed;
    SizedIs(n, Int);
    assert ([Num(n)] + args)[1..] == args;
    var t := Convert(d, [Num(n)] + args, last);
    var gap := d.width - |t.sign + t.body|;
    if gap > 0 {
      assert Fill(' ', gap) == seq(gap, _ => ' ') && Fill('0', gap) == seq(gap, _ => '0');
      assert t.sign == "" ==> t.sign + Fill('0', gap) + t.body == Fill('0', gap) + (t.sign + t.body);
    }
  }
}
