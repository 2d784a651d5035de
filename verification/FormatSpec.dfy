/** apr_snprintf.c: the text that a format and its arguments stand for, without any limit
of length. Floating point, %n and the %p extensions are not part of this model. */
module FormatSpec {
  import opened CStrings
  import opened Machine

  const NUM_BUF_SIZE := 512
  const S_NULL := "(null)"

  /** The length modifiers in APR_OFF_T_FMT and APR_INT64_T_FMT: empty, or such as "l". */
  datatype Host = Host(off: CString, int64: CString)

  /** What va_arg finds. A number is taken as the type the directive asks for. */
  datatype Arg = Num(n: int) | Str(s: CString) | NullPointer

  datatype Size = Quad | Long | Short | Int

  datatype Directive = Directive(
    left: bool, plus: bool, space: bool, alt: bool, zero: bool,
    hasWidth: bool, width: SizeT, hasPrecision: bool, precision: SizeT,
    size: Size, conv: char)

  // ---------- arguments ----------

  /** The next argument as a number. A missing one, or one of another type, is undefined
      in C; it is nothing here. */
  function NextNum(args: seq<Arg>): int {
    if args != [] && args[0].Num? then args[0].n else 0
  }

  function NextStr(args: seq<Arg>): Arg {
    if args != [] && args[0].Str? then args[0] else NullPointer
  }

  function After(args: seq<Arg>): seq<Arg> {
    if args == [] then [] else args[1..]
  }

  function Modulus(size: Size): nat {
    match size
    case Quad => 0x1_0000_0000_0000_0000
    case Short => 0x1_0000
    case _ => 0x1_0000_0000
  }

  function Unsigned(n: int, m: nat): nat
    requires m > 0
  {
    n % m
  }

  /** Two's complement. */
  function Signed(n: int, m: nat): int
    requires m > 0
  {
    if n % m < m / 2 then n % m else n % m - m
  }

  // ---------- directives ----------

  predicate IsDigit(c: char) { '0' <= c <= '9' }
  predicate IsFlag(c: char) { c in "-+# 0" }
  predicate IsLower(c: char) { 'a' <= c <= 'z' }

  /** How many digits, or flags, `f` begins with. */
  function Span(f: CString, flags: bool): (k: nat)
    ensures k <= |f|
  {
    if f != "" && (if flags then IsFlag(f[0]) else IsDigit(f[0])) then 1 + Span(f[1..], flags) else 0
  }

  /** A decimal number. */
  function Number(digits: string): nat
    requires forall i :: 0 <= i < |digits| ==> IsDigit(digits[i])
  {
    if digits == "" then 0
    else
      var n := |digits| - 1;
      assert IsDigit(digits[n]);
      Number(digits[..n]) * 10 + (digits[n] as int - '0' as int)
  }

  /** A number in the format, an argument in its place, or none. */
  datatype Amount = Amount(given: bool, value: int, rest: CString, args: seq<Arg>)

  lemma {:induction false} SpanIsDigits(f: CString)
    ensures forall i :: 0 <= i < Span(f, false) ==> IsDigit(f[i])
    ensures Span(f, false) < |f| ==> !IsDigit(f[Span(f, false)])
  {
    if f == "" || !IsDigit(f[0]) {
    } else {
      SpanIsDigits(f[1..]);
      forall i | 0 <= i < Span(f, false) ensures IsDigit(f[i]) { assert i > 0 ==> f[i] == f[1..][i - 1]; }
    }
  }

  function Width(f: CString, args: seq<Arg>): (a: Amount)
    ensures |a.rest| <= |f| && a.value <= SIZE_MAX
  {
    if IsDigit(At(f, 0)) then
      SpanIsDigits(f);
      var k := Span(f, false);
      Amount(true, ToSize(Number(f[..k])), f[k..], args)
    else if At(f, 0) == '*' then
      Amount(true, Signed(NextNum(args), Modulus(Int)), f[1..], After(args))
    else
      Amount(false, 0, f, args)
  }

  function Precision(f: CString, args: seq<Arg>): (a: Amount)
    ensures |a.rest| <= |f| && 0 <= a.value <= SIZE_MAX
  {
    if At(f, 0) != '.' then Amount(false, 0, f, args)
    else
      var a := Width(f[1..], args);
      a.(given := true, value := if a.value < 0 then 0 else a.value)
  }

  predicate Begins(f: CString, prefix: CString) {
    prefix != "" && prefix <= f
  }

  function Modifier(host: Host, f: CString): (m: (Size, CString))
    ensures |m.1| <= |f|
  {
    if |host.off| > |host.int64| && Begins(f, host.off) then (Quad, f[|host.off|..])
    else if Begins(f, host.int64) then (Quad, f[|host.int64|..])
    else if At(f, 0) == 'q' then (Quad, f[1..])
    else if At(f, 0) == 'l' then (Long, f[1..])
    else if At(f, 0) == 'h' then (Short, f[1..])
    else (Int, f)
  }

  /** The width that a value means: (apr_size_t)(-v) for a negative one. */
  function Magnitude(v: int): SizeT
    requires v <= SIZE_MAX
  {
    if v < 0 then ToSize(ToInt(-v)) else v
  }

  datatype Parsed = Parsed(d: Directive, rest: CString, args: seq<Arg>)

  /** What follows a percent sign: flags, width and precision, unless the first character
      is a lower-case letter; then a length modifier, and the conversion. */
  function Parse(host: Host, f: CString, args: seq<Arg>): (p: Parsed)
    ensures |p.rest| <= |f|
  {
    if IsLower(At(f, 0)) then
      var (size, rest) := Modifier(host, f);
      Parsed(Directive(false, false, false, false, false, false, 0, false, 0, size, At(rest, 0)), rest, args)
    else
      var k := Span(f, true);
      var flags := f[..k];
      var w := Width(f[k..], args);
      var p := Precision(w.rest, w.args);
      var (size, rest) := Modifier(host, p.rest);
      Parsed(
        Directive('-' in flags || w.value < 0, '+' in flags, ' ' in flags, '#' in flags, '0' in flags,
                  w.given, Magnitude(w.value), p.given, p.value, size, At(rest, 0)),
        rest, p.args)
  }

  // ---------- conversions ----------

  function Fill(c: char, n: int): (s: string)
    ensures |s| == if n < 0 then 0 else n
    ensures forall i :: 0 <= i < |s| ==> s[i] == c
  {
    if n <= 0 then "" else [c] + Fill(c, n - 1)
  }

  function Digit(d: nat, upper: bool): char
    requires d < 16
  {
    if d < 10 then ('0' as int + d) as char else ((if upper then 'A' else 'a') as int + d - 10) as char
  }

  /** A number in some base, without leading zeros. */
  function Digits(n: nat, base: nat, upper: bool): (s: string)
    requires base == 8 || base == 10 || base == 16
    ensures |s| > 0
  {
    if n < base then [Digit(n, upper)] else Digits(n / base, base, upper) + [Digit(n % base, upper)]
  }

  /** How many digits the precision asks for: fewer than the buffer holds, but for the
      greatest precision, of which the sum with 1 is 0. */
  function Places(d: Directive): SizeT {
    if ToSize(d.precision + 1) < NUM_BUF_SIZE then d.precision else NUM_BUF_SIZE - 1
  }

  lemma PlacesAre(d: Directive)
    ensures Places(d) ==
      if d.precision == SIZE_MAX then SIZE_MAX
      else if d.precision < NUM_BUF_SIZE - 1 then d.precision
      else NUM_BUF_SIZE - 1
  {
  }

  /** At least as many digits as the precision says, up to the size of a buffer. */
  function Precise(d: Directive, s: string): (t: string)
    ensures |t| >= |s|
  {
    if d.hasPrecision then Fill('0', Places(d) - |s|) + s
    else s
  }

  /** The sign, and what follows it; the character to pad with; the arguments left; and
      the last number converted as hexadecimal or octal but for quads. */
  datatype Text = Text(sign: string, body: string, pad: char, args: seq<Arg>, last: nat)

  function Abs(n: int): nat { if n < 0 then -n else n }

  function Sign(d: Directive, n: int): string {
    if n < 0 then "-" else if d.plus then "+" else if d.space then " " else ""
  }

  /** How much of a string is printed. */
  function Shown(d: Directive, s: CString): string {
    if d.hasPrecision && d.precision < |s| then s[..d.precision] else s
  }

  predicate Supported(conv: char) {
    conv !in "feEgGnp"
  }

  function Convert(d: Directive, args: seq<Arg>, last: nat): Text {
    var pad := if d.zero then '0' else ' ';
    var m := Modulus(d.size);
    match d.conv
    case 'u' => Text("", Precise(d, Digits(Unsigned(NextNum(args), m), 10, false)), pad, After(args), last)
    case 'd' => Integer(d, Signed(NextNum(args), m), pad, After(args), last)
    case 'i' => Integer(d, Signed(NextNum(args), m), pad, After(args), last)
    case 'o' =>
      var n := Unsigned(NextNum(args), m);
      var s := Precise(d, Digits(n, 8, false));
      Text("", if d.alt && s[0] != '0' then "0" + s else s, pad, After(args), if d.size == Quad then last else n)
    case 'x' => Hex(d, Unsigned(NextNum(args), m), pad, After(args), last)
    case 'X' => Hex(d, Unsigned(NextNum(args), m), pad, After(args), last)
    case 's' => Text("", if NextStr(args).Str? then Shown(d, NextStr(args).s) else S_NULL, ' ', After(args), last)
    case 'c' => Text("", [Unsigned(NextNum(args), 256) as char], ' ', After(args), last)
    case '%' => Text("", "%", ' ', args, last)
    case _ => Text("", ['%', d.conv], ' ', args, last)
  }

  function Integer(d: Directive, n: int, pad: char, args: seq<Arg>, last: nat): Text {
    Text(Sign(d, n), Precise(d, Digits(Abs(n), 10, false)), pad, args, last)
  }

  /** The prefix depends on the last number that was not a quad. */
  function Hex(d: Directive, n: nat, pad: char, args: seq<Arg>, last: nat): Text {
    var s, now := Precise(d, Digits(n, 16, d.conv == 'X')), if d.size == Quad then last else n;
    Text("", if d.alt && now != 0 then ['0', d.conv] + s else s, pad, args, now)
  }

  /** A number that is longer than the buffer it is built in: one with the greatest
      precision; or the alternate form with a precision of 511 and more, of a number other
      than 0 as far as the prefix is concerned. */
  predicate Overruns(d: Directive, args: seq<Arg>, last: nat) {
    Endless(d)
    || (d.conv in "xX" && d.alt && d.hasPrecision && d.precision >= NUM_BUF_SIZE - 1
        && (if d.size == Quad then last else Unsigned(NextNum(args), Modulus(d.size))) != 0)
  }

  predicate Endless(d: Directive) {
    d.conv in "udioxX" && d.hasPrecision && d.precision == SIZE_MAX
  }

  /** The text in a field of the given width. */
  function Field(d: Directive, t: Text): string {
    var s, gap := t.sign + t.body, d.width - |t.sign + t.body|;
    if !d.hasWidth || gap <= 0 then s
    else if d.left then s + Fill(t.pad, gap)
    else if t.pad == '0' && t.sign != "" then t.sign + Fill('0', gap) + t.body
    else Fill(t.pad, gap) + s
  }

  /** The whole output. */
  function Format(host: Host, f: CString, args: seq<Arg>, last: nat): string
    decreases |f|
  {
    if f == "" then ""
    else if f[0] != '%' then [f[0]] + Format(host, f[1..], args, last)
    else
      var p := Parse(host, f[1..], args);
      if p.rest == "" then ""
      else
        var t := Convert(p.d, p.args, last);
        Field(p.d, t) + Format(host, p.rest[1..], t.args, t.last)
  }
}
