/** The integers of the host. */
module Machine {
  type Limit = n: nat | n >= 0xffff_ffff witness 0xffff_ffff

  /** The greatest apr_size_t. */
  const SIZE_MAX: Limit

  type SizeT = n: nat | n <= SIZE_MAX

  const INT_MAX := 0x7fff_ffff

  type CInt = n: int | -INT_MAX - 1 <= n <= INT_MAX

  /** Unsigned arithmetic is modulo SIZE_MAX + 1. */
  function ToSize(n: int): SizeT {
    n % (SIZE_MAX + 1)
  }

  /** The overflow of an int, which C leaves undefined, wraps around here. */
  function ToInt(n: int): CInt {
    (n + INT_MAX + 1) % 0x1_0000_0000 - INT_MAX - 1
  }

  lemma ToIntSame(n: int)
    ensures ToInt(n) == n <==> -INT_MAX - 1 <= n <= INT_MAX
  {
  }

  lemma ToIntSum(n: int, k: int)
    ensures ToInt(ToInt(n) + k) == ToInt(n + k)
  {
    var m := n + INT_MAX + 1;
    assert m == m / 0x1_0000_0000 * 0x1_0000_0000 + m % 0x1_0000_0000;
    Shifted(m % 0x1_0000_0000 + k, m / 0x1_0000_0000, 0x1_0000_0000);
  }

  lemma ToSizeStep(n: nat, d: nat)
    ensures ToSize(ToSize(ToSize(n) * 10) + d) == ToSize(n * 10 + d)
  {
    hide ToSize;
    var q := Turns(n);
    var p := Turns(ToSize(n) * 10);
    StepOf(n, d, q, ToSize(n), p, ToSize(ToSize(n) * 10));
  }

  lemma Turns(n: int) returns (q: int)
    ensures n == q * (SIZE_MAX + 1) + ToSize(n)
  {
    q := n / (SIZE_MAX + 1);
    Quotient(n, SIZE_MAX + 1);
  }

  lemma StepOf(n: int, d: int, q: int, r: int, p: int, s: int)
    requires n == q * (SIZE_MAX + 1) + r && r * 10 == p * (SIZE_MAX + 1) + s
    ensures ToSize(s + d) == ToSize(n * 10 + d)
  {
    var m := SIZE_MAX + 1;
    Together(q, p, m);
    Shifted(s + d, q * 10 + p, m);
  }

  lemma Together(q: int, p: int, m: nat)
    ensures (q * 10 + p) * m == q * m * 10 + p * m
  {
  }

  lemma Quotient(n: int, m: nat)
    requires m > 0
    ensures n == n / m * m + n % m
  {
  }

  lemma Shifted(n: int, q: int, m: nat)
    requires m > 0
    ensures (n + q * m) % m == n % m
  {
    var k := n / m;
    assert n + q * m == (k + q) * m + n % m;
    Remainder(n + q * m, k + q, n % m, m);
  }

  lemma Remainder(n: int, q: int, r: int, m: nat)
    requires 0 <= r < m && n == q * m + r
    ensures n % m == r
  {
    var d := n / m - q;
    assert d * m == r - n % m;
    Times(d, m);
  }

  lemma Times(d: int, m: nat)
    ensures d >= 1 ==> d * m >= m
    ensures d <= -1 ==> d * m <= 0 - m
  {
  }
}
