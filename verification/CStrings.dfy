/** NUL-terminated byte strings of the C sources, in the POSIX/C single-byte locale.

A C string is the sequence of its bytes without the terminator; reading at the
length yields the terminator. */
module CStrings {

  type CString = s: string | forall i :: 0 <= i < |s| ==> 0 < s[i] as int < 256 witness ""

  /** The byte read through a pointer `i` bytes into `s`. */
  function At(s: CString, i: nat): char {
    if i < |s| then s[i] else '\0'
  }

  /** Whether plain char is signed depends on the host. */
  const CHAR_IS_SIGNED: bool

  /** The value of a plain char. */
  function Code(c: char): int {
    if CHAR_IS_SIGNED && c as int >= 128 then c as int - 256 else c as int
  }

  predicate IsUpper(c: char) { 'A' <= c <= 'Z' }

  function Lower(c: char): char {
    if IsUpper(c) then (c as int + 32) as char else c
  }

  const CAPITALS := "ABCDEFGHIJKLMNOPQRSTUVWXYZ"
  const SMALL := "abcdefghijklmnopqrstuvwxyz"

  /** The letter number `k`, capital or small. */
  predicate IsLetter(c: char, k: nat)
    requires k < 26
  {
    c == CAPITALS[k] || c == SMALL[k]
  }

  /** The same character, or the same letter. */
  predicate SameLetter(a: char, b: char) {
    a == b || exists k: nat :: k < 26 && IsLetter(a, k) && IsLetter(b, k)
  }

  lemma LowerIs(a: char)
    ensures forall k: nat :: k < 26 ==> Lower(CAPITALS[k]) == SMALL[k] == Lower(SMALL[k])
    ensures a !in CAPITALS ==> Lower(a) == a
  {
    Letters();
    if IsUpper(a) { assert CAPITALS[a as int - 65] == a; }
  }

  lemma Letters()
    ensures forall k: nat :: k < 26 ==> CAPITALS[k] as int == 65 + k && SMALL[k] as int == 97 + k
  {
  }

  lemma LowerSame(a: char, b: char)
    ensures Lower(a) == Lower(b) <==> SameLetter(a, b)
  {
    Letters();
    if Lower(a) == Lower(b) && a != b {
      var k := Lower(a) as int - 97;
      assert IsLetter(a, k) && IsLetter(b, k);
    }
  }
}
