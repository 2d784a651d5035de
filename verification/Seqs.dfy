/** Facts about slices of sequences. */
module Seqs {
  lemma Cut3<T>(v: seq<T>, i: nat, m: nat, e: nat)
    requires i <= m <= e <= |v|
    ensures v[i..] == (v[i..m] + v[m..e]) + v[e..] == v[i..m] + (v[m..e] + v[e..])
  {
  }

  lemma Cut<T>(v: seq<T>, i: nat, m: nat, e: nat)
    requires i <= m <= e <= |v|
    ensures v[i..e] == v[i..m] + v[m..e]
    ensures v[i..] == v[i..m] + v[m..] && v == v[..m] + v[m..]
  {
  }

  lemma Associate<T>(x: seq<T>, y: seq<T>, z: seq<T>)
    ensures x + (y + z) == (x + y) + z
  {
  }
}
