/** The list of pairs an apr_table_t stands for, and what its operations do to it. */
module TableSpec {
  import opened CStrings

  /** An element of the table's array; a Hole is one whose key was set to NULL. */
  datatype Elt = Elt(key: CString, val: CString, checksum: nat) | Hole

  type Pair = e: Elt | e.Elt? witness Elt("", "", 0)

  // ---------- keys ----------

  /** strcasecmp(a, b) == 0 */
  predicate CaseEq(a: CString, b: CString) {
    |a| == |b| && forall i :: 0 <= i < |a| ==> Lower(a[i]) == Lower(b[i])
  }

  /** TABLE_HASH: the first byte (the terminator for the empty key) & 0x1f */
  function Hash(key: CString): (h: nat)
    ensures h < 32
  {
    At(key, 0) as int % 32
  }

  /** One byte & 0xdf */
  function Fold(c: char): int {
    if (c as int / 32) % 2 == 1 then c as int - 32 else c as int
  }

  /** Byte `j` of the checksum: the extended sign of a negative char fills the bytes
      before it. */
  function Packed(key: CString, j: nat): int {
    if exists i: nat :: j < i < 4 && Code(At(key, i)) < 0 then 0xdf else Fold(At(key, j))
  }

  /** COMPUTE_KEY_CHECKSUM: the first four bytes, bit 0x20 cleared, packed. */
  function Checksum(key: CString): nat {
    ((Packed(key, 0) * 256 + Packed(key, 1)) * 256 + Packed(key, 2)) * 256 + Packed(key, 3)
  }

  /** Case-equal keys share their slot and their checksum, so neither shortcut
      ever skips an equal key. */
  lemma CaseEqKeysShareIndex(a: CString, b: CString)
    requires CaseEq(a, b)
    ensures Hash(a) == Hash(b) && Checksum(a) == Checksum(b)
  {
    forall i: nat | i < 4 ensures Fold(At(a, i)) == Fold(At(b, i)) && (Code(At(a, i)) < 0 <==> Code(At(b, i)) < 0) {
      if i < |a| { assert Lower(a[i]) == Lower(b[i]); }
    }
    if |a| > 0 { assert Lower(a[0]) == Lower(b[0]); }
    hide Fold, Code;
    forall j: nat | j < 4 ensures Packed(a, j) == Packed(b, j) { }
  }

  lemma CaseEqTransitive(a: CString, b: CString, c: CString)
    requires CaseEq(a, b) && CaseEq(b, c)
    ensures CaseEq(a, c) && CaseEq(c, a)
  {
    forall i | 0 <= i < |a| ensures Lower(a[i]) == Lower(c[i]) {
      assert Lower(a[i]) == Lower(b[i]);
    }
  }

  // ---------- operations on the list ----------

  function New(key: CString, val: CString): Pair {
    Elt(key, val, Checksum(key))
  }

  /** The first value whose key is case-equal to `key`. */
  datatype Found = NotFound | Found(val: CString)

  function Get(es: seq<Pair>, key: CString): Found {
    if es == [] then NotFound
    else if CaseEq(es[0].key, key) then Found(es[0].val)
    else Get(es[1..], key)
  }

  predicate Has(es: seq<Pair>, key: CString) {
    exists i :: 0 <= i < |es| && CaseEq(es[i].key, key)
  }

  /** All pairs but those with a key case-equal to `key`, in order. */
  function Without(es: seq<Pair>, key: CString): (r: seq<Pair>)
    ensures |r| <= |es|
  {
    if es == [] then []
    else if CaseEq(es[0].key, key) then Without(es[1..], key)
    else [es[0]] + Without(es[1..], key)
  }

  /** The first case-equal pair keeps its place and its key and takes the value,
      later ones go; a new pair goes to the end. */
  function Set(es: seq<Pair>, key: CString, val: CString): seq<Pair> {
    if es == [] then [New(key, val)]
    else if CaseEq(es[0].key, key) then [es[0].(val := val)] + Without(es[1..], key)
    else [es[0]] + Set(es[1..], key, val)
  }

  /** The first case-equal pair has the value added to its own. */
  function Merge(es: seq<Pair>, key: CString, val: CString): seq<Pair> {
    if es == [] then [New(key, val)]
    else if CaseEq(es[0].key, key) then [es[0].(val := Join(es[0].val, val))] + es[1..]
    else [es[0]] + Merge(es[1..], key, val)
  }

  function Join(a: CString, b: CString): CString {
    var r: string := a + ", " + b;
    assert r[|a|] == ',' && r[|a| + 1] == ' ';
    r
  }

  /** Setting (or merging) the pairs of `b` into `a` one after the other. */
  function Loop(a: seq<Pair>, b: seq<Pair>, merge: bool): seq<Pair>
    decreases |b|
  {
    if b == [] then a
    else Loop(Put(a, b[0], merge), b[1..], merge)
  }

  function Put(a: seq<Pair>, e: Pair, merge: bool): seq<Pair> {
    if merge then Merge(a, e.key, e.val) else Set(a, e.key, e.val)
  }

  // ---------- laws of the operations ----------

  lemma {:induction false} GetAppend(a: seq<Pair>, b: seq<Pair>, key: CString)
    ensures Get(a + b, key) == if Has(a, key) then Get(a, key) else Get(b, key)
    ensures Get(a, key).Found? <==> Has(a, key)
  {
    if a == [] {
      assert a + b == b;
    } else {
      assert (a + b)[1..] == a[1..] + b;
      GetAppend(a[1..], b, key);
      if CaseEq(a[0].key, key) {
        assert Has(a, key);
      } else if Has(a, key) {
        var i :| 0 <= i < |a| && CaseEq(a[i].key, key);
        assert a[1..][i - 1] == a[i];
      }
    }
  }

  lemma {:induction false} WithoutAppend(a: seq<Pair>, b: seq<Pair>, key: CString)
    ensures Without(a + b, key) == Without(a, key) + Without(b, key)
  {
    if a == [] {
      assert a + b == b;
    } else {
      assert (a + b)[1..] == a[1..] + b;
      WithoutAppend(a[1..], b, key);
    }
  }

  lemma {:induction false} WithoutAbsent(es: seq<Pair>, key: CString)
    requires !Has(es, key)
    ensures Without(es, key) == es
  {
    if es == [] {
    } else {
      assert !CaseEq(es[0].key, key);
      WithoutAbsent(es[1..], key);
    }
  }

  /** Unset removes exactly the case-equal pairs: nothing case-equal is left, and
      every other key is found as before. */
  lemma {:induction false} UnsetLaws(es: seq<Pair>, key: CString, other: CString)
    ensures Get(Without(es, key), key) == NotFound
    ensures !CaseEq(other, key) ==> Get(Without(es, key), other) == Get(es, other)
  {
    if es == [] {
    } else {
      UnsetLaws(es[1..], key, other);
      if CaseEq(es[0].key, key) && CaseEq(es[0].key, other) {
        CaseEqTransitive(other, es[0].key, key);
      }
    }
  }

  /** After a set the key is found with the new value; other keys are as before. */
  lemma {:induction false} SetLaws(es: seq<Pair>, key: CString, val: CString, other: CString)
    ensures Get(Set(es, key, val), key) == Found(val)
    ensures !CaseEq(other, key) ==> Get(Set(es, key, val), other) == Get(es, other)
  {
    if es == [] {
      if CaseEq(key, other) {
        CaseEqTransitive(other, key, key);
      }
    } else {
      SetLaws(es[1..], key, val, other);
      UnsetLaws(es[1..], key, other);
      if CaseEq(es[0].key, key) && CaseEq(es[0].key, other) {
        CaseEqTransitive(other, es[0].key, key);
      }
    }
  }

  /** A merge appends the value to the one found, after a comma and a space, or adds it;
      other keys are as before. */
  lemma {:induction false} MergeLaws(es: seq<Pair>, key: CString, val: CString, other: CString)
    ensures Get(Merge(es, key, val), key).Found?
    ensures Get(Merge(es, key, val), key).val ==
            match Get(es, key) case NotFound => val case Found(v) => v + ", " + val
    ensures !CaseEq(other, key) ==> Get(Merge(es, key, val), other) == Get(es, other)
  {
    if es == [] {
      if CaseEq(key, other) {
        CaseEqTransitive(other, key, key);
      }
    } else {
      MergeLaws(es[1..], key, val, other);
      if CaseEq(es[0].key, key) && CaseEq(es[0].key, other) {
        CaseEqTransitive(other, es[0].key, key);
      }
    }
  }

  lemma HasNot(es: seq<Pair>, key: CString)
    requires es != [] && !Has(es, key)
    ensures !CaseEq(es[0].key, key) && !Has(es[1..], key)
  {
    hide CaseEq;
  }

  lemma SetFirst(es: seq<Pair>, key: CString, val: CString)
    requires es != [] ==> CaseEq(es[0].key, key)
    ensures es == [] ==> Set(es, key, val) == Merge(es, key, val) == [New(key, val)]
    ensures es != [] ==> Set(es, key, val) == [es[0].(val := val)] + Without(es[1..], key)
    ensures es != [] ==> Merge(es, key, val) == es[0 := es[0].(val := Join(es[0].val, val))]
  {
    hide CaseEq, Checksum, Without;
  }

  lemma SetNext(es: seq<Pair>, key: CString, val: CString)
    requires es != [] && !CaseEq(es[0].key, key)
    ensures Set(es, key, val) == [es[0]] + Set(es[1..], key, val)
    ensures Merge(es, key, val) == [es[0]] + Merge(es[1..], key, val)
  {
    hide CaseEq, Checksum, Without;
  }

  /** Set on a list split before the first case-equal pair. */
  lemma {:induction false} SetAt(es: seq<Pair>, i: nat, key: CString, val: CString)
    requires i <= |es| && !Has(es[..i], key)
    requires i < |es| ==> CaseEq(es[i].key, key)
    ensures i == |es| ==> Set(es, key, val) == Merge(es, key, val) == es + [New(key, val)]
    ensures i < |es| ==> Set(es, key, val) == es[..i] + [es[i].(val := val)] + Without(es[i + 1..], key)
    ensures i < |es| ==> Merge(es, key, val) == es[i := es[i].(val := Join(es[i].val, val))]
  {
    hide CaseEq, Checksum, Has, Set, Merge, Without;
    if i == 0 {
      SetFirst(es, key, val);
    } else {
      var t := es[1..];
      assert t[..i - 1] == es[..i][1..];
      HasNot(es[..i], key);
      SetAt(t, i - 1, key, val);
      SetNext(es, key, val);
      assert i < |es| ==> t[i..] == es[i + 1..];
      assert [es[0]] + t[..i - 1] == es[..i];
    }
  }

  lemma {:induction false} LoopAppend(a: seq<Pair>, b: seq<Pair>, c: seq<Pair>, merge: bool)
    ensures Loop(a, b + c, merge) == Loop(Loop(a, b, merge), c, merge)
    decreases |b|
  {
    if b == [] {
      assert b + c == c;
    } else {
      assert (b + c)[1..] == b[1..] + c;
      LoopAppend(Put(a, b[0], merge), b[1..], c, merge);
    }
  }

  lemma LoopSnoc(a: seq<Pair>, b: seq<Pair>, e: Pair, merge: bool)
    ensures Loop(a, b + [e], merge) == Put(Loop(a, b, merge), e, merge)
  {
    LoopAppend(a, b, [e], merge);
    var x := Loop(a, b, merge);
    assert [e][1..] == [];
    assert Loop(x, [e], merge) == Loop(Put(x, e, merge), [], merge);
  }

  // ---------- the values of a key ----------

  /** The values of all pairs with a key case-equal to `key`, in order. */
  function Values(es: seq<Pair>, key: CString): seq<CString> {
    if es == [] then []
    else Values(es[..|es| - 1], key) + if CaseEq(es[|es| - 1].key, key) then [es[|es| - 1].val] else []
  }

  /** The values with a comma and a space between neighbours. */
  function Commas(vs: seq<CString>): string
    requires vs != []
  {
    if |vs| == 1 then vs[0] else Commas(vs[..|vs| - 1]) + ", " + vs[|vs| - 1]
  }

  /** Every key of `es` is found in `r`, with all of its values or with the last one, and
      no other key. */
  ghost predicate Collected(r: seq<Pair>, es: seq<Pair>, merge: bool) {
    forall key: CString :: HasValues(Get(r, key), Values(es, key), merge)
  }

  predicate HasValues(found: Found, vs: seq<CString>, merge: bool) {
    if vs == [] then found == NotFound
    else found.Found? && found.val == if merge then Commas(vs) else vs[|vs| - 1]
  }

  lemma {:induction false} ValuesAppend(a: seq<Pair>, b: seq<Pair>, key: CString)
    ensures Values(a + b, key) == Values(a, key) + Values(b, key)
    decreases |b|
  {
    hide CaseEq;
    if b == [] {
      assert a + b == a;
    } else {
      var n := |b| - 1;
      assert (a + b)[..|a + b| - 1] == a + b[..n];
      ValuesAppend(a, b[..n], key);
    }
  }

  lemma {:induction false} GetCaseEq(es: seq<Pair>, key: CString, other: CString)
    requires CaseEq(key, other)
    ensures Get(es, key) == Get(es, other)
  {
    if es == [] {
    } else {
      if CaseEq(es[0].key, key) { CaseEqTransitive(es[0].key, key, other); }
      if CaseEq(es[0].key, other) { CaseEqTransitive(es[0].key, other, key); }
      GetCaseEq(es[1..], key, other);
    }
  }

  /** One more pair. */
  lemma PutCollects(r: seq<Pair>, e: Pair, vs: seq<CString>, key: CString, merge: bool)
    requires HasValues(Get(r, key), vs, merge)
    ensures CaseEq(e.key, key) ==> HasValues(Get(Put(r, e, merge), key), vs + [e.val], merge)
    ensures !CaseEq(e.key, key) ==> HasValues(Get(Put(r, e, merge), key), vs, merge)
  {
    hide CaseEq, Checksum, Set, Merge, Get;
    SetLaws(r, e.key, e.val, key);
    MergeLaws(r, e.key, e.val, key);
    SameKeys(e.key, key);
    if CaseEq(key, e.key) {
      GetCaseEq(r, key, e.key);
      GetCaseEq(Put(r, e, merge), key, e.key);
      assert (vs + [e.val])[..|vs|] == vs;
    }
  }

  /** Setting (or merging) all pairs of a list into an empty one. */
  lemma {:induction false} LoopCollects(es: seq<Pair>, merge: bool, key: CString)
    ensures HasValues(Get(Loop([], es, merge), key), Values(es, key), merge)
    decreases |es|
  {
    hide CaseEq, Put, HasValues, Get;
    if es == [] {
      NothingFound(key, merge);
    } else {
      var n := |es| - 1;
      var r, vs := Loop([], es[..n], merge), Values(es[..n], key);
      LoopCollects(es[..n], merge, key);
      assert es == es[..n] + [es[n]];
      LoopSnoc([], es[..n], es[n], merge);
      PutCollects(r, es[n], vs, key, merge);
      assert vs + [] == vs;
    }
  }

  lemma NothingFound(key: CString, merge: bool)
    ensures HasValues(Get([], key), [], merge)
  {
  }

  lemma SameKeys(a: CString, b: CString)
    ensures CaseEq(a, b) <==> CaseEq(b, a)
  {
  }

  lemma LoopIsCollected(es: seq<Pair>, merge: bool)
    ensures Collected(Loop([], es, merge), es, merge)
  {
    hide Loop, Values, HasValues, Get;
    forall key: CString ensures HasValues(Get(Loop([], es, merge), key), Values(es, key), merge) {
      LoopCollects(es, merge, key);
    }
  }
}
