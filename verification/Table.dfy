/** apr_table_t: the array of pairs with its 32-slot index. */
module Tables {
  import opened CStrings
  import opened Seqs
  import opened TableSpec

  const SLOTS := 32

  /** Every row has a key and the checksum of its key. */
  predicate Rows(s: seq<Elt>) {
    forall i :: 0 <= i < |s| ==> s[i].Elt? && s[i].checksum == Checksum(s[i].key)
  }

  predicate HashesTo(e: Elt, h: nat) {
    e.Elt? && Hash(e.key) == h
  }

  /** The slot's bit is set iff some key hashes to it, and then `first` and `last`
      are exactly the positions of its first and last key. */
  predicate SlotOk(s: seq<Elt>, h: nat, used: bool, first: nat, last: nat) {
    if used then
      first <= last < |s| && HashesTo(s[first], h) && HashesTo(s[last], h)
      && forall i :: 0 <= i < |s| && HashesTo(s[i], h) ==> first <= i <= last
    else forall i :: 0 <= i < |s| ==> !HashesTo(s[i], h)
  }

  predicate Indexed(s: seq<Elt>, used: seq<bool>, first: seq<nat>, last: seq<nat>) {
    && |used| == |first| == |last| == SLOTS
    && forall h :: 0 <= h < SLOTS ==> SlotOk(s, h, used[h], first[h], last[h])
  }

  /** Whether row `e` passes the two tests of the lookups. */
  predicate Hit(e: Elt, key: CString) {
    e.Elt? && Checksum(key) == e.checksum && CaseEq(e.key, key)
  }

  /** All hits of a key lie between the first and the last row of its slot. */
  lemma HitsInSlot(s: seq<Elt>, used: seq<bool>, first: seq<nat>, last: seq<nat>, key: CString, i: nat)
    requires Rows(s) && Indexed(s, used, first, last) && i < |s| && CaseEq(s[i].key, key)
    ensures Hit(s[i], key) && used[Hash(key)] && first[Hash(key)] <= i <= last[Hash(key)]
  {
    CaseEqKeysShareIndex(s[i].key, key);
    var h := Hash(key);
    assert SlotOk(s, h, used[h], first[h], last[h]);
    assert HashesTo(s[i], h);
  }

  lemma NoHitInUnusedSlot(s: seq<Pair>, used: seq<bool>, first: seq<nat>, last: seq<nat>, key: CString)
    requires Rows(s) && Indexed(s, used, first, last) && !used[Hash(key)]
    ensures !Has(s, key)
  {
    forall i | 0 <= i < |s| ensures !CaseEq(s[i].key, key) {
      if CaseEq(s[i].key, key) { HitsInSlot(s, used, first, last, key, i); }
    }
  }

  lemma GetAt(es: seq<Pair>, i: nat, key: CString)
    requires i < |es| && !Has(es[..i], key) && CaseEq(es[i].key, key)
    ensures Get(es, key) == Found(es[i].val)
  {
    assert es == es[..i] + es[i..];
    GetAppend(es[..i], es[i..], key);
  }

  lemma IndexedAppend(s: seq<Elt>, used: seq<bool>, first: seq<nat>, last: seq<nat>, e: Pair)
    requires Indexed(s, used, first, last)
    ensures var h := Hash(e.key);
            Indexed(s + [e], used[h := true], if used[h] then first else first[h := |s|], last[h := |s|])
  {
    var h, s' := Hash(e.key), s + [e];
    var first' := if used[h] then first else first[h := |s|];
    forall g | 0 <= g < SLOTS ensures SlotOk(s', g, used[h := true][g], first'[g], last[h := |s|][g]) {
      assert SlotOk(s, g, used[g], first[g], last[g]);
      forall i | 0 <= i < |s'| && HashesTo(s'[i], g)
        ensures i < |s| ==> HashesTo(s[i], g)
        ensures i == |s| ==> g == h
      {
      }
    }
  }

  /** Changing only values keeps the index. */
  lemma IndexedSameKeys(s: seq<Elt>, t: seq<Elt>, used: seq<bool>, first: seq<nat>, last: seq<nat>)
    requires Indexed(s, used, first, last) && |s| == |t|
    requires forall i :: 0 <= i < |s| ==> s[i].Elt? && t[i].Elt? && s[i].key == t[i].key
    ensures Indexed(t, used, first, last)
  {
    forall h | 0 <= h < SLOTS ensures SlotOk(t, h, used[h], first[h], last[h]) {
      assert SlotOk(s, h, used[h], first[h], last[h]);
      forall i | 0 <= i < |t| ensures HashesTo(t[i], h) == HashesTo(s[i], h) {
      }
    }
  }

  function AsPairs(s: seq<Elt>): (r: seq<Pair>)
    requires Rows(s)
    ensures r == s
  {
    s
  }

  class Table {
    var elts: array<Elt>
    var nelts: nat
    var used: seq<bool>        // index_initialized, bit by bit
    var first: seq<nat>        // index_first
    var last: seq<nat>         // index_last

    ghost predicate Valid()
      reads this, elts
    {
      nelts <= elts.Length && Rows(elts[..nelts]) && Indexed(elts[..nelts], used, first, last)
    }

    ghost function Contents(): (r: seq<Pair>)
      requires Valid()
      reads this, elts
      ensures r == elts[..nelts]
    {
      AsPairs(elts[..nelts])
    }

    /** apr_table_make */
    constructor (size: nat)
      ensures Valid() && Contents() == [] && fresh(elts)
    {
      elts := new Elt[if size < 1 then 1 else size](_ => Hole);
      nelts := 0;
      used := seq(SLOTS, _ => false);
      first := seq(SLOTS, _ => 0);
      last := seq(SLOTS, _ => 0);
    }

    /** apr_table_clear */
    method Clear()
      requires Valid()
      modifies this
      ensures Valid() && elts == old(elts) && Contents() == []
    {
      nelts := 0;
      used := seq(SLOTS, _ => false);
    }

    /** table_reindex */
    method Reindex()
      requires nelts <= elts.Length && Rows(elts[..nelts]) && |first| == |last| == SLOTS
      modifies this`used, this`first, this`last
      ensures Valid()
    {
      used := seq(SLOTS, _ => false);
      var i := 0;
      while i < nelts
        invariant i <= nelts && Indexed(elts[..i], used, first, last)
      {
        IndexedAppend(elts[..i], used, first, last, elts[..nelts][i]);
        assert elts[..i + 1] == elts[..i] + [elts[i]];
        var hash := Hash(elts[i].key);
        last := last[hash := i];
        if !used[hash] {
          first := first[hash := i];
          used := used[hash := true];
        }
        assert used[hash := true] == used;
        i := i + 1;
      }
    }

    /** apr_table_get */
    method Lookup(key: CString) returns (r: Found)
      requires Valid()
      ensures r == Get(Contents(), key)
    {
      ghost var es := Contents();
      var hash := Hash(key);
      GetAppend(es, [], key);
      if !used[hash] {
        NoHitInUnusedSlot(es, used, first, last, key);
        return NotFound;
      }
      var i := ScanSlot(key, hash);
      if i <= last[hash] {
        GetAt(es, i, key);
        return Found(elts[i].val);
      }
      return NotFound;
    }

    /** From the first row of the slot to the last: the first hit, or just past. */
    method ScanSlot(key: CString, hash: nat) returns (i: nat)
      requires Valid() && hash == Hash(key) && used[hash]
      ensures first[hash] <= i <= last[hash] + 1 <= nelts
      ensures i <= last[hash] ==> CaseEq(elts[..nelts][i].key, key)
      ensures !Has(Contents()[..i], key)
      ensures i == last[hash] + 1 ==> !Has(Contents(), key)
    {
      hide CaseEq, Checksum, Hash;
      var checksum := Checksum(key);
      ghost var es := Contents();
      assert SlotOk(es, hash, used[hash], first[hash], last[hash]);
      i := first[hash];
      while i <= last[hash]
        invariant first[hash] <= i <= last[hash] + 1
        invariant forall k :: first[hash] <= k < i ==> !Hit(es[k], key)
      {
        assert elts[i] == es[i];
        if checksum == elts[i].checksum && CaseEq(elts[i].key, key) { break; }
        i := i + 1;
      }
      forall k | 0 <= k < |es| && CaseEq(es[k].key, key)
        ensures first[hash] <= k <= last[hash] && Hit(es[k], key)
      {
        HitsInSlot(es, used, first, last, key, k);
      }
    }

    /** apr_array_push_noclear and the stores into the new element */
    method Push(e: Pair)
      requires nelts <= elts.Length && e.checksum == Checksum(e.key)
      modifies this`elts, this`nelts, elts
      ensures nelts == old(nelts) + 1 <= elts.Length && (elts == old(elts) || fresh(elts))
      ensures elts[..nelts] == old(elts[..nelts]) + [e]
    {
      if nelts == elts.Length {
        var grown := new Elt[if elts.Length <= 0 then 1 else elts.Length * 2](_ => Hole);
        forall i | 0 <= i < elts.Length { grown[i] := elts[i]; }
        elts := grown;
      }
      elts[nelts] := e;
      nelts := nelts + 1;
    }

    /** apr_table_add, apr_table_addn */
    method Add(key: CString, val: CString)
      requires Valid()
      modifies this, elts
      ensures Valid() && (elts == old(elts) || fresh(elts))
      ensures Contents() == old(Contents()) + [New(key, val)]
    {
      var hash := Hash(key);
      IndexedAppend(elts[..nelts], used, first, last, New(key, val));
      last := last[hash := nelts];
      if !used[hash] {
        first := first[hash := nelts];
        used := used[hash := true];
      }
      assert used[hash := true] == used;
      Push(New(key, val));
    }

    /** The tail of apr_table_set and apr_table_merge when the key is new. */
    method AddNew(key: CString, val: CString)
      requires Valid() && !Has(Contents(), key)
      modifies this, elts
      ensures Valid() && (elts == old(elts) || fresh(elts))
      ensures Contents() == Set(old(Contents()), key, val) == Merge(old(Contents()), key, val)
    {
      ghost var es := Contents();
      assert es[..|es|] == es;
      SetAt(es, |es|, key, val);
      Add(key, val);
    }

    /** Stores a value into row `i`. */
    method StoreVal(i: nat, val: CString)
      requires Valid() && i < nelts
      modifies elts
      ensures Valid() && Contents() == old(Contents())[i := old(Contents())[i].(val := val)]
    {
      ghost var es := Contents();
      assert elts[i] == es[i];
      elts[i] := elts[i].(val := val);
      assert elts[..nelts] == es[i := es[i].(val := val)];
      IndexedSameKeys(es, elts[..nelts], used, first, last);
    }

    /** apr_table_merge, apr_table_mergen */
    method MergeIn(key: CString, val: CString)
      requires Valid()
      modifies this, elts
      ensures Valid() && (elts == old(elts) || fresh(elts))
      ensures Contents() == Merge(old(Contents()), key, val)
    {
      var hash := Hash(key);
      ghost var es := Contents();
      if used[hash] {
        var i := ScanSlot(key, hash);
        if i <= last[hash] {
          SetAt(es, i, key, val);
          assert elts[i] == es[i];
          StoreVal(i, Join(elts[i].val, val));
          return;
        }
      } else {
        NoHitInUnusedSlot(es, used, first, last, key);
      }
      AddNew(key, val);
    }

    /** apr_table_set, apr_table_setn */
    method Put(key: CString, val: CString)
      requires Valid()
      modifies this, elts
      ensures Valid() && (elts == old(elts) || fresh(elts))
      ensures Contents() == Set(old(Contents()), key, val)
    {
      hide CaseEq, Checksum, Hash, Without, Set;
      var hash := Hash(key);
      ghost var es := Contents();
      if used[hash] {
        var i := ScanSlot(key, hash);
        if i <= last[hash] {
          SetAt(es, i, key, val);
          StoreVal(i, val);
          ghost var es' := Contents();
          NoHitAfterSlot(es, used, first, last, key);
          assert forall k :: last[hash] < k < |es| ==> es'[k] == es[k];
          var mustReindex := RemoveHits(i + 1, last[hash], key);
          assert es'[..i + 1] == es[..i] + [es[i].(val := val)] && es'[i + 1..] == es[i + 1..];
          if mustReindex { Reindex(); }
          return;
        }
      } else {
        NoHitInUnusedSlot(es, used, first, last, key);
      }
      AddNew(key, val);
    }

    /** apr_table_unset */
    method Unset(key: CString)
      requires Valid()
      modifies this, elts
      ensures Valid() && elts == old(elts)
      ensures Contents() == Without(old(Contents()), key)
    {
      hide CaseEq, Checksum, Hash, Without;
      var hash := Hash(key);
      ghost var es := Contents();
      if !used[hash] {
        NoHitInUnusedSlot(es, used, first, last, key);
        WithoutAbsent(es, key);
        return;
      }
      var i := ScanSlot(key, hash);
      if i <= last[hash] {
        NoHitAfterSlot(es, used, first, last, key);
        var removed := RemoveHits(i, last[hash], key);
        assert es == es[..i] + es[i..];
        WithoutAbsent(es[..i], key);
        WithoutAppend(es[..i], es[i..], key);
        if removed { Reindex(); }
      } else {
        WithoutAbsent(es, key);
      }
    }

    /** Removes the hits in rows `from..end` (inclusive; there is none after `end`) by
        shifting every other row down over them; tells whether any row went. */
    method RemoveHits(from: nat, end: nat, key: CString) returns (removed: bool)
      requires Valid() && from <= end + 1 <= nelts
      requires forall k :: end < k < nelts ==> !CaseEq(Contents()[k].key, key)
      modifies this`nelts, elts
      ensures nelts <= elts.Length && Rows(elts[..nelts])
      ensures elts[..nelts] == old(Contents())[..from] + Without(old(Contents())[from..], key)
      ensures !removed ==> nelts == old(nelts) && elts[..nelts] == old(Contents())
    {
      hide CaseEq, Checksum, Hash, Without;
      ghost var es := Contents();
      var checksum := Checksum(key);
      var n, next: nat, dst: nat := nelts, from, from;
      removed := false;
      while next <= end
        invariant from <= next <= end + 1 && Shifting(es, elts[..], from, next, dst, key)
        invariant !removed ==> dst == next && elts[..] == old(elts[..])
        invariant nelts == n - (next - dst)
      {
        var hit := ShiftRow(es, from, next, dst, key, checksum, removed);
        if hit {
          nelts := nelts - 1;
          removed := true;
        } else {
          dst := dst + 1;
        }
        next := next + 1;
      }
      if removed {
        dst := ShiftRest(es, from, next, n, dst, key);
        ShiftingDone(es, elts[..], from, dst, key);
      } else {
        NothingRemoved(es, elts[..], from, next, key);
      }
    }

    /** One row of the loop: a hit stays behind, another row moves down once a hit
        was removed. */
    method ShiftRow(ghost es: seq<Pair>, from: nat, next: nat, dst: nat, key: CString, checksum: nat, removed: bool)
      returns (hit: bool)
      requires Rows(es) && Shifting(es, elts[..], from, next, dst, key) && next < |es|
      requires checksum == Checksum(key) && (!removed ==> dst == next)
      modifies elts
      ensures hit == CaseEq(es[next].key, key)
      ensures Shifting(es, elts[..], from, next + 1, if hit then dst else dst + 1, key)
      ensures !removed || hit ==> elts[..] == old(elts[..])
    {
      ShiftingMore(es, elts[..], from, next, dst, key);
      assert elts[next] == es[next];
      hit := checksum == elts[next].checksum && CaseEq(elts[next].key, key);
      if CaseEq(es[next].key, key) { CaseEqKeysShareIndex(es[next].key, key); }
      if !hit && removed { MoveRow(dst, next); }
    }

    /** *dst = *src */
    method MoveRow(dst: nat, src: nat)
      requires dst < elts.Length && src < elts.Length
      modifies elts
      ensures elts[..] == old(elts[..])[dst := old(elts[..])[src]]
    {
      elts[dst] := elts[src];
    }

    /** Shifts the rows after the slot. */
    method ShiftRest(ghost es: seq<Pair>, from: nat, next0: nat, n: nat, dst0: nat, key: CString) returns (dst: nat)
      requires Shifting(es, elts[..], from, next0, dst0, key) && n == |es|
      requires forall k :: next0 <= k < n ==> !CaseEq(es[k].key, key)
      modifies elts
      ensures Shifting(es, elts[..], from, n, dst, key) && n - dst == next0 - dst0
    {
      var next := next0;
      dst := dst0;
      while next < n
        invariant next0 <= next <= n && Shifting(es, elts[..], from, next, dst, key) && next - dst == next0 - dst0
      {
        ShiftingMore(es, elts[..], from, next, dst, key);
        MoveRow(dst, next);
        dst, next := dst + 1, next + 1;
      }
    }
  }

  /** Rows before `dst` are the kept rows before `next`; rows from `next` on are as
      they were. */
  predicate Shifting(es: seq<Pair>, s: seq<Elt>, from: nat, next: nat, dst: nat, key: CString) {
    && from <= dst <= next <= |es| <= |s| && from <= next
    && s[..dst] == es[..from] + Without(es[from..next], key)
    && s[next..|es|] == es[next..]
  }

  lemma ShiftingMore(es: seq<Pair>, s: seq<Elt>, from: nat, next: nat, dst: nat, key: CString)
    requires Shifting(es, s, from, next, dst, key) && next < |es|
    ensures s[next] == es[next]
    ensures if CaseEq(es[next].key, key) then Shifting(es, s, from, next + 1, dst, key)
            else Shifting(es, s[dst := s[next]], from, next + 1, dst + 1, key)
    ensures !CaseEq(es[next].key, key) && dst == next ==> Shifting(es, s, from, next + 1, next + 1, key)
  {
    assert s[next] == s[next..|es|][0] == es[next..][0];
    assert es[from..next + 1] == es[from..next] + [es[next]];
    WithoutAppend(es[from..next], [es[next]], key);
    assert [es[next]][1..] == [];
    var t := s[dst := s[next]];
    assert t[next + 1..|es|] == s[next..|es|][1..] == es[next + 1..];
    assert t[..dst + 1] == s[..dst] + [s[next]];
    assert dst == next ==> t == s;
  }

  lemma ShiftingDone(es: seq<Pair>, s: seq<Elt>, from: nat, dst: nat, key: CString)
    requires Rows(es) && Shifting(es, s, from, |es|, dst, key)
    ensures s[..dst] == es[..from] + Without(es[from..], key) && Rows(s[..dst])
  {
    assert es[from..|es|] == es[from..];
    WithoutRows(es[from..], key);
  }

  lemma NothingRemoved(es: seq<Pair>, s: seq<Elt>, from: nat, next: nat, key: CString)
    requires Shifting(es, s, from, next, next, key) && s[..|es|] == es
    requires forall k :: next <= k < |es| ==> !CaseEq(es[k].key, key)
    ensures es == es[..from] + Without(es[from..], key)
  {
    hide Without;
    var x, y := es[from..next], es[next..];
    KeptAllSoFar(es, s, from, next, key);
    WithoutAbsent(y, key);
    WithoutAppend(x, y, key);
    Cut(es, from, next, |es|);
    Cut(es, 0, from, |es|);
  }

  lemma KeptAllSoFar(es: seq<Pair>, s: seq<Elt>, from: nat, next: nat, key: CString)
    requires Shifting(es, s, from, next, next, key) && s[..|es|] == es
    ensures Without(es[from..next], key) == es[from..next]
  {
    assert s[..next] == s[..|es|][..next];
    assert s[..next][from..] == Without(es[from..next], key);
  }

  lemma {:induction false} WithoutRows(es: seq<Pair>, key: CString)
    requires Rows(es)
    ensures Rows(Without(es, key))
  {
    if es == [] {
    } else {
      WithoutRows(es[1..], key);
    }
  }

  lemma NoHitAfterSlot(s: seq<Pair>, used: seq<bool>, first: seq<nat>, last: seq<nat>, key: CString)
    requires Rows(s) && Indexed(s, used, first, last) && used[Hash(key)]
    ensures forall k :: last[Hash(key)] < k < |s| ==> !CaseEq(s[k].key, key)
  {
    forall k | last[Hash(key)] < k < |s| ensures !CaseEq(s[k].key, key) {
      if CaseEq(s[k].key, key) { HitsInSlot(s, used, first, last, key, k); }
    }
  }
}
