/** What patterns match, said of the characters alone: one law for each kind of pattern
beginning. */
module FnmatchFacts {
  import opened CStrings
  import opened FnmatchSpec
  import opened FnmatchRuns

  // ---------- a token more at the front ----------

  function Moved(list: ClassTail, n: nat): ClassTail {
    if list.Malformed? then Malformed else ClassTail(list.items, list.end + n)
  }

  lemma AtShift(x: CString, q: CString, i: nat)
    ensures At(x + q, |x| + i) == At(q, i)
  {
  }

  lemma {:induction false} ItemsShift(x: CString, q: CString, i: nat, fl: Flags)
    requires i <= |q|
    ensures ParseItems(x + q, |x| + i, fl) == Moved(ParseItems(q, i, fl), |x|)
    decreases |q| - i, 1
  {
    if i == |q| || q[i] == ']' {
    } else {
      var k := if !fl.noescape && q[i] == '\\' then i + 1 else i;
      if k == |q| || (fl.pathname && q[k] == '/') {
      } else {
        ItemShift(x, q, k, fl);
      }
    }
  }

  lemma {:induction false} ItemShift(x: CString, q: CString, k: nat, fl: Flags)
    requires k < |q|
    ensures ParseItem(x + q, |x| + k, fl) == Moved(ParseItem(q, k, fl), |x|)
    decreases |q| - k, 0
  {
    hide ParseItems, Moved, Cons;
    var p: CString := x + q;
    MovedMalformed(|x|);
    AtShift(x, q, k);
    AtShift(x, q, k + 1);
    AtShift(x, q, k + 2);
    if At(q, k + 1) == '-' && At(q, k + 2) != ']' {
      var h := if !fl.noescape && At(q, k + 2) == '\\' then k + 3 else k + 2;
      AtShift(x, q, h);
      if At(q, h) == '\0' || (fl.pathname && q[h] == '/') {
      } else {
        ItemsShift(x, q, h + 1, fl);
        MovedCons(Range(q[k], q[h]), ParseItems(q, h + 1, fl), |x|);
      }
    } else {
      ItemsShift(x, q, k + 1, fl);
      MovedCons(Single(q[k]), ParseItems(q, k + 1, fl), |x|);
    }
  }

  lemma MovedMalformed(n: nat)
    ensures Moved(Malformed, n) == Malformed
  {
  }

  lemma MovedCons(item: Item, list: ClassTail, n: nat)
    ensures Moved(Cons(item, list), n) == Cons(item, Moved(list, n))
  {
  }

  lemma NextShift(x: CString, q: CString, i: nat, fl: Flags)
    requires i < |q|
    ensures var (t, n) := Next(q, i, fl); Next(x + q, |x| + i, fl) == (t, |x| + n)
  {
    hide ParseItems, ParseItem;
    AtShift(x, q, i + 1);
    if q[i] == '[' {
      var k := ListStart(q, i);
      AtShift(x, q, k);
      if At(q, k) == ']' { ItemShift(x, q, k, fl); } else { ItemsShift(x, q, k, fl); }
    }
  }

  /** Nothing depends on what comes before the two positions. */
  lemma {:induction false} RunShift(x: CString, q: CString, i: nat, y: CString, s: CString, j: nat, start: bool,
                                    fl: Flags)
    requires i <= |q| && j <= |s|
    ensures Run(x + q, |x| + i, y + s, |y| + j, start, fl) == Run(q, i, s, j, start, fl)
    decreases |q| - i + |s| - j
  {
    hide Next, Accepts;
    AtShift(y, s, j);
    if i == |q| {
    } else {
      NextShift(x, q, i, fl);
      var (t, n) := Next(q, i, fl);
      match t
      case Star =>
        RunShift(x, q, n, y, s, j, false, fl);
        if j < |s| { RunShift(x, q, i, y, s, j + 1, false, fl); }
      case Slash =>
        if j < |s| { RunShift(x, q, n, y, s, j + 1, true, fl); }
      case _ =>
        if j < |s| { RunShift(x, q, n, y, s, j + 1, false, fl); }
    }
  }

  lemma AnyStart(p: CString, i: nat, s: CString, j: nat, fl: Flags)
    requires i <= |p| && j <= |s| && !fl.period
    ensures Run(p, i, s, j, true, fl) == Run(p, i, s, j, false, fl)
  {
  }

  /** The rest of the pattern against the rest of the string. */
  lemma RestRuns(x: CString, q: CString, s: CString, j: nat, start: bool, fl: Flags)
    requires j <= |s| && !fl.period
    ensures Run(x + q, |x|, s, j, start, fl) <==> Matches(q, s[j..], fl)
  {
    hide Run;
    var y, t := s[..j], s[j..];
    assert s == y + t;
    RunShift(x, q, 0, y, t, 0, start, fl);
    AnyStart(q, 0, t, 0, fl);
    RunIsMatch(q, t, fl);
  }

  /** A pattern that begins with a token for one character. */
  lemma OneCharFirst(x: CString, q: CString, s: CString, t: Token, fl: Flags)
    requires x != "" && !fl.period && OneChar(t) && Next(x + q, 0, fl) == (t, |x|)
    ensures Matches(x + q, s, fl) <==> s != "" && Accepts(t, s[0], fl) && Matches(q, s[1..], fl)
  {
    hide Next, Accepts, Matches;
    RunIsMatch(x + q, s, fl);
    if s != "" { RestRuns(x, q, s, 1, false, fl); }
  }

  // ---------- the laws ----------

  /** The empty pattern. */
  lemma EmptyLaw(s: CString, fl: Flags)
    ensures Matches("", s, fl) <==> s == ""
  {
    RunIsMatch("", s, fl);
  }

  /** A question mark is any character, but no slash with PATHNAME. */
  lemma AnyLaw(q: CString, s: CString, fl: Flags)
    requires !fl.period
    ensures Matches("?" + q, s, fl) <==> s != "" && !(fl.pathname && s[0] == '/') && Matches(q, s[1..], fl)
  {
    hide Matches;
    assert ("?" + q)[0] == '?';
    OneCharFirst("?", q, s, Any, fl);
  }

  /** A star is any number of characters, but no slash with PATHNAME. */
  lemma StarLaw(q: CString, s: CString, fl: Flags)
    requires !fl.period
    ensures Matches("*" + q, s, fl) <==>
      exists k: nat :: k <= |s| && !(fl.pathname && '/' in s[..k]) && Matches(q, s[k..], fl)
  {
    hide Matches;
    var p := "*" + q;
    assert p[0] == '*';
    RunIsMatch(p, s, fl);
    AnyStart(p, 0, s, 0, fl);
    StarFrom(p, q, s, 0, fl);
  }

  lemma {:induction false} StarFrom(p: CString, q: CString, s: CString, j: nat, fl: Flags)
    requires j <= |s| && !fl.period && p == "*" + q
    ensures Run(p, 0, s, j, false, fl) <==>
      exists k: nat :: j <= k <= |s| && !(fl.pathname && '/' in s[j..k]) && Matches(q, s[k..], fl)
    decreases |s| - j
  {
    hide Matches;
    assert p[0] == '*';
    RestRuns("*", q, s, j, false, fl);
    assert s[j..j] == "";
    if j == |s| {
    } else {
      StarFrom(p, q, s, j + 1, fl);
      forall k: nat | j < k <= |s| ensures '/' in s[j..k] <==> s[j] == '/' || '/' in s[j + 1..k] {
        assert s[j..k] == [s[j]] + s[j + 1..k];
      }
    }
  }

  predicate IsByte(c: char) { 0 < c as int < 256 }

  /** The same character; without regard to case the same letter. */
  predicate Alike(a: char, b: char, fl: Flags) {
    if fl.caseBlind then SameLetter(a, b) else a == b
  }

  lemma SameIsAlike(a: char, b: char, fl: Flags)
    ensures SameChar(a, b, fl) <==> Alike(b, a, fl)
  {
    LowerSame(a, b);
  }

  /** Any other character is itself; so is a backslash with NOESCAPE, or at the end. */
  lemma CharLaw(c: char, q: CString, s: CString, fl: Flags)
    requires IsByte(c) && c !in "*?[" && (c == '\\' ==> fl.noescape || q == "") && !fl.period
    ensures Matches([c] + q, s, fl) <==> s != "" && Alike(c, s[0], fl) && Matches(q, s[1..], fl)
  {
    hide Matches, SameLetter;
    var p: CString := [c] + q;
    assert p[0] == c;
    if fl.pathname && c == '/' {
      SlashFirst(p, [c], q, s, fl);
    } else {
      OneCharFirst([c], q, s, Lit(c), fl);
      LitAccepts(c, s, fl);
    }
  }

  /** A backslash quotes the next character. */
  lemma EscapeLaw(c: char, q: CString, s: CString, fl: Flags)
    requires IsByte(c) && !fl.noescape && !fl.period
    ensures Matches(['\\', c] + q, s, fl) <==> s != "" && Alike(c, s[0], fl) && Matches(q, s[1..], fl)
  {
    hide Matches, SameLetter;
    var p: CString := ['\\', c] + q;
    assert p[0] == '\\' && p[1] == c;
    if fl.pathname && c == '/' {
      SlashFirst(p, ['\\', c], q, s, fl);
    } else {
      OneCharFirst(['\\', c], q, s, Lit(c), fl);
      LitAccepts(c, s, fl);
    }
  }

  lemma SlashFirst(p: CString, x: CString, q: CString, s: CString, fl: Flags)
    requires p == x + q && x != "" && !fl.period && Next(p, 0, fl) == (Slash, |x|)
    ensures Matches(p, s, fl) <==> s != "" && Alike('/', s[0], fl) && Matches(q, s[1..], fl)
  {
    hide Next, Matches;
    RunIsMatch(p, s, fl);
    if s != "" {
      RestRuns(x, q, s, 1, true, fl);
      LowerSame('/', s[0]);
    }
  }

  lemma LitAccepts(c: char, s: CString, fl: Flags)
    requires !(fl.pathname && c == '/')
    ensures s != "" ==> (Accepts(Lit(c), s[0], fl) <==> Alike(c, s[0], fl))
  {
    if s != "" {
      SameIsAlike(s[0], c, fl);
      LowerSame(s[0], c);
    }
  }

  // ---------- bracket expressions ----------

  /** A bracket that is nowhere closed is itself. */
  lemma UnclosedLaw(q: CString, s: CString, fl: Flags)
    requires ']' !in q && !fl.period
    ensures Matches("[" + q, s, fl) <==> s != "" && s[0] == '[' && Matches(q, s[1..], fl)
  {
    hide ParseItems, ParseItem, Matches;
    var p: CString := "[" + q;
    assert p[0] == '[' && p[1..] == q && forall k :: 1 <= k < |p| ==> p[k] != ']';
    OneCharFirst("[", q, s, Lit('['), fl);
    LitAccepts('[', s, fl);
    Letters();
  }

  /** A character that means itself in a list. */
  predicate Listed(c: char, fl: Flags) {
    IsByte(c) && c !in "]\\!^" && !(fl.pathname && c == '/')
  }

  /** Elements as they are written in a list. */
  predicate Writable(item: Item, fl: Flags) {
    match item
    case Single(c) => Listed(c, fl)
    case Range(lo, hi) => Listed(lo, fl) && Listed(hi, fl)
  }

  /** A hyphen is at the beginning or it makes a range. */
  predicate AllWritable(items: seq<Item>, fl: Flags) {
    && (forall k :: 0 <= k < |items| ==> Writable(items[k], fl))
    && (forall k :: 1 <= k < |items| ==> items[k] != Single('-') && !(items[k].Range? && items[k].lo == '-'))
  }

  function Shown(item: Item, fl: Flags): (r: CString)
    requires Writable(item, fl)
    ensures r != ""
  {
    match item
    case Single(c) => [c]
    case Range(lo, hi) => [lo, '-', hi]
  }

  function Written(items: seq<Item>, fl: Flags): CString
    requires AllWritable(items, fl)
  {
    if items == [] then ""
    else
      assert Writable(items[0], fl);
      Shown(items[0], fl) + Written(items[1..], fl)
  }

  lemma {:induction false} ListParsed(items: seq<Item>, q: CString, fl: Flags)
    requires AllWritable(items, fl)
    ensures var x := Written(items, fl); ParseItems(x + "]" + q, 0, fl) == ClassTail(items, |x| + 1)
  {
    hide Moved, ParseItems, Cons, Listed, Shown;
    var x := Written(items, fl);
    var p: CString := x + "]" + q;
    if items == [] {
      assert p[0] == ']';
      EmptyList(p, fl);
    } else {
      assert Writable(items[0], fl);
      var y := Shown(items[0], fl);
      var z := Written(items[1..], fl);
      ListParsed(items[1..], q, fl);
      assert x == y + z && p == y + (z + "]" + q);
      ItemsShift(y, z + "]" + q, 0, fl);
      MovedIs(items[1..], |z| + 1, |y|);
      FirstItem(items, z, p, q, fl);
      ConsIs(items, |y| + |z| + 1);
    }
  }

  lemma EmptyList(p: CString, fl: Flags)
    requires p != "" && p[0] == ']'
    ensures ParseItems(p, 0, fl) == ClassTail([], 1)
  {
  }

  lemma ConsIs(items: seq<Item>, end: nat)
    requires items != []
    ensures Cons(items[0], ClassTail(items[1..], end)) == ClassTail(items, end)
  {
  }

  lemma MovedIs(items: seq<Item>, end: nat, n: nat)
    ensures Moved(ClassTail(items, end), n) == ClassTail(items, end + n)
  {
  }

  lemma FirstItem(items: seq<Item>, z: CString, p: CString, q: CString, fl: Flags)
    requires items != [] && AllWritable(items, fl)
    requires z == Written(items[1..], fl)
    requires p == Shown(items[0], fl) + (z + "]" + q)
    ensures ParseItems(p, 0, fl) == Cons(items[0], ParseItems(p, |Shown(items[0], fl)|, fl))
  {
    hide Written, ParseItems;
    var item := items[0];
    NoDash(items[1..], z, q, fl);
    if item.Single? {
      assert p[0] == item.c && p[1] == (z + "]" + q)[0];
      OneItem(p, fl);
    } else {
      assert p[0] == item.lo && p[1] == '-' && p[2] == item.hi;
      OneItem(p, fl);
    }
  }

  lemma OneItem(p: CString, fl: Flags)
    requires |p| >= 2 && Listed(p[0], fl) && (p[1] == '-' ==> |p| >= 3 && Listed(p[2], fl))
    ensures ParseItems(p, 0, fl) ==
      if p[1] == '-' then Cons(Range(p[0], p[2]), ParseItems(p, 3, fl)) else Cons(Single(p[0]), ParseItems(p, 1, fl))
  {
    hide Cons;
  }

  /** A list does not go on as a range. */
  lemma NoDash(items: seq<Item>, z: CString, q: CString, fl: Flags)
    requires AllWritable(items, fl)
    requires items != [] ==> items[0] != Single('-') && !(items[0].Range? && items[0].lo == '-')
    requires z == Written(items, fl)
    ensures (z + "]" + q)[0] != '-'
  {
    if items != [] { assert Writable(items[0], fl); }
  }

  /** A bracket expression, as it is written. */
  function Bracket(mark: string, items: seq<Item>, fl: Flags): CString
    requires mark in {"", "!", "^"} && AllWritable(items, fl)
  {
    var m: CString := mark;
    "[" + m + (Written(items, fl) + "]")
  }

  lemma BracketNext(mark: string, items: seq<Item>, q: CString, fl: Flags)
    requires mark in {"", "!", "^"} && items != [] && AllWritable(items, fl)
    ensures var x := Bracket(mark, items, fl); Next(x + q, 0, fl) == (Class(mark != "", items), |x|)
  {
    hide ParseItems, Written, Listed;
    var m: CString := "[" + mark;
    var w := Written(items, fl);
    var y: CString := w + "]" + q;
    ListParsed(items, q, fl);
    ItemsShift(m, y, 0, fl);
    FirstListed(items, fl);
    assert y[0] == w[0];
    assert Bracket(mark, items, fl) + q == m + y;
    OpenedNext(mark, y, items, |w| + 1, fl);
  }

  lemma OpenedNext(mark: string, y: CString, items: seq<Item>, n: nat, fl: Flags)
    requires mark in {"", "!", "^"} && y != "" && Listed(y[0], fl)
    requires var m: CString := "[" + mark; ParseItems(m + y, |m|, fl) == ClassTail(items, |m| + n)
    ensures var m: CString := "[" + mark; Next(m + y, 0, fl) == (Class(mark != "", items), |m| + n)
  {
    hide ParseItems, ParseItem;
    var m: CString := "[" + mark;
    var p: CString := m + y;
    assert p[0] == '[' && p[|m|] == y[0];
    assert mark != "" ==> p[1] == mark[0];
  }

  lemma FirstListed(items: seq<Item>, fl: Flags)
    requires items != [] && AllWritable(items, fl)
    ensures Written(items, fl) != "" && Listed(Written(items, fl)[0], fl)
  {
    assert Writable(items[0], fl);
  }

  /** A bracket expression is one character that is in the list; or, after `!` or `^`, that
      is not. */
  lemma BracketLaw(mark: string, items: seq<Item>, q: CString, s: CString, fl: Flags)
    requires mark in {"", "!", "^"} && items != [] && AllWritable(items, fl) && !fl.period
    ensures Matches(Bracket(mark, items, fl) + q, s, fl) <==>
      && s != "" && !(fl.pathname && s[0] == '/')
      && (mark != "" <==> !exists k :: 0 <= k < |items| && InItem(items[k], s[0], fl)) && Matches(q, s[1..], fl)
  {
    hide Bracket, Next, Matches, InItem;
    var x := Bracket(mark, items, fl);
    BracketNext(mark, items, q, fl);
    BracketFull(mark, items, fl);
    OneCharFirst(x, q, s, Class(mark != "", items), fl);
  }

  lemma BracketFull(mark: string, items: seq<Item>, fl: Flags)
    requires mark in {"", "!", "^"} && AllWritable(items, fl)
    ensures Bracket(mark, items, fl) != ""
  {
  }

  function Singles(chars: string): (items: seq<Item>)
    ensures |items| == |chars| && forall k :: 0 <= k < |chars| ==> items[k] == Single(chars[k])
  {
    if chars == "" then [] else [Single(chars[0])] + Singles(chars[1..])
  }

  lemma {:induction false} SinglesWritten(chars: string, fl: Flags)
    requires AllWritable(Singles(chars), fl)
    ensures Written(Singles(chars), fl) == chars
  {
    if chars == "" {
    } else {
      assert Singles(chars)[1..] == Singles(chars[1..]) && Writable(Singles(chars)[0], fl);
      SinglesWritten(chars[1..], fl);
    }
  }

  /** "[abc]", "[!abc]" and "[^abc]" */
  lemma SetLaw(mark: string, chars: CString, q: CString, s: CString, fl: Flags)
    requires mark in {"", "!", "^"} && chars != "" && !fl.period
    requires forall k :: 0 <= k < |chars| ==> chars[k] !in "]\\!^" && !(fl.pathname && chars[k] == '/')
    requires forall k :: 1 <= k < |chars| ==> chars[k] != '-'
    ensures var m: CString := mark;
            Matches("[" + m + chars + "]" + q, s, fl) <==>
              && s != "" && !(fl.pathname && s[0] == '/')
              && (mark != "" <==> !exists k :: 0 <= k < |chars| && Alike(chars[k], s[0], fl)) && Matches(q, s[1..], fl)
  {
    hide Matches, SameLetter;
    var items := Singles(chars);
    assert forall k :: 0 <= k < |chars| ==> Listed(chars[k], fl);
    SinglesWritten(chars, fl);
    var m: CString := mark;
    assert "[" + m + chars + "]" + q == Bracket(mark, items, fl) + q;
    BracketLaw(mark, items, q, s, fl);
    if s != "" {
      forall k | 0 <= k < |chars| ensures InItem(items[k], s[0], fl) <==> Alike(chars[k], s[0], fl) {
        SameIsAlike(s[0], chars[k], fl);
      }
    }
  }

  /** The character is in the range; without regard to case, so is it as a small letter in
      the range of small letters. */
  predicate Between(lo: char, hi: char, c: char, fl: Flags) {
    || Code(lo) <= Code(c) <= Code(hi)
    || (fl.caseBlind && Code(Lower(lo)) <= Code(Lower(c)) <= Code(Lower(hi)))
  }

  /** "[a-z]", "[!a-z]" and "[^a-z]" */
  lemma RangeLaw(mark: string, lo: char, hi: char, q: CString, s: CString, fl: Flags)
    requires mark in {"", "!", "^"} && IsByte(lo) && IsByte(hi) && lo !in "]\\!^" && hi !in "]\\!^" && !fl.period
    requires fl.pathname ==> lo != '/' && hi != '/'
    ensures var m: CString := mark;
            Matches("[" + m + [lo, '-', hi] + "]" + q, s, fl) <==>
              && s != "" && !(fl.pathname && s[0] == '/')
              && (mark != "" <==> !Between(lo, hi, s[0], fl)) && Matches(q, s[1..], fl)
  {
    hide Matches, Code, Lower;
    var item := Range(lo, hi);
    var m: CString := mark;
    assert Writable(item, fl) && [item][1..] == [];
    assert Written([item], fl) == [lo, '-', hi] + Written([], fl) == [lo, '-', hi];
    assert "[" + m + [lo, '-', hi] + "]" + q == Bracket(mark, [item], fl) + q;
    BracketLaw(mark, [item], q, s, fl);
    if s != "" { assert InItem([item][0], s[0], fl) <==> Between(lo, hi, s[0], fl); }
  }

  /** One range and one character. */
  lemma RangeExactly(lo: char, hi: char, c: char)
    requires IsByte(lo) && IsByte(hi) && IsByte(c) && lo !in "]\\!^" && hi !in "]\\!^"
    ensures Matches(['[', lo, '-', hi, ']'], [c], NO_FLAGS) <==> Code(lo) <= Code(c) <= Code(hi)
    ensures Matches(['[', '!', lo, '-', hi, ']'], [c], NO_FLAGS) <==> !(Code(lo) <= Code(c) <= Code(hi))
    ensures Matches(['[', '^', lo, '-', hi, ']'], [c], NO_FLAGS) <==> !(Code(lo) <= Code(c) <= Code(hi))
  {
    hide Matches, Code, Lower;
    var s: CString := [c];
    assert s[1..] == "";
    EmptyLaw("", NO_FLAGS);
    forall mark | mark in {"", "!", "^"}
      ensures var m: CString := mark;
              Matches("[" + m + [lo, '-', hi] + "]", s, NO_FLAGS) <==> (mark != "" <==> !Between(lo, hi, c, NO_FLAGS))
    {
      var m: CString := mark;
      assert "[" + m + [lo, '-', hi] + "]" + "" == "[" + m + [lo, '-', hi] + "]";
      RangeLaw(mark, lo, hi, "", s, NO_FLAGS);
    }
    assert "[" + "" + [lo, '-', hi] + "]" == ['[', lo, '-', hi, ']'];
    assert "[" + "!" + [lo, '-', hi] + "]" == ['[', '!', lo, '-', hi, ']'];
    assert "[" + "^" + [lo, '-', hi] + "]" == ['[', '^', lo, '-', hi, ']'];
  }

  /** Ranges of ASCII characters, and of letters without regard to case. */
  lemma BetweenIs(lo: char, hi: char, c: char, fl: Flags)
    requires lo as int < 128 && hi as int < 128 && c as int < 128
    ensures !fl.caseBlind ==> (Between(lo, hi, c, fl) <==> lo <= c <= hi)
    ensures forall i: nat, j: nat, k: nat ::
      fl.caseBlind && i < 26 && j < 26 && k < 26 && IsLetter(lo, i) && IsLetter(hi, j) && IsLetter(c, k) ==>
        (Between(lo, hi, c, fl) <==> i <= k <= j || lo <= c <= hi)
  {
    Letters();
  }

  // ---------- leading periods ----------

  lemma {:induction false} ItemsSame(p: CString, i: nat, fl: Flags)
    requires i <= |p|
    ensures ParseItems(p, i, fl.(period := false)) == ParseItems(p, i, fl)
    decreases |p| - i, 1
  {
    if i == |p| || p[i] == ']' {
    } else {
      var k := if !fl.noescape && p[i] == '\\' then i + 1 else i;
      if k == |p| || (fl.pathname && p[k] == '/') {
      } else {
        ItemSame(p, k, fl);
      }
    }
  }

  lemma {:induction false} ItemSame(p: CString, k: nat, fl: Flags)
    requires k < |p|
    ensures ParseItem(p, k, fl.(period := false)) == ParseItem(p, k, fl)
    decreases |p| - k, 0
  {
    hide Cons;
    if At(p, k + 1) == '-' && At(p, k + 2) != ']' {
      var h := if !fl.noescape && At(p, k + 2) == '\\' then k + 3 else k + 2;
      if At(p, h) == '\0' || (fl.pathname && p[h] == '/') {
      } else {
        ItemsSame(p, h + 1, fl);
      }
    } else {
      ItemsSame(p, k + 1, fl);
    }
  }

  lemma NextSame(p: CString, i: nat, fl: Flags)
    requires i < |p|
    ensures Next(p, i, fl.(period := false)) == Next(p, i, fl)
  {
    hide ParseItems, ParseItem;
    if p[i] == '[' {
      var k := ListStart(p, i);
      if At(p, k) == ']' { ItemSame(p, k, fl); } else { ItemsSame(p, k, fl); }
    }
  }

  /** No period begins a segment after `j`. */
  predicate NoneLeads(s: CString, j: nat, fl: Flags) {
    forall k :: j < k < |s| && s[k] == '.' ==> !(fl.pathname && s[k - 1] == '/')
  }

  lemma {:induction false} PeriodUnused(p: CString, i: nat, s: CString, j: nat, start: bool, fl: Flags)
    requires i <= |p| && j <= |s| && NoneLeads(s, j, fl) && !(start && At(s, j) == '.')
    ensures Run(p, i, s, j, start, fl.(period := false)) == Run(p, i, s, j, start, fl)
    decreases |p| - i + |s| - j
  {
    hide Next;
    if i == |p| {
    } else {
      NextSame(p, i, fl);
      var (t, n) := Next(p, i, fl);
      match t
      case Star =>
        PeriodUnused(p, n, s, j, false, fl);
        if j < |s| { PeriodUnused(p, i, s, j + 1, false, fl); }
      case Slash =>
        SlashTokens(p, i, fl);
        if j < |s| && s[j] == '/' { PeriodUnused(p, n, s, j + 1, true, fl); }
      case _ =>
        if j < |s| {
          AcceptsSame(t, s[j], fl);
          PeriodUnused(p, n, s, j + 1, false, fl);
        }
    }
  }

  lemma AcceptsSame(t: Token, c: char, fl: Flags)
    requires OneChar(t)
    ensures Accepts(t, c, fl.(period := false)) == Accepts(t, c, fl)
  {
    hide SameChar;
    assert forall d: char :: SameChar(c, d, fl.(period := false)) == SameChar(c, d, fl) by { SameCharSame(c, fl); }
    if t.Class? {
      forall k | 0 <= k < |t.items| ensures InItem(t.items[k], c, fl.(period := false)) == InItem(t.items[k], c, fl) { }
    }
  }

  lemma SameCharSame(c: char, fl: Flags)
    ensures forall d: char :: SameChar(c, d, fl.(period := false)) == SameChar(c, d, fl)
  {
  }

  lemma SlashTokens(p: CString, i: nat, fl: Flags)
    requires i < |p| && Next(p, i, fl).0 == Slash
    ensures fl.pathname
  {
  }

  /** PERIOD changes nothing where no period begins the string, or a segment of it. */
  lemma PeriodLaw(p: CString, s: CString, fl: Flags)
    requires At(s, 0) != '.' && NoneLeads(s, 0, fl)
    ensures Matches(p, s, fl) <==> Matches(p, s, fl.(period := false))
  {
    hide Run;
    PeriodUnused(p, 0, s, 0, true, fl);
    RunIsMatch(p, s, fl);
    RunIsMatch(p, s, fl.(period := false));
  }

  /** With PERIOD a string that begins with a period takes a pattern that does. */
  lemma LeadingLaw(p: CString, s: CString, fl: Flags)
    requires fl.period && At(s, 0) == '.' && Matches(p, s, fl)
    ensures At(p, 0) == '.' || (!fl.noescape && At(p, 0) == '\\' && At(p, 1) == '.')
  {
    RunIsMatch(p, s, fl);
    hide ParseItems, ParseItem, Matches, Parse;
  }

  /** After it, or after any other character that is not special, the rest is matched alike;
      after a slash with PATHNAME, like a string of its own. */
  lemma AfterLeading(c: char, q: CString, t: CString, fl: Flags)
    requires IsByte(c) && c !in "*?[/\\"
    ensures Matches("." + q, "." + t, fl) <==> Matches([c] + q, [c] + t, fl)
    ensures fl.pathname ==> (Matches("/" + q, "/" + t, fl) <==> Matches(q, t, fl))
  {
    hide Matches;
    OwnChar('.', q, t, fl);
    OwnChar(c, q, t, fl);
    RunIsMatch("/" + q, "/" + t, fl);
    RunIsMatch(q, t, fl);
    RunShift("/", q, 0, "/", t, 0, true, fl);
    assert ("/" + q)[0] == '/' && ("/" + t)[0] == '/';
  }

  lemma OwnChar(c: char, q: CString, t: CString, fl: Flags)
    requires IsByte(c) && c !in "*?[/\\"
    ensures Matches([c] + q, [c] + t, fl) <==> Run(q, 0, t, 0, false, fl)
  {
    hide Matches;
    RunIsMatch([c] + q, [c] + t, fl);
    RunShift([c], q, 0, [c], t, 0, false, fl);
    assert ([c] + q)[0] == c && ([c] + t)[0] == c;
  }
}
