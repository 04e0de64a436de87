/** snake_case field names in text: greedy matches first, their edges afterwards. A text is the
    string of its bytes. */
module FieldKeys {
  import opened Runes
  import opened Text
  import opened Grammar

  const LOWER := One(Between('a', 'z'))
  const LOWERS := Cat(LOWER, Star(LOWER))
  const PART_RUNE := Alt(LOWER, One(Digit))
  const PART := Cat(One(OneOf("_")), Cat(PART_RUNE, Star(PART_RUNE)))
  const PARTS := Cat(PART, Star(PART))
  /** [a-z]+(?:_[a-z0-9]+)+ */
  const KEY := Cat(LOWERS, PARTS)

  predicate IsLower(c: char) {
    'a' <= c <= 'z'
  }

  predicate IsPartRune(c: char) {
    IsLower(c) || IsDigit(c)
  }

  predicate IsWordByte(c: char) {
    c == '_' || IsLower(c) || 'A' <= c <= 'Z' || IsDigit(c)
  }

  /** The byte left of i, or '\0' where there is none. */
  function ByteBefore(text: string, i: int): char {
    if 0 < i <= |text| then text[i - 1] else '\0'
  }

  function ByteAt(text: string, i: int): char {
    if 0 <= i < |text| then text[i] else '\0'
  }

  /** The bytes next to the key do not belong to a longer name, address or path. */
  predicate StandaloneKey(text: string, i: int, e: int) {
    var before, after := ByteBefore(text, i), ByteAt(text, e);
    && !IsWordByte(before) && before != '.' && before != '@' && before != '/' && before != '-'
    && !IsWordByte(after) && after != '@' && after != '/' && after != '-'
  }

  predicate FileExtension(text: string, e: int) {
    ByteAt(text, e) == '.' && IsLower(ByteAt(text, e + 1))
  }

  /** What the frontend's pattern with lookaround matches. */
  ghost predicate Acceptable(t: Tables, text: string, i: int, e: int) {
    Match(t, KEY, text, i, e) && StandaloneKey(text, i, e) && !FileExtension(text, e)
  }

  // ----- the greedy end of a key -----

  function LowersEnd(text: string, i: int): (e: int)
    requires 0 <= i <= |text|
    ensures i <= e <= |text| && (forall k :: i <= k < e ==> IsLower(text[k])) && (e < |text| ==> !IsLower(text[e]))
    decreases |text| - i
  {
    if i < |text| && IsLower(text[i]) then LowersEnd(text, i + 1) else i
  }

  function PartEnd(text: string, i: int): (e: int)
    requires 0 <= i <= |text|
    ensures i <= e <= |text| && forall k :: i <= k < e ==> IsPartRune(text[k])
    ensures e < |text| ==> !IsPartRune(text[e])
    decreases |text| - i
  {
    if i < |text| && IsPartRune(text[i]) then PartEnd(text, i + 1) else i
  }

  function PartsEnd(text: string, i: int): (e: int)
    requires 0 <= i <= |text|
    ensures i <= e <= |text|
    decreases |text| - i
  {
    if ByteAt(text, i) == '_' && IsPartRune(ByteAt(text, i + 1)) then PartsEnd(text, PartEnd(text, i + 1)) else i
  }

  /** Where a greedy match at i ends, or -1. */
  function KeyEnd(text: string, i: int): (e: int)
    requires 0 <= i <= |text|
    ensures e == -1 || i < e <= |text|
  {
    var l := LowersEnd(text, i);
    if i < l && l < PartsEnd(text, l) then PartsEnd(text, l) else -1
  }

  lemma {:induction false} RunMatch(t: Tables, one: Re, p: char -> bool, text: string, i: int, e: int)
    requires forall k, m :: Match(t, one, text, k, m) <==> 0 <= k < |text| && m == k + 1 && p(text[k])
    ensures Match(t, Star(one), text, i, e) <==> 0 <= i <= e <= |text| && forall k :: i <= k < e ==> p(text[k])
    decreases e - i
  {
    if 0 <= i < e <= |text| {
      RunMatch(t, one, p, text, i + 1, e);
      if p(text[i]) { assert Match(t, one, text, i, i + 1); }
    }
  }

  lemma LowersMatch(t: Tables, text: string, i: int, e: int)
    ensures Match(t, LOWERS, text, i, e) <==> 0 <= i < e <= |text| && forall k :: i <= k < e ==> IsLower(text[k])
  {
    forall k, m ensures Match(t, LOWER, text, k, m) <==> 0 <= k < |text| && m == k + 1 && IsLower(text[k]) {}
    RunMatch(t, LOWER, IsLower, text, i + 1, e);
    if 0 <= i < e <= |text| && IsLower(text[i]) { assert Match(t, LOWER, text, i, i + 1); }
  }

  predicate IsPart(text: string, i: int, e: int) {
    0 <= i && i + 1 < e <= |text| && text[i] == '_' && forall k :: i < k < e ==> IsPartRune(text[k])
  }

  lemma PartMatch(t: Tables, text: string, i: int, e: int)
    ensures Match(t, PART, text, i, e) <==> IsPart(text, i, e)
  {
    forall k, m ensures Match(t, PART_RUNE, text, k, m) <==> 0 <= k < |text| && m == k + 1 && IsPartRune(text[k]) {
      assert Match(t, LOWER, text, k, m) <==> 0 <= k < |text| && m == k + 1 && IsLower(text[k]);
      assert Match(t, One(Digit), text, k, m) <==> 0 <= k < |text| && m == k + 1 && IsDigit(text[k]);
    }
    RunMatch(t, PART_RUNE, IsPartRune, text, i + 2, e);
    var run := Cat(PART_RUNE, Star(PART_RUNE));
    if Match(t, PART, text, i, e) {
      var m := CatSplit(t, One(OneOf("_")), run, text, i, e);
      var n := CatSplit(t, PART_RUNE, Star(PART_RUNE), text, m, e);
    }
    if IsPart(text, i, e) {
      assert Match(t, PART_RUNE, text, i + 1, i + 2);
      CatJoin(t, PART_RUNE, Star(PART_RUNE), text, i + 1, i + 2, e);
      assert Match(t, One(OneOf("_")), text, i, i + 1);
      CatJoin(t, One(OneOf("_")), run, text, i, i + 1, e);
    }
  }

  // ----- the greedy end is the longest -----

  lemma {:induction false} PartsBound(t: Tables, text: string, i: int, e: int)
    requires Match(t, Star(PART), text, i, e)
    ensures 0 <= i <= |text| && e <= PartsEnd(text, i)
    decreases e - i
  {
    if i < e {
      var m :| i < m <= e && Match(t, PART, text, i, m) && Match(t, Star(PART), text, m, e);
      PartMatch(t, text, i, m);
      PartsBound(t, text, m, e);
      PartContinues(text, i, m);
    }
  }

  lemma PartContinues(text: string, i: int, m: int)
    requires IsPart(text, i, m)
    ensures PartsEnd(text, m) <= PartsEnd(text, i)
  {
    assert text[i + 1] == ByteAt(text, i + 1);
    assert m <= PartEnd(text, i + 1);
    if m < PartEnd(text, i + 1) { assert PartsEnd(text, m) == m; }
  }

  lemma {:induction false} PartsReach(t: Tables, text: string, i: int)
    requires 0 <= i <= |text|
    ensures Match(t, Star(PART), text, i, PartsEnd(text, i))
    decreases |text| - i
  {
    if ByteAt(text, i) == '_' && IsPartRune(ByteAt(text, i + 1)) {
      var m := PartEnd(text, i + 1);
      PartMatch(t, text, i, m);
      PartsReach(t, text, m);
    }
  }

  lemma PartsMatch(t: Tables, text: string, i: int, e: int)
    ensures Match(t, PARTS, text, i, e) ==> 0 <= i < e <= PartsEnd(text, i) && text[i] == '_'
    ensures 0 <= i <= |text| && e == PartsEnd(text, i) > i ==> Match(t, PARTS, text, i, e)
  {
    if Match(t, PARTS, text, i, e) {
      var m := CatSplit(t, PART, Star(PART), text, i, e);
      PartMatch(t, text, i, m);
      PartsBound(t, text, m, e);
      PartContinues(text, i, m);
    }
    if 0 <= i <= |text| && e == PartsEnd(text, i) > i {
      var m := PartEnd(text, i + 1);
      PartMatch(t, text, i, m);
      PartsReach(t, text, m);
      CatJoin(t, PART, Star(PART), text, i, m, e);
    }
  }

  lemma KeyEndIs(t: Tables, text: string, i: int)
    requires 0 <= i <= |text|
    ensures KeyEnd(text, i) == LongestEnd(t, KEY, text, i)
    ensures forall e :: Match(t, KEY, text, i, e) ==> i < e <= KeyEnd(text, i)
  {
    var l := LowersEnd(text, i);
    forall e | Match(t, KEY, text, i, e) ensures i < e <= KeyEnd(text, i) {
      var m := CatSplit(t, LOWERS, PARTS, text, i, e);
      LowersMatch(t, text, i, m);
      PartsMatch(t, text, m, e);
      assert m == l;
    }
    if KeyEnd(text, i) != -1 {
      LowersMatch(t, text, i, l);
      PartsMatch(t, text, l, KeyEnd(text, i));
      CatJoin(t, LOWERS, PARTS, text, i, l, KeyEnd(text, i));
    }
  }

  // ----- edges -----

  lemma KeyBytes(t: Tables, text: string, i: int, e: int)
    requires Match(t, KEY, text, i, e)
    ensures 0 <= i < e <= |text| && forall k :: i <= k < e ==> IsWordByte(text[k])
  {
    assert Allows(t, LOWER, IsWordByte) && Allows(t, One(Digit), IsWordByte);
    assert Allows(t, LOWERS, IsWordByte) && Allows(t, PART_RUNE, IsWordByte);
    assert Allows(t, Cat(PART_RUNE, Star(PART_RUNE)), IsWordByte);
    assert Allows(t, PART, IsWordByte);
    assert Allows(t, PARTS, IsWordByte);
    MatchedRunes(t, KEY, IsWordByte, text, i, e);
    KeyEndIs(t, text, i);
  }

  /** \w */
  predicate IsNameByte(c: char) {
    'a' <= c <= 'z' || 'A' <= c <= 'Z' || '0' <= c <= '9' || c == '_'
  }

  /** The lookaround: not after [\w.@/-], and not before [\w@/-] or a dot and a lower-case letter. */
  predicate IsFree(text: string, i: int, e: int)
    requires 0 <= i <= e <= |text|
  {
    && (i > 0 ==> !IsNameByte(text[i - 1]) && text[i - 1] !in {'.', '@', '/', '-'})
    && (e < |text| ==> !IsNameByte(text[e]) && text[e] !in {'@', '/', '-'})
    && !(e + 1 < |text| && text[e] == '.' && 'a' <= text[e + 1] <= 'z')
  }

  /** A key is dropped where it matches and its neighbours belong to no longer name, address, path or file. */
  lemma AcceptableIs(t: Tables, text: string, i: int, e: int)
    ensures Acceptable(t, text, i, e) <==> Match(t, KEY, text, i, e) && 0 <= i <= e <= |text| && IsFree(text, i, e)
  {
    if Match(t, KEY, text, i, e) {
      KeyBytes(t, text, i, e);
      assert StandaloneKey(text, i, e) && !FileExtension(text, e) <==> IsFree(text, i, e);
    }
  }

  /** With its edges a key has one end, the greedy one. */
  lemma AcceptableEnd(t: Tables, text: string, i: int, e: int)
    requires Acceptable(t, text, i, e)
    ensures 0 <= i <= |text| && e == KeyEnd(text, i)
  {
    KeyEndIs(t, text, i);
    KeyBytes(t, text, i, KeyEnd(text, i));
    assert e < KeyEnd(text, i) ==> IsWordByte(ByteAt(text, e));
  }

  /** No acceptable key starts inside a match, kept or rejected. */
  lemma AcceptableStart(t: Tables, text: string, i: int, e: int, i': int, e': int)
    requires Match(t, KEY, text, i, e) && Acceptable(t, text, i', e') && i < i'
    ensures e <= i'
  {
    KeyBytes(t, text, i, e);
    KeyBytes(t, text, i', e');
    assert i' < e ==> IsWordByte(ByteBefore(text, i'));
  }

  /** Where the pattern with lookaround matches, longest first at each place. */
  ghost function AcceptableUpTo(t: Tables, text: string, i: int, e: int): (end: int)
    requires 0 <= i <= |text| && e <= |text|
    ensures end == -1 || (i < end <= e && Acceptable(t, text, i, end))
    ensures forall k :: i < k <= e && Acceptable(t, text, i, k) ==> k <= end
    decreases e - i
  {
    if e <= i then -1 else if Acceptable(t, text, i, e) then e else AcceptableUpTo(t, text, i, e - 1)
  }

  ghost function AcceptableEnds(t: Tables, text: string): (ends: seq<int>)
    ensures AreEnds(text, ends)
  {
    seq(|text| + 1, i requires 0 <= i <= |text| => AcceptableUpTo(t, text, i, |text|))
  }

  lemma AcceptableEndIs(t: Tables, text: string, i: int)
    requires 0 <= i <= |text|
    ensures var e := KeyEnd(text, i);
            AcceptableEnds(t, text)[i] ==
            if e != -1 && StandaloneKey(text, i, e) && !FileExtension(text, e) then e else -1
  {
    KeyEndIs(t, text, i);
    var end, e := AcceptableEnds(t, text)[i], KeyEnd(text, i);
    assert e != -1 && StandaloneKey(text, i, e) && !FileExtension(text, e) ==> Acceptable(t, text, i, e);
    if end != -1 { AcceptableEnd(t, text, i, end); }
  }

  lemma NoneInside(t: Tables, text: string, i: int, e: int)
    requires 0 <= i < |text| && e == KeyEnd(text, i) != -1
    ensures forall k :: i < k < e ==> AcceptableEnds(t, text)[k] == -1
  {
    KeyEndIs(t, text, i);
    forall k | i < k < e ensures AcceptableEnds(t, text)[k] == -1 {
      var end := AcceptableEnds(t, text)[k];
      if end != -1 { AcceptableStart(t, text, i, e, k, end); }
    }
  }

  // ----- the scan -----

  /** The leftmost greedy matches from i on, none overlapping the last. */
  function AllKeys(text: string, i: int): seq<(int, int)>
    requires 0 <= i <= |text|
    decreases |text| - i
  {
    if i == |text| then []
    else if KeyEnd(text, i) != -1 then [(i, KeyEnd(text, i))] + AllKeys(text, KeyEnd(text, i))
    else AllKeys(text, i + 1)
  }

  lemma FoundKey(text: string, i: int, rest: seq<(int, int)>)
    requires 0 <= i < |text| && KeyEnd(text, i) != -1
    ensures rest + AllKeys(text, i) == (rest + [(i, KeyEnd(text, i))]) + AllKeys(text, KeyEnd(text, i))
  {}

  method FindAll(text: string) returns (matches: seq<(int, int)>)
    ensures matches == AllKeys(text, 0)
  {
    matches := [];
    var i := 0;
    while i < |text|
      invariant 0 <= i <= |text| && matches + AllKeys(text, i) == AllKeys(text, 0)
    {
      var end := KeyEnd(text, i);
      if end != -1 {
        FoundKey(text, i, matches);
        matches := matches + [(i, end)];
        i := end;
      } else {
        i := i + 1;
      }
    }
  }

  predicate NoneBetween(ends: seq<int>, i: int, e: int)
    requires 0 <= i <= e <= |ends|
  {
    forall k :: i <= k < e ==> ends[k] == -1
  }

  /** The next match in the list is the next place from i on where a key may stand. */
  predicate Leads(text: string, ends: seq<int>, i: int, keys: seq<(int, int)>)
    requires 0 <= i <= |text| < |ends|
  {
    if keys == [] then NoneBetween(ends, i, |text|)
    else
      var (s, e) := keys[0];
      && i <= s < e <= |text| && e == KeyEnd(text, s) && keys[1..] == AllKeys(text, e)
      && NoneBetween(ends, i, s) && NoneBetween(ends, s + 1, e)
  }

  lemma LeadsBack(text: string, ends: seq<int>, i: int, keys: seq<(int, int)>)
    requires 0 <= i < |text| < |ends| && ends[i] == -1 && Leads(text, ends, i + 1, keys)
    ensures Leads(text, ends, i, keys)
  {}

  lemma LeadsAt(t: Tables, text: string, i: int)
    requires 0 <= i < |text| && KeyEnd(text, i) != -1
    ensures Leads(text, AcceptableEnds(t, text), i, AllKeys(text, i))
  {
    NoneInside(t, text, i, KeyEnd(text, i));
  }

  lemma {:induction false} NextKey(t: Tables, text: string, i: int)
    requires 0 <= i <= |text|
    ensures Leads(text, AcceptableEnds(t, text), i, AllKeys(text, i))
    decreases |text| - i
  {
    if i < |text| {
      if KeyEnd(text, i) != -1 {
        LeadsAt(t, text, i);
      } else {
        AcceptableEndIs(t, text, i);
        NextKey(t, text, i + 1);
        LeadsBack(text, AcceptableEnds(t, text), i, AllKeys(text, i + 1));
      }
    }
  }

  /** What is left of the text from last on when no match starts before p. */
  lemma SkipTo(text: string, ends: seq<int>, last: int, p: int, out: string)
    requires AreEnds(text, ends) && 0 <= last <= p <= |text| && NoneBetween(ends, last, p)
    ensures out + Splice(Drop, text, ends, last) == (out + text[last..p]) + Splice(Drop, text, ends, p)
  {
    SplicePlain(Drop, text, ends, last, p);
    Associate(out, text[last..p], Splice(Drop, text, ends, p));
  }

  lemma DropFrom(text: string, ends: seq<int>, last: int, s: int, out: string)
    requires AreEnds(text, ends) && 0 <= last <= s < |text| && NoneBetween(ends, last, s) && ends[s] != -1
    ensures out + Splice(Drop, text, ends, last) == (out + text[last..s]) + Splice(Drop, text, ends, ends[s])
  {
    SkipTo(text, ends, last, s, out);
    DropStep(text, ends, s, out + text[last..s]);
  }

  /** What the replacement loop keeps: out and the text from last on give the whole result, the matches
      from p on are still to come, and none between last and p stands alone. */
  ghost predicate Kept(
    t: Tables, text: string, keys: seq<(int, int)>, last: int, p: int, out: string) {
    var ends := AcceptableEnds(t, text);
    && 0 <= last <= p <= |text| && keys == AllKeys(text, p) && NoneBetween(ends, last, p)
    && out + Splice(Drop, text, ends, last) == Splice(Drop, text, ends, 0)
  }

  lemma KeyRejected(text: string, ends: seq<int>, last: int, i: int, s: int, e: int)
    requires 0 <= last <= i <= s < e <= |text| < |ends| && ends[s] == -1
    requires NoneBetween(ends, last, i) && NoneBetween(ends, i, s) && NoneBetween(ends, s + 1, e)
    ensures NoneBetween(ends, last, e)
  {}

  lemma KeyAhead(t: Tables, text: string, keys: seq<(int, int)>, last: int, p: int, out: string)
    requires Kept(t, text, keys, last, p, out) && keys != []
    ensures var (s, e) := keys[0];
            && last <= s < e <= |text|
            && if StandaloneKey(text, s, e) && !FileExtension(text, e)
               then Kept(t, text, keys[1..], e, e, out + text[last..s])
               else Kept(t, text, keys[1..], last, e, out)
  {
    var (s, e) := keys[0];
    var ends := AcceptableEnds(t, text);
    NextKey(t, text, p);
    AcceptableEndIs(t, text, s);
    if ends[s] == e { DropFrom(text, ends, last, s, out); } else { KeyRejected(text, ends, last, p, s, e); }
  }

  lemma NoKeyAhead(t: Tables, text: string, last: int, p: int, out: string)
    requires Kept(t, text, [], last, p, out)
    ensures out + text[last..] == Splice(Drop, text, AcceptableEnds(t, text), 0)
  {
    NextKey(t, text, p);
    SkipTo(text, AcceptableEnds(t, text), last, |text|, out);
  }

  /** Drops the keys whose edges stand alone: greedy matches first, then the filter. The text that is
      left is what the pattern with lookaround leaves. */
  method ReplaceMatches(t: Tables, text: string) returns (out: string)
    ensures out == Splice(Drop, text, AcceptableEnds(t, text), 0)
  {
    var matches := FindAll(text);
    out := "";
    var last, k := 0, 0;
    ghost var p := 0;
    while k < |matches|
      invariant 0 <= k <= |matches| && Kept(t, text, matches[k..], last, p, out)
    {
      var (s, e) := matches[k];
      KeyAhead(t, text, matches[k..], last, p, out);
      k, p := k + 1, e;
      if !StandaloneKey(text, s, e) || FileExtension(text, e) {
        continue;
      }
      out := out + text[last..s];
      last := e;
    }
    NoKeyAhead(t, text, last, p, out);
    out := out + text[last..];
  }
}
