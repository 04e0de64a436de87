/** A bracketed list of IDs: one step of its grammar at a time, and why the scanner never goes back. */
module ListGrammar {
  import opened Runes
  import opened Grammar
  import opened ReferenceGrammar

  predicate IsSeparator(c: char) {
    c == ',' || c == ';' || c == '/' || SameLetter(c, 'и')
  }

  /** After an item ending at q: a separator and an item ending at m. */
  ghost predicate MoreAt(t: Tables, item: Re, r: string, q: int, m: int)
    requires 0 <= q <= |r|
  {
    var c := SpacesEnd(r, q);
    c < |r| && IsSeparator(r[c]) && Match(t, item, r, SpacesEnd(r, c + 1), m)
  }

  /** After an item ending at q: the closing bracket just before e. */
  predicate ClosingAt(r: string, q: int, e: int)
    requires 0 <= q <= |r|
  {
    var c := SpacesEnd(r, q);
    c < |r| && (r[c] == ')' || r[c] == ']') && e == c + 1
  }

  lemma ItemIsNoSpace(t: Tables, r: string, i: int, e: int)
    requires Faithful(t) && Match(t, Item(t), r, i, e)
    ensures i < e && !IsSpace(r[i])
  {
    ItemSound(t, r, i, e);
    if IsRef(t, r, i, e) {
      RefRunes(t, r, i, e);
    } else {
      var s :| LabelReaches(t, r, i, s) && IsRef(t, r, s, e);
      var l :| IsLabel(t, r, i, l) && Spaces(r, l, s);
      LabelRunes(t, r, i, l);
    }
  }

  /** An item may end in two places only around a dot. */
  lemma ItemEnds(t: Tables, r: string, i: int, e: int, longer: int)
    requires Faithful(t) && Match(t, Item(t), r, i, e) && Match(t, Item(t), r, i, longer) && e < longer
    ensures r[e] == '.'
  {
    ItemSound(t, r, i, e);
    ItemSound(t, r, i, longer);
    ItemEndsAroundDot(t, r, i, e, longer);
  }

  lemma SpacedMatch(t: Tables, re: Re, r: string, q: int, e: int)
    requires 0 <= q <= |r| && StartsDark(t, re, r, e)
    ensures Match(t, Cat(SPACES, re), r, q, e) <==> Match(t, re, r, SpacesEnd(r, q), e)
  {
    if Match(t, Cat(SPACES, re), r, q, e) {
      var c := CatSplit(t, SPACES, re, r, q, e);
      SpacesMatch(t, r, q, c);
      assert c == SpacesEnd(r, q);
    }
    if Match(t, re, r, SpacesEnd(r, q), e) {
      SpacesMatch(t, r, q, SpacesEnd(r, q));
      CatJoin(t, SPACES, re, r, q, SpacesEnd(r, q), e);
    }
  }

  ghost predicate IsOne(t: Tables, re: Re, p: char -> bool, r: string) {
    forall k, m :: Match(t, re, r, k, m) <==> 0 <= k < |r| && m == k + 1 && p(r[k])
  }

  lemma OneThenMatch(t: Tables, one: Re, p: char -> bool, re: Re, r: string, q: int, e: int)
    requires IsOne(t, one, p, r)
    ensures Match(t, Cat(one, re), r, q, e) <==> 0 <= q < |r| && p(r[q]) && Match(t, re, r, q + 1, e)
  {
    if Match(t, Cat(one, re), r, q, e) {
      var m := CatSplit(t, one, re, r, q, e);
    }
    if 0 <= q < |r| && p(r[q]) && Match(t, re, r, q + 1, e) {
      assert Match(t, one, r, q, q + 1);
    }
  }

  /** Whitespace, one rune of a kind, whitespace, and then re. */
  lemma MarkedMatch(t: Tables, one: Re, p: char -> bool, re: Re, r: string, q: int, e: int)
    requires 0 <= q <= |r| && StartsDark(t, re, r, e)
    requires IsOne(t, one, p, r) && forall c :: p(c) ==> !IsSpace(c)
    ensures Match(t, Cat(SPACES, Cat(one, Cat(SPACES, re))), r, q, e) <==>
            var c := SpacesEnd(r, q); c < |r| && p(r[c]) && Match(t, re, r, SpacesEnd(r, c + 1), e)
  {
    var c, tail := SpacesEnd(r, q), Cat(SPACES, re);
    forall k ensures Match(t, Cat(one, tail), r, k, e) <==> 0 <= k < |r| && p(r[k]) && Match(t, tail, r, k + 1, e) {
      OneThenMatch(t, one, p, tail, r, k, e);
    }
    SpacedMatch(t, Cat(one, tail), r, q, e);
    if c < |r| { SpacedMatch(t, re, r, c + 1, e); }
  }

  /** Items are not empty and start with no whitespace. */
  ghost predicate Items(t: Tables, item: Re, r: string) {
    forall k, e :: Match(t, item, r, k, e) ==> k < e && !IsSpace(r[k])
  }

  lemma ItemsAre(t: Tables, r: string)
    requires Faithful(t)
    ensures Items(t, Item(t), r)
  {
    forall k, e | Match(t, Item(t), r, k, e) ensures k < e && !IsSpace(r[k]) { ItemIsNoSpace(t, r, k, e); }
  }

  lemma SeparatorIsOne(t: Tables, r: string)
    ensures IsOne(t, SEPARATOR, IsSeparator, r)
  {
    forall k, m ensures Match(t, SEPARATOR, r, k, m) <==> 0 <= k < |r| && m == k + 1 && IsSeparator(r[k]) {
      assert Match(t, One(OneOf(",;/")), r, k, m) <==> 0 <= k < |r| && m == k + 1 && r[k] in ",;/";
      assert Match(t, One(Fold('и')), r, k, m) <==> 0 <= k < |r| && m == k + 1 && SameLetter(r[k], 'и');
    }
  }

  lemma SeparatorIsDark(t: Tables)
    requires Faithful(t)
    ensures forall c :: IsSeparator(c) ==> !IsSpace(c)
  {
    assert IsLowerLetter('и');
  }

  lemma MoreMatch(t: Tables, item: Re, r: string, q: int, m: int)
    requires Faithful(t) && Items(t, item, r) && 0 <= q <= |r|
    ensures Match(t, More(item), r, q, m) <==> MoreAt(t, item, r, q, m)
  {
    SeparatorIsOne(t, r);
    SeparatorIsDark(t);
    MarkedMatch(t, SEPARATOR, IsSeparator, item, r, q, m);
  }

  lemma ClosingMatch(t: Tables, r: string, q: int, e: int)
    requires 0 <= q <= |r|
    ensures Match(t, CLOSING, r, q, e) <==> ClosingAt(r, q, e)
  {
    if Match(t, CLOSING, r, q, e) {
      var c := CatSplit(t, SPACES, One(OneOf(")]")), r, q, e);
      SpacesMatch(t, r, q, c);
      assert c == SpacesEnd(r, q);
    }
    if ClosingAt(r, q, e) {
      SpacesMatch(t, r, q, e - 1);
      CatJoin(t, SPACES, One(OneOf(")]")), r, q, e - 1, e);
    }
  }

  lemma RestStep(t: Tables, item: Re, r: string, q: int, e: int)
    requires Faithful(t) && Items(t, item, r) && 0 <= q <= |r|
    ensures Match(t, Rest(item), r, q, e) <==>
            ClosingAt(r, q, e) || exists m :: q < m <= |r| && MoreAt(t, item, r, q, m) && Match(t, Rest(item), r, m, e)
  {
    var more := More(item);
    if Match(t, Rest(item), r, q, e) {
      var k := CatSplit(t, Star(more), CLOSING, r, q, e);
      if k == q {
        ClosingMatch(t, r, q, e);
      } else {
        var m :| q < m <= k && Match(t, more, r, q, m) && Match(t, Star(more), r, m, k);
        MoreMatch(t, item, r, q, m);
        CatJoin(t, Star(more), CLOSING, r, m, k, e);
      }
    }
    if ClosingAt(r, q, e) {
      ClosingMatch(t, r, q, e);
      CatJoin(t, Star(more), CLOSING, r, q, q, e);
    }
    if m :| q < m <= |r| && MoreAt(t, item, r, q, m) && Match(t, Rest(item), r, m, e) {
      var k := CatSplit(t, Star(more), CLOSING, r, m, e);
      MoreMatch(t, item, r, q, m);
      assert Match(t, Star(more), r, q, k);
      CatJoin(t, Star(more), CLOSING, r, q, k, e);
    }
  }

  ghost predicate ListAt(t: Tables, item: Re, r: string, i: int, m: int)
    requires 0 <= i <= |r|
  {
    var o := SpacesEnd(r, i);
    o < |r| && IsOpening(r[o]) && Match(t, item, r, SpacesEnd(r, o + 1), m)
  }

  predicate IsOpening(c: char) {
    c == '(' || c == '['
  }

  lemma OpeningIsOne(t: Tables, r: string)
    ensures IsOne(t, One(OneOf("([")), IsOpening, r)
  {}

  lemma ListStep(t: Tables, item: Re, r: string, i: int, e: int)
    requires Faithful(t) && Items(t, item, r) && 0 <= i <= |r|
    ensures Match(t, Bracketed(item), r, i, e) <==>
            exists m :: i < m <= |r| && ListAt(t, item, r, i, m) && Match(t, Rest(item), r, m, e)
  {
    var entry := Cat(item, Rest(item));
    forall k | Match(t, entry, r, k, e) ensures k < |r| && !IsSpace(r[k]) {
      var m := CatSplit(t, item, Rest(item), r, k, e);
    }
    OpeningIsOne(t, r);
    MarkedMatch(t, One(OneOf("([")), IsOpening, entry, r, i, e);
    var o := SpacesEnd(r, i);
    if o < |r| && IsOpening(r[o]) {
      var b := SpacesEnd(r, o + 1);
      if Match(t, entry, r, b, e) {
        var m := CatSplit(t, item, Rest(item), r, b, e);
        assert ListAt(t, item, r, i, m);
      }
      if m :| i < m <= |r| && ListAt(t, item, r, i, m) && Match(t, Rest(item), r, m, e) {
        CatJoin(t, item, Rest(item), r, b, m, e);
      }
    }
  }

  /** Nothing continues a list after an ID cut short at its dot. */
  lemma DotEndsNoList(t: Tables, item: Re, r: string, q: int, e: int)
    requires Faithful(t) && Items(t, item, r) && 0 <= q < |r| && r[q] == '.'
    ensures !Match(t, Rest(item), r, q, e)
  {
    RestStep(t, item, r, q, e);
    assert SpacesEnd(r, q) == q;
    assert IsLowerLetter('и');
    Punctuation(t);
    assert !IsSeparator('.');
  }

  /** Two ends of one item differ only around a dot. */
  ghost predicate ItemsMeet(t: Tables, item: Re, r: string) {
    forall b, k, m :: Match(t, item, r, b, k) && Match(t, item, r, b, m) && k < m ==> r[k] == '.'
  }

  /** No end of an item before its longest continues a list. */
  lemma LongestItem(t: Tables, item: Re, r: string, b: int, k: int, e: int)
    requires Faithful(t) && Items(t, item, r) && ItemsMeet(t, item, r) && 0 <= b <= |r|
    requires Match(t, item, r, b, k) && Match(t, Rest(item), r, k, e)
    ensures k == Ends(t, item, r)[b]
  {
    EndsFact(t, item, r, b);
    if k < Ends(t, item, r)[b] { DotEndsNoList(t, item, r, k, e); }
  }

  lemma RestIsLonger(t: Tables, item: Re, r: string, q: int, e: int)
    requires Faithful(t) && Items(t, item, r) && Match(t, Rest(item), r, q, e)
    ensures q < e
  {
    var k := CatSplit(t, Star(More(item)), CLOSING, r, q, e);
    var c := CatSplit(t, SPACES, One(OneOf(")]")), r, k, e);
  }

  lemma SameLongest(t: Tables, re: Re, item: Re, r: string, i: int, m: int)
    requires Faithful(t) && Items(t, item, r) && 0 <= i < m <= |r|
    requires forall e :: Match(t, re, r, i, e) <==> Match(t, Rest(item), r, m, e)
    ensures Ends(t, re, r)[i] == Ends(t, Rest(item), r)[m]
  {
    EndsFact(t, Rest(item), r, m);
    var end := Ends(t, Rest(item), r)[m];
    if end == -1 {
      forall e ensures !Match(t, re, r, i, e) {
        if Match(t, Rest(item), r, m, e) { RestIsLonger(t, item, r, m, e); }
      }
      NoEnd(t, re, r, i);
    } else {
      forall e | Match(t, re, r, i, e) ensures e <= end { RestIsLonger(t, item, r, m, e); }
      EndIs(t, re, r, i, end);
    }
  }

  lemma ListStarts(t: Tables, item: Re, r: string, i: int)
    requires Faithful(t) && Items(t, item, r) && ItemsMeet(t, item, r) && 0 <= i <= |r|
    requires var o := SpacesEnd(r, i); o < |r| && IsOpening(r[o])
    ensures var m := Ends(t, item, r)[SpacesEnd(r, SpacesEnd(r, i) + 1)];
            Ends(t, Bracketed(item), r)[i] == if m == -1 then -1 else Ends(t, Rest(item), r)[m]
  {
    var b := SpacesEnd(r, SpacesEnd(r, i) + 1);
    var m := Ends(t, item, r)[b];
    EndsFact(t, item, r, b);
    forall e ensures Match(t, Bracketed(item), r, i, e) <==> m != -1 && Match(t, Rest(item), r, m, e) {
      ListStep(t, item, r, i, e);
      if k :| i < k <= |r| && ListAt(t, item, r, i, k) && Match(t, Rest(item), r, k, e) {
        LongestItem(t, item, r, b, k, e);
      }
      assert m != -1 ==> ListAt(t, item, r, i, m);
    }
    if m == -1 { NoEnd(t, Bracketed(item), r, i); } else { SameLongest(t, Bracketed(item), item, r, i, m); }
  }

  lemma NoListStarts(t: Tables, item: Re, r: string, i: int)
    requires Faithful(t) && Items(t, item, r) && 0 <= i <= |r|
    requires var o := SpacesEnd(r, i); o >= |r| || !IsOpening(r[o])
    ensures Ends(t, Bracketed(item), r)[i] == -1
  {
    forall e ensures !Match(t, Bracketed(item), r, i, e) { ListStep(t, item, r, i, e); }
    NoEnd(t, Bracketed(item), r, i);
  }

  lemma SeparatorNeverCloses(t: Tables)
    requires Faithful(t)
    ensures forall c :: IsSeparator(c) ==> c != ')' && c != ']'
  {
    assert IsLowerLetter('и');
    Punctuation(t);
  }

  lemma ListContinues(t: Tables, item: Re, r: string, q: int)
    requires Faithful(t) && Items(t, item, r) && ItemsMeet(t, item, r) && 0 <= q <= |r|
    requires var c := SpacesEnd(r, q);
             c < |r| && IsSeparator(r[c]) && Ends(t, item, r)[SpacesEnd(r, c + 1)] != -1
    ensures Ends(t, Rest(item), r)[q] == Ends(t, Rest(item), r)[Ends(t, item, r)[SpacesEnd(r, SpacesEnd(r, q) + 1)]]
  {
    SeparatorNeverCloses(t);
    var b := SpacesEnd(r, SpacesEnd(r, q) + 1);
    var m := Ends(t, item, r)[b];
    EndsFact(t, item, r, b);
    forall e ensures Match(t, Rest(item), r, q, e) <==> Match(t, Rest(item), r, m, e) {
      RestStep(t, item, r, q, e);
      if k :| q < k <= |r| && MoreAt(t, item, r, q, k) && Match(t, Rest(item), r, k, e) {
        LongestItem(t, item, r, b, k, e);
      }
      assert MoreAt(t, item, r, q, m);
    }
    SameLongest(t, Rest(item), item, r, q, m);
  }

  function ClosingEnd(r: string, q: int): int
    requires 0 <= q <= |r|
  {
    var c := SpacesEnd(r, q);
    if c < |r| && (r[c] == ')' || r[c] == ']') then c + 1 else -1
  }

  lemma ListCloses(t: Tables, item: Re, r: string, q: int)
    requires Faithful(t) && Items(t, item, r) && 0 <= q <= |r|
    requires var c := SpacesEnd(r, q);
             c < |r| && IsSeparator(r[c]) ==> Ends(t, item, r)[SpacesEnd(r, c + 1)] == -1
    ensures Ends(t, Rest(item), r)[q] == ClosingEnd(r, q)
  {
    var end := ClosingEnd(r, q);
    var c := SpacesEnd(r, q);
    if c < |r| { EndsFact(t, item, r, SpacesEnd(r, c + 1)); }
    forall e ensures Match(t, Rest(item), r, q, e) <==> e == end != -1 { RestStep(t, item, r, q, e); }
    if end == -1 { NoEnd(t, Rest(item), r, q); } else { EndIs(t, Rest(item), r, q, end); }
  }

  lemma {:induction false} RestHasOneEnd(t: Tables, item: Re, r: string, q: int, e: int, e': int)
    requires Faithful(t) && Items(t, item, r) && ItemsMeet(t, item, r) && 0 <= q <= |r|
    requires Match(t, Rest(item), r, q, e) && Match(t, Rest(item), r, q, e')
    ensures e == e'
    decreases |r| - q
  {
    RestStep(t, item, r, q, e);
    RestStep(t, item, r, q, e');
    SeparatorNeverCloses(t);
    if !ClosingAt(r, q, e) {
      var m :| q < m <= |r| && MoreAt(t, item, r, q, m) && Match(t, Rest(item), r, m, e);
      var m' :| q < m' <= |r| && MoreAt(t, item, r, q, m') && Match(t, Rest(item), r, m', e');
      OneItemContinues(t, item, r, SpacesEnd(r, SpacesEnd(r, q) + 1), m, e, m', e');
      RestHasOneEnd(t, item, r, m, e, e');
    }
  }

  lemma OneItemContinues(t: Tables, item: Re, r: string, b: int, m: int, e: int, m': int, e': int)
    requires Faithful(t) && Items(t, item, r) && ItemsMeet(t, item, r)
    requires Match(t, item, r, b, m) && Match(t, Rest(item), r, m, e)
    requires Match(t, item, r, b, m') && Match(t, Rest(item), r, m', e')
    ensures m == m'
  {
    if m < m' { DotEndsNoList(t, item, r, m, e); }
    if m' < m { DotEndsNoList(t, item, r, m', e'); }
  }

  lemma BracketedHasOneEnd(t: Tables, item: Re, r: string, i: int, e: int, e': int)
    requires Faithful(t) && Items(t, item, r) && ItemsMeet(t, item, r) && 0 <= i <= |r|
    requires Match(t, Bracketed(item), r, i, e) && Match(t, Bracketed(item), r, i, e')
    ensures e == e'
  {
    ListStep(t, item, r, i, e);
    ListStep(t, item, r, i, e');
    var m :| i < m <= |r| && ListAt(t, item, r, i, m) && Match(t, Rest(item), r, m, e);
    var m' :| i < m' <= |r| && ListAt(t, item, r, i, m') && Match(t, Rest(item), r, m', e');
    OneItemContinues(t, item, r, SpacesEnd(r, SpacesEnd(r, i) + 1), m, e, m', e');
    RestHasOneEnd(t, item, r, m, e, e');
  }

  lemma ItemsDoMeet(t: Tables, r: string)
    requires Faithful(t)
    ensures ItemsMeet(t, Item(t), r)
  {
    forall b, k, m | Match(t, Item(t), r, b, k) && Match(t, Item(t), r, b, m) && k < m ensures r[k] == '.' {
      ItemEnds(t, r, b, k, m);
    }
  }

  /** The steps of the list scanner, for the items of a list of IDs. */
  lemma ScanStarts(t: Tables, r: string, i: int)
    requires Faithful(t) && 0 <= i <= |r|
    ensures var o := SpacesEnd(r, i);
            Ends(t, List(t), r)[i] ==
            if o >= |r| || !IsOpening(r[o]) then -1
            else var m := Ends(t, Item(t), r)[SpacesEnd(r, o + 1)]; if m == -1 then -1 else Ends(t, Rest(Item(t)), r)[m]
  {
    ItemsAre(t, r);
    ItemsDoMeet(t, r);
    var o := SpacesEnd(r, i);
    if o >= |r| || !IsOpening(r[o]) { NoListStarts(t, Item(t), r, i); } else { ListStarts(t, Item(t), r, i); }
  }

  lemma ScanContinues(t: Tables, r: string, q: int)
    requires Faithful(t) && 0 <= q <= |r|
    ensures var c := SpacesEnd(r, q);
            Ends(t, Rest(Item(t)), r)[q] ==
            if c < |r| && IsSeparator(r[c]) && Ends(t, Item(t), r)[SpacesEnd(r, c + 1)] != -1
            then Ends(t, Rest(Item(t)), r)[Ends(t, Item(t), r)[SpacesEnd(r, c + 1)]]
            else ClosingEnd(r, q)
  {
    ItemsAre(t, r);
    ItemsDoMeet(t, r);
    var c := SpacesEnd(r, q);
    if c < |r| && IsSeparator(r[c]) && Ends(t, Item(t), r)[SpacesEnd(r, c + 1)] != -1 {
      ListContinues(t, Item(t), r, q);
    } else {
      ListCloses(t, Item(t), r, q);
    }
  }

  lemma ItemEndIs(t: Tables, r: string, i: int, end: int)
    requires Faithful(t) && 0 <= i <= |r|
    requires end == -1 ==> forall e :: !IsItem(t, r, i, e)
    requires end != -1 ==> IsItem(t, r, i, end) && forall e :: IsItem(t, r, i, e) ==> e <= end
    ensures end == Ends(t, Item(t), r)[i]
  {
    forall e | Match(t, Item(t), r, i, e) ensures e <= end { ItemSound(t, r, i, e); }
    if end == -1 {
      forall e ensures !Match(t, Item(t), r, i, e) { if Match(t, Item(t), r, i, e) { ItemSound(t, r, i, e); } }
      NoEnd(t, Item(t), r, i);
    } else {
      ItemComplete(t, r, i, end);
      ItemIsNoSpace(t, r, i, end);
      EndIs(t, Item(t), r, i, end);
    }
  }

  /** The grammar leaves a list no choice of end, although an item such as u1.5 has two. */
  lemma ListHasOneEnd(t: Tables, r: string, i: int, e: int, e': int)
    requires Faithful(t) && 0 <= i <= |r|
    requires Match(t, List(t), r, i, e) && Match(t, List(t), r, i, e')
    ensures e == e'
  {
    ItemsAre(t, r);
    ItemsDoMeet(t, r);
    BracketedHasOneEnd(t, Item(t), r, i, e, e');
  }
}
