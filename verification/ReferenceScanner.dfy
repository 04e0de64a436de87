/** The hand-written matchers and removal loops, verified against the regular expressions. */
module ReferenceScanner {
  import opened Runes
  import opened Grammar
  import opened ReferenceGrammar
  import opened ListGrammar
  import opened SegmentGrammar
  import opened LabelledGrammar

  method SkipSpaces(r: string, i: int) returns (e: int)
    requires 0 <= i <= |r|
    ensures e == SpacesEnd(r, i)
  {
    e := i;
    while e < |r| && IsSpace(r[e])
      invariant i <= e <= |r| && SpacesEnd(r, e) == SpacesEnd(r, i)
    {
      e := e + 1;
    }
  }

  method FoldPrefixEnd(r: string, i: int, prefix: string) returns (end: int)
    requires 0 <= i <= |r|
    ensures end == if FoldedAt(r, i, prefix) then i + |prefix| else -1
  {
    end := i;
    for k := 0 to |prefix|
      invariant end == i + k && FoldedAt(r, i, prefix[..k])
    {
      if end >= |r| || !SameLetter(r[end], prefix[k]) {
        NotFolded(r, i, prefix, k);
        return -1;
      }
      end := end + 1;
    }
    assert prefix[..|prefix|] == prefix;
  }

  method RefAt(t: Tables, r: string, i: int) returns (end: int)
    requires Faithful(t) && 0 <= i <= |r|
    ensures end == -1 ==> forall e :: !IsRef(t, r, i, e)
    ensures end != -1 ==> IsRef(t, r, i, end) && forall e :: IsRef(t, r, i, e) ==> e <= end
  {
    if i >= |r| || !EdgeBefore(t, r, i) { return -1; }
    var ends := RefEnds(r, i);
    RefEndsSound(t, r, i);
    forall e | IsRef(t, r, i, e) ensures e in ends { RefEndsComplete(t, r, i, e); }
    for k := 0 to |ends|
      invariant forall j :: 0 <= j < k ==> !EdgeAfter(t, r, ends[j])
    {
      if EdgeAfter(t, r, ends[k]) {
        return ends[k];
      }
    }
    return -1;
  }

  /** Lists just the ends of label words that start at i, possibly one of them twice. */
  method LabelEnds(t: Tables, r: string, i: int) returns (ends: seq<int>)
    requires 0 <= i <= |r|
    ensures forall l :: l in ends <==> IsLabel(t, r, i, l)
  {
    ends := [];
    for k := 0 to |t.words.labels|
      invariant forall l :: l in ends <==> exists j :: 0 <= j < k && IsForm(t, t.words.labels[j], r, i, l)
    {
      var form := t.words.labels[k];
      var end := FoldPrefixEnd(r, i, form.stem);
      var more: seq<int> := [];
      if end >= 0 {
        if end < |r| && In(t, form.ending, r[end]) { more := more + [end + 1]; }
        if form.bare { more := more + [end]; }
      }
      assert forall l :: l in more <==> IsForm(t, form, r, i, l);
      ends := ends + more;
    }
  }

  /** The longest match of the item expression at i, or -1. */
  method ListItem(t: Tables, r: string, i: int) returns (end: int)
    requires Faithful(t) && 0 <= i <= |r|
    ensures end == Ends(t, Item(t), r)[i]
  {
    var labels := LabelEnds(t, r, i);
    for k := 0 to |labels|
      invariant forall j :: 0 <= j < k ==>
                  0 <= labels[j] <= |r| && forall e :: !IsRef(t, r, SpacesEnd(r, labels[j]), e)
    {
      LabelRunes(t, r, i, labels[k]);
      var s := SkipSpaces(r, labels[k]);
      end := RefAt(t, r, s);
      if end >= 0 {
        assert LabelReaches(t, r, i, s);
        forall e | IsItem(t, r, i, e) ensures e <= end {
          if IsRef(t, r, i, e) {
            RefRunes(t, r, i, e);
          } else {
            var s' :| LabelReaches(t, r, i, s') && IsRef(t, r, s', e);
            LabelReachesOne(t, r, i, s, s');
          }
        }
        ItemEndIs(t, r, i, end);
        return;
      }
    }
    forall s, e | LabelReaches(t, r, i, s) ensures !IsRef(t, r, s, e) { LabelReachesBySkip(t, r, i, s); }
    end := RefAt(t, r, i);
    ItemEndIs(t, r, i, end);
  }

  /** Where the expression of separators, further items and the closing bracket ends, or -1. */
  method ListRest(t: Tables, r: string, item: int) returns (end: int)
    requires Faithful(t) && 0 <= item <= |r|
    ensures end == Ends(t, Rest(Item(t)), r)[item]
  {
    end := item;
    while true
      invariant item <= end <= |r| && Ends(t, Rest(Item(t)), r)[item] == Ends(t, Rest(Item(t)), r)[end]
      decreases |r| - end
    {
      ScanContinues(t, r, end);
      var separator := SkipSpaces(r, end);
      if separator >= |r| || !IsSeparator(r[separator]) { break; }
      var start := SkipSpaces(r, separator + 1);
      var next := ListItem(t, r, start);
      if next < 0 { break; }
      end := next;
    }
    var closing := SkipSpaces(r, end);
    end := if closing < |r| && (r[closing] == ')' || r[closing] == ']') then closing + 1 else -1;
  }

  /** The longest match of the list expression at i, or -1; found without going back over an item. */
  method BracketedList(t: Tables, r: string, i: int) returns (end: int)
    requires Faithful(t) && 0 <= i <= |r|
    ensures end == Ends(t, List(t), r)[i]
  {
    ScanStarts(t, r, i);
    var open := SkipSpaces(r, i);
    if open >= |r| || (r[open] != '(' && r[open] != '[') { return -1; }
    var first := SkipSpaces(r, open + 1);
    end := ListItem(t, r, first);
    if end < 0 { return -1; }
    end := ListRest(t, r, end);
  }

  /** Replaces the longest matches of the list expression, from left to right, by nothing. */
  method RemoveBracketedLists(t: Tables, r: string) returns (out: string)
    requires Faithful(t)
    ensures out == Replace(t, List(t), Drop, r)
  {
    out := "";
    ghost var ends := Ends(t, List(t), r);
    var i := 0;
    while i < |r|
      invariant 0 <= i <= |r|
      invariant out + Splice(Drop, r, ends, i) == Splice(Drop, r, ends, 0)
    {
      var end := BracketedList(t, r, i);
      DropStep(r, ends, i, out);
      if end > 0 {
        i := end;
        continue;
      }
      out := out + [r[i]];
      i := i + 1;
    }
  }

  /** The longest match of SEGMENT_ID at i, or -1. */
  method SpacedSegmentID(t: Tables, r: string, i: int) returns (end: int)
    requires Faithful(t) && 0 <= i <= |r|
    ensures end == Ends(t, SEGMENT_ID, r)[i]
  {
    if i >= |r| || !IsSpace(r[i]) {
      NoSegment(t, r, i);
      return -1;
    }
    var start := SkipSpaces(r, i);
    if start >= |r| || !SameLetter(r[start], 's') || !EdgeBefore(t, r, start) {
      SegmentIdEnd(t, r, i, -1);
      return -1;
    }
    end := RefAt(t, r, start);
    SegmentIdEnd(t, r, i, end);
  }

  method SkipLetters(t: Tables, r: string, i: int) returns (e: int)
    requires 0 <= i <= |r|
    ensures e == LettersEnd(t, r, i)
  {
    e := i;
    while e < |r| && t.letter(r[e])
      invariant i <= e <= |r| && LettersEnd(t, r, e) == LettersEnd(t, r, i)
    {
      e := e + 1;
    }
  }

  /** The end of a segment ID whose noun at word starts like the given one, or -1. */
  method NounAndID(t: Tables, r: string, word: int, noun: string) returns (end: int)
    requires Faithful(t) && 0 <= word <= |r|
    ensures end == AfterNoun(t, r, word, noun)
  {
    var stop := FoldPrefixEnd(r, word, noun);
    if stop < 0 { return -1; }
    stop := SkipLetters(t, r, stop);
    end := SpacedSegmentID(t, r, stop);
  }

  method SegmentNounAndID(t: Tables, r: string, i: int) returns (end: int)
    requires Faithful(t) && 0 <= i <= |r|
    ensures end == Ends(t, Pointed(t), r)[i]
  {
    if i >= |r| || !IsSpace(r[i]) {
      NoSegment(t, r, i);
      return -1;
    }
    var word := SkipSpaces(r, i);
    for k := 0 to |t.words.nouns|
      invariant forall j :: 0 <= j < k ==> AfterNoun(t, r, word, t.words.nouns[j]) == -1
    {
      end := NounAndID(t, r, word, t.words.nouns[k]);
      AfterNounIsEnd(t, r, word, t.words.nouns[k]);
      if end > 0 {
        NounFound(t, r, i, word, k);
        return;
      }
    }
    NounMissed(t, r, i, word);
    end := SpacedSegmentID(t, r, i);
  }

  /** The longest match of the segment expression at i, or -1, however its prepositions overlap. */
  method SegmentReference(t: Tables, r: string, i: int) returns (end: int)
    requires Faithful(t) && 0 <= i <= |r|
    ensures end == Ends(t, Segment(t), r)[i]
  {
    if i >= |r| || !IsSpace(r[i]) {
      NoSegment(t, r, i);
      return -1;
    }
    var word := SkipSpaces(r, i);
    for k := 0 to |t.words.prepositions|
      invariant forall j :: 0 <= j < k ==> AfterPreposition(t, r, word, t.words.prepositions[j]) == -1
    {
      var stop := FoldPrefixEnd(r, word, t.words.prepositions[k]);
      if stop >= 0 {
        end := SegmentNounAndID(t, r, stop);
        if end > 0 {
          PrepositionFound(t, r, i, word, k);
          return;
        }
      }
    }
    PrepositionMissed(t, r, i, word);
    end := SegmentNounAndID(t, r, i);
  }

  /** Replaces the longest matches of the segment expression, from left to right, by nothing. */
  method RemoveSegmentReferences(t: Tables, r: string) returns (out: string)
    requires Faithful(t)
    ensures out == Replace(t, Segment(t), Drop, r)
  {
    out := "";
    ghost var ends := Ends(t, Segment(t), r);
    var i := 0;
    while i < |r|
      invariant 0 <= i <= |r|
      invariant out + Splice(Drop, r, ends, i) == Splice(Drop, r, ends, 0)
    {
      var end := SegmentReference(t, r, i);
      DropStep(r, ends, i, out);
      if end > 0 {
        i := end;
        continue;
      }
      out := out + [r[i]];
      i := i + 1;
    }
  }

  /** The longest match of the labelled expression at i, or -1, with the two parts of the matched text. */
  method LabelledRef(t: Tables, r: string, i: int) returns (labelText: string, ref: string, end: int)
    requires Faithful(t) && 0 <= i <= |r|
    ensures end == Ends(t, Labelled(t), r)[i]
    ensures end != -1 ==> labelText == LabelOf(r[i..end]) && ref == RefOf(r[i..end])
  {
    var labels := LabelEnds(t, r, i);
    for k := 0 to |labels|
      invariant forall j :: 0 <= j < k ==> 0 <= labels[j] <= |r| && NoRef(t, r, SpacesEnd(r, labels[j]))
    {
      var labelEnd := labels[k];
      LabelRunes(t, r, i, labelEnd);
      if labelEnd >= |r| || !IsSpace(r[labelEnd]) {
        LabelNeedsGap(t, r, i, labelEnd);
        continue;
      }
      var start := SkipSpaces(r, labelEnd);
      end := RefAt(t, r, start);
      if end >= 0 {
        LabelledFound(t, r, i, labelEnd, end);
        return r[i..labelEnd], r[start..end], end;
      }
    }
    LabelsMiss(t, r, i, labels);
    end := RefAt(t, r, i);
    BareFound(t, r, i, end);
    return "", if end >= 0 then r[i..end] else "", end;
  }

  /** Replaces the longest matches of the labelled expression, from left to right, as Naming says. */
  method ReplaceLabelledRefs(t: Tables, r: string, titles: map<string, string>) returns (out: string)
    requires Faithful(t)
    ensures out == Replace(t, Labelled(t), Naming(t, titles), r)
  {
    out := "";
    ghost var ends, f := Ends(t, Labelled(t), r), Naming(t, titles);
    var i := 0;
    while i < |r|
      invariant 0 <= i <= |r|
      invariant out + Splice(f, r, ends, i) == Splice(f, r, ends, 0)
    {
      var labelText, ref, end := LabelledRef(t, r, i);
      SpliceStep(f, r, ends, i, out);
      if end > 0 {
        NamingAs(t, titles, r[i..end], labelText, ref);
        out := out + RefReplacement(t, labelText, ref, titles);
        i := end;
        continue;
      }
      out := out + [r[i]];
      i := i + 1;
    }
  }
}
