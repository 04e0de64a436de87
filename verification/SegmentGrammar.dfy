/** How a segment pointer is read: at most one preposition, at most one noun, one segment ID. */
module SegmentGrammar {
  import opened Runes
  import opened Grammar
  import opened ReferenceGrammar

  /** Where the run of letters at i stops. */
  function LettersEnd(t: Tables, r: string, i: int): (e: int)
    requires 0 <= i <= |r|
    ensures i <= e <= |r| && (e < |r| ==> !t.letter(r[e]))
    ensures forall k :: i <= k < e ==> t.letter(r[k])
    decreases |r| - i
  {
    if i < |r| && t.letter(r[i]) then LettersEnd(t, r, i + 1) else i
  }

  ghost predicate Letters(t: Tables, r: string, i: int, e: int) {
    0 <= i <= e <= |r| && forall k :: i <= k < e ==> t.letter(r[k])
  }

  lemma LettersMeet(t: Tables, r: string, i: int, e: int)
    requires Letters(t, r, i, e) && (e == |r| || !t.letter(r[e]))
    ensures e == LettersEnd(t, r, i)
  {}

  lemma GapThenMatch(t: Tables, re: Re, r: string, i: int, e: int)
    requires 0 <= i <= |r| && StartsDark(t, re, r, e)
    ensures Match(t, Cat(GAP, re), r, i, e) <==>
            i < |r| && IsSpace(r[i]) && Match(t, re, r, SpacesEnd(r, i), e)
  {
    if Match(t, Cat(GAP, re), r, i, e) {
      var c := CatSplit(t, GAP, re, r, i, e);
      GapMatch(t, r, i, c);
      assert c == SpacesEnd(r, i);
    }
    if i < |r| && IsSpace(r[i]) && Match(t, re, r, SpacesEnd(r, i), e) {
      GapMatch(t, r, i, SpacesEnd(r, i));
      CatJoin(t, GAP, re, r, i, SpacesEnd(r, i), e);
    }
  }

  // ----- the segment ID -----

  lemma SegmentIdCore(t: Tables, r: string, s: int, e: int)
    requires Faithful(t)
    ensures Match(t, SEGMENT_CORE, r, s, e) <==> IsRef(t, r, s, e) && SameLetter(r[s], 's')
  {
    if Match(t, SEGMENT_CORE, r, s, e) { SegmentIdSplit(t, r, s, e); }
    if IsRef(t, r, s, e) && SameLetter(r[s], 's') {
      SegmentIsNoRec(t, r, s);
      NumberMatch(t, r, s + 1, e);
      SegmentIdJoin(t, r, s, e);
    }
  }

  lemma SegmentIdSplit(t: Tables, r: string, s: int, e: int)
    requires Match(t, SEGMENT_CORE, r, s, e)
    ensures IsRef(t, r, s, e) && SameLetter(r[s], 's')
  {
    var tail := Cat(NUMBER, NotAhead(WordRune));
    var a := CatSplit(t, NotBehind(WordOrDot), Cat(One(Fold('s')), tail), r, s, e);
    var b := CatSplit(t, One(Fold('s')), tail, r, a, e);
    var c := CatSplit(t, NUMBER, NotAhead(WordRune), r, b, e);
    NumberMatch(t, r, s + 1, e);
    assert FoldContains("urs", r[s]) by { assert SameLetter(r[s], "urs"[2]); }
  }

  lemma SegmentIsNoRec(t: Tables, r: string, s: int)
    requires 0 <= s < |r| && SameLetter(r[s], 's')
    ensures !FoldedAt(r, s, "rec")
  {
    if FoldedAt(r, s, "rec") {
      assert SameLetter(r[s + 0], "rec"[0]);
      OneOrbit(r[s], 's', 'r');
    }
  }

  lemma SegmentIdJoin(t: Tables, r: string, s: int, e: int)
    requires 0 <= s < |r| && SameLetter(r[s], 's') && Match(t, NUMBER, r, s + 1, e)
    requires EdgeBefore(t, r, s) && 0 <= e <= |r| && EdgeAfter(t, r, e)
    ensures Match(t, SEGMENT_CORE, r, s, e)
  {
    var tail := Cat(NUMBER, NotAhead(WordRune));
    assert Match(t, NotAhead(WordRune), r, e, e);
    CatJoin(t, NUMBER, NotAhead(WordRune), r, s + 1, e, e);
    assert Match(t, One(Fold('s')), r, s, s + 1);
    CatJoin(t, One(Fold('s')), tail, r, s, s + 1, e);
    assert Match(t, NotBehind(WordOrDot), r, s, s);
    CatJoin(t, NotBehind(WordOrDot), Cat(One(Fold('s')), tail), r, s, s, e);
  }

  lemma SegmentIdMatch(t: Tables, r: string, i: int, e: int)
    requires Faithful(t) && 0 <= i <= |r|
    ensures Match(t, SEGMENT_ID, r, i, e) <==>
            && i < |r| && IsSpace(r[i])
            && var s := SpacesEnd(r, i); IsRef(t, r, s, e) && SameLetter(r[s], 's')
  {
    forall s ensures Match(t, SEGMENT_CORE, r, s, e) ==> s < |r| && !IsSpace(r[s]) {
      SegmentIdCore(t, r, s, e);
      if Match(t, SEGMENT_CORE, r, s, e) { RefRunes(t, r, s, e); }
    }
    SegmentIdCore(t, r, SpacesEnd(r, i), e);
    GapThenMatch(t, SEGMENT_CORE, r, i, e);
  }

  lemma SegmentIdIsLonger(t: Tables, r: string, i: int, e: int)
    requires Faithful(t) && Match(t, SEGMENT_ID, r, i, e)
    ensures i < e
  {
    SegmentIdMatch(t, r, i, e);
    RefRunes(t, r, SpacesEnd(r, i), e);
  }

  lemma SegmentIdNeedsSpace(t: Tables, r: string, i: int)
    requires Faithful(t) && 0 <= i <= |r|
    ensures Ends(t, SEGMENT_ID, r)[i] != -1 ==>
            i < |r| && IsSpace(r[i]) && SpacesEnd(r, i) < |r| && SameLetter(r[SpacesEnd(r, i)], 's')
  {
    EndsFact(t, SEGMENT_ID, r, i);
    SegmentIdMatch(t, r, i, Ends(t, SEGMENT_ID, r)[i]);
  }

  lemma SegmentIdEnd(t: Tables, r: string, i: int, end: int)
    requires Faithful(t) && 0 <= i < |r| && IsSpace(r[i])
    requires var s := SpacesEnd(r, i); end != -1 ==> IsRef(t, r, s, end) && SameLetter(r[s], 's')
    requires var s := SpacesEnd(r, i); forall e :: IsRef(t, r, s, e) && SameLetter(r[s], 's') ==> e <= end
    ensures end == Ends(t, SEGMENT_ID, r)[i]
  {
    forall e | Match(t, SEGMENT_ID, r, i, e) ensures e <= end { SegmentIdMatch(t, r, i, e); }
    if end == -1 {
      NoEnd(t, SEGMENT_ID, r, i);
    } else {
      SegmentIdMatch(t, r, i, end);
      RefRunes(t, r, SpacesEnd(r, i), end);
      EndIs(t, SEGMENT_ID, r, i, end);
    }
  }

  // ----- the words before it -----

  lemma {:induction false} WordsMatch(t: Tables, words: seq<string>, r: string, i: int, e: int)
    ensures Match(t, AnyWord(words), r, i, e) <==>
            exists k :: 0 <= k < |words| && FoldedAt(r, i, words[k]) && e == i + |words[k]|
  {
    if |words| > 0 {
      WordMatch(t, words[0], r, i, e);
      var rest := words[1..];
      WordsMatch(t, rest, r, i, e);
      if k :| 0 <= k < |words| && FoldedAt(r, i, words[k]) && e == i + |words[k]| {
        if k > 0 { assert FoldedAt(r, i, rest[k - 1]); }
      }
      if k :| 0 <= k < |rest| && FoldedAt(r, i, rest[k]) && e == i + |rest[k]| {
        assert FoldedAt(r, i, words[k + 1]);
      }
    }
  }

  ghost predicate StartsWith(r: string, i: int, words: seq<string>) {
    exists k :: 0 <= k < |words| && FoldedAt(r, i, words[k])
  }

  lemma NounMatch(t: Tables, r: string, i: int, m: int)
    requires Faithful(t) && 0 <= i <= |r| && (m == |r| || (0 <= m < |r| && IsSpace(r[m])))
    ensures Match(t, Noun(t), r, i, m) <==>
            && i < |r| && IsSpace(r[i])
            && var w := SpacesEnd(r, i); StartsWith(r, w, t.words.nouns) && m == LettersEnd(t, r, w)
  {
    var words := t.words.nouns;
    var word := Cat(AnyWord(words), Star(One(Letter)));
    forall w ensures Match(t, word, r, w, m) <==> 0 <= w <= |r| && StartsWith(r, w, words) && m == LettersEnd(t, r, w) {
      NounWord(t, words, r, w, m);
    }
    forall w | Match(t, word, r, w, m) ensures w < |r| && !IsSpace(r[w]) { FirstLetter(t, r, w, words); }
    GapThenMatch(t, word, r, i, m);
  }

  lemma FirstLetter(t: Tables, r: string, w: int, words: seq<string>)
    requires Faithful(t) && StartsWith(r, w, words)
    requires forall k :: 0 <= k < |words| ==> IsPointerWord(words[k])
    ensures 0 <= w < |r| && t.letter(r[w])
    ensures exists k :: 0 <= k < |words| && words[k] != "" && SameLetter(r[w], words[k][0])
  {
    var k :| 0 <= k < |words| && FoldedAt(r, w, words[k]);
    assert SameLetter(r[w + 0], words[k][0]);
  }

  lemma NounWord(t: Tables, words: seq<string>, r: string, w: int, m: int)
    requires Faithful(t) && (m == |r| || (0 <= m < |r| && IsSpace(r[m])))
    requires forall k :: 0 <= k < |words| ==> IsPointerWord(words[k])
    ensures Match(t, Cat(AnyWord(words), Star(One(Letter))), r, w, m) <==>
            0 <= w <= |r| && StartsWith(r, w, words) && m == LettersEnd(t, r, w)
  {
    if Match(t, Cat(AnyWord(words), Star(One(Letter))), r, w, m) {
      var c := CatSplit(t, AnyWord(words), Star(One(Letter)), r, w, m);
      WordsMatch(t, words, r, w, c);
      StarMatch(t, Letter, r, c, m);
      var k :| 0 <= k < |words| && FoldedAt(r, w, words[k]) && c == w + |words[k]|;
      FoldedRunes(t, r, w, words[k]);
      assert Letters(t, r, w, m);
      LettersMeet(t, r, w, m);
    }
    if 0 <= w <= |r| && StartsWith(r, w, words) && m == LettersEnd(t, r, w) {
      var k :| 0 <= k < |words| && FoldedAt(r, w, words[k]);
      var c := w + |words[k]|;
      FoldedRunes(t, r, w, words[k]);
      assert c <= m;
      WordsMatch(t, words, r, w, c);
      StarMatch(t, Letter, r, c, m);
      CatJoin(t, AnyWord(words), Star(One(Letter)), r, w, c, m);
    }
  }

  /** A maybe-skipped part before re. */
  lemma MaybeThen(t: Tables, first: Re, re: Re, r: string, i: int, e: int)
    requires 0 <= i <= |r|
    ensures Match(t, Cat(Maybe(first), re), r, i, e) <==>
            Match(t, re, r, i, e) || exists m :: i <= m <= e && Match(t, first, r, i, m) && Match(t, re, r, m, e)
  {
    if Match(t, Cat(Maybe(first), re), r, i, e) {
      var m := CatSplit(t, Maybe(first), re, r, i, e);
      assert Match(t, first, r, i, m) || m == i;
    }
    if Match(t, re, r, i, e) {
      assert Match(t, Empty, r, i, i);
      CatJoin(t, Maybe(first), re, r, i, i, e);
    }
    if m :| i <= m <= e && Match(t, first, r, i, m) && Match(t, re, r, m, e) {
      CatJoin(t, Maybe(first), re, r, i, m, e);
    }
  }

  lemma PointedMatch(t: Tables, r: string, i: int, e: int)
    requires Faithful(t) && 0 <= i < |r| && IsSpace(r[i])
    ensures var w := SpacesEnd(r, i);
            Match(t, Pointed(t), r, i, e) <==>
            Match(t, SEGMENT_ID, r, i, e)
            || (StartsWith(r, w, t.words.nouns) && Match(t, SEGMENT_ID, r, LettersEnd(t, r, w), e))
  {
    var w := SpacesEnd(r, i);
    var l := LettersEnd(t, r, w);
    MaybeThen(t, Noun(t), SEGMENT_ID, r, i, e);
    if m :| i <= m <= e && Match(t, Noun(t), r, i, m) && Match(t, SEGMENT_ID, r, m, e) {
      SegmentIdMatch(t, r, m, e);
      NounMatch(t, r, i, m);
    }
    if StartsWith(r, w, t.words.nouns) && Match(t, SEGMENT_ID, r, l, e) {
      SegmentIdMatch(t, r, l, e);
      NounMatch(t, r, i, l);
    }
  }

  /** The words before a segment ID start like no segment ID. */
  lemma NounIsNoId(t: Tables, r: string, w: int, words: seq<string>)
    requires Faithful(t) && StartsWith(r, w, words)
    requires forall k :: 0 <= k < |words| ==> IsPointerWord(words[k])
    ensures 0 <= w < |r| && !SameLetter(r[w], 's')
  {
    FirstLetter(t, r, w, words);
    var k :| 0 <= k < |words| && words[k] != "" && SameLetter(r[w], words[k][0]);
    if SameLetter(r[w], 's') { OneOrbit(r[w], words[k][0], 's'); }
  }

  lemma PrepositionIsNoNoun(t: Tables, r: string, w: int)
    requires Faithful(t) && StartsWith(r, w, t.words.prepositions)
    ensures !StartsWith(r, w, t.words.nouns)
  {
    FirstLetter(t, r, w, t.words.prepositions);
    var j :| && 0 <= j < |t.words.prepositions| && t.words.prepositions[j] != ""
             && SameLetter(r[w], t.words.prepositions[j][0]);
    if StartsWith(r, w, t.words.nouns) {
      FirstLetter(t, r, w, t.words.nouns);
      var k :| 0 <= k < |t.words.nouns| && t.words.nouns[k] != "" && SameLetter(r[w], t.words.nouns[k][0]);
      OneOrbit(r[w], t.words.prepositions[j][0], t.words.nouns[k][0]);
    }
  }

  lemma PointedEnd(t: Tables, r: string, i: int)
    requires Faithful(t) && 0 <= i < |r| && IsSpace(r[i])
    ensures var w := SpacesEnd(r, i);
            if StartsWith(r, w, t.words.nouns)
            then && Ends(t, Pointed(t), r)[i] == Ends(t, SEGMENT_ID, r)[LettersEnd(t, r, w)]
                 && Ends(t, SEGMENT_ID, r)[i] == -1
            else Ends(t, Pointed(t), r)[i] == Ends(t, SEGMENT_ID, r)[i]
  {
    var w := SpacesEnd(r, i);
    var noun := StartsWith(r, w, t.words.nouns);
    var from := if noun then LettersEnd(t, r, w) else i;
    SegmentIdNeedsSpace(t, r, i);
    if noun { NounIsNoId(t, r, w, t.words.nouns); }
    forall e ensures Match(t, Pointed(t), r, i, e) <==> Match(t, SEGMENT_ID, r, from, e) {
      PointedMatch(t, r, i, e);
      SegmentIdMatch(t, r, i, e);
    }
    forall e | Match(t, SEGMENT_ID, r, from, e) ensures from < e { SegmentIdIsLonger(t, r, from, e); }
    SegmentsAgree(t, Pointed(t), SEGMENT_ID, r, i, from);
  }

  lemma SegmentsAgree(t: Tables, re: Re, re': Re, r: string, i: int, from: int)
    requires 0 <= i <= from <= |r|
    requires forall e :: Match(t, re, r, i, e) <==> Match(t, re', r, from, e)
    requires forall e :: Match(t, re', r, from, e) ==> from < e
    ensures Ends(t, re, r)[i] == Ends(t, re', r)[from]
  {
    EndsFact(t, re', r, from);
    var end := Ends(t, re', r)[from];
    if end == -1 { NoEnd(t, re, r, i); } else { EndIs(t, re, r, i, end); }
  }

  lemma PointedNeedsSpace(t: Tables, r: string, m: int, e: int)
    requires Faithful(t) && 0 <= m <= |r| && Match(t, Pointed(t), r, m, e)
    ensures m < |r| && IsSpace(r[m]) && m < e
  {
    MaybeThen(t, Noun(t), SEGMENT_ID, r, m, e);
    if Match(t, SEGMENT_ID, r, m, e) {
      SegmentIdMatch(t, r, m, e);
      SegmentIdIsLonger(t, r, m, e);
    } else {
      var k :| m <= k <= e && Match(t, Noun(t), r, m, k) && Match(t, SEGMENT_ID, r, k, e);
      var c := CatSplit(t, GAP, Cat(AnyWord(t.words.nouns), Star(One(Letter))), r, m, k);
      GapMatch(t, r, m, c);
    }
  }

  /** A preposition of the vocabulary is the whole word at w. */
  ghost predicate PrepositionAt(t: Tables, r: string, w: int)
    requires 0 <= w <= |r|
  {
    exists k :: 0 <= k < |t.words.prepositions|
                && FoldedAt(r, w, t.words.prepositions[k])
                && w + |t.words.prepositions[k]| == LettersEnd(t, r, w)
  }

  lemma PrepositionMatch(t: Tables, r: string, i: int, m: int)
    requires Faithful(t) && 0 <= i <= |r| && 0 <= m < |r| && IsSpace(r[m])
    ensures Match(t, Preposition(t), r, i, m) <==>
            && i < |r| && IsSpace(r[i])
            && var w := SpacesEnd(r, i); PrepositionAt(t, r, w) && m == LettersEnd(t, r, w)
  {
    var words := t.words.prepositions;
    forall w ensures Match(t, AnyWord(words), r, w, m) <==>
                     exists k :: 0 <= k < |words| && FoldedAt(r, w, words[k]) && m == w + |words[k]|
    {
      WordsMatch(t, words, r, w, m);
    }
    forall w | Match(t, AnyWord(words), r, w, m) ensures w < |r| && !IsSpace(r[w]) {
      assert StartsWith(r, w, words);
      FirstLetter(t, r, w, words);
    }
    GapThenMatch(t, AnyWord(words), r, i, m);
    var w := SpacesEnd(r, i);
    if k :| 0 <= k < |words| && FoldedAt(r, w, words[k]) && m == w + |words[k]| {
      FoldedRunes(t, r, w, words[k]);
      LettersMeet(t, r, w, m);
    }
  }

  lemma SegmentMatch(t: Tables, r: string, i: int, e: int)
    requires Faithful(t) && 0 <= i < |r| && IsSpace(r[i])
    ensures var w := SpacesEnd(r, i);
            Match(t, Segment(t), r, i, e) <==>
            Match(t, Pointed(t), r, i, e)
            || (PrepositionAt(t, r, w) && Match(t, Pointed(t), r, LettersEnd(t, r, w), e))
  {
    var w := SpacesEnd(r, i);
    var l := LettersEnd(t, r, w);
    MaybeThen(t, Preposition(t), Pointed(t), r, i, e);
    if m :| i <= m <= e && Match(t, Preposition(t), r, i, m) && Match(t, Pointed(t), r, m, e) {
      PointedNeedsSpace(t, r, m, e);
      PrepositionMatch(t, r, i, m);
    }
    if PrepositionAt(t, r, w) && Match(t, Pointed(t), r, l, e) {
      PointedNeedsSpace(t, r, l, e);
      PrepositionMatch(t, r, i, l);
    }
  }

  lemma PrepositionBlocks(t: Tables, r: string, i: int)
    requires Faithful(t) && 0 <= i < |r| && IsSpace(r[i]) && StartsWith(r, SpacesEnd(r, i), t.words.prepositions)
    ensures Ends(t, Pointed(t), r)[i] == -1
  {
    PrepositionIsNoNoun(t, r, SpacesEnd(r, i));
    NounIsNoId(t, r, SpacesEnd(r, i), t.words.prepositions);
    PointedEnd(t, r, i);
    SegmentIdNeedsSpace(t, r, i);
  }

  lemma SegmentEnd(t: Tables, r: string, i: int)
    requires Faithful(t) && 0 <= i < |r| && IsSpace(r[i])
    ensures var w := SpacesEnd(r, i);
            if PrepositionAt(t, r, w)
            then Ends(t, Segment(t), r)[i] == Ends(t, Pointed(t), r)[LettersEnd(t, r, w)]
            else Ends(t, Segment(t), r)[i] == Ends(t, Pointed(t), r)[i]
  {
    var w := SpacesEnd(r, i);
    var from := if PrepositionAt(t, r, w) then LettersEnd(t, r, w) else i;
    if PrepositionAt(t, r, w) {
      PrepositionBlocks(t, r, i);
      EndsFact(t, Pointed(t), r, i);
    }
    forall e ensures Match(t, Segment(t), r, i, e) <==> Match(t, Pointed(t), r, from, e) {
      SegmentMatch(t, r, i, e);
      if Match(t, Pointed(t), r, i, e) { PointedNeedsSpace(t, r, i, e); }
    }
    forall e | Match(t, Pointed(t), r, from, e) ensures from < e { PointedNeedsSpace(t, r, from, e); }
    SegmentsAgree(t, Segment(t), Pointed(t), r, i, from);
  }

  lemma NoSegment(t: Tables, r: string, i: int)
    requires Faithful(t) && 0 <= i <= |r| && (i == |r| || !IsSpace(r[i]))
    ensures Ends(t, SEGMENT_ID, r)[i] == Ends(t, Pointed(t), r)[i] == Ends(t, Segment(t), r)[i] == -1
  {
    SegmentIdNeedsSpace(t, r, i);
    forall e ensures !Match(t, Pointed(t), r, i, e) {
      if Match(t, Pointed(t), r, i, e) { PointedNeedsSpace(t, r, i, e); }
    }
    NoEnd(t, Pointed(t), r, i);
    forall e ensures !Match(t, Segment(t), r, i, e) {
      MaybeThen(t, Preposition(t), Pointed(t), r, i, e);
      if m :| i <= m <= e && Match(t, Preposition(t), r, i, m) && Match(t, Pointed(t), r, m, e) {
        PointedNeedsSpace(t, r, m, e);
        PrepositionMatch(t, r, i, m);
      }
    }
    NoEnd(t, Segment(t), r, i);
  }

  lemma FoldedLetters(t: Tables, r: string, w: int, word: string)
    requires Faithful(t) && FoldedAt(r, w, word) && IsPointerWord(word)
    ensures LettersEnd(t, r, w + |word|) == LettersEnd(t, r, w)
  {
    FoldedRunes(t, r, w, word);
    LettersMeet(t, r, w, LettersEnd(t, r, w + |word|));
  }

  /** What follows word at w when it is read as a preposition, or as a noun. */
  ghost function AfterPreposition(t: Tables, r: string, w: int, word: string): int
    requires 0 <= w <= |r|
  {
    if FoldedAt(r, w, word) then Ends(t, Pointed(t), r)[w + |word|] else -1
  }

  ghost function AfterNoun(t: Tables, r: string, w: int, word: string): int
    requires 0 <= w <= |r|
  {
    if FoldedAt(r, w, word) then Ends(t, SEGMENT_ID, r)[LettersEnd(t, r, w + |word|)] else -1
  }

  lemma AfterNounIsEnd(t: Tables, r: string, w: int, word: string)
    requires 0 <= w <= |r|
    ensures var end := AfterNoun(t, r, w, word); end == -1 || 0 < end <= |r|
  {
    if FoldedAt(r, w, word) { EndsFact(t, SEGMENT_ID, r, LettersEnd(t, r, w + |word|)); }
  }

  lemma PointedStarts(t: Tables, r: string, w: int, word: string)
    requires Faithful(t) && 0 <= w <= |r| && IsPointerWord(word) && AfterPreposition(t, r, w, word) != -1
    ensures w + |word| == LettersEnd(t, r, w)
  {
    var m := w + |word|;
    EndsFact(t, Pointed(t), r, m);
    PointedNeedsSpace(t, r, m, Ends(t, Pointed(t), r)[m]);
    FoldedLetters(t, r, w, word);
  }

  /** The first preposition that leads to a segment ID gives the longest match. */
  lemma PrepositionFound(t: Tables, r: string, i: int, w: int, k: int)
    requires Faithful(t) && 0 <= i < |r| && IsSpace(r[i]) && w == SpacesEnd(r, i)
    requires 0 <= k < |t.words.prepositions| && AfterPreposition(t, r, w, t.words.prepositions[k]) != -1
    ensures Ends(t, Segment(t), r)[i] == AfterPreposition(t, r, w, t.words.prepositions[k])
  {
    PointedStarts(t, r, w, t.words.prepositions[k]);
    assert PrepositionAt(t, r, w);
    SegmentEnd(t, r, i);
  }

  lemma PrepositionMissed(t: Tables, r: string, i: int, w: int)
    requires Faithful(t) && 0 <= i < |r| && IsSpace(r[i]) && w == SpacesEnd(r, i)
    requires forall k :: 0 <= k < |t.words.prepositions| ==> AfterPreposition(t, r, w, t.words.prepositions[k]) == -1
    ensures Ends(t, Segment(t), r)[i] == Ends(t, Pointed(t), r)[i]
  {
    SegmentEnd(t, r, i);
    if PrepositionAt(t, r, w) {
      var k := PrepositionIs(t, r, w);
      assert AfterPreposition(t, r, w, t.words.prepositions[k]) == -1;
      PrepositionBlocks(t, r, i);
    }
  }

  lemma PrepositionIs(t: Tables, r: string, w: int) returns (k: int)
    requires Faithful(t) && 0 <= w <= |r| && PrepositionAt(t, r, w)
    ensures 0 <= k < |t.words.prepositions| && StartsWith(r, w, t.words.prepositions)
    ensures AfterPreposition(t, r, w, t.words.prepositions[k]) == Ends(t, Pointed(t), r)[LettersEnd(t, r, w)]
  {
    k :| 0 <= k < |t.words.prepositions| && FoldedAt(r, w, t.words.prepositions[k])
         && w + |t.words.prepositions[k]| == LettersEnd(t, r, w);
  }

  lemma NounFound(t: Tables, r: string, i: int, w: int, k: int)
    requires Faithful(t) && 0 <= i < |r| && IsSpace(r[i]) && w == SpacesEnd(r, i)
    requires 0 <= k < |t.words.nouns| && AfterNoun(t, r, w, t.words.nouns[k]) != -1
    ensures Ends(t, Pointed(t), r)[i] == AfterNoun(t, r, w, t.words.nouns[k])
  {
    FoldedLetters(t, r, w, t.words.nouns[k]);
    assert StartsWith(r, w, t.words.nouns);
    PointedEnd(t, r, i);
  }

  lemma NounMissed(t: Tables, r: string, i: int, w: int)
    requires Faithful(t) && 0 <= i < |r| && IsSpace(r[i]) && w == SpacesEnd(r, i)
    requires forall k :: 0 <= k < |t.words.nouns| ==> AfterNoun(t, r, w, t.words.nouns[k]) == -1
    ensures Ends(t, Pointed(t), r)[i] == Ends(t, SEGMENT_ID, r)[i]
  {
    PointedEnd(t, r, i);
    if StartsWith(r, w, t.words.nouns) {
      var k := NounIs(t, r, w);
      assert AfterNoun(t, r, w, t.words.nouns[k]) == -1;
    }
  }

  lemma NounIs(t: Tables, r: string, w: int) returns (k: int)
    requires Faithful(t) && 0 <= w <= |r| && StartsWith(r, w, t.words.nouns)
    ensures 0 <= k < |t.words.nouns|
    ensures AfterNoun(t, r, w, t.words.nouns[k]) == Ends(t, SEGMENT_ID, r)[LettersEnd(t, r, w)]
  {
    k :| 0 <= k < |t.words.nouns| && FoldedAt(r, w, t.words.nouns[k]);
    FoldedLetters(t, r, w, t.words.nouns[k]);
  }
}
