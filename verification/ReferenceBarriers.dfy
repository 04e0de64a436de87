/** Braces stop every rune stage: the text on either side of one is cleaned on its own. */
module ReferenceBarriers {
  import opened Runes
  import opened Grammar
  import opened ReferenceGrammar
  import opened LabelledGrammar
  import opened ReferenceScanner

  predicate IsBrace(x: char) {
    x == '{' || x == '}'
  }

  lemma BraceIsNoLetter(t: Tables, x: char, want: char)
    requires Faithful(t) && IsBrace(x) && IsLowerLetter(want)
    ensures !t.letter(x) && !t.number(x) && !SameLetter(x, want)
  {
    Punctuation(t);
  }

  lemma {:induction false} WordAvoids(t: Tables, w: string, x: char)
    requires Faithful(t) && IsBrace(x) && IsLowerWord(w)
    ensures Avoids(t, Word(w), x)
  {
    if w != "" {
      BraceIsNoLetter(t, x, w[0]);
      WordAvoids(t, w[1..], x);
    }
  }

  lemma FoldAnyAvoids(t: Tables, wants: string, x: char)
    requires Faithful(t) && IsBrace(x) && IsLowerWord(wants)
    ensures Avoids(t, One(FoldAny(wants)), x)
  {
    if FoldContains(wants, x) {
      var k :| 0 <= k < |wants| && SameLetter(x, wants[k]);
      BraceIsNoLetter(t, x, wants[k]);
    }
  }

  lemma {:induction false} AnyFormAvoids(t: Tables, forms: seq<LabelForm>, x: char)
    requires Faithful(t) && IsBrace(x) && forall k :: 0 <= k < |forms| ==> IsLabelForm(forms[k])
    ensures Avoids(t, AnyForm(forms), x)
  {
    if |forms| > 0 {
      var form := forms[0];
      WordAvoids(t, form.stem, x);
      if form.ending.FoldAny? { FoldAnyAvoids(t, form.ending.wants, x); }
      assert Avoids(t, One(form.ending), x);
      CatAvoids(t, One(form.ending), Empty, x);
      CatAvoids(t, Word(form.stem), if form.bare then Maybe(One(form.ending)) else One(form.ending), x);
      AnyFormAvoids(t, forms[1..], x);
    }
  }

  lemma {:induction false} AnyWordAvoids(t: Tables, words: seq<string>, x: char)
    requires Faithful(t) && IsBrace(x) && forall k :: 0 <= k < |words| ==> IsPointerWord(words[k])
    ensures Avoids(t, AnyWord(words), x)
  {
    if |words| > 0 {
      WordAvoids(t, words[0], x);
      AnyWordAvoids(t, words[1..], x);
    }
  }

  lemma CatAvoids(t: Tables, first: Re, second: Re, x: char)
    requires Avoids(t, first, x) && Avoids(t, second, x)
    ensures Avoids(t, Cat(first, second), x) && Avoids(t, Alt(first, second), x) && Avoids(t, Star(first), x)
  {}

  lemma NumberAvoids(t: Tables, x: char)
    requires IsBrace(x)
    ensures Avoids(t, DIGITS, x) && Avoids(t, NUMBER, x) && Avoids(t, SPACES, x) && Avoids(t, GAP, x)
  {
    assert Avoids(t, One(Digit), x) && Avoids(t, One(Space), x);
    assert Avoids(t, DIGITS, x);
    assert Avoids(t, FRACTION, x);
    assert Avoids(t, Maybe(FRACTION), x);
  }

  lemma EdgesAvoid(t: Tables, x: char)
    requires Faithful(t) && IsBrace(x)
    ensures Avoids(t, NotBehind(WordOrDot), x) && Avoids(t, NotAhead(WordRune), x)
  {
    Punctuation(t);
  }

  lemma RefAvoids(t: Tables, x: char)
    requires Faithful(t) && IsBrace(x)
    ensures Avoids(t, REF, x) && Avoids(t, SEGMENT_ID, x)
  {
    WordAvoids(t, "rec", x);
    FoldAnyAvoids(t, "urs", x);
    BraceIsNoLetter(t, x, 's');
    NumberAvoids(t, x);
    EdgesAvoid(t, x);
    assert Avoids(t, Cat(Word("rec"), DIGITS), x) && Avoids(t, Cat(One(FoldAny("urs")), NUMBER), x);
    CatAvoids(t, ID, NotAhead(WordRune), x);
    CatAvoids(t, NUMBER, NotAhead(WordRune), x);
    CatAvoids(t, One(Fold('s')), Cat(NUMBER, NotAhead(WordRune)), x);
    CatAvoids(t, NotBehind(WordOrDot), Cat(One(Fold('s')), Cat(NUMBER, NotAhead(WordRune))), x);
  }

  lemma ListAvoids(t: Tables, item: Re, x: char)
    requires Faithful(t) && IsBrace(x) && Avoids(t, item, x)
    ensures Avoids(t, Bracketed(item), x)
  {
    NumberAvoids(t, x);
    BraceIsNoLetter(t, x, 'и');
    CatAvoids(t, SPACES, item, x);
    CatAvoids(t, SEPARATOR, Cat(SPACES, item), x);
    CatAvoids(t, SPACES, Cat(SEPARATOR, Cat(SPACES, item)), x);
    CatAvoids(t, More(item), More(item), x);
    CatAvoids(t, Star(More(item)), CLOSING, x);
    CatAvoids(t, item, Rest(item), x);
    CatAvoids(t, SPACES, Cat(item, Rest(item)), x);
    CatAvoids(t, One(OneOf("([")), Cat(SPACES, Cat(item, Rest(item))), x);
  }

  lemma StagesAvoidBraces(t: Tables, x: char)
    requires Faithful(t) && IsBrace(x)
    ensures Avoids(t, List(t), x) && Avoids(t, Segment(t), x) && Avoids(t, Labelled(t), x)
  {
    RefAvoids(t, x);
    NumberAvoids(t, x);
    AnyFormAvoids(t, t.words.labels, x);
    CatAvoids(t, SPACES, REF, x);
    CatAvoids(t, Label(t), Cat(SPACES, REF), x);
    ListAvoids(t, Item(t), x);
    PointersAvoid(t, x);
    CatAvoids(t, GAP, REF, x);
    CatAvoids(t, Label(t), Cat(GAP, REF), x);
  }

  lemma PointersAvoid(t: Tables, x: char)
    requires Faithful(t) && IsBrace(x) && Avoids(t, SEGMENT_ID, x)
    ensures Avoids(t, Segment(t), x)
  {
    NumberAvoids(t, x);
    AnyWordAvoids(t, t.words.nouns, x);
    AnyWordAvoids(t, t.words.prepositions, x);
    BraceIsNoLetter(t, x, 'с');
    CatAvoids(t, AnyWord(t.words.nouns), Star(One(Letter)), x);
    CatAvoids(t, GAP, Cat(AnyWord(t.words.nouns), Star(One(Letter))), x);
    CatAvoids(t, Noun(t), Empty, x);
    CatAvoids(t, Maybe(Noun(t)), SEGMENT_ID, x);
    CatAvoids(t, GAP, AnyWord(t.words.prepositions), x);
    CatAvoids(t, Preposition(t), Empty, x);
  }

  /** The three rune stages, one after the other. */
  ghost function Stripped(t: Tables, titles: map<string, string>, r: string): string {
    Replace(t, Labelled(t), Naming(t, titles), Replace(t, Segment(t), Drop, Replace(t, List(t), Drop, r)))
  }

  method StripReferences(t: Tables, piece: string, titles: map<string, string>) returns (out: string)
    requires Faithful(t)
    ensures out == Stripped(t, titles, piece)
  {
    var r := RemoveBracketedLists(t, piece);
    r := RemoveSegmentReferences(t, r);
    out := ReplaceLabelledRefs(t, r, titles);
  }

  /** The three stages distribute over a brace, whatever stands on its two sides. */
  lemma BracesSplit(t: Tables, titles: map<string, string>, a: string, x: char, b: string)
    requires Faithful(t) && IsBrace(x)
    ensures Stripped(t, titles, a + [x] + b) == Stripped(t, titles, a) + [x] + Stripped(t, titles, b)
  {
    StagesAvoidBraces(t, x);
    Barrier(t, List(t), Drop, a, x, b);
    var a1, b1 := Replace(t, List(t), Drop, a), Replace(t, List(t), Drop, b);
    Barrier(t, Segment(t), Drop, a1, x, b1);
    var a2, b2 := Replace(t, Segment(t), Drop, a1), Replace(t, Segment(t), Drop, b1);
    Barrier(t, Labelled(t), Naming(t, titles), a2, x, b2);
  }

  /** Pieces of text with a brace between each two. */
  function Joined(pieces: seq<string>, braces: string): string
    requires |pieces| == |braces| + 1
  {
    if braces == "" then pieces[0] else pieces[0] + [braces[0]] + Joined(pieces[1..], braces[1..])
  }

  /** The three stages distribute over any number of braces. */
  lemma {:induction false} AllBracesSplit(
    t: Tables, titles: map<string, string>, pieces: seq<string>, braces: string, cleaned: seq<string>)
    requires Faithful(t) && |pieces| == |cleaned| == |braces| + 1
    requires forall k :: 0 <= k < |braces| ==> IsBrace(braces[k])
    requires forall k :: 0 <= k < |pieces| ==> cleaned[k] == Stripped(t, titles, pieces[k])
    ensures Stripped(t, titles, Joined(pieces, braces)) == Joined(cleaned, braces)
    decreases |braces|
  {
    if braces != "" {
      AllBracesSplit(t, titles, pieces[1..], braces[1..], cleaned[1..]);
      BracesSplit(t, titles, pieces[0], braces[0], Joined(pieces[1..], braces[1..]));
    }
  }
}
