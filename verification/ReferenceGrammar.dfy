/** The reference IDs, labels, lists and pointers of the cleaner, written as regular expressions. */
module ReferenceGrammar {
  import opened Runes
  import opened Grammar

  function Word(w: string): Re {
    if w == "" then Empty else Cat(One(Fold(w[0])), Word(w[1..]))
  }

  function Maybe(re: Re): Re {
    Alt(re, Empty)
  }

  const SPACES := Star(One(Space))
  const GAP := Cat(One(Space), SPACES)
  const DIGITS := Cat(One(Digit), Star(One(Digit)))
  const FRACTION := Cat(One(OneOf(".")), DIGITS)
  const NUMBER := Cat(DIGITS, Maybe(FRACTION))
  /** rec\d+ or [urs]\d+(\.\d+)? */
  const ID := Alt(Cat(Word("rec"), DIGITS), Cat(One(FoldAny("urs")), NUMBER))
  const REF := Cat(NotBehind(WordOrDot), Cat(ID, NotAhead(WordRune)))

  function FormRe(form: LabelForm): Re {
    Cat(Word(form.stem), if form.bare then Maybe(One(form.ending)) else One(form.ending))
  }

  function AnyForm(forms: seq<LabelForm>): Re {
    if |forms| == 0 then One(OneOf("")) else Alt(FormRe(forms[0]), AnyForm(forms[1..]))
  }

  function Label(t: Tables): Re {
    AnyForm(t.words.labels)
  }

  function Item(t: Tables): Re {
    Alt(Cat(Label(t), Cat(SPACES, REF)), REF)
  }

  const SEPARATOR := Alt(One(OneOf(",;/")), One(Fold('и')))
  const CLOSING := Cat(SPACES, One(OneOf(")]")))

  function More(item: Re): Re {
    Cat(SPACES, Cat(SEPARATOR, Cat(SPACES, item)))
  }

  function Rest(item: Re): Re {
    Cat(Star(More(item)), CLOSING)
  }

  function Bracketed(item: Re): Re {
    Cat(SPACES, Cat(One(OneOf("([")), Cat(SPACES, Cat(item, Rest(item)))))
  }

  /** A bracketed list of IDs with the whitespace before it. */
  function List(t: Tables): Re {
    Bracketed(Item(t))
  }

  function AnyWord(words: seq<string>): Re {
    if |words| == 0 then One(OneOf("")) else Alt(Word(words[0]), AnyWord(words[1..]))
  }

  const SEGMENT_CORE := Cat(NotBehind(WordOrDot), Cat(One(Fold('s')), Cat(NUMBER, NotAhead(WordRune))))
  const SEGMENT_ID := Cat(GAP, SEGMENT_CORE)

  function Noun(t: Tables): Re {
    Cat(GAP, Cat(AnyWord(t.words.nouns), Star(One(Letter))))
  }

  function Preposition(t: Tables): Re {
    Cat(GAP, AnyWord(t.words.prepositions))
  }

  function Pointed(t: Tables): Re {
    Cat(Maybe(Noun(t)), SEGMENT_ID)
  }

  /** A preposition, a noun and a segment ID, each after whitespace; only the ID must be there. */
  function Segment(t: Tables): Re {
    Cat(Maybe(Preposition(t)), Pointed(t))
  }

  function Labelled(t: Tables): Re {
    Alt(Cat(Label(t), Cat(GAP, REF)), REF)
  }

  // ----- what the pieces match, rune by rune -----

  ghost predicate Spaces(r: string, i: int, e: int) {
    0 <= i <= e <= |r| && forall k :: i <= k < e ==> IsSpace(r[k])
  }

  /** Where the whitespace at i stops. */
  function SpacesEnd(r: string, i: int): (e: int)
    requires 0 <= i <= |r|
    ensures Spaces(r, i, e) && (e < |r| ==> !IsSpace(r[e]))
    decreases |r| - i
  {
    if i < |r| && IsSpace(r[i]) then SpacesEnd(r, i + 1) else i
  }

  ghost predicate Digits(r: string, i: int, e: int) {
    0 <= i < e <= |r| && forall k :: i <= k < e ==> IsDigit(r[k])
  }

  /** Where the run of digits at i stops. */
  function DigitsEnd(r: string, i: int): (e: int)
    requires 0 <= i <= |r|
    ensures i <= e <= |r| && (e < |r| ==> !IsDigit(r[e]))
    ensures forall k :: i <= k < e ==> IsDigit(r[k])
    decreases |r| - i
  {
    if i < |r| && IsDigit(r[i]) then DigitsEnd(r, i + 1) else i
  }

  predicate FoldedAt(r: string, i: int, w: string) {
    0 <= i && i + |w| <= |r| && forall k :: 0 <= k < |w| ==> SameLetter(r[i + k], w[k])
  }

  ghost predicate IsFraction(r: string, i: int, d: int, e: int) {
    Digits(r, i, d) && d < |r| && r[d] == '.' && Digits(r, d + 1, e)
  }

  ghost predicate IsNumber(r: string, i: int, e: int) {
    Digits(r, i, e) || exists d :: IsFraction(r, i, d, e)
  }

  ghost predicate IsId(r: string, i: int, e: int) {
    || (FoldedAt(r, i, "rec") && Digits(r, i + 3, e))
    || (0 <= i < |r| && FoldContains("urs", r[i]) && IsNumber(r, i + 1, e))
  }

  predicate EdgeBefore(t: Tables, r: string, i: int)
    requires 0 <= i <= |r|
  {
    i == 0 || (r[i - 1] != '.' && !t.letter(r[i - 1]) && !t.number(r[i - 1]))
  }

  predicate EdgeAfter(t: Tables, r: string, e: int)
    requires 0 <= e
  {
    e >= |r| || (!t.letter(r[e]) && !t.number(r[e]))
  }

  ghost predicate IsRef(t: Tables, r: string, i: int, e: int) {
    0 <= i <= e <= |r| && EdgeBefore(t, r, i) && IsId(r, i, e) && EdgeAfter(t, r, e)
  }

  lemma {:induction false} StarMatch(t: Tables, cls: Class, r: string, i: int, e: int)
    requires 0 <= i <= e <= |r|
    ensures Match(t, Star(One(cls)), r, i, e) <==> forall k :: i <= k < e ==> In(t, cls, r[k])
    decreases e - i
  {
    if i < e {
      StarMatch(t, cls, r, i + 1, e);
      assert Match(t, One(cls), r, i, i + 1) <==> In(t, cls, r[i]);
    }
  }

  lemma SpacesMatch(t: Tables, r: string, i: int, e: int)
    ensures Match(t, SPACES, r, i, e) <==> Spaces(r, i, e)
  {
    if 0 <= i <= e <= |r| { StarMatch(t, Space, r, i, e); }
  }

  lemma GapMatch(t: Tables, r: string, i: int, e: int)
    ensures Match(t, GAP, r, i, e) <==> i < e && Spaces(r, i, e)
  {
    SpacesMatch(t, r, i + 1, e);
    if i < e && Spaces(r, i, e) { assert Match(t, One(Space), r, i, i + 1); }
  }

  lemma DigitsMatch(t: Tables, r: string, i: int, e: int)
    ensures Match(t, DIGITS, r, i, e) <==> Digits(r, i, e)
  {
    if 0 <= i < e <= |r| {
      StarMatch(t, Digit, r, i + 1, e);
      if Digits(r, i, e) { assert Match(t, One(Digit), r, i, i + 1); }
    }
  }

  lemma FractionMatch(t: Tables, r: string, d: int, e: int)
    ensures Match(t, FRACTION, r, d, e) <==> 0 <= d < |r| && r[d] == '.' && Digits(r, d + 1, e)
  {
    DigitsMatch(t, r, d + 1, e);
    if 0 <= d < e <= |r| { assert Match(t, One(OneOf(".")), r, d, d + 1) <==> r[d] == '.'; }
  }

  lemma NumberMatch(t: Tables, r: string, i: int, e: int)
    ensures Match(t, NUMBER, r, i, e) <==> IsNumber(r, i, e)
  {
    forall d
      ensures Match(t, DIGITS, r, i, d) <==> Digits(r, i, d)
      ensures Match(t, Maybe(FRACTION), r, d, e) <==>
              (0 <= d < |r| && r[d] == '.' && Digits(r, d + 1, e)) || 0 <= d == e <= |r|
    {
      DigitsMatch(t, r, i, d);
      FractionMatch(t, r, d, e);
      assert Match(t, Empty, r, d, e) <==> 0 <= d == e <= |r|;
    }
    if IsNumber(r, i, e) {
      if Digits(r, i, e) {
        assert Match(t, DIGITS, r, i, e) && Match(t, Maybe(FRACTION), r, e, e);
      } else {
        var d :| IsFraction(r, i, d, e);
        assert Match(t, DIGITS, r, i, d) && Match(t, Maybe(FRACTION), r, d, e);
      }
    }
    if Match(t, NUMBER, r, i, e) {
      var d := CatSplit(t, DIGITS, Maybe(FRACTION), r, i, e);
      assert d == e || IsFraction(r, i, d, e);
    }
  }

  lemma {:induction false} WordMatch(t: Tables, w: string, r: string, i: int, e: int)
    ensures Match(t, Word(w), r, i, e) <==> FoldedAt(r, i, w) && e == i + |w|
    decreases |w|
  {
    if w != "" {
      WordMatch(t, w[1..], r, i + 1, e);
      if 0 <= i < |r| {
        assert Match(t, One(Fold(w[0])), r, i, i + 1) <==> SameLetter(r[i], w[0]);
        assert FoldedAt(r, i, w) <==> SameLetter(r[i], w[0]) && FoldedAt(r, i + 1, w[1..]) by {
          if SameLetter(r[i], w[0]) && FoldedAt(r, i + 1, w[1..]) {
            forall k | 0 <= k < |w| ensures SameLetter(r[i + k], w[k]) {
              if k > 0 { assert SameLetter(r[i + 1 + (k - 1)], w[1..][k - 1]); }
            }
          }
          if FoldedAt(r, i, w) {
            forall k | 0 <= k < |w[1..]| ensures SameLetter(r[i + 1 + k], w[1..][k]) {
              assert SameLetter(r[i + (k + 1)], w[k + 1]);
            }
          }
        }
      }
    }
  }

  ghost predicate IsForm(t: Tables, form: LabelForm, r: string, i: int, l: int) {
    && FoldedAt(r, i, form.stem)
    && var m := i + |form.stem|;
       (l == m + 1 <= |r| && In(t, form.ending, r[m])) || (form.bare && l == m)
  }

  lemma FormMatch(t: Tables, form: LabelForm, r: string, i: int, l: int)
    ensures Match(t, FormRe(form), r, i, l) <==> IsForm(t, form, r, i, l)
  {
    var m := i + |form.stem|;
    var tail := if form.bare then Maybe(One(form.ending)) else One(form.ending);
    if Match(t, FormRe(form), r, i, l) {
      var w := CatSplit(t, Word(form.stem), tail, r, i, l);
      WordMatch(t, form.stem, r, i, w);
    }
    WordMatch(t, form.stem, r, i, m);
    if FoldedAt(r, i, form.stem) {
      assert Match(t, Empty, r, m, l) <==> l == m;
      assert Match(t, One(form.ending), r, m, l) <==> l == m + 1 <= |r| && In(t, form.ending, r[m]);
      if IsForm(t, form, r, i, l) { CatJoin(t, Word(form.stem), tail, r, i, m, l); }
    }
  }

  lemma {:induction false} FormsMatch(t: Tables, forms: seq<LabelForm>, r: string, i: int, l: int)
    ensures Match(t, AnyForm(forms), r, i, l) <==> exists k :: 0 <= k < |forms| && IsForm(t, forms[k], r, i, l)
  {
    if |forms| > 0 {
      FormMatch(t, forms[0], r, i, l);
      var rest := forms[1..];
      FormsMatch(t, rest, r, i, l);
      if k :| 0 <= k < |forms| && IsForm(t, forms[k], r, i, l) {
        if k > 0 { assert IsForm(t, rest[k - 1], r, i, l); }
      }
      if k :| 0 <= k < |rest| && IsForm(t, rest[k], r, i, l) {
        assert IsForm(t, forms[k + 1], r, i, l);
      }
    }
  }

  lemma IdMatch(t: Tables, r: string, i: int, e: int)
    ensures Match(t, ID, r, i, e) <==> IsId(r, i, e)
  {
    forall m ensures Match(t, Word("rec"), r, i, m) <==> FoldedAt(r, i, "rec") && m == i + 3 {
      WordMatch(t, "rec", r, i, m);
    }
    DigitsMatch(t, r, i + 3, e);
    NumberMatch(t, r, i + 1, e);
    assert Match(t, Cat(Word("rec"), DIGITS), r, i, e) <==> FoldedAt(r, i, "rec") && Digits(r, i + 3, e);
    if 0 <= i < |r| {
      assert Match(t, One(FoldAny("urs")), r, i, i + 1) <==> FoldContains("urs", r[i]);
    }
    assert Match(t, Cat(One(FoldAny("urs")), NUMBER), r, i, e) <==>
           0 <= i < |r| && FoldContains("urs", r[i]) && IsNumber(r, i + 1, e);
  }

  lemma RefMatch(t: Tables, r: string, i: int, e: int)
    ensures Match(t, REF, r, i, e) <==> IsRef(t, r, i, e)
  {
    if 0 <= i <= e <= |r| {
      IdMatch(t, r, i, e);
      assert Match(t, NotAhead(WordRune), r, e, e) <==> EdgeAfter(t, r, e);
      assert Match(t, NotBehind(WordOrDot), r, i, i) <==> EdgeBefore(t, r, i);
      var tail := Cat(ID, NotAhead(WordRune));
      assert Match(t, tail, r, i, e) <==> Match(t, ID, r, i, e) && EdgeAfter(t, r, e);
    }
  }

  // ----- references -----

  lemma FoldedRunes(t: Tables, r: string, i: int, w: string)
    requires Faithful(t) && FoldedAt(r, i, w) && IsLowerWord(w)
    ensures forall k :: i <= k < i + |w| ==> t.letter(r[k])
  {
    forall k | i <= k < i + |w| ensures t.letter(r[k]) {
      assert SameLetter(r[i + (k - i)], w[k - i]);
    }
  }

  lemma FoldContained(t: Tables, wants: string, c: char)
    requires Faithful(t) && IsLowerWord(wants) && FoldContains(wants, c)
    ensures t.letter(c)
  {}

  /** An ID starts with a letter of its own and holds letters, digits and dots. */
  lemma RefRunes(t: Tables, r: string, i: int, e: int)
    requires Faithful(t) && IsRef(t, r, i, e)
    ensures i + 2 <= e && FoldContains("urs", r[i]) && t.letter(r[i])
    ensures forall k :: i < k < e ==> IsDigit(r[k]) || t.letter(r[k]) || r[k] == '.'
    ensures IsDigit(r[e - 1])
  {
    if FoldedAt(r, i, "rec") && Digits(r, i + 3, e) {
      FoldedRunes(t, r, i, "rec");
      assert SameLetter(r[i], "urs"[1]) by { assert SameLetter(r[i + 0], "rec"[0]); }
    }
    FoldContained(t, "urs", r[i]);
  }

  /** A number that no digit follows ends after its whole part or after its fraction. */
  lemma NumberEnds(r: string, i: int, e: int)
    requires IsNumber(r, i, e) && (e == |r| || !IsDigit(r[e]))
    ensures var w := DigitsEnd(r, i);
            i < w && (e == w || (w + 1 < |r| && r[w] == '.' && e == DigitsEnd(r, w + 1) > w + 1))
  {
    if !Digits(r, i, e) {
      var d :| IsFraction(r, i, d, e);
      assert d == DigitsEnd(r, i);
    }
  }

  /** A digit run that no digit follows is the longest. */
  lemma DigitsMeet(r: string, i: int, e: int, e': int)
    requires Digits(r, i, e) && Digits(r, i, e') && (e == |r| || !IsDigit(r[e]))
    ensures e' <= e
  {}

  /** An ID may end in two places only around a dot. */
  lemma RefEndsAroundDot(t: Tables, r: string, i: int, e: int, longer: int)
    requires Faithful(t) && IsRef(t, r, i, e) && IsRef(t, r, i, longer) && e < longer
    ensures r[e] == '.'
  {
    if FoldedAt(r, i, "rec") {
      RecIsNoNumber(t, r, i, e);
      RecIsNoNumber(t, r, i, longer);
      DigitsMeet(r, i + 3, e, longer);
    } else {
      NumberEnds(r, i + 1, e);
      NumberEnds(r, i + 1, longer);
    }
  }

  lemma RecIsNoNumber(t: Tables, r: string, i: int, e: int)
    requires Faithful(t) && FoldedAt(r, i, "rec")
    ensures !IsNumber(r, i + 1, e)
  {
    FoldedRunes(t, r, i, "rec");
    assert !IsDigit(r[i + 1]);
  }

  /** What follows the letters of an ID fixes where it may end. */
  lemma RecEnd(t: Tables, r: string, i: int, e: int)
    requires Faithful(t) && FoldedAt(r, i, "rec") && IsId(r, i, e) && e <= |r| && EdgeAfter(t, r, e)
    ensures e == DigitsEnd(r, i + 3) > i + 3
  {
    RecIsNoNumber(t, r, i, e);
  }

  lemma LetterEnd(t: Tables, r: string, i: int, e: int)
    requires Faithful(t) && !FoldedAt(r, i, "rec") && IsId(r, i, e) && e <= |r| && EdgeAfter(t, r, e)
    ensures 0 <= i < |r| && FoldContains("urs", r[i])
    ensures var w := DigitsEnd(r, i + 1);
            i + 1 < w && (e == w || (w + 1 < |r| && r[w] == '.' && e == DigitsEnd(r, w + 1) > w + 1))
  {
    NumberEnds(r, i + 1, e);
  }

  lemma RecFolds(r: string, i: int)
    requires 0 <= i < |r|
    ensures FoldedAt(r, i, "rec") <==> SameLetter(r[i], 'r') && FoldedAt(r, i + 1, "ec")
  {
    if FoldedAt(r, i, "rec") {
      assert SameLetter(r[i + 0], "rec"[0]) && SameLetter(r[i + 1], "rec"[1]) && SameLetter(r[i + 2], "rec"[2]);
    }
    if SameLetter(r[i], 'r') && FoldedAt(r, i + 1, "ec") {
      assert SameLetter(r[i + 1 + 0], "ec"[0]) && SameLetter(r[i + 1 + 1], "ec"[1]);
    }
  }

  function At(r: string, i: int): char {
    if 0 <= i < |r| then r[i] else '\0'
  }

  /** The candidate ends of an ID at i, in falling order, before its edges are looked at. */
  function RefEnds(r: string, i: int): seq<int>
    requires 0 <= i < |r|
  {
    if SameLetter(r[i], 'r') && FoldedAt(r, i + 1, "ec") && IsDigit(At(r, i + 3)) then [DigitsEnd(r, i + 3)]
    else if FoldContains("urs", r[i]) && IsDigit(At(r, i + 1)) then
      var whole := DigitsEnd(r, i + 1);
      if At(r, whole) == '.' && IsDigit(At(r, whole + 1)) then [DigitsEnd(r, whole + 1), whole] else [whole]
    else []
  }

  lemma RefEndsSound(t: Tables, r: string, i: int)
    requires Faithful(t) && 0 <= i < |r|
    ensures forall e :: e in RefEnds(r, i) ==> i < e <= |r| && IsId(r, i, e)
    ensures forall j, k :: 0 <= j < k < |RefEnds(r, i)| ==> RefEnds(r, i)[j] > RefEnds(r, i)[k]
  {
    RecFolds(r, i);
    if FoldContains("urs", r[i]) && IsDigit(At(r, i + 1)) {
      var whole := DigitsEnd(r, i + 1);
      assert Digits(r, i + 1, whole);
      if At(r, whole) == '.' && IsDigit(At(r, whole + 1)) {
        assert IsFraction(r, i + 1, whole, DigitsEnd(r, whole + 1));
      }
    }
  }

  lemma RefEndsComplete(t: Tables, r: string, i: int, e: int)
    requires Faithful(t) && 0 <= i < |r| && IsId(r, i, e) && 0 <= e <= |r| && EdgeAfter(t, r, e)
    ensures e in RefEnds(r, i)
  {
    RecFolds(r, i);
    if FoldedAt(r, i, "rec") { RecEnd(t, r, i, e); } else { LetterEnd(t, r, i, e); }
  }

  lemma NotFolded(r: string, i: int, w: string, k: int)
    requires 0 <= i && 0 <= k < |w| && (i + k >= |r| || !SameLetter(r[i + k], w[k]))
    ensures !FoldedAt(r, i, w)
  {}

  // ----- labels -----

  ghost predicate IsLabel(t: Tables, r: string, i: int, l: int) {
    exists k :: 0 <= k < |t.words.labels| && IsForm(t, t.words.labels[k], r, i, l)
  }

  lemma LabelMatch(t: Tables, r: string, i: int, l: int)
    ensures Match(t, Label(t), r, i, l) <==> IsLabel(t, r, i, l)
  {
    FormsMatch(t, t.words.labels, r, i, l);
  }

  /** A label is made of letters, maybe with a dot at its end, and never starts like an ID. */
  lemma LabelRunes(t: Tables, r: string, i: int, l: int)
    requires Faithful(t) && IsLabel(t, r, i, l)
    ensures i < l <= |r| && t.letter(r[i]) && !FoldContains("urs", r[i])
    ensures forall k :: i <= k < l ==> t.letter(r[k]) || r[k] == '.'
    ensures forall w :: 'a' <= w <= 'z' ==> !SameLetter(r[i], w)
  {
    var k :| 0 <= k < |t.words.labels| && IsForm(t, t.words.labels[k], r, i, l);
    FormRunes(t, t.words.labels[k], r, i, l);
  }

  lemma FormRunes(t: Tables, form: LabelForm, r: string, i: int, l: int)
    requires Faithful(t) && IsLabelForm(form) && IsForm(t, form, r, i, l)
    ensures i < l <= |r| && t.letter(r[i]) && !FoldContains("urs", r[i])
    ensures forall k :: i <= k < l ==> t.letter(r[k]) || r[k] == '.'
    ensures forall w :: 'a' <= w <= 'z' ==> !SameLetter(r[i], w)
  {
    FoldedRunes(t, r, i, form.stem);
    if form.ending.FoldAny? && l == i + |form.stem| + 1 { FoldContained(t, form.ending.wants, r[l - 1]); }
    assert SameLetter(r[i + 0], form.stem[0]);
    forall w | 'a' <= w <= 'z' ensures !SameLetter(r[i], w) {
      if SameLetter(r[i], w) { OneOrbit(r[i], form.stem[0], w); }
    }
    var ids := "urs";
    assert forall k :: 0 <= k < |ids| ==> 'a' <= ids[k] <= 'z';
  }

  // ----- list items -----

  /** The ID that a label at i introduces starts at s. */
  ghost predicate LabelReaches(t: Tables, r: string, i: int, s: int) {
    && (exists e :: IsRef(t, r, s, e))
    && exists l :: IsLabel(t, r, i, l) && Spaces(r, l, s)
  }

  ghost predicate IsItem(t: Tables, r: string, i: int, e: int) {
    IsRef(t, r, i, e) || exists s :: LabelReaches(t, r, i, s) && IsRef(t, r, s, e)
  }

  /** Between a label and its ID there is a gap, and only one of the label's ends leads to an ID. */
  lemma LabelGap(t: Tables, r: string, i: int, l: int, s: int, e: int)
    requires Faithful(t) && IsLabel(t, r, i, l) && Spaces(r, l, s) && IsRef(t, r, s, e)
    ensures l < s
  {
    LabelRunes(t, r, i, l);
    assert t.letter(r[l - 1]) || r[l - 1] == '.';
  }

  lemma LabelReachesOne(t: Tables, r: string, i: int, s: int, s': int)
    requires Faithful(t) && LabelReaches(t, r, i, s) && LabelReaches(t, r, i, s')
    ensures s == s'
  {
    var e, e' :| IsRef(t, r, s, e) && IsRef(t, r, s', e');
    var l :| IsLabel(t, r, i, l) && Spaces(r, l, s);
    var l' :| IsLabel(t, r, i, l') && Spaces(r, l', s');
    LabelGap(t, r, i, l, s, e);
    LabelGap(t, r, i, l', s', e');
    LabelRunes(t, r, i, l);
    LabelRunes(t, r, i, l');
    assert IsSpace(r[l]) && IsSpace(r[l']);
    assert l == l';
    RefRunes(t, r, s, e);
    RefRunes(t, r, s', e');
  }

  lemma LabelReachesBySkip(t: Tables, r: string, i: int, s: int)
    requires Faithful(t) && LabelReaches(t, r, i, s)
    ensures exists l :: 0 <= l <= |r| && IsLabel(t, r, i, l) && s == SpacesEnd(r, l)
  {
    var e :| IsRef(t, r, s, e);
    var l :| IsLabel(t, r, i, l) && Spaces(r, l, s);
    RefRunes(t, r, s, e);
    LabelRunes(t, r, i, l);
    assert s == SpacesEnd(r, l);
  }

  /** An item may end in two places only around a dot. */
  lemma ItemEndsAroundDot(t: Tables, r: string, i: int, e: int, longer: int)
    requires Faithful(t) && IsItem(t, r, i, e) && IsItem(t, r, i, longer) && e < longer
    ensures r[e] == '.'
  {
    if IsRef(t, r, i, e) || IsRef(t, r, i, longer) {
      var b := if IsRef(t, r, i, e) then e else longer;
      RefRunes(t, r, i, b);
      forall l | IsLabel(t, r, i, l) ensures false { LabelRunes(t, r, i, l); }
      RefEndsAroundDot(t, r, i, e, longer);
    } else {
      var s :| LabelReaches(t, r, i, s) && IsRef(t, r, s, e);
      var s' :| LabelReaches(t, r, i, s') && IsRef(t, r, s', longer);
      LabelReachesOne(t, r, i, s, s');
      RefEndsAroundDot(t, r, s, e, longer);
    }
  }

  lemma ItemSound(t: Tables, r: string, i: int, e: int)
    requires Match(t, Item(t), r, i, e)
    ensures IsItem(t, r, i, e)
  {
    var tail := Cat(SPACES, REF);
    if Match(t, REF, r, i, e) {
      RefMatch(t, r, i, e);
    } else {
      var l := CatSplit(t, Label(t), tail, r, i, e);
      var s := CatSplit(t, SPACES, REF, r, l, e);
      LabelMatch(t, r, i, l);
      SpacesMatch(t, r, l, s);
      RefMatch(t, r, s, e);
      assert LabelReaches(t, r, i, s);
    }
  }

  lemma ItemComplete(t: Tables, r: string, i: int, e: int)
    requires IsItem(t, r, i, e)
    ensures Match(t, Item(t), r, i, e)
  {
    RefMatch(t, r, i, e);
    if !IsRef(t, r, i, e) {
      var s :| LabelReaches(t, r, i, s) && IsRef(t, r, s, e);
      var l :| IsLabel(t, r, i, l) && Spaces(r, l, s);
      LabelMatch(t, r, i, l);
      SpacesMatch(t, r, l, s);
      RefMatch(t, r, s, e);
      CatJoin(t, SPACES, REF, r, l, s, e);
      CatJoin(t, Label(t), Cat(SPACES, REF), r, i, l, e);
    }
  }

  /** re starts with no whitespace when it ends at e. */
  ghost predicate StartsDark(t: Tables, re: Re, r: string, e: int) {
    forall k :: Match(t, re, r, k, e) ==> k < |r| && !IsSpace(r[k])
  }
}
