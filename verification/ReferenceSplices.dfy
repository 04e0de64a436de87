/** When removing single IDs puts a new one together, and when a second removal finds nothing. */
module ReferenceSplices {
  import opened Runes
  import opened Grammar
  import opened ReferenceGrammar
  import opened LabelledGrammar
  import opened ReferenceResidue

  // ----- spliced IDs -----

  /** The runes j..e of the output stood side by side. */
  ghost predicate Together(kept: seq<int>, j: int, e: int)
    requires 0 <= j <= e <= |kept|
  {
    forall x :: j <= x < e ==> kept[x] == kept[j] + (x - j)
  }

  /** An ID is left whose runes did not stand side by side. */
  ghost predicate SplicedLeft(t: Tables, out: string, kept: seq<int>)
    requires |out| < |kept|
  {
    exists j, e :: IsRef(t, out, j, e) && !Together(kept, j, e)
  }

  /** A dot and digits at c that nothing continues, or that a cut follows. */
  ghost predicate NumberFollows(t: Tables, r: string, c: int) {
    && 0 <= c && c + 1 < |r| && r[c] == '.' && IsDigit(r[c + 1])
    && var f := DigitsEnd(r, c + 1); EdgeAfter(t, r, f) || !NoItem(t, r, f)
  }

  /** A letter and digits stand glued to a labelled ID, and such a number right after the cut. */
  ghost predicate SplicesOver(t: Tables, r: string, ends: seq<int>, k: int, i: int)
    requires AreEnds(r, ends) && 0 <= i <= |r|
  {
    GluedAt(t, r, k, i) && Digits(r, k + 1, i) && NumberFollows(t, r, ends[i])
  }

  lemma GluedCameFrom(t: Tables, r: string, ends: seq<int>, out: string, kept: seq<int>, j: int, w: int)
    requires Faithful(t) && Cuts(t, r, ends) && Residue(r, ends, out, kept)
    requires WholeId(out, j, w) && 0 <= j <= |out| && EdgeBefore(t, out, j) && EdgeAfter(t, out, w)
    ensures 0 < w <= |out| && 0 <= kept[w - 1] < |r|
    ensures GluedAt(t, r, kept[j], kept[w - 1] + 1) && ends[kept[w - 1] + 1] != -1
  {
    WholeIdCameFrom(t, r, ends, out, kept, j, w);
    EdgeMeansCut(t, r, ends, out, kept, kept[j], w);
    WordThenCut(t, r, ends, kept[w - 1] + 1);
  }

  /** A fraction that is left was put together over a cut. */
  lemma FractionCameFrom(t: Tables, r: string, ends: seq<int>, out: string, kept: seq<int>, j: int, w: int, e: int)
    requires Faithful(t) && Cuts(t, r, ends) && Residue(r, ends, out, kept) && IsRef(t, out, j, e)
    requires 0 <= j < |out| && FoldContains("urs", out[j]) && IsFraction(out, j + 1, w, e)
    ensures 0 < w <= |out| && 0 <= kept[w - 1] < |r|
    ensures SplicesOver(t, r, ends, kept[j], kept[w - 1] + 1)
  {
    Punctuation(t);
    DotIsNoNumber(t);
    GluedCameFrom(t, r, ends, out, kept, j, w);
    DigitsCameFrom(t, r, ends, out, kept, j, w);
    FractionEnds(t, r, ends, out, kept, w, e);
    assert Step(r, ends, kept, w);
  }

  lemma DotIsNoNumber(t: Tables)
    requires Faithful(t)
    ensures !t.number('.')
  {
    var p := PUNCTUATION;
    assert p[9] == '.';
  }

  lemma DigitsCameFrom(t: Tables, r: string, ends: seq<int>, out: string, kept: seq<int>, j: int, w: int)
    requires Faithful(t) && Cuts(t, r, ends) && Residue(r, ends, out, kept) && 0 <= j < w <= |out|
    requires Digits(out, j + 1, w)
    ensures kept[w - 1] == kept[j] + (w - 1 - j) && Digits(r, kept[j] + 1, kept[w - 1] + 1)
  {
    RunStays(t, r, ends, out, kept, j, w);
    assert kept[w - 1] == kept[j] + (w - 1 - j);
    forall y | kept[j] + 1 <= y < kept[w - 1] + 1 ensures IsDigit(r[y]) {
      var x := y - kept[j] + j;
      assert kept[x] == y && out[x] == r[kept[x]];
    }
  }

  lemma DigitsEndIs(r: string, i: int, f: int)
    requires Digits(r, i, f) && (f < |r| ==> !IsDigit(r[f]))
    ensures f == DigitsEnd(r, i)
  {}

  /** Where an edge of the output was, r has an edge or a cut. */
  lemma EdgeOrCut(t: Tables, r: string, ends: seq<int>, out: string, kept: seq<int>, e: int)
    requires Faithful(t) && Cuts(t, r, ends) && Residue(r, ends, out, kept) && 0 < e <= |out| && EdgeAfter(t, out, e)
    ensures var f := kept[e - 1] + 1;
            && 0 <= f <= |r| && (EdgeAfter(t, r, f) || !NoItem(t, r, f)) && (f < |r| ==> !IsDigit(r[f]))
  {
    var f := kept[e - 1] + 1;
    assert Step(r, ends, kept, e);
    if ends[f] != -1 { ItemIsLonger(t, r, f, ends[f]); }
  }

  lemma FollowsTo(t: Tables, r: string, c: int, f: int)
    requires 0 <= c < |r| && r[c] == '.' && Digits(r, c + 1, f) && (f < |r| ==> !IsDigit(r[f]))
    requires EdgeAfter(t, r, f) || !NoItem(t, r, f)
    ensures NumberFollows(t, r, c)
  {
    DigitsEndIs(r, c + 1, f);
  }

  /** The digits after a dot that stays end where they ended, or at a cut. */
  lemma FractionEnds(t: Tables, r: string, ends: seq<int>, out: string, kept: seq<int>, w: int, e: int)
    requires Faithful(t) && Cuts(t, r, ends) && Residue(r, ends, out, kept) && 0 <= w < |out| && out[w] == '.'
    requires Digits(out, w + 1, e) && EdgeAfter(t, out, e)
    ensures NumberFollows(t, r, kept[w])
  {
    DigitsCameFrom(t, r, ends, out, kept, w, e);
    EdgeOrCut(t, r, ends, out, kept, e);
    FollowsTo(t, r, kept[w], kept[e - 1] + 1);
  }

  // ----- putting one together -----

  lemma NumberIsUncut(t: Tables, r: string, ends: seq<int>, c: int, f: int)
    requires Faithful(t) && Cuts(t, r, ends) && 0 <= c < f <= |r| && r[c] == '.'
    requires forall y :: c < y < f ==> IsDigit(r[y])
    ensures forall y :: c <= y < f ==> ends[y] == -1
  {
    Punctuation(t);
    forall y | c <= y < f ensures ends[y] == -1 {
      if ends[y] != -1 { ItemIsLonger(t, r, y, ends[y]); }
    }
  }

  lemma SpliceEdge(t: Tables, r: string, ends: seq<int>, out: string, kept: seq<int>, f: int, e: int)
    requires Faithful(t) && Cuts(t, r, ends) && Residue(r, ends, out, kept) && 0 < e <= |out| && kept[e - 1] + 1 == f
    requires EdgeAfter(t, r, f) || !NoItem(t, r, f)
    ensures EdgeAfter(t, out, e)
  {
    AfterCut(t, r, ends, f);
    assert Step(r, ends, kept, e);
  }

  lemma DigitsKept(r: string, out: string, kept: seq<int>, i: int, x: int, n: nat)
    requires Tracks(out, r, kept) && 0 <= x && x + n <= |out| && n > 0
    requires forall y :: x <= y < x + n ==> kept[y] == i + (y - x)
    requires Digits(r, i, i + n)
    ensures Digits(out, x, x + n)
  {
    forall y | x <= y < x + n ensures IsDigit(out[y]) { assert out[y] == r[kept[y]]; }
  }

  lemma NumberKept(t: Tables, r: string, ends: seq<int>, out: string, kept: seq<int>, c: int, f: int, w: int)
    requires Faithful(t) && Cuts(t, r, ends) && Residue(r, ends, out, kept) && 0 <= w <= |out| && kept[w] == c
    requires 0 <= c < |r| && r[c] == '.' && Digits(r, c + 1, f)
    ensures w + (f - c) <= |out| && out[w] == '.' && Digits(out, w + 1, w + (f - c)) && kept[w + (f - c) - 1] == f - 1
  {
    NumberIsUncut(t, r, ends, c, f);
    KeptRuns(r, ends, out, kept, w, f - 1 - c);
    DigitsKept(r, out, kept, c + 1, w + 1, f - c - 1);
  }

  /** The dot and the digits right after the cut stay side by side, and end where the ID may. */
  lemma FractionKept(t: Tables, r: string, ends: seq<int>, out: string, kept: seq<int>, c: int, w: int) returns (e: int)
    requires Faithful(t) && Cuts(t, r, ends) && Residue(r, ends, out, kept) && NumberFollows(t, r, c)
    requires 0 < w <= |out| && kept[w] == c
    ensures w < |out| && out[w] == '.' && Digits(out, w + 1, e) && EdgeAfter(t, out, e)
  {
    var f := DigitsEnd(r, c + 1);
    NumberKept(t, r, ends, out, kept, c, f, w);
    e := w + (f - c);
    SpliceEdge(t, r, ends, out, kept, f, e);
  }

  lemma RefFromParts(t: Tables, out: string, j: int, w: int, e: int)
    requires 0 <= j < |out| && EdgeBefore(t, out, j) && FoldContains("urs", out[j]) && Digits(out, j + 1, w)
    requires w < |out| && out[w] == '.' && Digits(out, w + 1, e) && EdgeAfter(t, out, e)
    ensures IsRef(t, out, j, e)
  {
    assert IsFraction(out, j + 1, w, e);
  }

  /** What stood before the cut is the part before the dot. */
  lemma HeadKept(t: Tables, r: string, ends: seq<int>, out: string, kept: seq<int>, k: int, i: int, j: int)
    requires Faithful(t) && Cuts(t, r, ends) && Residue(r, ends, out, kept) && GluedAt(t, r, k, i)
    requires Digits(r, k + 1, i)
    requires 0 <= j && j + (i - k) <= |out| && k < i
    requires forall y :: j <= y < j + (i - k) ==> kept[y] == k + (y - j)
    ensures j < |out| && EdgeBefore(t, out, j) && FoldContains("urs", out[j]) && Digits(out, j + 1, j + (i - k))
  {
    assert kept[j] == k;
    WholeIdRunes(t, r, k, i);
    EdgeBeforeGlued(t, r, ends, out, kept, j);
    DigitsKept(r, out, kept, k + 1, j + 1, i - k - 1);
    WholeIdLatin(t, r, k, i, k);
  }

  lemma CutAfterHead(t: Tables, r: string, ends: seq<int>, out: string, kept: seq<int>, k: int, i: int, w: int)
    requires Faithful(t) && Cuts(t, r, ends) && Residue(r, ends, out, kept) && GluedAt(t, r, k, i)
    requires 0 < w <= |out| && kept[w - 1] == i - 1 < |r|
    ensures kept[w] == ends[i] > i
  {
    GluedIsItem(t, r, k, i);
    assert Step(r, ends, kept, w);
  }

  lemma SplicedIsRef(
    t: Tables, r: string, ends: seq<int>, out: string, kept: seq<int>, k: int, i: int, j: int) returns (e: int)
    requires Faithful(t) && Cuts(t, r, ends) && Residue(r, ends, out, kept)
    requires 0 <= i <= |r| && SplicesOver(t, r, ends, k, i)
    requires 0 <= j && j + (i - k) <= |out| && k < i
    requires forall y :: j <= y < j + (i - k) ==> kept[y] == k + (y - j)
    ensures IsRef(t, out, j, e) && !Together(kept, j, e)
  {
    var w := j + (i - k);
    assert kept[j] == k && kept[w - 1] == i - 1;
    HeadKept(t, r, ends, out, kept, k, i, j);
    CutAfterHead(t, r, ends, out, kept, k, i, w);
    e := FractionKept(t, r, ends, out, kept, ends[i], w);
    RefFromParts(t, out, j, w, e);
    assert kept[w] != kept[j] + (w - j);
  }

  /** An ID is put together from two pieces exactly when digits after a cut continue a glued ID. */
  lemma SplicesExactly(t: Tables, r: string)
    requires Faithful(t)
    ensures var ends := Ends(t, Labelled(t), r);
            && |Kept(r, ends, 0)| == |Replace(t, Labelled(t), Drop, r)| + 1
            && (SplicedLeft(t, Replace(t, Labelled(t), Drop, r), Kept(r, ends, 0)) <==>
                exists k, i :: 0 <= i <= |r| && SplicesOver(t, r, ends, k, i))
  {
    var ends := Ends(t, Labelled(t), r);
    var out, kept := Splice(Drop, r, ends, 0), Kept(r, ends, 0);
    CutsAre(t, r);
    CutsAreApart(t, r, ends);
    ResidueIs(r, ends);
    if j, e :| IsRef(t, out, j, e) && !Together(kept, j, e) {
      var w := SplicedHasFraction(t, r, ends, out, kept, j, e);
      FractionCameFrom(t, r, ends, out, kept, j, w, e);
    }
    if k, i :| 0 <= i <= |r| && SplicesOver(t, r, ends, k, i) {
      var j := GluedStaysAt(t, r, ends, out, k, i);
      var e := SplicedIsRef(t, r, ends, out, kept, k, i, j);
    }
  }

  lemma SplicedHasFraction(
    t: Tables, r: string, ends: seq<int>, out: string, kept: seq<int>, j: int, e: int) returns (w: int)
    requires Faithful(t) && Cuts(t, r, ends) && Residue(r, ends, out, kept)
    requires IsRef(t, out, j, e) && !Together(kept, j, e)
    ensures 0 <= j < |out| && FoldContains("urs", out[j]) && IsFraction(out, j + 1, w, e)
  {
    if WholeId(out, j, e) {
      WholeIdRunes(t, out, j, e);
      RunStays(t, r, ends, out, kept, j, e);
    }
    w :| IsFraction(out, j + 1, w, e);
  }

  // ----- the part before the dot -----

  lemma PieceStays(r: string, out: string, kept: seq<int>, j: int, w: int)
    requires Tracks(out, r, kept) && 0 <= j < w <= |out|
    requires forall x :: j <= x < w ==> kept[x] == kept[j] + (x - j)
    ensures 0 <= kept[j] && kept[j] + (w - j) <= |r| && out[j..w] == r[kept[j]..kept[j] + (w - j)]
  {
    assert kept[w - 1] == kept[j] + (w - 1 - j);
  }

  lemma WholeIdWasThere(t: Tables, r: string, ends: seq<int>, out: string, kept: seq<int>, j: int, w: int)
    requires Faithful(t) && Cuts(t, r, ends) && Residue(r, ends, out, kept) && WholeId(out, j, w)
    ensures 0 <= j < w <= |out| && 0 <= kept[j] && kept[j] + (w - j) <= |r|
    ensures out[j..w] == r[kept[j]..kept[j] + (w - j)]
  {
    WholeIdRunes(t, out, j, w);
    RunStays(t, r, ends, out, kept, j, w);
    PieceStays(r, out, kept, j, w);
  }

  /** The part before the dot of an ID that is left is never put together: it stood in r in one piece. */
  lemma WholePartsStood(t: Tables, r: string, j: int, e: int) returns (k: int, w: int)
    requires Faithful(t) && IsRef(t, Replace(t, Labelled(t), Drop, r), j, e)
    ensures var out := Replace(t, Labelled(t), Drop, r);
            && WholeId(out, j, w) && 0 <= j < w <= |out| && EdgeAfter(t, out, w)
            && 0 <= k && k + (w - j) <= |r| && out[j..w] == r[k..k + (w - j)]
  {
    var ends := Ends(t, Labelled(t), r);
    CutsAre(t, r);
    CutsAreApart(t, r, ends);
    ResidueIs(r, ends);
    w := WholePart(t, Splice(Drop, r, ends, 0), j, e);
    k := Kept(r, ends, 0)[j];
    WholeIdWasThere(t, r, ends, Splice(Drop, r, ends, 0), Kept(r, ends, 0), j, w);
  }

  // ----- when a second pass finds nothing -----

  lemma {:induction false} SpliceIsShorter(r: string, ends: seq<int>, i: int)
    requires AreEnds(r, ends) && 0 <= i <= |r|
    ensures |Splice(Drop, r, ends, i)| <= |r| - i
    decreases |r| - i
  {
    if i == |r| {
    } else if ends[i] > i {
      SpliceIsShorter(r, ends, ends[i]);
      assert Splice(Drop, r, ends, i) == "" + Splice(Drop, r, ends, ends[i]);
    } else {
      SpliceIsShorter(r, ends, i + 1);
    }
  }

  /** The scan reaches the first cut, so one cut anywhere makes the output shorter. */
  lemma {:induction false} CutShortens(r: string, ends: seq<int>, i: int, p: int)
    requires AreEnds(r, ends) && 0 <= i <= p < |r| && ends[p] != -1
    ensures |Splice(Drop, r, ends, i)| < |r| - i
    decreases |r| - i
  {
    if ends[i] > i {
      SpliceIsShorter(r, ends, ends[i]);
      assert Splice(Drop, r, ends, i) == "" + Splice(Drop, r, ends, ends[i]);
    } else {
      CutShortens(r, ends, i + 1, p);
    }
  }

  /** Dropping changes a text exactly when there is an ID in it. */
  lemma DropsNothing(t: Tables, r: string)
    requires Faithful(t)
    ensures Replace(t, Labelled(t), Drop, r) == r <==> !Remains(t, r)
  {
    var ends := Ends(t, Labelled(t), r);
    CutsAre(t, r);
    if j, e :| IsRef(t, r, j, e) {
      assert IsItem(t, r, j, e);
      ItemIsLonger(t, r, j, e);
      CutShortens(r, ends, 0, j);
    } else {
      forall p | 0 <= p < |r| ensures ends[p] == -1 {
        if ends[p] != -1 { var s := RefOfItem(t, r, p, ends[p]); }
      }
      SplicePlain(Drop, r, ends, 0, |r|);
      assert r[0..|r|] + "" == r;
    }
  }

  /** The stage is idempotent on a text exactly when no ID of its own is glued to a labelled one. */
  lemma IdempotentExactly(t: Tables, r: string)
    requires Faithful(t)
    ensures var once := Replace(t, Labelled(t), Drop, r);
            Replace(t, Labelled(t), Drop, once) == once <==> !exists k, i :: GluedAt(t, r, k, i)
  {
    DropsNothing(t, Replace(t, Labelled(t), Drop, r));
    IdsRemain(t, r);
  }

  // ----- a second pass can find more -----

  const GLUED := "r5см r1"

  lemma GluedExampleParts(t: Tables)
    requires Faithful(t) && t.words == WORDS
    ensures GluedAt(t, GLUED, 0, 2) && LabelReaches(t, GLUED, 2, 5) && IsRef(t, GLUED, 5, 7)
  {
    var r := GLUED;
    var w := "urs";
    assert w[1] == 'r';
    assert Digits(r, 1, 2) && WholeId(r, 0, 2);
    assert Digits(r, 6, 7) && IsNumber(r, 6, 7) && IsId(r, 5, 7);
    assert EdgeBefore(t, r, 5);
    var form := LabelForm("см", OneOf("."), true);
    assert FoldedAt(r, 2, form.stem) && LABELS[0] == form;
    assert IsForm(t, t.words.labels[0], r, 2, 4);
    assert IsLabel(t, r, 2, 4) && Spaces(r, 4, 5);
    assert IsRef(t, r, 5, 7);
    assert LabelReaches(t, r, 2, 5);
  }

  lemma GluedExampleCuts(t: Tables, ends: seq<int>)
    requires Faithful(t) && t.words == WORDS && Cuts(t, GLUED, ends)
    ensures ends[0] == ends[1] == -1 && ends[2] == 7
  {
    GluedExampleParts(t);
    NoItemInside(t, GLUED, 0, 2, 0);
    NoItemInside(t, GLUED, 0, 2, 1);
    GluedIsItem(t, GLUED, 0, 2);
    LabelledItemIs(t, GLUED, 2, 5, ends[2]);
    RefRunes(t, GLUED, 5, ends[2]);
  }

  lemma GluedExampleSplice(ends: seq<int>)
    requires AreEnds(GLUED, ends) && ends[0] == ends[1] == -1 && ends[2] == 7
    ensures Splice(Drop, GLUED, ends, 0) == "r5"
  {
    assert Splice(Drop, GLUED, ends, 7) == "";
    assert Splice(Drop, GLUED, ends, 2) == "";
    assert Splice(Drop, GLUED, ends, 1) == "5";
  }

  /** Removing the IDs of r5см r1 leaves the ID r5, which a second removal drops. */
  lemma SecondPassFindsMore(t: Tables)
    requires Faithful(t) && t.words == WORDS
    ensures Replace(t, Labelled(t), Drop, GLUED) == "r5" && Replace(t, Labelled(t), Drop, "r5") == ""
  {
    CutsAre(t, GLUED);
    GluedExampleCuts(t, Ends(t, Labelled(t), GLUED));
    GluedExampleSplice(Ends(t, Labelled(t), GLUED));
    BareExample(t);
  }

  lemma LabelledItemIs(t: Tables, r: string, i: int, s: int, e: int)
    requires Faithful(t) && LabelReaches(t, r, i, s) && IsItem(t, r, i, e)
    ensures IsRef(t, r, s, e)
  {
    var l :| IsLabel(t, r, i, l) && Spaces(r, l, s);
    LabelRunes(t, r, i, l);
    if IsRef(t, r, i, e) {
      RefRunes(t, r, i, e);
    } else {
      var s' :| LabelReaches(t, r, i, s') && IsRef(t, r, s', e);
      LabelReachesOne(t, r, i, s, s');
    }
  }

  lemma BareExample(t: Tables)
    requires Faithful(t)
    ensures Replace(t, Labelled(t), Drop, "r5") == ""
  {
    var r, w := "r5", "urs";
    assert w[1] == 'r';
    assert Digits(r, 1, 2) && IsNumber(r, 1, 2) && IsId(r, 0, 2) && IsItem(t, r, 0, 2);
    CutsAre(t, r);
    var ends := Ends(t, Labelled(t), r);
    ItemIsLonger(t, r, 0, ends[0]);
    EndsFact(t, Labelled(t), r, 0);
    LabelledIsItem(t, r, 0, 2);
    assert ends[0] == 2;
    assert Splice(Drop, r, ends, 2) == "";
  }

  // ----- an ID put together -----

  const SPLICED := "r5см r1.3.5"

  lemma SplicedExampleParts(t: Tables)
    requires Faithful(t) && t.words == WORDS
    ensures GluedAt(t, SPLICED, 0, 2) && LabelReaches(t, SPLICED, 2, 5) && IsRef(t, SPLICED, 5, 9)
  {
    var r := SPLICED;
    var w := "urs";
    assert w[1] == 'r';
    Punctuation(t);
    DotIsNoNumber(t);
    assert Digits(r, 1, 2) && WholeId(r, 0, 2);
    assert Digits(r, 6, 7) && IsFraction(r, 6, 7, 9) && IsId(r, 5, 9);
    assert EdgeBefore(t, r, 5) && EdgeAfter(t, r, 9);
    assert IsRef(t, r, 5, 9);
    var form := LabelForm("см", OneOf("."), true);
    assert FoldedAt(r, 2, form.stem) && LABELS[0] == form;
    assert IsForm(t, t.words.labels[0], r, 2, 4);
    assert IsLabel(t, r, 2, 4) && Spaces(r, 4, 5);
    assert LabelReaches(t, r, 2, 5);
  }

  lemma SplicedExampleEnd(t: Tables, end: int)
    requires Faithful(t) && t.words == WORDS && end == Ends(t, Labelled(t), SPLICED)[2]
    ensures end == 9
  {
    SplicedExampleParts(t);
    CutIs(t, SPLICED, 2);
    GluedIsItem(t, SPLICED, 0, 2);
    LabelledItemIs(t, SPLICED, 2, 5, end);
    NoLongerExample(t, end);
    EndsFact(t, Labelled(t), SPLICED, 2);
    assert IsItem(t, SPLICED, 2, 9);
    LabelledIsItem(t, SPLICED, 2, 9);
  }

  lemma SplicedExampleStays(t: Tables, ends: seq<int>)
    requires Faithful(t) && t.words == WORDS && Cuts(t, SPLICED, ends)
    ensures ends[0] == ends[1] == ends[9] == ends[10] == -1
  {
    SplicedExampleParts(t);
    NoItemInside(t, SPLICED, 0, 2, 0);
    NoItemInside(t, SPLICED, 0, 2, 1);
    NumberIsUncut(t, SPLICED, ends, 9, 11);
  }

  lemma NoLongerExample(t: Tables, e: int)
    requires Faithful(t) && IsRef(t, SPLICED, 5, e)
    ensures e <= 9
  {
    var r := SPLICED;
    NotFolded(r, 5, "rec", 1);
    LetterEnd(t, r, 5, e);
    DigitsEndIs(r, 6, 7);
    DigitsEndIs(r, 8, 9);
  }

  lemma SplicedExampleSplice(ends: seq<int>)
    requires AreEnds(SPLICED, ends) && ends[0] == ends[1] == ends[9] == ends[10] == -1 && ends[2] == 9
    ensures Splice(Drop, SPLICED, ends, 0) == "r5.5"
  {
    assert Splice(Drop, SPLICED, ends, 11) == "";
    assert Splice(Drop, SPLICED, ends, 10) == "5";
    assert Splice(Drop, SPLICED, ends, 9) == ".5";
    assert Splice(Drop, SPLICED, ends, 2) == ".5";
    assert Splice(Drop, SPLICED, ends, 1) == "5.5";
  }

  /** s stands in text at k. */
  predicate StandsAt(text: string, k: nat, s: string) {
    k + |s| <= |text| && forall j :: 0 <= j < |s| ==> text[k + j] == s[j]
  }

  /** Neither r of the input begins the text r5.5. */
  lemma StandsNowhere(k: nat)
    ensures !StandsAt(SPLICED, k, "r5.5")
  {
    var s := "r5.5";
    assert s[0] == 'r' && s[1] == '5' && s[2] == '.' && s[3] == '5';
    assert forall j | 0 <= j <= 7 :: SPLICED[j] != 'r' || SPLICED[j + 2] != '.' || SPLICED[j + 3] != '5';
    if k <= 7 && SPLICED[k] == 'r' && SPLICED[k + 2] == '.' { assert SPLICED[k + 3] != s[3]; }
  }

  lemma SplicedExampleId(t: Tables)
    requires Faithful(t)
    ensures IsRef(t, "r5.5", 0, 4)
  {
    var out, w := "r5.5", "urs";
    assert w[1] == 'r';
    RefFromParts(t, out, 0, 2, 4);
  }

  /** Removing the IDs of r5см r1.3.5 leaves the ID r5.5, which stood nowhere in it. */
  lemma SplicedExample(t: Tables)
    requires Faithful(t) && t.words == WORDS
    ensures Replace(t, Labelled(t), Drop, SPLICED) == "r5.5" && IsRef(t, "r5.5", 0, 4)
    ensures forall k :: !StandsAt(SPLICED, k, "r5.5")
  {
    CutsAre(t, SPLICED);
    SplicedExampleStays(t, Ends(t, Labelled(t), SPLICED));
    SplicedExampleEnd(t, Ends(t, Labelled(t), SPLICED)[2]);
    SplicedExampleSplice(Ends(t, Labelled(t), SPLICED));
    SplicedExampleId(t);
    forall k: nat ensures !StandsAt(SPLICED, k, "r5.5") { StandsNowhere(k); }
  }
}
