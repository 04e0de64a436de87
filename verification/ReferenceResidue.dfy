/** What the removal of single IDs leaves behind: exactly when an ID is still there. */
module ReferenceResidue {
  import opened Runes
  import opened Grammar
  import opened ReferenceGrammar
  import opened LabelledGrammar

  // ----- the runes that stay -----

  /** Where the scan goes on from i: past the cut that starts there, if one does. */
  function Next(r: string, ends: seq<int>, i: int): int
    requires AreEnds(r, ends) && 0 <= i <= |r|
  {
    if ends[i] > i then ends[i] else i
  }

  /** No cut starts where another one ends. */
  predicate CutsApart(r: string, ends: seq<int>)
    requires AreEnds(r, ends)
  {
    forall i :: 0 <= i <= |r| && ends[i] != -1 ==> ends[ends[i]] == -1
  }

  /** The positions from i on that stay, and the end of the text. */
  function Kept(r: string, ends: seq<int>, i: int): (kept: seq<int>)
    requires AreEnds(r, ends) && 0 <= i <= |r|
    ensures |kept| > 0 && kept[|kept| - 1] == |r| && forall x :: 0 <= x < |kept| ==> i <= kept[x] <= |r|
    decreases |r| - i
  {
    if i == |r| then [|r|]
    else if ends[i] > i then Kept(r, ends, ends[i])
    else [i] + Kept(r, ends, i + 1)
  }

  /** out holds the runes of r at the positions kept, which ends with the end of the text. */
  ghost predicate Tracks(out: string, r: string, kept: seq<int>) {
    && |kept| == |out| + 1
    && forall x :: 0 <= x < |out| ==> 0 <= kept[x] < |r| && out[x] == r[kept[x]]
  }

  lemma TracksOneMore(out: string, r: string, kept: seq<int>, i: int)
    requires Tracks(out, r, kept) && 0 <= i < |r|
    ensures Tracks([r[i]] + out, r, [i] + kept)
  {
    var more := [r[i]] + out;
    forall x | 0 <= x < |more| ensures 0 <= ([i] + kept)[x] < |r| && more[x] == r[([i] + kept)[x]] {
      if x > 0 { assert more[x] == out[x - 1]; }
    }
  }

  lemma {:induction false} KeptRunes(r: string, ends: seq<int>, i: int)
    requires AreEnds(r, ends) && 0 <= i <= |r|
    ensures Tracks(Splice(Drop, r, ends, i), r, Kept(r, ends, i))
    decreases |r| - i
  {
    if i < |r| {
      if ends[i] > i {
        KeptRunes(r, ends, ends[i]);
        assert Splice(Drop, r, ends, i) == Splice(Drop, r, ends, ends[i]);
      } else {
        KeptRunes(r, ends, i + 1);
        TracksOneMore(Splice(Drop, r, ends, i + 1), r, Kept(r, ends, i + 1), i);
      }
    }
  }

  ghost predicate Rising(kept: seq<int>) {
    forall x, y :: 0 <= x < y < |kept| ==> kept[x] < kept[y]
  }

  lemma {:induction false} KeptRise(r: string, ends: seq<int>, i: int)
    requires AreEnds(r, ends) && 0 <= i <= |r|
    ensures Rising(Kept(r, ends, i))
    decreases |r| - i
  {
    if i < |r| {
      if ends[i] > i {
        KeptRise(r, ends, ends[i]);
        assert Kept(r, ends, i) == Kept(r, ends, ends[i]);
      } else {
        KeptRise(r, ends, i + 1);
        assert Kept(r, ends, i) == [i] + Kept(r, ends, i + 1);
      }
    }
  }

  /** Whatever re is, dropping its matches leaves runes of r in their order. */
  lemma DroppingKeepsOrder(t: Tables, re: Re, r: string)
    ensures IsSubsequence(Replace(t, re, Drop, r), r)
  {
    var ends := Ends(t, re, r);
    KeptRunes(r, ends, 0);
    KeptRise(r, ends, 0);
    assert Picks(Replace(t, re, Drop, r), r, Kept(r, ends, 0)[..|Replace(t, re, Drop, r)|]);
  }

  ghost predicate Picks(out: string, r: string, kept: seq<int>) {
    && |kept| == |out|
    && (forall x :: 0 <= x < |out| ==> 0 <= kept[x] < |r| && out[x] == r[kept[x]])
    && Rising(kept)
  }

  ghost predicate IsSubsequence(out: string, r: string) {
    exists kept :: Picks(out, r, kept)
  }

  /** From i on, each position of kept is the next one after the last. */
  ghost predicate StepsFrom(r: string, ends: seq<int>, i: int, kept: seq<int>)
    requires AreEnds(r, ends) && 0 <= i <= |r|
  {
    && kept != [] && kept[0] == Next(r, ends, i)
    && (forall x :: 0 <= x < |kept| ==> 0 <= kept[x] <= |r| && ends[kept[x]] == -1)
    && forall x :: 0 < x < |kept| ==> Step(r, ends, kept, x)
  }

  predicate Step(r: string, ends: seq<int>, kept: seq<int>, x: int)
    requires AreEnds(r, ends) && 0 < x < |kept|
  {
    0 <= kept[x - 1] < |r| && kept[x] == Next(r, ends, kept[x - 1] + 1)
  }

  lemma OneMoreStep(r: string, ends: seq<int>, i: int, kept: seq<int>)
    requires AreEnds(r, ends) && 0 <= i < |r| && ends[i] == -1 && StepsFrom(r, ends, i + 1, kept)
    ensures StepsFrom(r, ends, i, [i] + kept)
  {
    var more := [i] + kept;
    forall x | 0 < x < |more| ensures Step(r, ends, more, x) {
      if x > 1 { assert Step(r, ends, kept, x - 1); }
    }
  }

  lemma {:induction false} KeptSteps(r: string, ends: seq<int>, i: int)
    requires AreEnds(r, ends) && CutsApart(r, ends) && 0 <= i <= |r|
    ensures StepsFrom(r, ends, i, Kept(r, ends, i))
    decreases |r| - i
  {
    if i < |r| {
      if ends[i] > i {
        KeptSteps(r, ends, ends[i]);
      } else {
        KeptSteps(r, ends, i + 1);
        OneMoreStep(r, ends, i, Kept(r, ends, i + 1));
      }
    } else if ends[i] != -1 {
      assert false;
    }
  }

  lemma {:induction false} KeptHas(r: string, ends: seq<int>, i: int, k: int) returns (x: int)
    requires AreEnds(r, ends) && 0 <= i <= k <= |r| && ends[k] == -1
    requires forall p :: i <= p < k && ends[p] != -1 ==> ends[p] <= k
    ensures 0 <= x < |Kept(r, ends, i)| && Kept(r, ends, i)[x] == k
    decreases |r| - i
  {
    if i == k {
      x := 0;
    } else if ends[i] > i {
      x := KeptHas(r, ends, ends[i], k);
    } else {
      x := KeptHas(r, ends, i + 1, k);
      x := x + 1;
    }
  }

  // ----- cuts -----

  /** ends holds the cuts of r: an item, or none. */
  ghost predicate Cuts(t: Tables, r: string, ends: seq<int>) {
    && AreEnds(r, ends)
    && forall i :: 0 <= i <= |r| ==> if ends[i] == -1 then NoItem(t, r, i) else IsItem(t, r, i, ends[i])
  }

  ghost predicate NoItem(t: Tables, r: string, i: int) {
    forall e :: !IsItem(t, r, i, e)
  }

  lemma CutsAre(t: Tables, r: string)
    requires Faithful(t)
    ensures Cuts(t, r, Ends(t, Labelled(t), r))
  {
    var ends := Ends(t, Labelled(t), r);
    forall i | 0 <= i <= |r| ensures if ends[i] == -1 then NoItem(t, r, i) else IsItem(t, r, i, ends[i]) {
      CutIs(t, r, i);
    }
  }

  lemma CutIs(t: Tables, r: string, i: int)
    requires Faithful(t) && 0 <= i <= |r|
    ensures var end := Ends(t, Labelled(t), r)[i]; if end == -1 then NoItem(t, r, i) else IsItem(t, r, i, end)
  {
    EndsFact(t, Labelled(t), r, i);
    var end := Ends(t, Labelled(t), r)[i];
    if end == -1 {
      forall e ensures !IsItem(t, r, i, e) {
        LabelledIsItem(t, r, i, e);
        if IsItem(t, r, i, e) { ItemIsLonger(t, r, i, e); }
      }
    } else {
      LabelledIsItem(t, r, i, end);
    }
  }

  lemma CutsAreApart(t: Tables, r: string, ends: seq<int>)
    requires Faithful(t) && Cuts(t, r, ends)
    ensures CutsApart(r, ends)
  {
    forall i | 0 <= i <= |r| && ends[i] != -1 ensures ends[ends[i]] == -1 {
      ItemIsLonger(t, r, i, ends[i]);
      if ends[ends[i]] != -1 { ItemIsLonger(t, r, ends[i], ends[ends[i]]); }
    }
  }

  // ----- IDs without a fraction -----

  ghost predicate WholeId(r: string, i: int, e: int) {
    || (FoldedAt(r, i, "rec") && Digits(r, i + 3, e))
    || (0 <= i < |r| && FoldContains("urs", r[i]) && Digits(r, i + 1, e))
  }

  lemma WholeIdIsId(r: string, i: int, e: int)
    requires WholeId(r, i, e)
    ensures IsId(r, i, e)
  {}

  /** An ID starts with one without a fraction that nothing continues. */
  lemma WholePart(t: Tables, r: string, i: int, e: int) returns (w: int)
    requires Faithful(t) && IsRef(t, r, i, e)
    ensures WholeId(r, i, w) && 0 <= w <= |r| && EdgeAfter(t, r, w)
  {
    w := e;
    if !WholeId(r, i, e) {
      w :| IsFraction(r, i + 1, w, e);
      var p := PUNCTUATION;
      assert p[9] == '.';
    }
  }

  lemma WholeIdRunes(t: Tables, r: string, i: int, e: int)
    requires Faithful(t) && WholeId(r, i, e)
    ensures 0 <= i && i + 2 <= e <= |r| && t.letter(r[i]) && IsDigit(r[e - 1])
    ensures forall k :: i <= k < e ==> t.letter(r[k]) || IsDigit(r[k])
  {
    if FoldedAt(r, i, "rec") && Digits(r, i + 3, e) {
      FoldedRunes(t, r, i, "rec");
    } else {
      FoldContained(t, "urs", r[i]);
    }
  }

  lemma WholeIdMoves(r: string, i: int, s: string, j: int, n: nat)
    requires 0 <= i && i + n <= |r| && 0 <= j && j + n <= |s|
    requires forall k :: i <= k < i + n ==> r[k] == s[k - i + j]
    requires WholeId(r, i, i + n)
    ensures WholeId(s, j, j + n)
  {
    assert r[i] == s[i - i + j];
    if FoldedAt(r, i, "rec") && Digits(r, i + 3, i + n) {
      forall k | 0 <= k < 3 ensures SameLetter(s[j + k], "rec"[k]) {
        assert r[i + k] == s[i + k - i + j] && SameLetter(r[i + k], "rec"[k]);
      }
      DigitsMove(r, i, s, j, 3, n);
    } else {
      DigitsMove(r, i, s, j, 1, n);
    }
  }

  lemma DigitsMove(r: string, i: int, s: string, j: int, m: nat, n: nat)
    requires 0 <= i && i + n <= |r| && 0 <= j && j + n <= |s|
    requires forall k :: i <= k < i + n ==> r[k] == s[k - i + j]
    requires Digits(r, i + m, i + n)
    ensures Digits(s, j + m, j + n)
  {
    forall k | j + m <= k < j + n ensures IsDigit(s[k]) {
      assert r[k - j + i] == s[k - j + i - i + j];
    }
  }

  // ----- what is left -----

  /** An ID of its own, glued to a label that names another ID. */
  ghost predicate GluedAt(t: Tables, r: string, k: int, i: int) {
    0 <= k <= |r| && EdgeBefore(t, r, k) && WholeId(r, k, i) && exists s :: LabelReaches(t, r, i, s)
  }

  ghost predicate Remains(t: Tables, out: string) {
    exists j, e :: IsRef(t, out, j, e)
  }

  /** What stays of r, and from where. */
  ghost predicate Residue(r: string, ends: seq<int>, out: string, kept: seq<int>) {
    && AreEnds(r, ends)
    && Tracks(out, r, kept) && kept[|out|] == |r|
    && StepsFrom(r, ends, 0, kept)
  }

  lemma ResidueIs(r: string, ends: seq<int>)
    requires AreEnds(r, ends) && CutsApart(r, ends)
    ensures Residue(r, ends, Splice(Drop, r, ends, 0), Kept(r, ends, 0))
  {
    KeptRunes(r, ends, 0);
    KeptSteps(r, ends, 0);
  }

  /** A rune that stays right after a cut continues no word. */
  lemma AfterCut(t: Tables, r: string, ends: seq<int>, p: int)
    requires Faithful(t) && Cuts(t, r, ends) && 0 <= p <= |r|
    ensures var n := Next(r, ends, p); n == p || (p < n <= |r| && t.letter(r[p]) && EdgeAfter(t, r, n))
  {
    if ends[p] != -1 { ItemIsLonger(t, r, p, ends[p]); }
  }

  lemma StepOfLetter(t: Tables, r: string, ends: seq<int>, out: string, kept: seq<int>, x: int)
    requires Faithful(t) && Cuts(t, r, ends) && Residue(r, ends, out, kept)
    requires 0 <= x < |out| && (t.letter(out[x]) || IsDigit(out[x]))
    ensures kept[x] == if x == 0 then 0 else kept[x - 1] + 1
  {
    if x == 0 {
      AfterCut(t, r, ends, 0);
    } else {
      assert Step(r, ends, kept, x);
      AfterCut(t, r, ends, kept[x - 1] + 1);
    }
  }

  /** No cut goes through a word that stays. */
  lemma {:induction false} RunStays(t: Tables, r: string, ends: seq<int>, out: string, kept: seq<int>, j: int, w: int)
    requires Faithful(t) && Cuts(t, r, ends) && Residue(r, ends, out, kept) && 0 <= j < w <= |out|
    requires forall x :: j < x < w ==> t.letter(out[x]) || IsDigit(out[x])
    ensures forall x :: j <= x < w ==> kept[x] == kept[j] + (x - j)
    decreases w
  {
    if j + 1 < w {
      RunStays(t, r, ends, out, kept, j, w - 1);
      StepOfLetter(t, r, ends, out, kept, w - 1);
    }
  }

  // ----- an ID that is left stood before a label -----

  lemma WordThenCut(t: Tables, r: string, ends: seq<int>, i: int)
    requires Faithful(t) && Cuts(t, r, ends) && 0 < i <= |r| && (t.letter(r[i - 1]) || IsDigit(r[i - 1]))
    requires ends[i] != -1
    ensures exists s :: LabelReaches(t, r, i, s)
  {
    assert !EdgeBefore(t, r, i);
  }

  lemma EdgeMeansCut(t: Tables, r: string, ends: seq<int>, out: string, kept: seq<int>, k: int, w: int)
    requires Faithful(t) && Cuts(t, r, ends) && Residue(r, ends, out, kept) && 0 < w <= |out|
    requires 0 <= k <= |r| && ends[k] == -1
    requires EdgeBefore(t, r, k) && WholeId(r, k, kept[w - 1] + 1) && EdgeAfter(t, out, w)
    ensures ends[kept[w - 1] + 1] != -1
  {
    var i := kept[w - 1] + 1;
    assert Step(r, ends, kept, w);
    WholeIdIsId(r, k, i);
    assert ends[i] == -1 ==> IsItem(t, r, k, i);
    assert NoItem(t, r, k);
  }

  lemma WholeIdCameFrom(t: Tables, r: string, ends: seq<int>, out: string, kept: seq<int>, j: int, w: int)
    requires Faithful(t) && Cuts(t, r, ends) && Residue(r, ends, out, kept)
    requires WholeId(out, j, w) && 0 <= j <= |out| && EdgeBefore(t, out, j)
    ensures 0 < w <= |out|
    ensures var k, i := kept[j], kept[w - 1] + 1;
            && 0 <= k < i <= |r| && ends[k] == -1 && EdgeBefore(t, r, k) && WholeId(r, k, i)
            && (t.letter(r[i - 1]) || IsDigit(r[i - 1]))
  {
    WholeIdRunes(t, out, j, w);
    RunStays(t, r, ends, out, kept, j, w);
    StepOfLetter(t, r, ends, out, kept, j);
    assert kept[w - 1] == kept[j] + (w - 1 - j);
    WholeIdMoves(out, j, r, kept[j], w - j);
  }

  /** An ID in the output comes from one piece of r, which a label followed. */
  lemma IdLeft(
    t: Tables, r: string, ends: seq<int>, out: string, kept: seq<int>, j: int, e: int) returns (k: int, i: int)
    requires Faithful(t) && Cuts(t, r, ends) && Residue(r, ends, out, kept) && IsRef(t, out, j, e)
    ensures GluedAt(t, r, k, i)
  {
    var w := WholePart(t, out, j, e);
    WholeIdCameFrom(t, r, ends, out, kept, j, w);
    k, i := kept[j], kept[w - 1] + 1;
    EdgeMeansCut(t, r, ends, out, kept, k, w);
    WordThenCut(t, r, ends, i);
  }

  // ----- an ID before a label stays -----

  lemma WholeIdLatin(t: Tables, r: string, k: int, i: int, x: int)
    requires Faithful(t) && WholeId(r, k, i) && k <= x < i
    ensures x == k ==> FoldContains("urs", r[x])
    ensures IsDigit(r[x]) || exists w :: 'a' <= w <= 'z' && SameLetter(r[x], w)
  {
    if FoldedAt(r, k, "rec") && Digits(r, k + 3, i) {
      if x < k + 3 {
        assert SameLetter(r[k + (x - k)], "rec"[x - k]);
        assert "urs"[1] == "rec"[0];
      }
    } else if x == k {
      var j :| 0 <= j < |"urs"| && SameLetter(r[x], "urs"[j]);
    }
  }

  lemma NoLabelInside(t: Tables, r: string, k: int, i: int, x: int, l: int)
    requires Faithful(t) && WholeId(r, k, i) && k <= x < i
    ensures !IsLabel(t, r, x, l)
  {
    WholeIdLatin(t, r, k, i, x);
    if IsLabel(t, r, x, l) { LabelRunes(t, r, x, l); }
  }

  /** Two IDs without a fraction that nothing continues are one. */
  lemma WholeIdOne(t: Tables, r: string, k: int, i: int, e: int)
    requires Faithful(t) && WholeId(r, k, i) && WholeId(r, k, e)
    requires i <= |r| && e <= |r| && (i == |r| || !IsDigit(r[i])) && (e == |r| || !IsDigit(r[e]))
    ensures i == e
  {
    if FoldedAt(r, k, "rec") {
      RecIsNoNumber(t, r, k, i);
      RecIsNoNumber(t, r, k, e);
    }
  }

  lemma GluedIsNoRef(t: Tables, r: string, k: int, i: int, e: int)
    requires Faithful(t) && GluedAt(t, r, k, i)
    ensures !IsRef(t, r, k, e)
  {
    if IsRef(t, r, k, e) {
      var s :| LabelReaches(t, r, i, s);
      var l :| IsLabel(t, r, i, l) && Spaces(r, l, s);
      LabelRunes(t, r, i, l);
      WholeIdRunes(t, r, k, i);
      var w := WholePart(t, r, k, e);
      WholeIdRunes(t, r, k, w);
      WholeIdOne(t, r, k, i, w);
    }
  }

  lemma NoItemInside(t: Tables, r: string, k: int, i: int, x: int)
    requires Faithful(t) && GluedAt(t, r, k, i) && k <= x < i
    ensures NoItem(t, r, x)
  {
    WholeIdRunes(t, r, k, i);
    forall e ensures !IsItem(t, r, x, e) {
      forall l ensures !IsLabel(t, r, x, l) { NoLabelInside(t, r, k, i, x, l); }
      if x == k { GluedIsNoRef(t, r, k, i, e); }
    }
  }

  /** Runes that leave no place for a word to start among them. */
  ghost predicate Wordless(t: Tables, r: string, p: int, e: int) {
    0 <= p < e <= |r| && forall x :: p < x < e ==> !t.letter(r[x]) || !EdgeBefore(t, r, x)
  }

  lemma RefIsWordless(t: Tables, r: string, p: int, e: int)
    requires Faithful(t) && IsRef(t, r, p, e)
    ensures Wordless(t, r, p, e)
  {
    RefRunes(t, r, p, e);
  }

  lemma LabelIsWordless(t: Tables, r: string, p: int, l: int, s: int)
    requires Faithful(t) && IsLabel(t, r, p, l) && Spaces(r, l, s) && l < s
    ensures Wordless(t, r, p, s)
  {
    LabelRunes(t, r, p, l);
    Punctuation(t);
  }

  lemma RefOfItem(t: Tables, r: string, p: int, e: int) returns (s: int)
    requires Faithful(t) && IsItem(t, r, p, e)
    ensures IsRef(t, r, s, e) && (s == p || Wordless(t, r, p, s))
  {
    if IsRef(t, r, p, e) { return p; }
    s :| LabelReaches(t, r, p, s) && IsRef(t, r, s, e);
    var l :| IsLabel(t, r, p, l) && Spaces(r, l, s);
    LabelGap(t, r, p, l, s, e);
    LabelIsWordless(t, r, p, l, s);
  }

  /** A cut that starts before a word that is no ID ends before it. */
  lemma CutStopsBefore(t: Tables, r: string, k: int, p: int, e: int)
    requires Faithful(t) && 0 <= p < k < |r| && t.letter(r[k]) && EdgeBefore(t, r, k) && NoRef(t, r, k)
    requires IsItem(t, r, p, e)
    ensures e <= k
  {
    var s := RefOfItem(t, r, p, e);
    RefIsWordless(t, r, s, e);
    assert s != k;
  }

  lemma GluedIsItem(t: Tables, r: string, k: int, i: int)
    requires Faithful(t) && GluedAt(t, r, k, i)
    ensures 0 <= i <= |r| && !NoItem(t, r, i)
  {
    var s :| LabelReaches(t, r, i, s);
    var e :| IsRef(t, r, s, e);
    assert IsItem(t, r, i, e);
    WholeIdRunes(t, r, k, i);
  }

  lemma {:induction false} KeptRuns(r: string, ends: seq<int>, out: string, kept: seq<int>, x: int, n: nat)
    requires Residue(r, ends, out, kept) && 0 <= x <= |out| && kept[x] + n < |r|
    requires forall y :: kept[x] <= y <= kept[x] + n ==> ends[y] == -1
    ensures x + n < |out| && forall y :: x <= y <= x + n ==> kept[y] == kept[x] + (y - x)
    decreases n
  {
    if n > 0 {
      KeptRuns(r, ends, out, kept, x, n - 1);
      assert Step(r, ends, kept, x + n);
    }
  }

  lemma CutsSpare(t: Tables, r: string, ends: seq<int>, k: int, i: int)
    requires Faithful(t) && Cuts(t, r, ends) && GluedAt(t, r, k, i)
    ensures 0 <= k < i <= |r| && t.letter(r[k]) && (forall p :: k <= p < i ==> ends[p] == -1)
    ensures forall p :: 0 <= p < k && ends[p] != -1 ==> ends[p] <= k
  {
    WholeIdRunes(t, r, k, i);
    forall p | k <= p < i ensures ends[p] == -1 { NoItemInside(t, r, k, i, p); }
    forall e ensures !IsRef(t, r, k, e) { GluedIsNoRef(t, r, k, i, e); }
    forall p | 0 <= p < k && ends[p] != -1 ensures ends[p] <= k { CutStopsBefore(t, r, k, p, ends[p]); }
  }

  lemma EdgeAfterGlued(t: Tables, r: string, ends: seq<int>, out: string, kept: seq<int>, i: int, e: int)
    requires Faithful(t) && Cuts(t, r, ends) && Residue(r, ends, out, kept)
    requires 0 < e <= |out| && kept[e - 1] == i - 1 < |r| && ends[i] != -1
    ensures EdgeAfter(t, out, e)
  {
    AfterCut(t, r, ends, i);
    assert Step(r, ends, kept, e);
  }

  lemma WholeIdKept(r: string, out: string, kept: seq<int>, k: int, i: int, j: int)
    requires 0 <= k < i <= |r| && WholeId(r, k, i) && 0 <= j && j + (i - k) <= |out| < |kept|
    requires forall x :: 0 <= x < |out| ==> 0 <= kept[x] < |r| && out[x] == r[kept[x]]
    requires forall y :: j <= y < j + (i - k) ==> kept[y] == k + (y - j)
    ensures WholeId(out, j, j + (i - k))
  {
    forall x | k <= x < i ensures r[x] == out[x - k + j] { assert kept[x - k + j] == x; }
    WholeIdMoves(r, k, out, j, i - k);
  }

  lemma GluedStaysAt(t: Tables, r: string, ends: seq<int>, out: string, k: int, i: int) returns (j: int)
    requires Faithful(t) && Cuts(t, r, ends) && Residue(r, ends, out, Kept(r, ends, 0)) && GluedAt(t, r, k, i)
    ensures 0 <= j && j + (i - k) <= |out| && k < i <= |r|
    ensures forall y :: j <= y < j + (i - k) ==> Kept(r, ends, 0)[y] == k + (y - j)
  {
    CutsSpare(t, r, ends, k, i);
    j := KeptHas(r, ends, 0, k);
    KeptRuns(r, ends, out, Kept(r, ends, 0), j, i - 1 - k);
  }

  lemma EdgeBeforeGlued(t: Tables, r: string, ends: seq<int>, out: string, kept: seq<int>, j: int)
    requires Faithful(t) && Cuts(t, r, ends) && Residue(r, ends, out, kept) && 0 <= j < |out|
    requires t.letter(out[j]) && EdgeBefore(t, r, kept[j])
    ensures EdgeBefore(t, out, j)
  {
    StepOfLetter(t, r, ends, out, kept, j);
  }

  lemma GluedLeaves(t: Tables, r: string, ends: seq<int>, out: string, kept: seq<int>, k: int, i: int, j: int, e: int)
    requires Faithful(t) && Cuts(t, r, ends) && Residue(r, ends, out, kept) && GluedAt(t, r, k, i)
    requires e == j + (i - k) <= |out| && 0 <= j < e && forall y :: j <= y < e ==> kept[y] == k + (y - j)
    ensures IsRef(t, out, j, e)
  {
    assert kept[j] == k && kept[e - 1] == i - 1;
    GluedIsItem(t, r, k, i);
    EdgeAfterGlued(t, r, ends, out, kept, i, e);
    WholeIdRunes(t, r, k, i);
    EdgeBeforeGlued(t, r, ends, out, kept, j);
    WholeIdKept(r, out, kept, k, i, j);
    WholeIdIsId(out, j, e);
  }

  /** Dropping the single IDs leaves an ID exactly when an ID of its own was glued to a labelled one. */
  lemma IdsRemain(t: Tables, r: string)
    requires Faithful(t)
    ensures Remains(t, Replace(t, Labelled(t), Drop, r)) <==> exists k, i :: GluedAt(t, r, k, i)
  {
    var ends := Ends(t, Labelled(t), r);
    var out, kept := Splice(Drop, r, ends, 0), Kept(r, ends, 0);
    CutsAre(t, r);
    CutsAreApart(t, r, ends);
    ResidueIs(r, ends);
    if j, e :| IsRef(t, out, j, e) {
      var k, i := IdLeft(t, r, ends, out, kept, j, e);
    }
    if k, i :| GluedAt(t, r, k, i) {
      var j := GluedStaysAt(t, r, ends, out, k, i);
      GluedLeaves(t, r, ends, out, kept, k, i, j, j + (i - k));
    }
  }
}
