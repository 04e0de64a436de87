/** Single IDs: with or without a label, named by a title or dropped. */
module LabelledGrammar {
  import opened Runes
  import opened Grammar
  import opened ReferenceGrammar

  // ----- what replaces an ID -----

  /** Where the runes from i on first are whitespace. */
  function FirstSpace(m: string, i: nat): (k: nat)
    requires i <= |m|
    ensures i <= k <= |m|
    decreases |m| - i
  {
    if i == |m| || IsSpace(m[i]) then i else FirstSpace(m, i + 1)
  }

  /** The label and the ID of a matched text. */
  function LabelOf(m: string): string {
    var k := FirstSpace(m, 0);
    if k == |m| then "" else m[..k]
  }

  function RefOf(m: string): string {
    var k := FirstSpace(m, 0);
    if k == |m| then m else m[SpacesEnd(m, k)..]
  }

  function Lookup(titles: map<string, string>, key: string): string {
    if key in titles then titles[key] else ""
  }

  function TitleOf(t: Tables, ref: string, titles: map<string, string>): string {
    var title := t.trim(Lookup(titles, ref));
    if title == "" then t.trim(Lookup(titles, t.lower(ref))) else title
  }

  function RefReplacement(t: Tables, labelText: string, ref: string, titles: map<string, string>): string {
    var title := TitleOf(t, ref, titles);
    if title == "" then ""
    else if labelText == "" then "«" + title + "»"
    else labelText + " «" + title + "»"
  }

  /** What takes the place of a matched text. */
  function Named(t: Tables, titles: map<string, string>, m: string): string {
    var labelText, ref := LabelOf(m), RefOf(m);
    RefReplacement(t, labelText, ref, titles)
  }

  function Naming(t: Tables, titles: map<string, string>): string -> string {
    (m: string) => Named(t, titles, m)
  }

  lemma NamedNothing(t: Tables, m: string)
    requires Faithful(t)
    ensures Naming(t, map[])(m) == Drop(m)
  {}

  /** Without titles every ID goes, with its label. */
  lemma NoTitles(t: Tables, r: string)
    requires Faithful(t)
    ensures Replace(t, Labelled(t), Naming(t, map[]), r) == Replace(t, Labelled(t), Drop, r)
  {
    var f := Naming(t, map[]);
    forall m ensures f(m) == Drop(m) { NamedNothing(t, m); }
    SameReplacement(f, Drop, r, Ends(t, Labelled(t), r), 0);
  }

  lemma NamingAs(t: Tables, titles: map<string, string>, m: string, labelText: string, ref: string)
    requires labelText == LabelOf(m) && ref == RefOf(m)
    ensures RefReplacement(t, labelText, ref, titles) == Naming(t, titles)(m)
  {}

  lemma {:induction false} SameReplacement(f: string -> string, g: string -> string, r: string, ends: seq<int>, i: int)
    requires AreEnds(r, ends) && 0 <= i <= |r| && forall m :: f(m) == g(m)
    ensures Splice(f, r, ends, i) == Splice(g, r, ends, i)
    decreases |r| - i
  {
    if i < |r| { SameReplacement(f, g, r, ends, if ends[i] > i then ends[i] else i + 1); }
  }

  // ----- where an ID ends -----

  /** The gap that a single ID asks for after its label is there anyway. */
  lemma LabelledIsItem(t: Tables, r: string, i: int, e: int)
    requires Faithful(t)
    ensures Match(t, Labelled(t), r, i, e) <==> IsItem(t, r, i, e)
  {
    RefMatch(t, r, i, e);
    if Match(t, Cat(Label(t), Cat(GAP, REF)), r, i, e) {
      var l := CatSplit(t, Label(t), Cat(GAP, REF), r, i, e);
      var s := CatSplit(t, GAP, REF, r, l, e);
      LabelMatch(t, r, i, l);
      GapMatch(t, r, l, s);
      RefMatch(t, r, s, e);
      assert LabelReaches(t, r, i, s);
    }
    if s :| LabelReaches(t, r, i, s) && IsRef(t, r, s, e) {
      var l :| IsLabel(t, r, i, l) && Spaces(r, l, s);
      LabelGap(t, r, i, l, s, e);
      LabelMatch(t, r, i, l);
      GapMatch(t, r, l, s);
      RefMatch(t, r, s, e);
      CatJoin(t, GAP, REF, r, l, s, e);
      CatJoin(t, Label(t), Cat(GAP, REF), r, i, l, e);
    }
  }

  lemma ItemIsLonger(t: Tables, r: string, i: int, e: int)
    requires Faithful(t) && IsItem(t, r, i, e)
    ensures 0 <= i < e <= |r| && t.letter(r[i]) && EdgeAfter(t, r, e)
  {
    if IsRef(t, r, i, e) {
      RefRunes(t, r, i, e);
    } else {
      var s :| LabelReaches(t, r, i, s) && IsRef(t, r, s, e);
      var l :| IsLabel(t, r, i, l) && Spaces(r, l, s);
      LabelRunes(t, r, i, l);
      RefRunes(t, r, s, e);
    }
  }

  lemma LabelledEnd(t: Tables, r: string, i: int, end: int)
    requires Faithful(t) && 0 <= i <= |r|
    requires end == -1 || IsItem(t, r, i, end)
    requires forall e :: IsItem(t, r, i, e) ==> e <= end
    ensures end == Ends(t, Labelled(t), r)[i]
  {
    forall e | Match(t, Labelled(t), r, i, e) ensures e <= end { LabelledIsItem(t, r, i, e); }
    if end == -1 {
      NoEnd(t, Labelled(t), r, i);
    } else {
      LabelledIsItem(t, r, i, end);
      ItemIsLonger(t, r, i, end);
      EndIs(t, Labelled(t), r, i, end);
    }
  }

  ghost predicate NoRef(t: Tables, r: string, i: int) {
    forall e :: !IsRef(t, r, i, e)
  }

  lemma LabelNeedsGap(t: Tables, r: string, i: int, l: int)
    requires Faithful(t) && IsLabel(t, r, i, l) && 0 <= l <= |r| && (l == |r| || !IsSpace(r[l]))
    ensures NoRef(t, r, SpacesEnd(r, l))
  {
    forall e ensures !IsRef(t, r, l, e) {
      if IsRef(t, r, l, e) { LabelGap(t, r, i, l, l, e); }
    }
  }

  lemma LabelledFound(t: Tables, r: string, i: int, l: int, end: int)
    requires Faithful(t) && IsLabel(t, r, i, l) && 0 <= l < |r| && IsSpace(r[l])
    requires var s := SpacesEnd(r, l); IsRef(t, r, s, end) && forall e :: IsRef(t, r, s, e) ==> e <= end
    ensures end == Ends(t, Labelled(t), r)[i] && 0 <= i < l
    ensures LabelOf(r[i..end]) == r[i..l] && RefOf(r[i..end]) == r[SpacesEnd(r, l)..end]
  {
    var s := SpacesEnd(r, l);
    assert LabelReaches(t, r, i, s);
    forall e | IsItem(t, r, i, e) ensures e <= end {
      LabelRunes(t, r, i, l);
      if IsRef(t, r, i, e) {
        RefRunes(t, r, i, e);
      } else {
        var s' :| LabelReaches(t, r, i, s') && IsRef(t, r, s', e);
        LabelReachesOne(t, r, i, s, s');
      }
    }
    LabelledEnd(t, r, i, end);
    LabelRunes(t, r, i, l);
    RefRunes(t, r, s, end);
    Punctuation(t);
    Parts(r, i, l, s, end);
  }

  /** A text of label, gap and ID falls apart again where it was put together. */
  lemma Parts(r: string, i: int, l: int, s: int, end: int)
    requires 0 <= i < l < s < end <= |r| && s == SpacesEnd(r, l)
    requires forall k :: i <= k < l ==> !IsSpace(r[k])
    ensures LabelOf(r[i..end]) == r[i..l] && RefOf(r[i..end]) == r[s..end]
  {
    var m := r[i..end];
    assert IsSpace(r[l]);
    FirstSpaceIs(m, 0, l - i);
    assert Spaces(m, l - i, s - i) by {
      forall k | l - i <= k < s - i ensures IsSpace(m[k]) { assert m[k] == r[i + k]; }
    }
    SpacesEndIs(m, l - i, s - i);
  }

  lemma {:induction false} FirstSpaceIs(m: string, i: nat, k: nat)
    requires i <= k <= |m| && (k < |m| ==> IsSpace(m[k])) && forall j :: i <= j < k ==> !IsSpace(m[j])
    ensures FirstSpace(m, i) == k
    decreases k - i
  {
    if i < k { FirstSpaceIs(m, i + 1, k); }
  }

  lemma SpacesEndIs(m: string, i: nat, e: nat)
    requires Spaces(m, i, e) && (e < |m| ==> !IsSpace(m[e]))
    ensures SpacesEnd(m, i) == e
  {}

  lemma LabelsMiss(t: Tables, r: string, i: int, labels: seq<int>)
    requires Faithful(t) && forall l :: l in labels <==> IsLabel(t, r, i, l)
    requires forall j :: 0 <= j < |labels| ==> 0 <= labels[j] <= |r| && NoRef(t, r, SpacesEnd(r, labels[j]))
    ensures forall s :: !LabelReaches(t, r, i, s)
  {
    forall s ensures !LabelReaches(t, r, i, s) {
      if LabelReaches(t, r, i, s) { LabelReachesBySkip(t, r, i, s); }
    }
  }

  lemma BareFound(t: Tables, r: string, i: int, end: int)
    requires Faithful(t) && 0 <= i <= |r| && forall s :: !LabelReaches(t, r, i, s)
    requires end == -1 || IsRef(t, r, i, end)
    requires forall e :: IsRef(t, r, i, e) ==> e <= end
    ensures end == Ends(t, Labelled(t), r)[i]
    ensures end != -1 ==> 0 <= i <= end <= |r| && LabelOf(r[i..end]) == "" && RefOf(r[i..end]) == r[i..end]
  {
    LabelledEnd(t, r, i, end);
    if end != -1 {
      RefRunes(t, r, i, end);
      Punctuation(t);
      var m := r[i..end];
      forall j | 0 <= j < |m| ensures !IsSpace(m[j]) { assert m[j] == r[i + j]; }
      FirstSpaceIs(m, 0, |m|);
    }
  }
}
