/** What takes the place of an ID with a known title, and what becomes of a text that is one reference. */
module ReferenceTitles {
  import opened Runes
  import opened Grammar
  import opened ReferenceGrammar
  import opened LabelledGrammar
  import opened ReferenceBarriers

  /** The titles have w, which is not empty, for the key. */
  predicate HasTitle(t: Tables, titles: map<string, string>, key: string, w: string) {
    key in titles && t.trim(titles[key]) == w && w != ""
  }

  /** The titles have nothing for the key, or nothing but whitespace. */
  predicate HasNoTitle(t: Tables, titles: map<string, string>, key: string) {
    key in titles ==> t.trim(titles[key]) == ""
  }

  /** w is the title of x: its own, or else that of its lower case. */
  predicate IsTitled(t: Tables, titles: map<string, string>, x: string, w: string) {
    || HasTitle(t, titles, x, w)
    || (HasNoTitle(t, titles, x) && HasTitle(t, titles, t.lower(x), w))
  }

  predicate IsUntitled(t: Tables, titles: map<string, string>, x: string) {
    HasNoTitle(t, titles, x) && HasNoTitle(t, titles, t.lower(x))
  }

  lemma TitledOrNot(t: Tables, titles: map<string, string>, x: string)
    ensures IsUntitled(t, titles, x) <==> !exists w :: IsTitled(t, titles, x, w)
  {
    if !HasNoTitle(t, titles, x) {
      assert IsTitled(t, titles, x, t.trim(titles[x]));
    } else if !HasNoTitle(t, titles, t.lower(x)) {
      assert IsTitled(t, titles, x, t.trim(titles[t.lower(x)]));
    }
  }

  predicate IsDark(s: string) {
    s != "" && forall k :: 0 <= k < |s| ==> !IsSpace(s[k])
  }

  /** out stands for an ID x after its label: the label and the title in quotation marks, or nothing. */
  ghost predicate StandsFor(t: Tables, titles: map<string, string>, l: string, x: string, out: string) {
    && (forall w :: IsTitled(t, titles, x, w) ==> out == (if l == "" then "«" + w + "»" else l + " «" + w + "»"))
    && (IsUntitled(t, titles, x) ==> out == "")
  }

  /** A label, a gap and an ID give way to the label and the title in quotation marks. */
  lemma LabelledIsNamed(t: Tables, titles: map<string, string>, l: string, gap: string, x: string)
    requires Faithful(t) && IsDark(l) && IsDark(x) && gap != "" && Spaces(gap, 0, |gap|)
    ensures StandsFor(t, titles, l, x, Naming(t, titles)(l + gap + x))
  {
    var m := l + gap + x;
    SpacesInside(l, gap, x);
    FirstSpaceIs(m, 0, |l|);
    SpacesEndIs(m, |l|, |l| + |gap|);
    assert m[..|l|] == l && m[|l| + |gap|..] == x;
  }

  lemma SpacesInside(l: string, gap: string, x: string)
    requires IsDark(l) && IsDark(x) && gap != "" && Spaces(gap, 0, |gap|)
    ensures var m := l + gap + x;
            && Spaces(m, |l|, |l| + |gap|) && !IsSpace(m[|l| + |gap|])
            && forall j :: 0 <= j < |l| ==> !IsSpace(m[j])
  {
    var m := l + gap + x;
    forall k | |l| <= k < |l| + |gap| ensures IsSpace(m[k]) { assert m[k] == gap[k - |l|]; }
    assert m[|l| + |gap|] == x[0];
  }

  /** An ID without a label gives way to its title in quotation marks. */
  lemma BareIsNamed(t: Tables, titles: map<string, string>, x: string)
    requires Faithful(t) && IsDark(x)
    ensures StandsFor(t, titles, "", x, Naming(t, titles)(x))
  {
    FirstSpaceIs(x, 0, |x|);
  }

  /** Wherever a labelled ID stands in a text, its label stays with the title, or all of it goes. */
  lemma LabelledMatchIsNamed(
    t: Tables, titles: map<string, string>, r: string, i: int, l: int, s: int, e: int)
    requires Faithful(t) && IsLabel(t, r, i, l) && Spaces(r, l, s) && IsRef(t, r, s, e)
    ensures 0 <= i < l < s < e <= |r| && StandsFor(t, titles, r[i..l], r[s..e], Naming(t, titles)(r[i..e]))
  {
    LabelRunes(t, r, i, l);
    RefRunes(t, r, s, e);
    LabelGap(t, r, i, l, s, e);
    Punctuation(t);
    assert r[i..e] == r[i..l] + r[l..s] + r[s..e];
    LabelledIsNamed(t, titles, r[i..l], r[l..s], r[s..e]);
  }

  lemma BareMatchIsNamed(t: Tables, titles: map<string, string>, r: string, i: int, e: int)
    requires Faithful(t) && IsRef(t, r, i, e)
    ensures 0 <= i < e <= |r| && StandsFor(t, titles, "", r[i..e], Naming(t, titles)(r[i..e]))
  {
    RefRunes(t, r, i, e);
    Punctuation(t);
    BareIsNamed(t, titles, r[i..e]);
  }

  // ----- texts that are one reference -----

  lemma WholeMatchReplaced(t: Tables, re: Re, f: string -> string, m: string)
    requires m != "" && Match(t, re, m, 0, |m|)
    ensures Replace(t, re, f, m) == f(m)
  {
    EndIs(t, re, m, 0, |m|);
    assert m[0..|m|] == m && Splice(f, m, Ends(t, re, m), |m|) == "";
    assert f(m) + "" == f(m);
  }

  lemma NothingMatched(t: Tables, re: Re, f: string -> string, m: string)
    requires forall i :: 0 <= i < |m| ==> NoMatch(t, re, m, i)
    ensures Replace(t, re, f, m) == m
  {
    var ends := Ends(t, re, m);
    forall i | 0 <= i < |m| ensures ends[i] == -1 { NoEnd(t, re, m, i); }
    SplicePlain(f, m, ends, 0, |m|);
    assert m[0..|m|] + "" == m;
  }

  /** The text is a label, a gap and an ID. */
  ghost predicate IsLabelled(t: Tables, l: string, gap: string, x: string) {
    var m := l + gap + x;
    && IsLabel(t, m, 0, |l|) && gap != "" && Spaces(gap, 0, |gap|) && IsRef(t, m, |l| + |gap|, |m|)
  }

  lemma LabelledIsDark(t: Tables, l: string, gap: string, x: string)
    requires Faithful(t) && IsLabelled(t, l, gap, x)
    ensures IsDark(l) && IsDark(x)
  {
    var m, s := l + gap + x, |l| + |gap|;
    LabelRunes(t, m, 0, |l|);
    RefRunes(t, m, s, |m|);
    Punctuation(t);
    forall k | 0 <= k < |l| ensures !IsSpace(l[k]) { assert l[k] == m[k]; }
    forall k | 0 <= k < |x| ensures !IsSpace(x[k]) { assert x[k] == m[s + k]; }
  }

  lemma LabelledMatches(t: Tables, l: string, gap: string, x: string)
    requires Faithful(t) && IsLabelled(t, l, gap, x)
    ensures var m := l + gap + x; m != "" && Match(t, Labelled(t), m, 0, |m|)
  {
    var m, s := l + gap + x, |l| + |gap|;
    forall k | |l| <= k < s ensures IsSpace(m[k]) { assert m[k] == gap[k - |l|]; }
    assert Spaces(m, |l|, s);
    assert LabelReaches(t, m, 0, s);
    LabelledIsItem(t, m, 0, |m|);
  }

  /** In a text that is one labelled ID, the ID is replaced by its title, or all of it goes. */
  lemma LabelledTextIsNamed(t: Tables, titles: map<string, string>, l: string, gap: string, x: string)
    requires Faithful(t) && IsLabelled(t, l, gap, x)
    ensures StandsFor(t, titles, l, x, Replace(t, Labelled(t), Naming(t, titles), l + gap + x))
  {
    LabelledIsDark(t, l, gap, x);
    LabelledIsNamed(t, titles, l, gap, x);
    LabelledMatches(t, l, gap, x);
    WholeMatchReplaced(t, Labelled(t), Naming(t, titles), l + gap + x);
  }

  lemma BareTextIsNamed(t: Tables, titles: map<string, string>, x: string)
    requires Faithful(t) && IsRef(t, x, 0, |x|)
    ensures StandsFor(t, titles, "", x, Replace(t, Labelled(t), Naming(t, titles), x))
  {
    RefRunes(t, x, 0, |x|);
    Punctuation(t);
    BareIsNamed(t, titles, x);
    LabelledIsItem(t, x, 0, |x|);
    WholeMatchReplaced(t, Labelled(t), Naming(t, titles), x);
  }

  // ----- the order of the stages -----

  /** A text that is one list goes as a whole: no later stage sees its IDs, and no earlier one takes them. */
  lemma ListGoesWhole(t: Tables, titles: map<string, string>, m: string)
    requires m != "" && Match(t, List(t), m, 0, |m|)
    ensures Stripped(t, titles, m) == ""
  {
    WholeMatchReplaced(t, List(t), Drop, m);
    NothingMatched(t, Segment(t), Drop, "");
    NothingMatched(t, Labelled(t), Naming(t, titles), "");
  }

  /** A text without lists that is one segment pointer goes with its words, whatever its title. */
  lemma PointerGoesWhole(t: Tables, titles: map<string, string>, m: string)
    requires m != "" && Match(t, Segment(t), m, 0, |m|)
    requires forall i :: 0 <= i < |m| ==> NoMatch(t, List(t), m, i)
    ensures Stripped(t, titles, m) == ""
  {
    NothingMatched(t, List(t), Drop, m);
    WholeMatchReplaced(t, Segment(t), Drop, m);
    NothingMatched(t, Labelled(t), Naming(t, titles), "");
  }

  /** A text without lists and pointers that is one labelled ID is named by the last stage. */
  lemma LabelledIsLast(t: Tables, titles: map<string, string>, l: string, gap: string, x: string)
    requires Faithful(t) && IsLabelled(t, l, gap, x)
    requires var m := l + gap + x;
             forall i :: 0 <= i < |m| ==> NoMatch(t, List(t), m, i) && NoMatch(t, Segment(t), m, i)
    ensures StandsFor(t, titles, l, x, Stripped(t, titles, l + gap + x))
  {
    NothingMatched(t, List(t), Drop, l + gap + x);
    NothingMatched(t, Segment(t), Drop, l + gap + x);
    LabelledTextIsNamed(t, titles, l, gap, x);
  }
}
