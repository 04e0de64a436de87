/** A small language of regular expressions with one-rune lookaround, what it means for one to
    match, and the replacement of its longest matches from left to right. */
module Grammar {
  import opened Runes
  import opened Text

  datatype Re =
    | Empty
    | One(cls: Class)
    | Cat(first: Re, second: Re)
    | Alt(left: Re, right: Re)
    | Star(body: Re)
    | NotBehind(cls: Class)
    | NotAhead(cls: Class)

  predicate In(t: Tables, cls: Class, c: char) {
    match cls
    case Space => IsSpace(c)
    case Digit => IsDigit(c)
    case Letter => t.letter(c)
    case Fold(want) => SameLetter(c, want)
    case FoldAny(wants) => FoldContains(wants, c)
    case OneOf(runes) => c in runes
    case Between(first, last) => first <= c <= last
    case WordRune => t.letter(c) || t.number(c)
    case WordOrDot => t.letter(c) || t.number(c) || c == '.'
  }

  /** re matches the runes [i, e) of r. */
  ghost predicate Match(t: Tables, re: Re, r: string, i: int, e: int)
    decreases re, if i <= e then e - i else 0
  {
    && 0 <= i <= e <= |r|
    && match re
       case Empty => i == e
       case One(cls) => e == i + 1 && In(t, cls, r[i])
       case Cat(first, second) => exists m :: i <= m <= e && Match(t, first, r, i, m) && Match(t, second, r, m, e)
       case Alt(left, right) => Match(t, left, r, i, e) || Match(t, right, r, i, e)
       case Star(body) => i == e || exists m :: i < m <= e && Match(t, body, r, i, m) && Match(t, re, r, m, e)
       case NotBehind(cls) => i == e && (i == 0 || !In(t, cls, r[i - 1]))
       case NotAhead(cls) => i == e && (i == |r| || !In(t, cls, r[i]))
  }

  lemma CatSplit(t: Tables, first: Re, second: Re, r: string, i: int, e: int) returns (m: int)
    requires Match(t, Cat(first, second), r, i, e)
    ensures i <= m <= e && Match(t, first, r, i, m) && Match(t, second, r, m, e)
  {
    m :| i <= m <= e && Match(t, first, r, i, m) && Match(t, second, r, m, e);
  }

  lemma CatJoin(t: Tables, first: Re, second: Re, r: string, i: int, m: int, e: int)
    requires Match(t, first, r, i, m) && Match(t, second, r, m, e)
    ensures Match(t, Cat(first, second), r, i, e)
  {}

  /** The end of the longest non-empty match at i that ends at or before e, or -1. */
  ghost function LongestUpTo(t: Tables, re: Re, r: string, i: int, e: int): (end: int)
    requires 0 <= i <= |r| && e <= |r|
    ensures end == -1 || (i < end <= e && Match(t, re, r, i, end))
    ensures forall k :: i < k <= e && Match(t, re, r, i, k) ==> k <= end
    decreases e - i
  {
    if e <= i then -1 else if Match(t, re, r, i, e) then e else LongestUpTo(t, re, r, i, e - 1)
  }

  ghost function LongestEnd(t: Tables, re: Re, r: string, i: int): (end: int)
    requires 0 <= i <= |r|
    ensures end == -1 || (i < end && Match(t, re, r, i, end))
    ensures forall k :: i < k && Match(t, re, r, i, k) ==> k <= end
  {
    LongestUpTo(t, re, r, i, |r|)
  }

  /** ends[i] is where the match at i ends, or -1. */
  predicate AreEnds(r: string, ends: seq<int>) {
    |ends| == |r| + 1 && forall i :: 0 <= i <= |r| ==> ends[i] == -1 || i < ends[i] <= |r|
  }

  /** The runes of r from i on, every match met from left to right put through f. */
  function Splice(f: string -> string, r: string, ends: seq<int>, i: int): string
    requires AreEnds(r, ends) && 0 <= i <= |r|
    decreases |r| - i
  {
    if i == |r| then ""
    else if ends[i] > i then f(r[i..ends[i]]) + Splice(f, r, ends, ends[i])
    else [r[i]] + Splice(f, r, ends, i + 1)
  }

  /** What one turn of a removal loop keeps: the output so far and the rest of the text. */
  lemma SpliceStep(f: string -> string, r: string, ends: seq<int>, i: int, out: string)
    requires AreEnds(r, ends) && 0 <= i < |r|
    ensures ends[i] > i ==> (out + f(r[i..ends[i]])) + Splice(f, r, ends, ends[i]) == out + Splice(f, r, ends, i)
    ensures ends[i] == -1 ==> (out + [r[i]]) + Splice(f, r, ends, i + 1) == out + Splice(f, r, ends, i)
  {
    if ends[i] > i {
      Associate(out, f(r[i..ends[i]]), Splice(f, r, ends, ends[i]));
    } else {
      Associate(out, [r[i]], Splice(f, r, ends, i + 1));
    }
  }

  /** A stretch without a match stays as it is. */
  lemma {:induction false} SplicePlain(f: string -> string, r: string, ends: seq<int>, a: int, b: int)
    requires AreEnds(r, ends) && 0 <= a <= b <= |r| && forall i :: a <= i < b ==> ends[i] == -1
    ensures Splice(f, r, ends, a) == r[a..b] + Splice(f, r, ends, b)
    decreases b - a
  {
    if a < b {
      SplicePlain(f, r, ends, a + 1, b);
      assert r[a..b] == [r[a]] + r[a + 1..b];
      Associate([r[a]], r[a + 1..b], Splice(f, r, ends, b));
    }
  }

  lemma DropStep(r: string, ends: seq<int>, i: int, out: string)
    requires AreEnds(r, ends) && 0 <= i < |r|
    ensures ends[i] > i ==> out + Splice(Drop, r, ends, ends[i]) == out + Splice(Drop, r, ends, i)
    ensures ends[i] == -1 ==> (out + [r[i]]) + Splice(Drop, r, ends, i + 1) == out + Splice(Drop, r, ends, i)
  {
    SpliceStep(Drop, r, ends, i, out);
    if ends[i] > i { assert out + Drop(r[i..ends[i]]) == out; }
  }

  ghost function Ends(t: Tables, re: Re, r: string): (ends: seq<int>)
    ensures AreEnds(r, ends)
  {
    seq(|r| + 1, i requires 0 <= i <= |r| => LongestEnd(t, re, r, i))
  }

  lemma EndIs(t: Tables, re: Re, r: string, i: int, end: int)
    requires 0 <= i < end <= |r| && Match(t, re, r, i, end) && forall e :: Match(t, re, r, i, e) ==> e <= end
    ensures Ends(t, re, r)[i] == end
  {}

  ghost predicate NoMatch(t: Tables, re: Re, r: string, i: int) {
    forall e :: !Match(t, re, r, i, e)
  }

  lemma NoEnd(t: Tables, re: Re, r: string, i: int)
    requires 0 <= i <= |r| && NoMatch(t, re, r, i)
    ensures Ends(t, re, r)[i] == -1
  {}

  lemma EndsFact(t: Tables, re: Re, r: string, i: int)
    requires 0 <= i <= |r|
    ensures var end := Ends(t, re, r)[i]; end == -1 || (i < end <= |r| && Match(t, re, r, i, end))
    ensures forall k :: i < k && Match(t, re, r, i, k) ==> k <= Ends(t, re, r)[i]
  {}

  ghost function Replace(t: Tables, re: Re, f: string -> string, r: string): string {
    Splice(f, r, Ends(t, re, r), 0)
  }

  function Drop(matched: string): string {
    ""
  }

  ghost predicate Allows(t: Tables, re: Re, p: char -> bool) {
    match re
    case One(cls) => forall c :: In(t, cls, c) ==> p(c)
    case Cat(first, second) => Allows(t, first, p) && Allows(t, second, p)
    case Alt(left, right) => Allows(t, left, p) && Allows(t, right, p)
    case Star(body) => Allows(t, body, p)
    case _ => true
  }

  /** A match holds only runes that some class of re accepts. */
  lemma {:induction false} MatchedRunes(t: Tables, re: Re, p: char -> bool, r: string, i: int, e: int)
    requires Allows(t, re, p) && Match(t, re, r, i, e)
    ensures forall k :: i <= k < e ==> p(r[k])
    decreases re, if i <= e then e - i else 0
  {
    match re
    case Cat(first, second) =>
      var m :| i <= m <= e && Match(t, first, r, i, m) && Match(t, second, r, m, e);
      MatchedRunes(t, first, p, r, i, m);
      MatchedRunes(t, second, p, r, m, e);
    case Alt(left, right) =>
      if Match(t, left, r, i, e) { MatchedRunes(t, left, p, r, i, e); } else { MatchedRunes(t, right, p, r, i, e); }
    case Star(body) =>
      if i < e {
        var m :| i < m <= e && Match(t, body, r, i, m) && Match(t, re, r, m, e);
        MatchedRunes(t, body, p, r, i, m);
        MatchedRunes(t, re, p, r, m, e);
      }
    case _ =>
  }

  // ----- barriers -----

  /** No part of re matches x, and no edge of re tells x from the end of the text. */
  predicate Avoids(t: Tables, re: Re, x: char) {
    match re
    case Empty => true
    case One(cls) => !In(t, cls, x)
    case Cat(first, second) => Avoids(t, first, x) && Avoids(t, second, x)
    case Alt(left, right) => Avoids(t, left, x) && Avoids(t, right, x)
    case Star(body) => Avoids(t, body, x)
    case NotBehind(cls) => !In(t, cls, x)
    case NotAhead(cls) => !In(t, cls, x)
  }

  lemma {:induction false} MatchBefore(t: Tables, re: Re, a: string, x: char, b: string, i: int, e: int)
    requires Avoids(t, re, x) && 0 <= i <= |a|
    ensures Match(t, re, a + [x] + b, i, e) <==> Match(t, re, a, i, e)
    decreases re, if i <= e then e - i else 0
  {
    var r := a + [x] + b;
    if 0 <= i <= e {
      match re
      case Empty =>
      case One(cls) =>
      case NotBehind(cls) =>
      case NotAhead(cls) =>
      case Alt(left, right) =>
        MatchBefore(t, left, a, x, b, i, e);
        MatchBefore(t, right, a, x, b, i, e);
      case Cat(first, second) =>
        forall m | i <= m <= e
          ensures Match(t, first, r, i, m) <==> Match(t, first, a, i, m)
          ensures m <= |a| ==> (Match(t, second, r, m, e) <==> Match(t, second, a, m, e))
        {
          MatchBefore(t, first, a, x, b, i, m);
          if m <= |a| { MatchBefore(t, second, a, x, b, m, e); }
        }
      case Star(body) =>
        forall m | i < m <= e
          ensures Match(t, body, r, i, m) <==> Match(t, body, a, i, m)
          ensures m <= |a| ==> (Match(t, re, r, m, e) <==> Match(t, re, a, m, e))
        {
          MatchBefore(t, body, a, x, b, i, m);
          if m <= |a| { MatchBefore(t, re, a, x, b, m, e); }
        }
    }
  }

  lemma {:induction false} MatchAfter(t: Tables, re: Re, a: string, x: char, b: string, i: int, e: int)
    requires Avoids(t, re, x) && 0 <= i
    ensures var s := |a| + 1; Match(t, re, a + [x] + b, i + s, e + s) <==> Match(t, re, b, i, e)
    decreases re, if i <= e then e - i else 0
  {
    var r, s := a + [x] + b, |a| + 1;
    if 0 <= i <= e {
      match re
      case Empty =>
      case One(cls) =>
      case NotBehind(cls) =>
      case NotAhead(cls) =>
      case Alt(left, right) =>
        MatchAfter(t, left, a, x, b, i, e);
        MatchAfter(t, right, a, x, b, i, e);
      case Cat(first, second) =>
        forall m | i <= m <= e
          ensures Match(t, first, r, i + s, m + s) <==> Match(t, first, b, i, m)
          ensures Match(t, second, r, m + s, e + s) <==> Match(t, second, b, m, e)
        {
          MatchAfter(t, first, a, x, b, i, m);
          MatchAfter(t, second, a, x, b, m, e);
        }
        if Match(t, re, r, i + s, e + s) {
          var m :| i + s <= m <= e + s && Match(t, first, r, i + s, m) && Match(t, second, r, m, e + s);
          assert Match(t, first, r, i + s, (m - s) + s) && Match(t, second, r, (m - s) + s, e + s);
          assert Match(t, first, b, i, m - s) && Match(t, second, b, m - s, e);
        }
      case Star(body) =>
        forall m | i < m <= e
          ensures Match(t, body, r, i + s, m + s) <==> Match(t, body, b, i, m)
          ensures Match(t, re, r, m + s, e + s) <==> Match(t, re, b, m, e)
        {
          MatchAfter(t, body, a, x, b, i, m);
          MatchAfter(t, re, a, x, b, m, e);
        }
        if i < e && Match(t, re, r, i + s, e + s) {
          var m :| i + s < m <= e + s && Match(t, body, r, i + s, m) && Match(t, re, r, m, e + s);
          assert Match(t, body, r, i + s, (m - s) + s) && Match(t, re, r, (m - s) + s, e + s);
          assert Match(t, body, b, i, m - s) && Match(t, re, b, m - s, e);
        }
    }
  }

  lemma LongestAfter(t: Tables, re: Re, a: string, x: char, b: string, i: int)
    requires Avoids(t, re, x) && 0 <= i <= |b|
    ensures var end, s := LongestEnd(t, re, b, i), |a| + 1;
            LongestEnd(t, re, a + [x] + b, i + s) == if end == -1 then -1 else end + s
  {
    var s := |a| + 1;
    MatchAfter(t, re, a, x, b, i, LongestEnd(t, re, b, i));
    MatchAfter(t, re, a, x, b, i, LongestEnd(t, re, a + [x] + b, i + s) - s);
  }

  lemma LongestBefore(t: Tables, re: Re, a: string, x: char, b: string, i: int)
    requires Avoids(t, re, x) && 0 <= i <= |a|
    ensures LongestEnd(t, re, a + [x] + b, i) == LongestEnd(t, re, a, i)
  {
    MatchBefore(t, re, a, x, b, i, LongestEnd(t, re, a, i));
    MatchBefore(t, re, a, x, b, i, LongestEnd(t, re, a + [x] + b, i));
  }

  lemma SameSlice(r: string, s: nat, b: string, i: int, e: int)
    requires 0 <= i <= e <= |b| && |r| == |b| + s && forall k :: 0 <= k < |b| ==> r[k + s] == b[k]
    ensures r[i + s..e + s] == b[i..e]
  {
    forall k | 0 <= k < e - i ensures r[i + s..e + s][k] == b[i..e][k] { assert r[(i + k) + s] == b[i + k]; }
  }

  /** Where one step from i goes. */
  function After(r: string, ends: seq<int>, i: int): int
    requires AreEnds(r, ends) && 0 <= i < |r|
  {
    if ends[i] > i then ends[i] else i + 1
  }

  lemma SameStep(f: string -> string, r: string, ends: seq<int>, i: int, b: string, endsB: seq<int>, j: int)
    requires AreEnds(r, ends) && AreEnds(b, endsB) && 0 <= i < |r| && 0 <= j < |b| && r[i] == b[j]
    requires After(r, ends, i) - i == After(b, endsB, j) - j && (ends[i] == -1 <==> endsB[j] == -1)
    requires r[i..After(r, ends, i)] == b[j..After(b, endsB, j)]
    requires Splice(f, r, ends, After(r, ends, i)) == Splice(f, b, endsB, After(b, endsB, j))
    ensures Splice(f, r, ends, i) == Splice(f, b, endsB, j)
  {}

  lemma {:induction false} SpliceShifted(
    f: string -> string, r: string, ends: seq<int>, s: nat, b: string, endsB: seq<int>, i: int)
    requires AreEnds(r, ends) && AreEnds(b, endsB) && 0 <= i <= |b| && |r| == |b| + s
    requires forall k :: 0 <= k < |b| ==> r[k + s] == b[k]
    requires forall k :: 0 <= k <= |b| ==> ends[k + s] == if endsB[k] == -1 then -1 else endsB[k] + s
    ensures Splice(f, r, ends, i + s) == Splice(f, b, endsB, i)
    decreases |b| - i
  {
    if i < |b| {
      var next := After(b, endsB, i);
      SpliceShifted(f, r, ends, s, b, endsB, next);
      SameSlice(r, s, b, i, next);
      SameStep(f, r, ends, i + s, b, endsB, i);
    }
  }

  lemma {:induction false} SplicePrefix(
    f: string -> string, r: string, ends: seq<int>, a: string, endsA: seq<int>, i: int)
    requires AreEnds(r, ends) && AreEnds(a, endsA) && 0 <= i <= |a| <= |r|
    requires forall k :: 0 <= k < |a| ==> r[k] == a[k] && ends[k] == endsA[k]
    ensures Splice(f, r, ends, i) == Splice(f, a, endsA, i) + Splice(f, r, ends, |a|)
    decreases |a| - i
  {
    if i < |a| {
      if endsA[i] > i {
        assert r[i..endsA[i]] == a[i..endsA[i]];
        SplicePrefix(f, r, ends, a, endsA, endsA[i]);
        Associate(f(a[i..endsA[i]]), Splice(f, a, endsA, endsA[i]), Splice(f, r, ends, |a|));
      } else {
        SplicePrefix(f, r, ends, a, endsA, i + 1);
        Associate([a[i]], Splice(f, a, endsA, i + 1), Splice(f, r, ends, |a|));
      }
    }
  }

  lemma EndsSplit(t: Tables, re: Re, a: string, x: char, b: string)
    requires Avoids(t, re, x)
    ensures var ends, s := Ends(t, re, a + [x] + b), |a| + 1;
            && (forall k :: 0 <= k <= |a| ==> ends[k] == LongestEnd(t, re, a, k))
            && (forall k :: 0 <= k <= |b| ==>
                  ends[k + s] == if LongestEnd(t, re, b, k) == -1 then -1 else LongestEnd(t, re, b, k) + s)
  {
    forall k | 0 <= k <= |a| ensures LongestEnd(t, re, a + [x] + b, k) == LongestEnd(t, re, a, k) {
      LongestBefore(t, re, a, x, b, k);
    }
    forall k | 0 <= k <= |b|
      ensures LongestEnd(t, re, a + [x] + b, k + (|a| + 1)) ==
              if LongestEnd(t, re, b, k) == -1 then -1 else LongestEnd(t, re, b, k) + (|a| + 1)
    {
      LongestAfter(t, re, a, x, b, k);
    }
  }

  lemma SplicePast(f: string -> string, r: string, ends: seq<int>, i: int, front: string)
    requires AreEnds(r, ends) && 0 <= i < |r| && ends[i] == -1
    ensures front + Splice(f, r, ends, i) == front + [r[i]] + Splice(f, r, ends, i + 1)
  {
    Associate(front, [r[i]], Splice(f, r, ends, i + 1));
  }

  lemma SpliceSplit(
    f: string -> string, r: string, ends: seq<int>, a: string, endsA: seq<int>, x: char, b: string, endsB: seq<int>)
    requires AreEnds(r, ends) && AreEnds(a, endsA) && AreEnds(b, endsB)
    requires |r| == |a| + 1 + |b| && r[|a|] == x
    requires forall k :: 0 <= k < |b| ==> r[k + (|a| + 1)] == b[k]
    requires forall k :: 0 <= k < |a| ==> r[k] == a[k] && ends[k] == endsA[k]
    requires ends[|a|] == -1
    requires forall k :: 0 <= k <= |b| ==> ends[k + (|a| + 1)] == if endsB[k] == -1 then -1 else endsB[k] + (|a| + 1)
    ensures Splice(f, r, ends, 0) == Splice(f, a, endsA, 0) + [x] + Splice(f, b, endsB, 0)
  {
    SplicePrefix(f, r, ends, a, endsA, 0);
    SpliceShifted(f, r, ends, |a| + 1, b, endsB, 0);
    SplicePast(f, r, ends, |a|, Splice(f, a, endsA, 0));
  }

  /** A rune that re avoids splits the text: both sides are cleaned on their own. */
  lemma Barrier(t: Tables, re: Re, f: string -> string, a: string, x: char, b: string)
    requires Avoids(t, re, x)
    ensures Replace(t, re, f, a + [x] + b) == Replace(t, re, f, a) + [x] + Replace(t, re, f, b)
  {
    EndsSplit(t, re, a, x, b);
    SpliceSplit(f, a + [x] + b, Ends(t, re, a + [x] + b), a, Ends(t, re, a), x, b, Ends(t, re, b));
  }
}
