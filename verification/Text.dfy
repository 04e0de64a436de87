/** Whitespace as Go's unicode.IsSpace knows it, and strings.TrimSpace. */
module Text {

  predicate IsWhite(c: char) {
    || '\t' <= c <= '\r' || c == ' ' || c == '\U{0085}' || c == '\U{00A0}' || c == '\U{1680}'
    || '\U{2000}' <= c <= '\U{200A}' || c == '\U{2028}' || c == '\U{2029}' || c == '\U{202F}'
    || c == '\U{205F}' || c == '\U{3000}'
  }

  function Trim(s: string): (r: string)
    ensures IsTrimmed(r) && |r| <= |s|
  {
    if s == "" then ""
    else if IsWhite(s[0]) then Trim(s[1..])
    else if IsWhite(s[|s| - 1]) then Trim(s[..|s| - 1])
    else s
  }

  predicate IsTrimmed(s: string) {
    s == "" || (!IsWhite(s[0]) && !IsWhite(s[|s| - 1]))
  }

  lemma TrimmedStays(s: string)
    requires IsTrimmed(s)
    ensures Trim(s) == s
  {}

  function Dark(c: char): string {
    if IsWhite(c) then "" else [c]
  }

  /** The runes of s that are not whitespace. */
  function Squeezed(s: string): string {
    if s == "" then "" else Dark(s[0]) + Squeezed(s[1..])
  }

  lemma Associate<T>(a: seq<T>, b: seq<T>, c: seq<T>)
    ensures a + (b + c) == (a + b) + c
  {}

  lemma FirstOfJoin(a: string, b: string)
    requires a != ""
    ensures (a + b)[0] == a[0] && (a + b)[1..] == a[1..] + b
  {}

  lemma {:induction false} SqueezedJoin(a: string, b: string)
    ensures Squeezed(a + b) == Squeezed(a) + Squeezed(b)
  {
    if a == "" {
      assert a + b == b;
    } else {
      FirstOfJoin(a, b);
      SqueezedJoin(a[1..], b);
      Associate(Dark(a[0]), Squeezed(a[1..]), Squeezed(b));
    }
  }

  lemma {:induction false} WhiteSqueezed(s: string)
    requires forall k :: 0 <= k < |s| ==> IsWhite(s[k])
    ensures Squeezed(s) == ""
  {
    if s != "" { WhiteSqueezed(s[1..]); }
  }

  lemma SqueezedLast(s: string)
    requires s != "" && IsWhite(s[|s| - 1])
    ensures Squeezed(s) == Squeezed(s[..|s| - 1])
  {
    var front, last := s[..|s| - 1], s[|s| - 1..];
    SqueezedJoin(front, last);
    WhiteSqueezed(last);
    assert front + last == s;
    assert Squeezed(front) + "" == Squeezed(front);
  }

  /** Trimming loses nothing but whitespace. */
  lemma {:induction false} TrimSqueezed(s: string)
    ensures Squeezed(Trim(s)) == Squeezed(s)
  {
    if s == "" {
    } else if IsWhite(s[0]) {
      TrimSqueezed(s[1..]);
    } else if IsWhite(s[|s| - 1]) {
      TrimSqueezed(s[..|s| - 1]);
      SqueezedLast(s);
    }
  }
}
