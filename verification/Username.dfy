/** Usernames: what normalisation leaves of any text, and what is generated. */
module Username {
  import opened Text
  import opened Options

  const MIN_LENGTH := 4
  const MAX_LENGTH := 24
  const BASE_LENGTH := 16
  const SUFFIX_LENGTH := 6

  /** strings.ToLower and the transliteration to ASCII. */
  datatype Script = Script(lower: string -> string, decode: string -> string)

  predicate IsAscii(s: string) {
    forall k :: 0 <= k < |s| ==> s[k] < '\U{0080}'
  }

  predicate IsUpperLetter(c: char) {
    'A' <= c <= 'Z'
  }

  predicate IsPlainLetter(c: char) {
    'a' <= c <= 'z'
  }

  predicate IsPlainDigit(c: char) {
    '0' <= c <= '9'
  }

  predicate HasNoUpper(s: string) {
    forall k :: 0 <= k < |s| ==> !IsUpperLetter(s[k])
  }

  /** Lower-case ASCII is its own lower case and its own transliteration, and nothing lower-case holds an
      upper-case ASCII letter. */
  ghost predicate Faithful(t: Script) {
    && (forall s :: IsAscii(s) && HasNoUpper(s) ==> t.lower(s) == s && t.decode(s) == s)
    && forall s :: HasNoUpper(t.lower(s))
  }

  function LowerAscii(s: string): (r: string)
    ensures |r| == |s| && HasNoUpper(r) && (HasNoUpper(s) ==> r == s)
  {
    seq(|s|, k requires 0 <= k < |s| => if IsUpperLetter(s[k]) then (s[k] as int + 32) as char else s[k])
  }

  /** There are scripts that the proofs apply to. */
  lemma ScriptExists() returns (t: Script)
    ensures Faithful(t)
  {
    t := Script(s => LowerAscii(s), s => s);
  }

  function Transliterate(t: Script, s: string): string {
    t.lower(t.decode(s))
  }

  // ----- sanitizing -----

  /** An ASCII letter or digit. */
  predicate IsValid(c: char) {
    IsPlainLetter(c) || IsUpperLetter(c) || IsPlainDigit(c)
  }

  /** Runs of anything else become one underscore; after says that one was just written. */
  function Sanitized(s: string, after: bool): string {
    if s == "" then ""
    else if IsValid(s[0]) then [s[0]] + Sanitized(s[1..], false)
    else if after then Sanitized(s[1..], true)
    else "_" + Sanitized(s[1..], true)
  }

  lemma SanitizeStep(s: string, k: nat, after: bool, out: string)
    requires k < |s|
    ensures var c := s[k];
            out + Sanitized(s[k..], after) ==
            if IsValid(c) then (out + [c]) + Sanitized(s[k + 1..], false)
            else if after then out + Sanitized(s[k + 1..], true)
            else (out + "_") + Sanitized(s[k + 1..], true)
  {
    assert s[k..][1..] == s[k + 1..];
    Associate(out, [s[k]], Sanitized(s[k + 1..], false));
    Associate(out, "_", Sanitized(s[k + 1..], true));
  }

  method Sanitize(s: string) returns (out: string)
    ensures out == Sanitized(s, false)
  {
    out := "";
    var lastUnderscore := false;
    for k := 0 to |s|
      invariant out + Sanitized(s[k..], lastUnderscore) == Sanitized(s, false)
    {
      SanitizeStep(s, k, lastUnderscore, out);
      if IsValid(s[k]) {
        out := out + [s[k]];
        lastUnderscore := false;
        continue;
      }
      if !lastUnderscore {
        out := out + "_";
        lastUnderscore := true;
      }
    }
  }

  /** Letters, digits and single underscores. */
  predicate IsSingle(s: string) {
    && (forall k :: 0 <= k < |s| ==> IsPlainLetter(s[k]) || IsPlainDigit(s[k]) || s[k] == '_')
    && forall k :: 0 < k < |s| ==> s[k - 1] != '_' || s[k] != '_'
  }

  predicate IsClean(s: string) {
    IsSingle(s) && (s != "" ==> s[0] != '_' && s[|s| - 1] != '_')
  }

  lemma SingleMore(c: char, s: string)
    requires IsSingle(s) && (IsPlainLetter(c) || IsPlainDigit(c) || c == '_')
    requires c == '_' && s != "" ==> s[0] != '_'
    ensures IsSingle([c] + s)
  {
    var r := [c] + s;
    forall k | 0 < k < |r| ensures r[k - 1] != '_' || r[k] != '_' {
      assert r[k] == s[k - 1];
      if k > 1 { assert r[k - 1] == s[k - 2] && s[k - 1 - 1] == s[k - 2]; }
    }
  }

  lemma {:induction false} SanitizedIsSingle(s: string, after: bool)
    requires HasNoUpper(s)
    ensures var r := Sanitized(s, after); IsSingle(r) && (after && r != "" ==> r[0] != '_')
  {
    if s != "" {
      SanitizedIsSingle(s[1..], !IsValid(s[0]));
      if IsValid(s[0]) {
        SingleMore(s[0], Sanitized(s[1..], false));
      } else if !after {
        SingleMore('_', Sanitized(s[1..], true));
      }
    }
  }

  lemma {:induction false} SingleStays(s: string, after: bool)
    requires IsSingle(s) && (after && s != "" ==> s[0] != '_')
    ensures Sanitized(s, after) == s
  {
    if s != "" {
      SingleStays(s[1..], s[0] == '_');
      assert s == [s[0]] + s[1..];
    }
  }

  /** The rune at i is written: it is valid, or the first of a run of others. */
  predicate IsWritten(s: string, after: bool, i: nat)
    requires i < |s|
  {
    IsValid(s[i]) || (if i == 0 then !after else IsValid(s[i - 1]))
  }

  predicate AllWritten(s: string, after: bool, at: seq<nat>) {
    forall k :: 0 <= k < |at| ==> at[k] < |s| && IsWritten(s, after, at[k])
  }

  predicate Rises(at: seq<nat>) {
    forall j, k :: 0 <= j < k < |at| ==> at[j] < at[k]
  }

  ghost predicate NoneMissing(s: string, after: bool, at: seq<nat>) {
    forall i :: 0 <= i < |s| && IsWritten(s, after, i) ==> i in at
  }

  /** The runes of out stand for those of s at the places: themselves if valid, an underscore if not. */
  predicate StandFor(s: string, at: seq<nat>, out: string) {
    |out| == |at| && forall k :: 0 <= k < |at| ==> at[k] < |s| && out[k] == if IsValid(s[at[k]]) then s[at[k]] else '_'
  }

  function Later(at: seq<nat>): seq<nat> {
    seq(|at|, k requires 0 <= k < |at| => at[k] + 1)
  }

  /** The places of the written runes of s, from those after its first rune. */
  function PlacesFrom(s: string, after: bool, rest: seq<nat>): seq<nat>
    requires s != ""
  {
    if IsWritten(s, after, 0) then [0] + Later(rest) else Later(rest)
  }

  lemma WrittenAfter(s: string, after: bool, i: nat)
    requires 0 < i < |s|
    ensures IsWritten(s, after, i) <==> IsWritten(s[1..], !IsValid(s[0]), i - 1)
  {
    assert s[1..][i - 1] == s[i];
    if i > 1 { assert s[1..][i - 2] == s[i - 1]; }
  }

  lemma LaterWritten(s: string, after: bool, rest: seq<nat>)
    requires s != "" && AllWritten(s[1..], !IsValid(s[0]), rest) && Rises(rest)
    ensures AllWritten(s, after, Later(rest)) && Rises(Later(rest))
  {
    forall k | 0 <= k < |rest| ensures rest[k] + 1 < |s| && IsWritten(s, after, rest[k] + 1) {
      WrittenAfter(s, after, rest[k] + 1);
    }
  }

  lemma LaterComplete(s: string, after: bool, rest: seq<nat>, i: nat)
    requires 0 < i < |s| && NoneMissing(s[1..], !IsValid(s[0]), rest) && IsWritten(s, after, i)
    ensures i in Later(rest)
  {
    WrittenAfter(s, after, i);
    assert i - 1 in rest;
    var k :| 0 <= k < |rest| && rest[k] == i - 1;
    assert Later(rest)[k] == i;
  }

  lemma WrittenMore(s: string, after: bool, rest: seq<nat>)
    requires s != "" && AllWritten(s[1..], !IsValid(s[0]), rest) && Rises(rest)
    requires NoneMissing(s[1..], !IsValid(s[0]), rest)
    ensures var at := PlacesFrom(s, after, rest); AllWritten(s, after, at) && Rises(at) && NoneMissing(s, after, at)
  {
    var at := PlacesFrom(s, after, rest);
    LaterWritten(s, after, rest);
    forall i | 0 <= i < |s| && IsWritten(s, after, i) ensures i in at {
      if i > 0 { LaterComplete(s, after, rest, i); }
    }
  }

  lemma StandLater(s: string, rest: seq<nat>, inner: string)
    requires s != "" && StandFor(s[1..], rest, inner)
    ensures StandFor(s, Later(rest), inner)
  {}

  lemma StandFirst(s: string, later: seq<nat>, inner: string, c: char)
    requires s != "" && StandFor(s, later, inner) && c == (if IsValid(s[0]) then s[0] else '_')
    ensures StandFor(s, [0] + later, [c] + inner)
  {}

  lemma StandMore(s: string, after: bool, rest: seq<nat>)
    requires s != "" && StandFor(s[1..], rest, Sanitized(s[1..], !IsValid(s[0])))
    ensures StandFor(s, PlacesFrom(s, after, rest), Sanitized(s, after))
  {
    var inner := Sanitized(s[1..], !IsValid(s[0]));
    StandLater(s, rest, inner);
    StandFirst(s, Later(rest), inner, if IsValid(s[0]) then s[0] else '_');
  }

  /** Sanitizing writes the valid runes as they are, and an underscore for each run of others. */
  lemma {:induction false} SanitizedIs(s: string, after: bool) returns (at: seq<nat>)
    ensures AllWritten(s, after, at) && Rises(at) && NoneMissing(s, after, at)
    ensures StandFor(s, at, Sanitized(s, after))
  {
    if s == "" {
      at := [];
    } else {
      var rest := SanitizedIs(s[1..], !IsValid(s[0]));
      WrittenMore(s, after, rest);
      StandMore(s, after, rest);
      at := PlacesFrom(s, after, rest);
    }
  }

  // ----- trimming -----

  /** strings.TrimRight and strings.Trim of underscores. */
  function TrimRight(s: string): string {
    if s != "" && s[|s| - 1] == '_' then TrimRight(s[..|s| - 1]) else s
  }

  function TrimLeft(s: string): string {
    if s != "" && s[0] == '_' then TrimLeft(s[1..]) else s
  }

  function TrimEdges(s: string): string {
    TrimRight(TrimLeft(s))
  }

  lemma SingleAt(s: string, k: nat)
    requires IsSingle(s) && 0 < k < |s|
    ensures s[k - 1] != '_' || s[k] != '_'
  {}

  /** Of single underscores at most one goes at an end. */
  lemma SingleTrimRight(s: string)
    requires IsSingle(s)
    ensures TrimRight(s) == if s != "" && s[|s| - 1] == '_' then s[..|s| - 1] else s
    ensures IsSingle(TrimRight(s)) && (TrimRight(s) != "" ==> TrimRight(s)[|TrimRight(s)| - 1] != '_')
  {
    if s != "" && s[|s| - 1] == '_' {
      var front := s[..|s| - 1];
      if front != "" { SingleAt(s, |s| - 1); }
      assert TrimRight(front) == front;
    }
  }

  lemma SingleTrimLeft(s: string)
    requires IsSingle(s)
    ensures TrimLeft(s) == if s != "" && s[0] == '_' then s[1..] else s
    ensures IsSingle(TrimLeft(s)) && (TrimLeft(s) != "" ==> TrimLeft(s)[0] != '_')
  {
    if s != "" && s[0] == '_' {
      var rest := s[1..];
      if rest != "" { SingleAt(s, 1); }
      assert TrimLeft(rest) == rest;
      forall k | 0 < k < |rest| ensures rest[k - 1] != '_' || rest[k] != '_' {
        assert s[k + 1 - 1] != '_' || s[k + 1] != '_';
      }
    }
  }

  lemma TrimCleans(s: string)
    requires IsSingle(s)
    ensures IsClean(TrimEdges(s))
  {
    SingleTrimLeft(s);
    SingleTrimRight(TrimLeft(s));
  }

  lemma CleanStays(s: string)
    requires IsClean(s)
    ensures Sanitized(s, false) == s && TrimEdges(s) == s
  {
    SingleStays(s, false);
  }

  // ----- normalisation -----

  /** ^@[a-z][a-z0-9_]{3,23}$ */
  predicate IsUsername(s: string) {
    && MIN_LENGTH + 1 <= |s| <= MAX_LENGTH + 1 && s[0] == '@' && IsPlainLetter(s[1])
    && forall k :: 1 < k < |s| ==> IsPlainLetter(s[k]) || IsPlainDigit(s[k]) || s[k] == '_'
  }

  function Cut(s: string, length: nat): string {
    if |s| > length then TrimRight(s[..length]) else s
  }

  function Stripped(s: string): string {
    if s != "" && s[0] == '@' then s[1..] else s
  }

  function Normalized(t: Script, value: string): (string, bool) {
    var v := Trim(t.lower(value));
    if v == "" then ("", false)
    else
      var n := "@" + Cut(TrimEdges(Sanitized(Transliterate(t, Stripped(v)), false)), MAX_LENGTH);
      (n, IsUsername(n))
  }

  method Normalize(t: Script, value: string) returns (normalized: string, ok: bool)
    ensures (normalized, ok) == Normalized(t, value)
    ensures ok <==> IsUsername(normalized)
    ensures Faithful(t) ==> IsNormal(normalized) && Normalized(t, normalized) == (normalized, ok)
  {
    NormalizeKeepsNormal(t, value);
    var v := Trim(t.lower(value));
    if v == "" { return "", false; }
    v := Stripped(v);
    v := Transliterate(t, v);
    v := Sanitize(v);
    v := TrimEdges(v);
    if |v| > MAX_LENGTH {
      v := TrimRight(v[..MAX_LENGTH]);
    }
    normalized := "@" + v;
    ok := IsUsername(normalized);
  }

  lemma SinglePrefix(s: string, n: nat)
    requires IsSingle(s) && n <= |s|
    ensures IsSingle(s[..n])
  {
    forall k | 0 < k < n ensures s[..n][k - 1] != '_' || s[..n][k] != '_' {
      assert s[k - 1] != '_' || s[k] != '_';
    }
  }

  lemma CutIsClean(s: string, length: nat)
    requires IsClean(s)
    ensures IsClean(Cut(s, length)) && |Cut(s, length)| <= length
    ensures |s| > length > 0 ==> |Cut(s, length)| >= length - 1
    ensures Cut(s, length) != "" ==> Cut(s, length)[0] == s[0]
  {
    if |s| > length {
      SinglePrefix(s, length);
      SingleTrimRight(s[..length]);
    }
  }

  /** Normalisation leaves nothing, or a short clean name after its at sign. */
  ghost predicate IsNormal(s: string) {
    s == "" || (s[0] == '@' && IsClean(s[1..]) && |s| <= MAX_LENGTH + 1)
  }

  lemma NormalizedIsNormal(t: Script, value: string)
    requires Faithful(t)
    ensures IsNormal(Normalized(t, value).0)
  {
    var v := Trim(t.lower(value));
    if v != "" {
      var decoded := Transliterate(t, Stripped(v));
      SanitizedIsSingle(decoded, false);
      var trimmed := TrimEdges(Sanitized(decoded, false));
      TrimCleans(Sanitized(decoded, false));
      CutIsClean(trimmed, MAX_LENGTH);
      assert ("@" + Cut(trimmed, MAX_LENGTH))[1..] == Cut(trimmed, MAX_LENGTH);
    }
  }

  lemma PlainIsPlain(t: Script, s: string)
    requires Faithful(t) && (IsClean(s) || (s != "" && s[0] == '@' && IsClean(s[1..])))
    ensures t.lower(s) == s && t.decode(s) == s && Trim(s) == s
  {
    if !IsClean(s) {
      forall k | 0 <= k < |s| ensures s[k] < '\U{0080}' && !IsUpperLetter(s[k]) {
        if k > 0 { assert s[k] == s[1..][k - 1]; }
      }
    }
    assert s != "" ==> !IsWhite(s[0]) && !IsWhite(s[|s| - 1]) by {
      if |s| > 1 && !IsClean(s) { assert s[|s| - 1] == s[1..][|s| - 2]; }
    }
    TrimmedStays(s);
  }

  lemma NormalizeKeepsNormal(t: Script, value: string)
    ensures var (normalized, ok) := Normalized(t, value);
            && (ok <==> IsUsername(normalized))
            && (Faithful(t) ==> IsNormal(normalized) && Normalized(t, normalized) == (normalized, ok))
  {
    if Faithful(t) {
      NormalizedIsNormal(t, value);
      NormalizeIsIdempotent(t, value);
    }
  }

  lemma NormalStays(t: Script, s: string)
    requires Faithful(t) && IsNormal(s)
    ensures Normalized(t, s).0 == s
  {
    if s == "" {
      assert IsAscii("") && HasNoUpper("");
    } else {
      var name := s[1..];
      PlainIsPlain(t, s);
      PlainIsPlain(t, name);
      CleanStays(name);
      assert s == "@" + name;
    }
  }

  function ValidOnly(c: char): string {
    if IsValid(c) then [c] else ""
  }

  /** The letters and digits of a text. */
  function Valids(s: string): string {
    if s == "" then "" else Valids(s[..|s| - 1]) + ValidOnly(s[|s| - 1])
  }

  lemma {:induction false} ValidsJoin(a: string, b: string)
    ensures Valids(a + b) == Valids(a) + Valids(b)
  {
    if b == "" {
      assert a + b == a;
    } else {
      var front := b[..|b| - 1];
      assert (a + b)[..|a + b| - 1] == a + front;
      ValidsJoin(a, front);
      Associate(Valids(a), Valids(front), ValidOnly(b[|b| - 1]));
    }
  }

  lemma ValidsOne(c: char)
    ensures Valids([c]) == ValidOnly(c)
  {
    assert [c][..0] == "";
  }

  lemma ValidsFirst(c: char, rest: string)
    ensures Valids([c] + rest) == ValidOnly(c) + Valids(rest)
  {
    ValidsJoin([c], rest);
    ValidsOne(c);
  }

  lemma {:induction false} SanitizedValids(s: string, after: bool)
    ensures Valids(Sanitized(s, after)) == Valids(s)
  {
    if s != "" {
      SanitizedValids(s[1..], !IsValid(s[0]));
      assert s == [s[0]] + s[1..];
      ValidsFirst(s[0], s[1..]);
      ValidsFirst(s[0], Sanitized(s[1..], false));
      ValidsFirst('_', Sanitized(s[1..], true));
    }
  }

  lemma {:induction false} TrimLeftValids(s: string)
    ensures Valids(TrimLeft(s)) == Valids(s)
  {
    if s != "" && s[0] == '_' {
      TrimLeftValids(s[1..]);
      ValidsFirst('_', s[1..]);
      assert s == ['_'] + s[1..];
    }
  }

  lemma {:induction false} TrimRightValids(s: string)
    ensures Valids(TrimRight(s)) == Valids(s)
  {
    if s != "" && s[|s| - 1] == '_' { TrimRightValids(s[..|s| - 1]); }
  }

  lemma ValidsPrefix(s: string, a: string, b: string)
    requires s == a + b
    ensures Valids(a) <= Valids(s)
  {
    ValidsJoin(a, b);
  }

  lemma TrimmedPrefixValids(s: string, a: string, b: string)
    requires s == a + b
    ensures Valids(TrimRight(a)) <= Valids(s)
  {
    TrimRightValids(a);
    ValidsPrefix(s, a, b);
  }

  lemma CutValids(s: string, length: nat)
    ensures Valids(Cut(s, length)) <= Valids(s) && (|s| <= length ==> Cut(s, length) == s)
  {
    if |s| > length {
      var a, b := s[..length], s[length..];
      assert s == a + b;
      TrimmedPrefixValids(s, a, b);
    }
  }

  /** Normalising keeps the letters and digits of the transliterated text in order, and loses some only at
      the end of a name that fills the length, but for an underscore. */
  lemma NormalizeKeepsLetters(t: Script, value: string)
    requires Faithful(t)
    ensures var v, name := Trim(t.lower(value)), Normalized(t, value).0;
            if v == "" then name == ""
            else
              var all := Valids(t.lower(t.decode(if v[0] == '@' then v[1..] else v)));
              Valids(name) == all || (Valids(name) <= all && |name| >= MAX_LENGTH)
  {
    var v := Trim(t.lower(value));
    if v != "" {
      var decoded := Transliterate(t, Stripped(v));
      var b := TrimEdges(Sanitized(decoded, false));
      SanitizedValids(decoded, false);
      TrimLeftValids(Sanitized(decoded, false));
      TrimRightValids(TrimLeft(Sanitized(decoded, false)));
      CutValids(b, MAX_LENGTH);
      SanitizedIsSingle(decoded, false);
      TrimCleans(Sanitized(decoded, false));
      CutIsClean(b, MAX_LENGTH);
      ValidsFirst('@', Cut(b, MAX_LENGTH));
    }
  }

  /** Whether a name is accepted hangs on its length and its first letter only: the rest is clean anyway. */
  lemma AcceptedBy(t: Script, value: string)
    requires Faithful(t)
    ensures var (name, ok) := Normalized(t, value); ok <==> |name| >= 5 && 'a' <= name[1] <= 'z'
  {
    NormalizedIsNormal(t, value);
    var name := Normalized(t, value).0;
    if name != "" {
      forall k | 1 < k < |name| ensures IsPlainLetter(name[k]) || IsPlainDigit(name[k]) || name[k] == '_' {
        assert name[k] == name[1..][k - 1];
      }
    }
  }

  /** Normalising twice is normalising once, whether the result is accepted or not. */
  lemma NormalizeIsIdempotent(t: Script, value: string)
    requires Faithful(t)
    ensures Normalized(t, Normalized(t, value).0) == Normalized(t, value)
  {
    NormalizedIsNormal(t, value);
    NormalStays(t, Normalized(t, value).0);
  }

  // ----- generation -----

  predicate StartsWithLetter(s: string) {
    s != "" && IsPlainLetter(s[0])
  }

  predicate IsBase(s: string) {
    |s| >= MIN_LENGTH && StartsWithLetter(s)
  }

  const ALPHABET := "abcdefghijklmnopqrstuvwxyz0123456789"

  predicate IsPlain(s: string) {
    forall k :: 0 <= k < |s| ==> IsPlainLetter(s[k]) || IsPlainDigit(s[k])
  }

  lemma AlphabetIsPlain()
    ensures IsPlain(ALPHABET)
  {}

  /** Random bytes as letters and digits. */
  method Suffix(bytes: seq<nat>) returns (s: string)
    ensures |s| == |bytes| && IsPlain(s)
    ensures forall k :: 0 <= k < |bytes| ==> s[k] == ALPHABET[bytes[k] % |ALPHABET|]
  {
    AlphabetIsPlain();
    s := "";
    for k := 0 to |bytes|
      invariant |s| == k && IsPlain(s)
      invariant forall j :: 0 <= j < k ==> s[j] == ALPHABET[bytes[j] % |ALPHABET|]
    {
      s := s + [ALPHABET[bytes[k] % |ALPHABET|]];
    }
  }

  /** What is left of a part: transliterated, with underscores for other runes, but not at its edges. */
  function BaseOf(t: Script, part: string): string {
    TrimEdges(Sanitized(Transliterate(t, Trim(part)), false))
  }

  predicate Fits(base: string) {
    |base| >= 4 && 'a' <= base[0] <= 'z'
  }

  /** Part k is the first that leaves at least four characters with a letter in front. */
  predicate IsFirstFit(t: Script, parts: seq<string>, k: nat) {
    k < |parts| && Fits(BaseOf(t, parts[k])) && forall j :: 0 <= j < k ==> !Fits(BaseOf(t, parts[j]))
  }

  /** At most 16 characters of a base, without an underscore at the end. */
  predicate IsShortened(base: string, short: string) {
    if |base| <= 16 then short == base
    else short == if base[15] == '_' then base[..15] else base[..16]
  }

  /** The base of the first part that fits, or of no part. */
  ghost predicate IsChosen(t: Script, parts: seq<string>, base: string) {
    && (forall k :: 0 <= k < |parts| && IsFirstFit(t, parts, k) ==> base == BaseOf(t, parts[k]))
    && ((forall k :: 0 <= k < |parts| ==> !Fits(BaseOf(t, parts[k]))) ==> base == "user")
  }

  /** The name is made of the chosen base, shortened, and a letter or digit for each byte. */
  ghost predicate IsGenerated(t: Script, parts: seq<string>, bytes: seq<nat>, name: string) {
    exists base, short, suffix ::
      && IsChosen(t, parts, base) && IsShortened(base, short) && name == "@" + short + "_" + suffix
      && |suffix| == |bytes|
      && forall j :: 0 <= j < |bytes| ==> suffix[j] == "abcdefghijklmnopqrstuvwxyz0123456789"[bytes[j] % 36]
  }

  lemma BaseIsClean(t: Script, part: string)
    requires Faithful(t)
    ensures IsClean(BaseOf(t, part)) && (Trim(part) == "" ==> BaseOf(t, part) == "")
  {
    SanitizedIsSingle(Transliterate(t, Trim(part)), false);
    TrimCleans(Sanitized(Transliterate(t, Trim(part)), false));
    assert IsAscii("") && HasNoUpper("");
  }

  lemma CutIsShortened(base: string)
    requires IsClean(base)
    ensures IsShortened(base, Cut(base, BASE_LENGTH))
  {
    if |base| > BASE_LENGTH {
      SinglePrefix(base, BASE_LENGTH);
      SingleTrimRight(base[..BASE_LENGTH]);
      assert base[..16][..15] == base[..15];
    }
  }

  lemma GeneratedFrom(
    t: Script, parts: seq<string>, bytes: seq<nat>, base: string, short: string, suffix: string, name: string)
    requires IsChosen(t, parts, base) && IsShortened(base, short) && name == "@" + short + "_" + suffix
    requires |suffix| == |bytes|
    requires forall j :: 0 <= j < |bytes| ==> suffix[j] == ALPHABET[bytes[j] % |ALPHABET|]
    ensures IsGenerated(t, parts, bytes, name)
  {}

  /** The base that the first fitting part leaves, or a stock one. */
  method ChooseBase(t: Script, parts: seq<string>) returns (base: string)
    requires Faithful(t)
    ensures IsClean(base) && IsBase(base) && IsChosen(t, parts, base)
  {
    base := "";
    for k := 0 to |parts|
      invariant IsClean(base) && !IsBase(base)
      invariant forall j :: 0 <= j < k ==> !Fits(BaseOf(t, parts[j]))
    {
      BaseIsClean(t, parts[k]);
      var part := Trim(parts[k]);
      if part == "" {
        continue;
      }
      base := Transliterate(t, part);
      base := Sanitize(base);
      base := TrimEdges(base);
      if |base| >= MIN_LENGTH && StartsWithLetter(base) {
        assert forall j :: 0 <= j < |parts| && IsFirstFit(t, parts, j) ==> j == k;
        break;
      }
    }
    if |base| < MIN_LENGTH || !StartsWithLetter(base) {
      base := "user";
    }
  }

  /** bytes are what the random source gave, or nothing when it failed. */
  method Generate(t: Script, parts: seq<string>, bytes: Option<seq<nat>>) returns (name: Option<string>)
    requires Faithful(t) && (bytes.Some? ==> |bytes.value| == SUFFIX_LENGTH)
    ensures name.Some? <==> bytes.Some?
    ensures name.Some? ==> IsUsername(name.value) && Normalized(t, name.value) == (name.value, true)
    ensures name.Some? ==> IsGenerated(t, parts, bytes.value, name.value)
  {
    var base := ChooseBase(t, parts);
    ghost var chosen := base;
    CutIsClean(base, BASE_LENGTH);
    CutIsShortened(base);
    if |base| > BASE_LENGTH {
      base := TrimRight(base[..BASE_LENGTH]);
    }
    if bytes.None? { return None; }
    var suffix := Suffix(bytes.value);
    SingleTrimRight(base);
    base := TrimRight(base);
    GeneratedIsUsername(t, base, suffix, "@" + base + "_" + suffix);
    GeneratedFrom(t, parts, bytes.value, chosen, base, suffix, "@" + base + "_" + suffix);
    return Some("@" + base + "_" + suffix);
  }

  /** A base and a suffix, with one underscore between them, make a clean name. */
  lemma JoinedIsClean(base: string, suffix: string)
    requires IsClean(base) && base != "" && suffix != ""
    requires IsPlain(suffix)
    ensures IsClean(base + "_" + suffix)
  {
    var name := base + "_" + suffix;
    forall k | 0 < k < |name| ensures name[k - 1] != '_' || name[k] != '_' {
      if k < |base| {
        assert base[k - 1] != '_' || base[k] != '_';
      } else if k == |base| {
        assert name[k - 1] == base[|base| - 1];
      } else {
        assert name[k] == suffix[k - |base| - 1];
      }
    }
  }

  lemma NameIsUsername(t: Script, base: string, suffix: string, clean: string)
    requires Faithful(t) && IsBase(base) && |base| <= BASE_LENGTH && |suffix| == SUFFIX_LENGTH
    requires clean == base + "_" + suffix && IsClean(clean)
    ensures IsUsername("@" + clean) && Normalized(t, "@" + clean).0 == "@" + clean
  {
    var name := "@" + clean;
    assert name[1..] == clean && name[1] == clean[0] == base[0];
    forall k | 1 < k < |name| ensures IsPlainLetter(name[k]) || IsPlainDigit(name[k]) || name[k] == '_' {
      assert name[k] == clean[k - 1];
    }
    NormalStays(t, name);
  }

  lemma AcceptedIsUsername(t: Script, name: string)
    requires IsUsername(name) && Normalized(t, name).0 == name
    ensures Normalized(t, name) == (name, true)
  {}

  lemma GeneratedIsUsername(t: Script, base: string, suffix: string, name: string)
    requires Faithful(t) && IsClean(base) && IsBase(base) && |base| <= BASE_LENGTH
    requires |suffix| == SUFFIX_LENGTH && IsPlain(suffix) && name == "@" + base + "_" + suffix
    ensures IsUsername(name) && Normalized(t, name) == (name, true)
  {
    var clean := base + "_" + suffix;
    JoinedIsClean(base, suffix);
    assert "@" + clean == name;
    NameIsUsername(t, base, suffix, clean);
    AcceptedIsUsername(t, name);
  }
}
