/** Rune classes of the reference cleaner: JavaScript's \s and \d, simple case folding, and the
    letter and number tables, which stay a parameter, and the words that introduce an ID. */
module Runes {

  datatype Class =
    | Space
    | Digit
    | Letter
    | Fold(want: char)
    | FoldAny(wants: string)
    | OneOf(runes: string)
    | Between(first: char, last: char)
    | WordRune
    | WordOrDot

  /** A label word: its stem and what may, or must, close it. */
  datatype LabelForm = LabelForm(stem: string, ending: Class, bare: bool)

  /** The label words, and the prepositions and nouns that point at a segment. */
  datatype Vocabulary = Vocabulary(labels: seq<LabelForm>, prepositions: seq<string>, nouns: seq<string>)

  /** unicode.IsLetter, unicode.IsNumber, strings.TrimSpace and strings.ToLower, with the words. */
  datatype Tables = Tables(
    letter: char -> bool, number: char -> bool, trim: string -> string, lower: string -> string, words: Vocabulary)

  predicate IsDigit(c: char) {
    '0' <= c <= '9'
  }

  predicate IsSpace(c: char) {
    || '\t' <= c <= '\r' || c == ' '
    || c == '\U{00A0}' || c == '\U{1680}' || '\U{2000}' <= c <= '\U{200A}'
    || c == '\U{2028}' || c == '\U{2029}' || c == '\U{202F}' || c == '\U{205F}'
    || c == '\U{3000}' || c == '\U{FEFF}'
  }

  predicate IsLowerLetter(c: char) {
    'a' <= c <= 'z' || 'а' <= c <= 'я'
  }

  function Upper(want: char): char {
    if IsLowerLetter(want) then (want as int - 32) as char else want
  }

  /** Members of a simple folding orbit beyond the two ordinary cases. */
  predicate OddForm(c: char, want: char) {
    || (want == 's' && c == '\U{017F}') || (want == 'k' && c == '\U{212A}')
    || (want == 'в' && c == '\U{1C80}') || (want == 'д' && c == '\U{1C81}') || (want == 'о' && c == '\U{1C82}')
    || (want == 'с' && c == '\U{1C83}') || (want == 'т' && (c == '\U{1C84}' || c == '\U{1C85}'))
    || (want == 'ъ' && c == '\U{1C86}')
  }

  /** Comparison under simple case folding, for a lower-case letter. */
  predicate SameLetter(c: char, want: char) {
    c == want || c == Upper(want) || OddForm(c, want)
  }

  predicate FoldContains(wants: string, c: char) {
    exists k :: 0 <= k < |wants| && SameLetter(c, wants[k])
  }

  predicate IsLowerWord(w: string) {
    forall k :: 0 <= k < |w| ==> IsLowerLetter(w[k])
  }

  const PUNCTUATION := "{}()[],;/."

  predicate IsLabelForm(form: LabelForm) {
    && IsLowerWord(form.stem) && form.stem != "" && form.stem[0] > 'z'
    && (form.ending == OneOf(".") || (form.ending.FoldAny? && IsLowerWord(form.ending.wants)))
  }

  predicate IsPointerWord(w: string) {
    IsLowerWord(w) && w != "" && w[0] > 'z'
  }

  /** What the proofs use of the words: no label or pointer starts like an ID, and no preposition
      starts like a noun. */
  ghost predicate IsVocabulary(v: Vocabulary) {
    && (forall k :: 0 <= k < |v.labels| ==> IsLabelForm(v.labels[k]))
    && (forall k :: 0 <= k < |v.prepositions| ==> IsPointerWord(v.prepositions[k]))
    && (forall k :: 0 <= k < |v.nouns| ==> IsPointerWord(v.nouns[k]))
    && (forall j, k :: 0 <= j < |v.prepositions| && 0 <= k < |v.nouns| ==> v.prepositions[j][0] != v.nouns[k][0])
  }

  const LABELS := [
    LabelForm("см", OneOf("."), true),
    LabelForm("рекомендаци", FoldAny("яиюей"), false),
    LabelForm("карточк", FoldAny("аиуеой"), false),
    LabelForm("критери", FoldAny("йияюем"), false),
    LabelForm("требовани", FoldAny("еяюйм"), false),
    LabelForm("пункт", FoldAny("аыеом"), true)]
  const PREPOSITIONS := ["в", "во", "на", "из", "по", "к", "о", "об"]
  const NOUNS := ["сегмент", "реплик", "фрагмент"]
  const WORDS := Vocabulary(LABELS, PREPOSITIONS, NOUNS)

  lemma LabelsAreForms()
    ensures forall k :: 0 <= k < |LABELS| ==> IsLabelForm(LABELS[k])
  {}

  lemma PointersAreWords()
    ensures forall k :: 0 <= k < |PREPOSITIONS| ==> IsPointerWord(PREPOSITIONS[k])
    ensures forall k :: 0 <= k < |NOUNS| ==> IsPointerWord(NOUNS[k])
    ensures forall j, k :: 0 <= j < |PREPOSITIONS| && 0 <= k < |NOUNS| ==> PREPOSITIONS[j][0] != NOUNS[k][0]
  {}

  /** The facts about the tables that the proofs use. */
  ghost predicate Faithful(t: Tables) {
    && (forall c, want :: IsLowerLetter(want) && SameLetter(c, want) ==> t.letter(c))
    && (forall c :: t.letter(c) ==> !IsSpace(c) && !IsDigit(c))
    && (forall c :: t.number(c) ==> !IsSpace(c))
    && (forall c :: IsDigit(c) ==> t.number(c))
    && (forall k :: 0 <= k < |PUNCTUATION| ==> !t.letter(PUNCTUATION[k]) && !t.number(PUNCTUATION[k]))
    && t.trim("") == ""
    && IsVocabulary(t.words)
  }

  lemma Punctuation(t: Tables)
    requires Faithful(t)
    ensures !t.letter('{') && !t.letter('}') && !t.number('{') && !t.number('}')
    ensures !t.letter('.') && !t.letter(',') && !t.letter(';') && !t.letter('/')
    ensures !t.letter('(') && !t.letter(')') && !t.letter('[') && !t.letter(']')
  {
    var p := PUNCTUATION;
    assert p[0] == '{' && p[1] == '}' && p[2] == '(' && p[3] == ')' && p[4] == '[' && p[5] == ']';
    assert p[6] == ',' && p[7] == ';' && p[8] == '/' && p[9] == '.';
  }

  /** No rune folds to two different lower-case letters. */
  lemma OneOrbit(c: char, w: char, v: char)
    requires IsLowerLetter(w) && IsLowerLetter(v) && SameLetter(c, w) && SameLetter(c, v)
    ensures w == v
  {}

  ghost predicate IsFolded(c: char) {
    exists want :: IsLowerLetter(want) && SameLetter(c, want)
  }

  lemma FoldedRune(c: char)
    requires IsFolded(c)
    ensures !IsSpace(c) && !IsDigit(c) && c != '{' && c != '}' && c != '(' && c != ')' && c != '[' && c != ']'
    ensures c != ',' && c != ';' && c != '/' && c != '.'
  {
    var want :| IsLowerLetter(want) && SameLetter(c, want);
  }

  /** There are tables that the proofs apply to: the folded letters, the digits and the shipped words. */
  lemma TablesExist() returns (t: Tables)
    ensures Faithful(t) && t.words == WORDS
  {
    t := Tables(c => IsFolded(c), c => IsDigit(c), s => s, s => s, WORDS);
    LabelsAreForms();
    PointersAreWords();
    forall c | t.letter(c) ensures !IsSpace(c) && !IsDigit(c) { FoldedRune(c); }
    forall k | 0 <= k < |PUNCTUATION| ensures !t.letter(PUNCTUATION[k]) && !t.number(PUNCTUATION[k]) {
      if IsFolded(PUNCTUATION[k]) { FoldedRune(PUNCTUATION[k]); }
    }
  }
}
