/**
  The text annotator of the palm-leaf manuscript OCR page: a fixed
  substitution table and the pure pass that turns a recognized string into
  display segments, one per UTF-16 code unit, highlighting (and replacing)
  every unit the table knows.

  Every character of the table lies in the Basic Multilingual Plane. The
  input is taken to lie there too, so that one Dafny `char` (a Unicode
  scalar value) stands for one UTF-16 code unit; a character outside that
  plane is two code units in the source and one `char` here.
 */
module Annotator {

  /** One rendered span: its text and whether it is styled as a correction. */
  datatype Segment = Segment(text: string, highlighted: bool)

  /** The substitution table, keyed by strings as the source's record is.
      Keys and values are written by code point so that nothing depends on
      how this file is displayed; the comments name the Sinhala letters. */
  const CharacterMap: map<string, string> := map[
    "?" := "\U{0D85}",                          // ayanna
    "_" := "\U{0D9A}",                          // kayanna
    "o" := "\U{0DA7}",                          // ttayanna
    "0" := "\U{0DC6}",                          // fayanna
    "a" := "\U{0DB4}",                          // payanna
    "T" := "\U{0DBD}",                          // dantaja layanna
    "8" := "\U{0DB4}",                          // payanna
    "\U{0D89}\U{0D82}" := "\U{0D89}\U{0DB8}o",  // iyanna + anusvaraya -> iyanna, mayanna, Latin o
    "\U{0965}" := "\U{0DA7}"                    // Devanagari double danda -> ttayanna
  ]

  /** The only key of the table that is longer than one code unit. */
  const TwoUnitKey: string := "\U{0D89}\U{0D82}"

  /** Every key of the table but the two-unit one is a single code unit. */
  lemma TableShape()
    ensures TwoUnitKey in CharacterMap && |TwoUnitKey| == 2
    ensures forall k :: k in CharacterMap && k != TwoUnitKey ==> |k| == 1
  {
    assert CharacterMap.Keys == {"?", "_", "o", "0", "a", "T", "8", TwoUnitKey, "\U{0965}"};
  }

  /** No value of the table is the empty string. */
  lemma TableValuesNonEmpty()
    ensures forall k :: k in CharacterMap ==> CharacterMap[k] != ""
  {
    assert CharacterMap.Keys == {"?", "_", "o", "0", "a", "T", "8", TwoUnitKey, "\U{0965}"};
  }

  /** Neither unit of the two-unit key is a key on its own. */
  lemma TwoUnitKeyUnitsAreNotKeys()
    ensures [TwoUnitKey[0]] !in CharacterMap && [TwoUnitKey[1]] !in CharacterMap
  {
    assert CharacterMap.Keys == {"?", "_", "o", "0", "a", "T", "8", TwoUnitKey, "\U{0965}"};
  }

  /** The guard of the annotator as the source writes it: a property lookup
      whose result is tested for truthiness, so the key must be present and
      its value must not be the empty string. No value of the table is
      empty, so the test is exactly "the one-unit string is a key". */
  predicate Matches(unit: char)
    ensures Matches(unit) <==> [unit] in CharacterMap
  {
    TableValuesNonEmpty();
    [unit] in CharacterMap && CharacterMap[[unit]] != ""
  }

  /** The segment the annotator emits for one code unit: the key's value,
      highlighted, for a key, and the unit itself, plain, otherwise. */
  function AnnotateUnit(unit: char): (r: Segment)
    ensures r.highlighted <==> [unit] in CharacterMap
    ensures [unit] in CharacterMap ==> r.text == CharacterMap[[unit]]
    ensures [unit] !in CharacterMap ==> r.text == [unit]
  {
    if Matches(unit) then Segment(CharacterMap[[unit]], true)
    else Segment([unit], false)
  }

  /** The annotator: split the text into code units and map each to its
      segment, keeping the order. */
  function AutoCorrectText(text: string): (r: seq<Segment>)
    ensures |r| == |text|
    ensures forall i :: 0 <= i < |text| && [text[i]] in CharacterMap ==>
              r[i] == Segment(CharacterMap[[text[i]]], true)
    ensures forall i :: 0 <= i < |text| && [text[i]] !in CharacterMap ==>
              r[i] == Segment([text[i]], false)
  {
    if text == [] then []
    else
      [AnnotateUnit(text[0])] + AutoCorrectText(text[1..])
  }

  /** The annotator maps a concatenation to the concatenation of its
      annotations: each unit is annotated on its own. */
  lemma {:induction false} AnnotateAppend(a: string, b: string)
    ensures AutoCorrectText(a + b) == AutoCorrectText(a) + AutoCorrectText(b)
  {
    if a != [] {
      assert (a + b)[1..] == a[1..] + b;
      AnnotateAppend(a[1..], b);
    }
  }

  /** The text a reader sees: the segment texts run together in order. */
  function Flatten(segments: seq<Segment>): string {
    if segments == [] then [] else segments[0].text + Flatten(segments[1..])
  }

  lemma {:induction false} FlattenAppend(a: seq<Segment>, b: seq<Segment>)
    ensures Flatten(a + b) == Flatten(a) + Flatten(b)
  {
    if a == [] {
      assert a + b == b;
    } else {
      assert (a + b)[0] == a[0] && (a + b)[1..] == a[1..] + b;
      FlattenAppend(a[1..], b);
      assert Flatten(a + b) == a[0].text + (Flatten(a[1..]) + Flatten(b));
    }
  }

  /** An independent, unit-by-unit statement of what the reader sees: every
      key whose value is one unit is replaced by that unit, every other unit
      is kept. */
  function Substitute(text: string): (r: string)
    ensures |r| == |text|
  {
    seq(|text|, i requires 0 <= i < |text| => SubstituteUnit(text[i]))
  }

  function SubstituteUnit(unit: char): char {
    if [unit] in CharacterMap && |CharacterMap[[unit]]| == 1 then CharacterMap[[unit]][0] else unit
  }

  /** Every value that a one-unit key leads to is itself exactly one unit
      long: the only longer value belongs to the two-unit key. */
  lemma ReachableValuesAreOneUnit(k: string)
    requires k in CharacterMap && |k| == 1
    ensures |CharacterMap[k]| == 1
  {
    assert k != TwoUnitKey;
  }

  /** No value that a one-unit key leads to is a key itself. */
  lemma ReachableValuesAreNotKeys(k: string)
    requires k in CharacterMap && |k| == 1
    ensures CharacterMap[k] !in CharacterMap
  {
    assert k != TwoUnitKey;
  }

  /** Each segment text of the annotation is one unit long. */
  lemma SegmentIsOneUnit(text: string, i: nat)
    requires i < |text|
    ensures |AutoCorrectText(text)[i].text| == 1
  {
    if [text[i]] in CharacterMap {
      ReachableValuesAreOneUnit([text[i]]);
    }
  }

  /** What the reader sees is the unit-by-unit substitution of the input,
      so it has exactly as many code units as the input and keeps every unit
      that is not a key. */
  lemma {:induction false} FlattenAnnotation(text: string)
    ensures Flatten(AutoCorrectText(text)) == Substitute(text)
    ensures |Flatten(AutoCorrectText(text))| == |text|
  {
    if text != [] {
      var head, tail := [text[0]], text[1..];
      assert text == head + tail;
      AnnotateAppend(head, tail);
      FlattenAppend(AutoCorrectText(head), AutoCorrectText(tail));
      FlattenAnnotation(tail);
      FlattenUnit(text[0]);
      SubstituteCons(text);
    }
  }

  lemma SubstituteCons(text: string)
    requires text != []
    ensures Substitute(text) == [SubstituteUnit(text[0])] + Substitute(text[1..])
  {
    assert forall i :: 0 <= i < |text| - 1 ==> Substitute(text[1..])[i] == Substitute(text)[i + 1];
  }

  /** The annotation of a single unit reads as that unit's substitution. */
  lemma FlattenUnit(unit: char)
    ensures Flatten(AutoCorrectText([unit])) == [SubstituteUnit(unit)]
  {
    if [unit] in CharacterMap {
      ReachableValuesAreOneUnit([unit]);
    }
    assert AutoCorrectText([unit]) == [AnnotateUnit(unit)];
    assert Flatten([AnnotateUnit(unit)]) == AnnotateUnit(unit).text + Flatten([]);
  }

  /** Positions that hold no key are shown unchanged. */
  lemma NonKeysUnchanged(text: string, i: nat)
    requires i < |text| && [text[i]] !in CharacterMap
    ensures var shown := Flatten(AutoCorrectText(text)); i < |shown| && shown[i] == text[i]
  {
    FlattenAnnotation(text);
  }

  /** The two-unit key can never match: wherever it occurs in the input, its
      two units come out as two plain segments holding those units. */
  lemma TwoUnitKeyNeverMatches(text: string, i: nat)
    requires i + 1 < |text| && text[i..i + 2] == TwoUnitKey
    ensures AutoCorrectText(text)[i] == Segment([TwoUnitKey[0]], false)
    ensures AutoCorrectText(text)[i + 1] == Segment([TwoUnitKey[1]], false)
  {
    assert text[i] == text[i..i + 2][0] && text[i + 1] == text[i..i + 2][1];
    assert text[i] == TwoUnitKey[0] && text[i + 1] == TwoUnitKey[1];
    TwoUnitKeyUnitsAreNotKeys();
  }

  /** The value of the two-unit key never appears as a segment's text. */
  lemma TwoUnitValueNeverShown(text: string, i: nat)
    requires i < |text|
    ensures AutoCorrectText(text)[i].text != CharacterMap[TwoUnitKey]
  {
    SegmentIsOneUnit(text, i);
  }

  /** No unit of what the reader sees is a key. */
  lemma ShownUnitIsNotKey(text: string, i: nat)
    requires i < |text|
    ensures [Substitute(text)[i]] !in CharacterMap
  {
    if [text[i]] in CharacterMap {
      ReachableValuesAreOneUnit([text[i]]);
      ReachableValuesAreNotKeys([text[i]]);
      assert [Substitute(text)[i]] == CharacterMap[[text[i]]];
    }
  }

  /** Annotating what the reader sees once more highlights nothing and
      shows the same text again. */
  lemma ReannotateIsPlain(text: string)
    ensures var shown := Flatten(AutoCorrectText(text));
      && (forall i :: 0 <= i < |shown| ==> !AutoCorrectText(shown)[i].highlighted)
      && Flatten(AutoCorrectText(shown)) == shown
  {
    var shown := Flatten(AutoCorrectText(text));
    FlattenAnnotation(text);
    forall i | 0 <= i < |shown|
      ensures [shown[i]] !in CharacterMap
    {
      ShownUnitIsNotKey(text, i);
    }
    FlattenAnnotation(shown);
    assert Substitute(shown) == shown;
  }
}
