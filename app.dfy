/**
 * The word-list page's own logic: the fixed language and level lists, the
 * target choices left once a source is picked, the source selector that never
 * lets source and target coincide, and the local mastery update of a card.
 */
module App {
  import opened Wrappers
  import opened Seqs
  import opened Upserts
  import opened WordsRoute

  datatype LanguageOption = LanguageOption(code: string, name: string)

  const Levels: seq<string> := ["beginner", "intermediate", "advanced"]

  const Languages: seq<LanguageOption> := [
    LanguageOption("tr", "Turkish"), LanguageOption("en", "English"), LanguageOption("pt", "Portuguese")]

  function CodeIsNot(code: string): LanguageOption -> bool {
    (l: LanguageOption) => l.code != code
  }

  /** `languages.filter(l => l.code !== sourceLang)`: the options of the target selector. */
  function AvailableTargetLangs(sourceLang: string): (r: seq<LanguageOption>)
    ensures forall l :: l in r <==> l in Languages && l.code != sourceLang
  {
    Filter(Languages, CodeIsNot(sourceLang))
  }

  /** The options keep the list's order: each known source drops just its own entry. */
  lemma AvailableTargetLangsOrder(sourceLang: string)
    ensures sourceLang == "tr" ==> AvailableTargetLangs(sourceLang) == [Languages[1], Languages[2]]
    ensures sourceLang == "en" ==> AvailableTargetLangs(sourceLang) == [Languages[0], Languages[2]]
    ensures sourceLang == "pt" ==> AvailableTargetLangs(sourceLang) == [Languages[0], Languages[1]]
    ensures sourceLang !in ["tr", "en", "pt"] ==> AvailableTargetLangs(sourceLang) == Languages
  {
    assert Languages == [Languages[0], Languages[1], Languages[2]];
    FilterThree(Languages[0], Languages[1], Languages[2], CodeIsNot(sourceLang));
  }

  /** The two selectors. */
  datatype Selection = Selection(sourceLang: string, targetLang: string)

  /** `useState('tr')` and `useState('pt')`. */
  function InitialSelection(): (s: Selection)
    ensures s.sourceLang != s.targetLang
    ensures s.sourceLang in ["tr", "en", "pt"] && s.targetLang in ["tr", "en", "pt"]
  {
    Selection("tr", "pt")
  }

  /**
   * The source selector's `onChange`: the new source is taken, and when it equals
   * the target, the target moves to the first language whose code differs from
   * the new source.
   */
  function ChangeSource(s: Selection, code: string): (r: Selection)
    ensures r.sourceLang == code
    ensures code != s.targetLang ==> r.targetLang == s.targetLang
    ensures code == s.targetLang ==> r.targetLang != code
  {
    if code == s.targetLang then
      var next := Find(Languages, CodeIsNot(code));
      assert Languages[0].code == "tr" && Languages[1].code == "en";
      assert CodeIsNot(code)(Languages[0]) || CodeIsNot(code)(Languages[1]);
      assert next.Some?;
      Selection(code, next.value.code)
    else
      Selection(code, s.targetLang)
  }

  /**
   * After any change of source the two selectors differ, whatever they held
   * before; a clash moves the target to Turkish, or to English when Turkish is
   * the new source.
   */
  lemma ChangeSourceSeparates(s: Selection, code: string)
    ensures ChangeSource(s, code).sourceLang != ChangeSource(s, code).targetLang
    ensures code == s.targetLang ==> ChangeSource(s, code).targetLang == (if code == "tr" then "en" else "tr")
  {
    if code == s.targetLang {
      var p := CodeIsNot(code);
      assert Languages[1..][1..] == [Languages[2]];
      if code == "tr" {
        assert !p(Languages[0]) && p(Languages[1]);
        assert Find(Languages, p) == Find(Languages[1..], p);
      } else {
        assert p(Languages[0]);
      }
    }
  }

  /** The target selector's `onChange`, with a value taken from its options. */
  function ChangeTarget(s: Selection, code: string): (r: Selection)
    requires exists l :: l in AvailableTargetLangs(s.sourceLang) && l.code == code
    ensures r.sourceLang == s.sourceLang && r.targetLang == code
    ensures r.sourceLang != r.targetLang
  {
    Selection(s.sourceLang, code)
  }

  /** A card on the page: the word as the API sent it, with the mastery level set on it locally. */
  datatype Card = Card(word: WordEntry, masteryLevel: Option<int>)

  function CardId(c: Card): int { c.word.id }

  function WithMastery(masteryLevel: int): Card -> Card {
    (c: Card) => c.(masteryLevel := Some(masteryLevel))
  }

  /** `handleMasteryChange`: every card of that word takes the level; nothing else changes. */
  function HandleMasteryChange(cards: seq<Card>, wordId: int, masteryLevel: int): (r: seq<Card>)
    ensures |r| == |cards|
    ensures forall i :: 0 <= i < |cards| ==> r[i].word == cards[i].word
    ensures forall i :: 0 <= i < |cards| ==>
      r[i].masteryLevel == if cards[i].word.id == wordId then Some(masteryLevel) else cards[i].masteryLevel
  {
    Updated(cards, CardId, wordId, WithMastery(masteryLevel))
  }

  /** A second level for the same word overrides the first. */
  lemma MasteryChangeLastWins(cards: seq<Card>, wordId: int, m1: int, m2: int)
    ensures HandleMasteryChange(HandleMasteryChange(cards, wordId, m1), wordId, m2)
      == HandleMasteryChange(cards, wordId, m2)
  {
    var once := HandleMasteryChange(cards, wordId, m1);
    var twice := HandleMasteryChange(once, wordId, m2);
    var direct := HandleMasteryChange(cards, wordId, m2);
    forall i | 0 <= i < |cards| ensures twice[i] == direct[i] {
      assert once[i].word == cards[i].word;
    }
  }

  /** Changes to two different words can be made in either order. */
  lemma MasteryChangesCommute(cards: seq<Card>, w1: int, m1: int, w2: int, m2: int)
    requires w1 != w2
    ensures HandleMasteryChange(HandleMasteryChange(cards, w1, m1), w2, m2)
      == HandleMasteryChange(HandleMasteryChange(cards, w2, m2), w1, m1)
  {
    var a1 := HandleMasteryChange(cards, w1, m1);
    var a := HandleMasteryChange(a1, w2, m2);
    var b1 := HandleMasteryChange(cards, w2, m2);
    var b := HandleMasteryChange(b1, w1, m1);
    forall i | 0 <= i < |cards| ensures a[i] == b[i] {
      assert a1[i].word == cards[i].word && b1[i].word == cards[i].word;
    }
  }

  /** A word that is not on the page leaves the cards as they are. */
  lemma MasteryChangeAbsent(cards: seq<Card>, wordId: int, masteryLevel: int)
    requires forall i :: 0 <= i < |cards| ==> cards[i].word.id != wordId
    ensures HandleMasteryChange(cards, wordId, masteryLevel) == cards
  {
    var r := HandleMasteryChange(cards, wordId, masteryLevel);
    forall i | 0 <= i < |cards| ensures r[i] == cards[i] {
    }
  }
}
