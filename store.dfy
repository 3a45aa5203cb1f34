/**
 * The PostgreSQL schema that the daily word-set pipeline, the email service and
 * the dictionary migration share: one datatype per row kind, primary-key lookups,
 * and a `Database` object whose fields are the tables. `SERIAL` primary keys are
 * modelled by one counter per table (the value `RETURNING id` hands back).
 */
module Store {
  import opened Wrappers
  import opened Seqs

  /** `email_queue.status`. */
  datatype Status = Pending | Sent | Failed

  datatype User = User(id: int, email: string, firstName: Option<string>, isActive: bool)

  /**
   * `user_preferences`: the subscriber's language pair, level and daily quota.
   * `words_per_day` is a nullable `INTEGER` without a CHECK, so it may be NULL
   * or negative.
   */
  datatype Preference = Preference(
    userId: int, sourceLanguageId: int, targetLanguageId: int,
    difficultyLevelId: int, wordsPerDay: Option<int>, emailSubscribed: bool)

  datatype Language = Language(id: int, code: string, name: string, nativeName: string)
  datatype LanguagePair = LanguagePair(sourceLanguageId: int, targetLanguageId: int)
  datatype Level = Level(id: int, name: string)
  datatype Category = Category(id: int, name: string)

  /** `words`; a NULL `difficulty_level_id` is `None`. */
  datatype Word = Word(id: int, languageId: int, text: string, difficultyLevelId: Option<int>, frequencyRank: int)

  /** `translations`: a directed pair of words. */
  datatype Translation = Translation(id: int, sourceWordId: int, targetWordId: int, verified: bool)

  /** `example_sentences`. */
  datatype Example = Example(wordId: int, sentence: string)

  /** `user_word_progress`. */
  datatype Progress = Progress(userId: int, wordId: int, mastery: int)

  /** `daily_word_sets`. */
  datatype WordSet = WordSet(
    id: int, userId: int, date: int,
    sourceLanguageId: int, targetLanguageId: int, difficultyLevelId: int)

  /** `word_set_items`. */
  datatype SetItem = SetItem(setId: int, translationId: int, sortOrder: nat)

  /** `email_queue`; timestamps are instants, NULL columns are `None`. */
  datatype QueueEntry = QueueEntry(
    id: int, userId: int, wordSetId: int, status: Status, retryCount: nat,
    errorMessage: Option<string>, sentAt: Option<int>, createdAt: int)

  /** A read-only view of every table except the email queue. */
  datatype Catalog = Catalog(
    users: seq<User>, prefs: seq<Preference>, languages: seq<Language>, levels: seq<Level>,
    words: seq<Word>, translations: seq<Translation>, examples: seq<Example>,
    progress: seq<Progress>, sets: seq<WordSet>, items: seq<SetItem>)

  function LookupWord(words: seq<Word>, id: int): (r: Option<Word>)
    ensures r.Some? ==> r.value in words && r.value.id == id
    ensures r.None? <==> forall w :: w in words ==> w.id != id
  {
    Find(words, (w: Word) => w.id == id)
  }

  function LookupLevel(levels: seq<Level>, id: int): (r: Option<Level>)
    ensures r.Some? ==> r.value in levels && r.value.id == id
    ensures r.None? <==> forall l :: l in levels ==> l.id != id
  {
    Find(levels, (l: Level) => l.id == id)
  }

  function LookupLanguage(languages: seq<Language>, id: int): (r: Option<Language>)
    ensures r.Some? ==> r.value in languages && r.value.id == id
    ensures r.None? <==> forall l :: l in languages ==> l.id != id
  {
    Find(languages, (l: Language) => l.id == id)
  }

  function LookupTranslation(translations: seq<Translation>, id: int): (r: Option<Translation>)
    ensures r.Some? ==> r.value in translations && r.value.id == id
    ensures r.None? <==> forall t :: t in translations ==> t.id != id
  {
    Find(translations, (t: Translation) => t.id == id)
  }

  /** The sentences of a word's examples, in table order. */
  function SentencesOf(examples: seq<Example>, wordId: int): (r: seq<string>)
    ensures forall s :: s in r <==> Example(wordId, s) in examples
    ensures |r| == Count(examples, (e: Example) => e.wordId == wordId)
  {
    if examples == [] then []
    else
      var rest := SentencesOf(examples[1..], wordId);
      assert examples == [examples[0]] + examples[1..];
      if examples[0].wordId == wordId then [examples[0].sentence] + rest else rest
  }

  /**
   * What `LEFT JOIN example_sentences es ON w.id = es.word_id` contributes per
   * word row: one row per example, or a single row with NULL columns.
   */
  function ExampleChoices(examples: seq<Example>, wordId: int): (r: seq<Option<string>>)
    ensures |r| >= 1
    ensures (forall s :: Example(wordId, s) !in examples) <==> r == [None]
    ensures forall s :: Some(s) in r <==> Example(wordId, s) in examples
    ensures (exists s :: Example(wordId, s) in examples) ==>
      && None !in r
      && |r| == Count(examples, (e: Example) => e.wordId == wordId)
      && forall i :: 0 <= i < |r| ==> r[i] == Some(SentencesOf(examples, wordId)[i])
  {
    var ss := SentencesOf(examples, wordId);
    if ss == [] then [None]
    else
      var r := seq(|ss|, i requires 0 <= i < |ss| => Some(ss[i]));
      assert forall s :: Some(s) in r ==> s in ss;
      assert forall s :: s in ss ==> Some(s) in r by {
        forall s | s in ss ensures Some(s) in r {
          var i :| 0 <= i < |ss| && ss[i] == s;
          assert r[i] == Some(s);
        }
      }
      assert r[0] == Some(ss[0]);
      r
  }

  /** At most one word set per (user, date): the invariant generation keeps. */
  ghost predicate OneSetPerDay(sets: seq<WordSet>) {
    forall i, j ::
      0 <= i < |sets| && 0 <= j < |sets| && sets[i].userId == sets[j].userId && sets[i].date == sets[j].date
      ==> i == j
  }

  predicate HasSetFor(sets: seq<WordSet>, userId: int, date: int) {
    exists s :: s in sets && s.userId == userId && s.date == date
  }

  /** The tables, each a field that the operations reassign. */
  class Database {
    var users: seq<User>
    var prefs: seq<Preference>
    var languages: seq<Language>
    var languagePairs: seq<LanguagePair>
    var levels: seq<Level>
    var categories: seq<Category>
    var words: seq<Word>
    var translations: seq<Translation>
    var examples: seq<Example>
    var progress: seq<Progress>
    var sets: seq<WordSet>
    var items: seq<SetItem>
    var queue: seq<QueueEntry>
    var nextLanguageId: int
    var nextCategoryId: int
    var nextWordId: int
    var nextTranslationId: int
    var nextSetId: int
    var nextQueueId: int

    constructor ()
      ensures users == [] && prefs == [] && languages == [] && languagePairs == []
      ensures levels == [] && categories == [] && words == [] && translations == []
      ensures examples == [] && progress == [] && sets == [] && items == [] && queue == []
      ensures nextLanguageId == 1 && nextCategoryId == 1 && nextWordId == 1
      ensures nextTranslationId == 1 && nextSetId == 1 && nextQueueId == 1
    {
      users, prefs, languages, languagePairs := [], [], [], [];
      levels, categories, words, translations := [], [], [], [];
      examples, progress, sets, items, queue := [], [], [], [], [];
      nextLanguageId, nextCategoryId, nextWordId := 1, 1, 1;
      nextTranslationId, nextSetId, nextQueueId := 1, 1, 1;
    }

    /** Every table the queries read, without the email queue. */
    function Snapshot(): Catalog
      reads this`users, this`prefs, this`languages, this`levels, this`words
      reads this`translations, this`examples, this`progress, this`sets, this`items
    {
      Catalog(users, prefs, languages, levels, words, translations, examples, progress, sets, items)
    }
  }
}
