/**
 * `migrateDictionary`: loads the frontend dictionary into the normalized
 * PostgreSQL tables. The languages tr and pt, their pair and ten categories are
 * upserted first; then each entry upserts its Turkish and Portuguese words, the
 * verified translation between them and up to two example sentences. Every
 * `INSERT` draws a value from its table's `SERIAL` sequence, also when it ends in
 * a conflict.
 */
module MigrateDictionary {
  import opened Wrappers
  import opened Seqs
  import opened Store
  import opened Upserts

  /** One element of `dictionary.json`. */
  datatype DictEntry = DictEntry(
    turkish: string, portuguese: string, level: string, exampleTr: Option<string>, examplePt: Option<string>)

  /** The statement of the entry loop that throws. */
  datatype EntryStep = SourceWordStep | TargetWordStep | TranslationStep | ExampleTrStep | ExamplePtStep

  const CategoryNames := [
    "Food & Drinks", "Family & Relationships", "Travel & Transportation",
    "Work & Business", "Health & Body", "Nature & Environment",
    "Technology", "Emotions & Feelings", "Daily Activities", "Home & Furniture"]

  /** `ON CONFLICT` columns. */
  function LangCode(l: Language): string { l.code }
  function CatName(c: Category): string { c.name }
  function WordKey(w: Word): (int, string) { (w.languageId, w.text) }
  function TransKey(t: Translation): (int, int) { (t.sourceWordId, t.targetWordId) }
  function Same<T>(x: T): T { x }

  /** `DO UPDATE SET ...` clauses. */
  function Rename(name: string): Language -> Language { (l: Language) => l.(name := name) }
  function Reclassify(level: Option<int>): Word -> Word {
    (w: Word) => w.(difficultyLevelId := level, frequencyRank := 1000)
  }
  function MarkVerified(t: Translation): Translation { t.(verified := true) }
  // ---------------------------------------------------------------------------
  // The statements as functions of the tables they write
  // ---------------------------------------------------------------------------

  /** The tables the migration writes, with their `SERIAL` counters. */
  datatype Tables = Tables(
    languages: seq<Language>, nextLanguageId: int, languagePairs: seq<LanguagePair>,
    categories: seq<Category>, nextCategoryId: int, words: seq<Word>, nextWordId: int,
    translations: seq<Translation>, nextTranslationId: int, examples: seq<Example>)

  function TablesOf(db: Database): Tables
    reads db`languages, db`nextLanguageId, db`languagePairs, db`categories, db`nextCategoryId
    reads db`words, db`nextWordId, db`translations, db`nextTranslationId, db`examples
  {
    Tables(db.languages, db.nextLanguageId, db.languagePairs, db.categories, db.nextCategoryId,
           db.words, db.nextWordId, db.translations, db.nextTranslationId, db.examples)
  }

  /** The id `RETURNING id` gives for a language upsert: the conflicting row's, else the sequence's next value. */
  function LanguageIdAfter(t: Tables, code: string): int {
    match RowWith(t.languages, LangCode, code)
    case Some(l) => l.id
    case None => t.nextLanguageId
  }

  function LanguageUpserted(t: Tables, code: string, name: string, nativeName: string): Tables {
    t.(languages := Upsert(t.languages, LangCode, code, Rename(name), Language(t.nextLanguageId, code, name, nativeName)),
       nextLanguageId := t.nextLanguageId + 1)
  }

  function PairInserted(t: Tables, sourceId: int, targetId: int): Tables {
    t.(languagePairs := InsertNew(t.languagePairs, LanguagePair(sourceId, targetId)))
  }

  function CategoryIdAfter(t: Tables, name: string): int {
    match RowWith(t.categories, CatName, name)
    case Some(c) => c.id
    case None => t.nextCategoryId
  }

  function CategoryUpserted(t: Tables, name: string): Tables {
    t.(categories := Upsert(t.categories, CatName, name, Same, Category(t.nextCategoryId, name)),
       nextCategoryId := t.nextCategoryId + 1)
  }

  function WordIdAfter(t: Tables, languageId: int, text: string): int {
    match RowWith(t.words, WordKey, (languageId, text))
    case Some(w) => w.id
    case None => t.nextWordId
  }

  function WordUpserted(t: Tables, languageId: int, text: string, level: Option<int>): Tables {
    t.(words := Upsert(t.words, WordKey, (languageId, text), Reclassify(level), Word(t.nextWordId, languageId, text, level, 1000)),
       nextWordId := t.nextWordId + 1)
  }

  function TranslationUpserted(t: Tables, sourceId: int, targetId: int): Tables {
    t.(translations := Upsert(t.translations, TransKey, (sourceId, targetId), MarkVerified,
                              Translation(t.nextTranslationId, sourceId, targetId, true)),
       nextTranslationId := t.nextTranslationId + 1)
  }

  function ExampleInserted(t: Tables, wordId: int, sentence: string): Tables {
    t.(examples := InsertNew(t.examples, Example(wordId, sentence)))
  }


  /** The UNIQUE constraints of the tables the migration writes. */
  ghost predicate Keyed(t: Tables) {
    && UniqueBy(t.languages, LangCode) && NoDuplicates(t.languagePairs)
    && UniqueBy(t.categories, CatName) && UniqueBy(t.words, WordKey)
    && UniqueBy(t.translations, TransKey) && NoDuplicates(t.examples)
  }

  // ---------------------------------------------------------------------------
  // What each statement does to its table
  // ---------------------------------------------------------------------------

  /** The language upsert keeps `code` unique, renames or inserts its row, returns its id, and leaves other codes. */
  lemma LanguageUpsertRow(t: Tables, code: string, name: string, nativeName: string)
    requires UniqueBy(t.languages, LangCode)
    ensures var r := LanguageUpserted(t, code, name, nativeName);
      && UniqueBy(r.languages, LangCode)
      && RowWith(r.languages, LangCode, code) == Some(
           match RowWith(t.languages, LangCode, code)
           case Some(l) => l.(name := name)
           case None => Language(t.nextLanguageId, code, name, nativeName))
      && LanguageIdAfter(t, code) == RowWith(r.languages, LangCode, code).value.id
      && (forall c :: c != code ==> RowWith(r.languages, LangCode, c) == RowWith(t.languages, LangCode, c))
  {
    UpsertRow(t.languages, LangCode, code, Rename(name), Language(t.nextLanguageId, code, name, nativeName));
  }

  /** The category upsert keeps names unique; an existing row is untouched, a new one gets the next id. */
  lemma CategoryUpsertRow(t: Tables, name: string)
    requires UniqueBy(t.categories, CatName)
    ensures var r := CategoryUpserted(t, name);
      && UniqueBy(r.categories, CatName)
      && RowWith(r.categories, CatName, name) == Some(
           match RowWith(t.categories, CatName, name)
           case Some(c) => c
           case None => Category(t.nextCategoryId, name))
      && CategoryIdAfter(t, name) == RowWith(r.categories, CatName, name).value.id
      && (forall n :: n != name ==> RowWith(r.categories, CatName, n) == RowWith(t.categories, CatName, n))
  {
    UpsertRow(t.categories, CatName, name, Same, Category(t.nextCategoryId, name));
  }

  /**
   * The word upsert keeps (language, word) unique; an existing word keeps its id
   * and takes the new level and rank 1000, a new word gets the next id; every
   * other word keeps its row.
   */
  lemma WordUpsertRow(t: Tables, languageId: int, text: string, level: Option<int>)
    requires UniqueBy(t.words, WordKey)
    ensures var r := WordUpserted(t, languageId, text, level);
      && UniqueBy(r.words, WordKey)
      && RowWith(r.words, WordKey, (languageId, text)) == Some(
           match RowWith(t.words, WordKey, (languageId, text))
           case Some(w) => w.(difficultyLevelId := level, frequencyRank := 1000)
           case None => Word(t.nextWordId, languageId, text, level, 1000))
      && WordIdAfter(t, languageId, text) == RowWith(r.words, WordKey, (languageId, text)).value.id
      && (forall k :: k != (languageId, text) ==> RowWith(r.words, WordKey, k) == RowWith(t.words, WordKey, k))
      && WordsKept(t.words, r.words)
  {
    var inserted := Word(t.nextWordId, languageId, text, level, 1000);
    UpsertRow(t.words, WordKey, (languageId, text), Reclassify(level), inserted);
    UpsertKeeps(t.words, WordKey, (languageId, text), Reclassify(level), inserted);
  }

  /** The translation upsert keeps the pair unique and marks its row verified; other pairs keep their rows. */
  lemma TranslationUpsertRow(t: Tables, sourceId: int, targetId: int)
    requires UniqueBy(t.translations, TransKey)
    ensures var r := TranslationUpserted(t, sourceId, targetId);
      && UniqueBy(r.translations, TransKey)
      && RowWith(r.translations, TransKey, (sourceId, targetId)) == Some(
           match RowWith(t.translations, TransKey, (sourceId, targetId))
           case Some(x) => x.(verified := true)
           case None => Translation(t.nextTranslationId, sourceId, targetId, true))
      && (forall k :: k != (sourceId, targetId) ==> RowWith(r.translations, TransKey, k) == RowWith(t.translations, TransKey, k))
      && TranslationsKept(t.translations, r.translations)
  {
    var inserted := Translation(t.nextTranslationId, sourceId, targetId, true);
    UpsertRow(t.translations, TransKey, (sourceId, targetId), MarkVerified, inserted);
    UpsertKeeps(t.translations, TransKey, (sourceId, targetId), MarkVerified, inserted);
  }

  /** Re-running a language upsert never adds a second row for the code. */
  lemma LanguageUpsertRerun(t: Tables, code: string, name: string, nativeName: string)
    ensures var once := LanguageUpserted(t, code, name, nativeName);
      LanguageUpserted(once, code, name, nativeName).languages == once.languages
  {
    var once := LanguageUpserted(t, code, name, nativeName);
    UpsertTwice(t.languages, LangCode, code, Rename(name), Language(t.nextLanguageId, code, name, nativeName),
                Language(once.nextLanguageId, code, name, nativeName));
  }

  // ---------------------------------------------------------------------------
  // Single statements
  // ---------------------------------------------------------------------------

  /** `INSERT INTO languages ... ON CONFLICT (code) DO UPDATE SET name = EXCLUDED.name RETURNING id`. */
  method UpsertLanguage(db: Database, code: string, name: string, nativeName: string) returns (id: int)
    modifies db`languages, db`nextLanguageId
    ensures TablesOf(db) == LanguageUpserted(old(TablesOf(db)), code, name, nativeName)
    ensures id == LanguageIdAfter(old(TablesOf(db)), code)
  {
    id := LanguageIdAfter(TablesOf(db), code);
    db.languages := Upsert(db.languages, LangCode, code, Rename(name), Language(db.nextLanguageId, code, name, nativeName));
    db.nextLanguageId := db.nextLanguageId + 1;
  }

  /** `INSERT INTO language_pairs ... ON CONFLICT DO NOTHING`. */
  method InsertLanguagePair(db: Database, sourceId: int, targetId: int)
    modifies db`languagePairs
    ensures TablesOf(db) == PairInserted(old(TablesOf(db)), sourceId, targetId)
  {
    db.languagePairs := InsertNew(db.languagePairs, LanguagePair(sourceId, targetId));
  }

  /** `INSERT INTO categories (name) ... ON CONFLICT (name) DO UPDATE SET name = EXCLUDED.name RETURNING id`. */
  method UpsertCategory(db: Database, name: string) returns (id: int)
    modifies db`categories, db`nextCategoryId
    ensures TablesOf(db) == CategoryUpserted(old(TablesOf(db)), name)
    ensures id == CategoryIdAfter(old(TablesOf(db)), name)
  {
    id := CategoryIdAfter(TablesOf(db), name);
    db.categories := Upsert(db.categories, CatName, name, Same, Category(db.nextCategoryId, name));
    db.nextCategoryId := db.nextCategoryId + 1;
  }

  /**
   * `INSERT INTO words ... ON CONFLICT (language_id, word) DO UPDATE SET
   * difficulty_level_id = ..., frequency_rank = ... RETURNING id`.
   */
  method UpsertWord(db: Database, languageId: int, text: string, level: Option<int>) returns (id: int)
    modifies db`words, db`nextWordId
    ensures TablesOf(db) == WordUpserted(old(TablesOf(db)), languageId, text, level)
    ensures id == WordIdAfter(old(TablesOf(db)), languageId, text)
  {
    id := WordIdAfter(TablesOf(db), languageId, text);
    db.words := Upsert(db.words, WordKey, (languageId, text), Reclassify(level), Word(db.nextWordId, languageId, text, level, 1000));
    db.nextWordId := db.nextWordId + 1;
  }

  /** `INSERT INTO translations ... ON CONFLICT (source_word_id, target_word_id) DO UPDATE SET is_verified = ...`. */
  method UpsertTranslation(db: Database, sourceId: int, targetId: int)
    modifies db`translations, db`nextTranslationId
    ensures TablesOf(db) == TranslationUpserted(old(TablesOf(db)), sourceId, targetId)
  {
    db.translations := Upsert(db.translations, TransKey, (sourceId, targetId), MarkVerified,
                              Translation(db.nextTranslationId, sourceId, targetId, true));
    db.nextTranslationId := db.nextTranslationId + 1;
  }

  /** `INSERT INTO example_sentences ... ON CONFLICT (word_id, sentence) DO NOTHING`. */
  method InsertExample(db: Database, wordId: int, sentence: string)
    modifies db`examples
    ensures TablesOf(db) == ExampleInserted(old(TablesOf(db)), wordId, sentence)
  {
    db.examples := InsertNew(db.examples, Example(wordId, sentence));
  }

  // ---------------------------------------------------------------------------
  // Preparation: languages, difficulty levels, categories
  // ---------------------------------------------------------------------------

  /** The two language upserts and the pair insert: the tables and the two ids. */
  function LanguagesRun(t: Tables): (Tables, int, int) {
    var t1 := LanguageUpserted(t, "tr", "Turkish", "Türkçe");
    var t2 := LanguageUpserted(t1, "pt", "Portuguese", "Português");
    (PairInserted(t2, LanguageIdAfter(t, "tr"), LanguageIdAfter(t1, "pt")), LanguageIdAfter(t, "tr"), LanguageIdAfter(t1, "pt"))
  }

  /**
   * Afterwards tr and pt exist under their English names (an existing row keeps
   * its id and native name) and every other language is unchanged.
   */
  lemma LanguagesRow(t: Tables)
    requires UniqueBy(t.languages, LangCode)
    ensures var r := LanguagesRun(t);
      && UniqueBy(r.0.languages, LangCode)
      && RowWith(r.0.languages, LangCode, "tr") == Some(
           match RowWith(t.languages, LangCode, "tr")
           case Some(l) => l.(name := "Turkish")
           case None => Language(t.nextLanguageId, "tr", "Turkish", "Türkçe"))
      && RowWith(r.0.languages, LangCode, "pt") == Some(
           match RowWith(t.languages, LangCode, "pt")
           case Some(l) => l.(name := "Portuguese")
           case None => Language(t.nextLanguageId + 1, "pt", "Portuguese", "Português"))
      && (forall c :: c != "tr" && c != "pt" ==> RowWith(r.0.languages, LangCode, c) == RowWith(t.languages, LangCode, c))
  {
    var t1 := LanguageUpserted(t, "tr", "Turkish", "Türkçe");
    LanguageUpsertRow(t, "tr", "Turkish", "Türkçe");
    var t2 := LanguageUpserted(t1, "pt", "Portuguese", "Português");
    LanguageUpsertRow(t1, "pt", "Portuguese", "Português");
    assert "pt" != "tr";
    assert RowWith(t2.languages, LangCode, "tr") == RowWith(t1.languages, LangCode, "tr");
    assert RowWith(t1.languages, LangCode, "pt") == RowWith(t.languages, LangCode, "pt");
    assert LanguagesRun(t).0.languages == t2.languages;
  }

  /** The ids returned are the tr and pt rows' ids, and their pair exists afterwards. */
  lemma LanguagePairRow(t: Tables)
    requires UniqueBy(t.languages, LangCode) && NoDuplicates(t.languagePairs)
    ensures var r := LanguagesRun(t);
      && NoDuplicates(r.0.languagePairs)
      && RowWith(r.0.languages, LangCode, "tr").Some?
      && r.1 == RowWith(r.0.languages, LangCode, "tr").value.id
      && RowWith(r.0.languages, LangCode, "pt").Some?
      && r.2 == RowWith(r.0.languages, LangCode, "pt").value.id
      && r.0.languagePairs == InsertNew(t.languagePairs, LanguagePair(r.1, r.2))
      && LanguagePair(r.1, r.2) in r.0.languagePairs
  {
    var t1 := LanguageUpserted(t, "tr", "Turkish", "Türkçe");
    LanguageUpsertRow(t, "tr", "Turkish", "Türkçe");
    LanguageUpsertRow(t1, "pt", "Portuguese", "Português");
    assert "pt" != "tr";
  }

  method SetUpLanguages(db: Database) returns (trLang: int, ptLang: int)
    modifies db`languages, db`nextLanguageId, db`languagePairs
    ensures (TablesOf(db), trLang, ptLang) == LanguagesRun(old(TablesOf(db)))
  {
    trLang := UpsertLanguage(db, "tr", "Turkish", "Türkçe");
    ptLang := UpsertLanguage(db, "pt", "Portuguese", "Português");
    InsertLanguagePair(db, trLang, ptLang);
  }

  /** `difficultyMap` after `forEach(d => difficultyMap[d.name] = d.id)`. */
  function NameIds(levels: seq<Level>): map<string, int>
    decreases |levels|
  {
    if levels == [] then map[]
    else
      var last := levels[|levels| - 1];
      NameIds(levels[..|levels| - 1])[last.name := last.id]
  }

  /** A name is mapped iff some level has it, and to the id of the last such level. */
  lemma {:induction false} NameIdsOf(levels: seq<Level>, name: string)
    ensures name in NameIds(levels) <==> exists l :: l in levels && l.name == name
    ensures name in NameIds(levels) ==> Level(NameIds(levels)[name], name) in levels
    decreases |levels|
  {
    if levels != [] {
      var init := levels[..|levels| - 1];
      assert levels == init + [levels[|levels| - 1]];
      NameIdsOf(init, name);
    }
  }

  method DifficultyMap(db: Database) returns (m: map<string, int>)
    ensures m == NameIds(db.levels)
  {
    var levels := db.levels;
    m := map[];
    var i := 0;
    while i < |levels|
      invariant 0 <= i <= |levels|
      invariant m == NameIds(levels[..i])
    {
      assert levels[..i + 1][..i] == levels[..i];
      m := m[levels[i].name := levels[i].id];
      i := i + 1;
    }
    assert levels[..i] == levels;
  }

  /** The category loop over `names`: the tables and `categoryMap`. */
  function CategoriesRun(t: Tables, names: seq<string>): (Tables, map<string, int>)
    decreases |names|
  {
    if names == [] then (t, map[])
    else
      var r := CategoriesRun(t, names[..|names| - 1]);
      var name := names[|names| - 1];
      (CategoryUpserted(r.0, name), r.1[name := CategoryIdAfter(r.0, name)])
  }

  /**
   * After the category loop `categoryMap` holds exactly the names, each with its
   * row's id; categories that existed are untouched, so a name that existed keeps
   * its id; names outside the list are unchanged; only the categories table and
   * its sequence change.
   */
  lemma {:induction false} CategoriesRow(t: Tables, names: seq<string>)
    requires UniqueBy(t.categories, CatName)
    ensures var r := CategoriesRun(t, names);
      && UniqueBy(r.0.categories, CatName)
      && r.0 == t.(categories := r.0.categories, nextCategoryId := r.0.nextCategoryId)
      && (forall n :: n in r.1 <==> n in names)
      && (forall n :: n in names ==>
            RowWith(r.0.categories, CatName, n).Some? && r.1[n] == RowWith(r.0.categories, CatName, n).value.id)
      && (forall n :: RowWith(t.categories, CatName, n).Some? ==> RowWith(r.0.categories, CatName, n) == RowWith(t.categories, CatName, n))
      && (forall n :: n !in names ==> RowWith(r.0.categories, CatName, n) == RowWith(t.categories, CatName, n))
    decreases |names|
  {
    if names != [] {
      var init := names[..|names| - 1];
      var name := names[|names| - 1];
      assert names == init + [name];
      CategoriesRow(t, init);
      var r0 := CategoriesRun(t, init);
      CategoryUpsertRow(r0.0, name);
      var r := CategoriesRun(t, names);
      assert r == (CategoryUpserted(r0.0, name), r0.1[name := CategoryIdAfter(r0.0, name)]);
      forall n ensures n in r.1 <==> n in names {
        assert n in names <==> n in init || n == name;
      }
      forall n | n in names
        ensures RowWith(r.0.categories, CatName, n).Some? && r.1[n] == RowWith(r.0.categories, CatName, n).value.id
      {
        if n != name {
          assert n in init;
        }
      }
      forall n | n !in names
        ensures RowWith(r.0.categories, CatName, n) == RowWith(t.categories, CatName, n)
      {
        assert n !in init && n != name;
      }
    }
  }

  /** The category loop: `categoryMap[categoryName] = category.rows[0].id` for each name in turn. */
  method UpsertCategories(db: Database, names: seq<string>) returns (categoryMap: map<string, int>)
    modifies db`categories, db`nextCategoryId
    ensures (TablesOf(db), categoryMap) == CategoriesRun(old(TablesOf(db)), names)
  {
    categoryMap := map[];
    var i := 0;
    while i < |names|
      invariant 0 <= i <= |names|
      invariant (TablesOf(db), categoryMap) == CategoriesRun(old(TablesOf(db)), names[..i])
    {
      assert names[..i + 1][..i] == names[..i];
      var id := UpsertCategory(db, names[i]);
      categoryMap := categoryMap[names[i] := id];
      i := i + 1;
    }
    assert names[..i] == names;
  }

  method CreateCategories(db: Database) returns (categoryMap: map<string, int>)
    modifies db`categories, db`nextCategoryId
    ensures (TablesOf(db), categoryMap) == CategoriesRun(old(TablesOf(db)), CategoryNames)
  {
    categoryMap := UpsertCategories(db, CategoryNames);
  }

  // ---------------------------------------------------------------------------
  // The entry loop
  // ---------------------------------------------------------------------------

  /** `if (entry.example_xx)`. */
  predicate Present(example: Option<string>) { example.Some? && example.value != "" }

  /** `difficultyMap[entry.level]`, `undefined` bound as `NULL`. */
  function LevelId(difficultyMap: map<string, int>, level: string): Option<int> {
    if level in difficultyMap then Some(difficultyMap[level]) else None
  }

  /** Whether the fault stops the entry: a fault on an example that is absent never fires. */
  predicate Fails(e: DictEntry, fault: Option<EntryStep>) {
    fault.Some?
    && (fault.value == ExampleTrStep ==> Present(e.exampleTr))
    && (fault.value == ExamplePtStep ==> Present(e.examplePt))
  }

  /**
   * The two word upserts of one entry, up to the one that throws: the tables
   * after them and the ids they return, `None` for a statement that did not run.
   */
  function EntryWordsRun(t: Tables, trLang: int, ptLang: int, level: Option<int>, e: DictEntry, fault: Option<EntryStep>)
    : (Tables, Option<int>, Option<int>)
  {
    if fault == Some(SourceWordStep) then (t, None, None)
    else
      var t1 := WordUpserted(t, trLang, e.turkish, level);
      var sourceId := WordIdAfter(t, trLang, e.turkish);
      if fault == Some(TargetWordStep) then (t1, Some(sourceId), None)
      else (WordUpserted(t1, ptLang, e.portuguese, level), Some(sourceId), Some(WordIdAfter(t1, ptLang, e.portuguese)))
  }

  /** The example inserts of one entry: a present example is inserted, an absent one skipped. */
  function ExamplesRun(t: Tables, sourceId: int, targetId: int, e: DictEntry, fault: Option<EntryStep>): (Tables, bool) {
    if Present(e.exampleTr) && fault == Some(ExampleTrStep) then (t, false)
    else
      var t1 := if Present(e.exampleTr) then ExampleInserted(t, sourceId, e.exampleTr.value) else t;
      if Present(e.examplePt) && fault == Some(ExamplePtStep) then (t1, false)
      else (if Present(e.examplePt) then ExampleInserted(t1, targetId, e.examplePt.value) else t1, true)
  }

  /** The translation upsert followed by the example inserts. */
  function LinksRun(t: Tables, sourceId: int, targetId: int, e: DictEntry, fault: Option<EntryStep>): (Tables, bool) {
    if fault == Some(TranslationStep) then (t, false)
    else ExamplesRun(TranslationUpserted(t, sourceId, targetId), sourceId, targetId, e, fault)
  }

  /**
   * One entry, run to the statement that throws: the tables it leaves, with the
   * writes of the statements before that one, and whether it completed.
   */
  function EntryRun(t: Tables, trLang: int, ptLang: int, level: Option<int>, e: DictEntry, fault: Option<EntryStep>)
    : (Tables, bool)
  {
    var w := EntryWordsRun(t, trLang, ptLang, level, e, fault);
    if w.1.None? || w.2.None? then (w.0, false) else LinksRun(w.0, w.1.value, w.2.value, e, fault)
  }

  /** The tables after the first `k` entries. */
  function EntriesRun(t: Tables, trLang: int, ptLang: int, difficultyMap: map<string, int>,
                      entries: seq<DictEntry>, faults: nat -> Option<EntryStep>, k: nat): Tables
    requires k <= |entries|
  {
    if k == 0 then t
    else EntryRun(EntriesRun(t, trLang, ptLang, difficultyMap, entries, faults, k - 1), trLang, ptLang,
                  LevelId(difficultyMap, entries[k - 1].level), entries[k - 1], faults(k - 1)).0
  }

  /** The number of the first `n` entries that complete. */
  function Processed(entries: seq<DictEntry>, faults: nat -> Option<EntryStep>, n: nat): (c: nat)
    requires n <= |entries|
    ensures c <= n
  {
    if n == 0 then 0 else Processed(entries, faults, n - 1) + (if Fails(entries[n - 1], faults(n - 1)) then 0 else 1)
  }

  /** Every entry is counted exactly when none of them throws. */
  lemma {:induction false} ProcessedAll(entries: seq<DictEntry>, faults: nat -> Option<EntryStep>, n: nat)
    requires n <= |entries|
    ensures Processed(entries, faults, n) == n <==> forall k :: 0 <= k < n ==> !Fails(entries[k], faults(k))
  {
    if n > 0 {
      ProcessedAll(entries, faults, n - 1);
    }
  }

  /** Every old word is still found under its key, with its id. */
  ghost predicate WordsKept(words0: seq<Word>, words1: seq<Word>) {
    forall x :: x in words0 ==>
      RowWith(words1, WordKey, WordKey(x)).Some? && RowWith(words1, WordKey, WordKey(x)).value.id == x.id
  }

  /** Every old translation is still found under its key, and stays verified. */
  ghost predicate TranslationsKept(ts0: seq<Translation>, ts1: seq<Translation>) {
    forall x :: x in ts0 ==>
      RowWith(ts1, TransKey, TransKey(x)).Some? && (x.verified ==> RowWith(ts1, TransKey, TransKey(x)).value.verified)
  }

  /** Nothing the entry loop relies on is lost: words keep their ids, translations their rows, examples stay. */
  ghost predicate Kept(t0: Tables, t1: Tables) {
    WordsKept(t0.words, t1.words) && TranslationsKept(t0.translations, t1.translations)
    && forall x :: x in t0.examples ==> x in t1.examples
  }

  lemma WordsKeptSelf(words: seq<Word>)
    requires UniqueBy(words, WordKey)
    ensures WordsKept(words, words)
  {
    forall x | x in words ensures RowWith(words, WordKey, WordKey(x)) == Some(x) {
      RowWithUnique(words, WordKey, IndexOf(words, x));
    }
  }

  lemma TranslationsKeptSelf(ts: seq<Translation>)
    requires UniqueBy(ts, TransKey)
    ensures TranslationsKept(ts, ts)
  {
    forall x | x in ts ensures RowWith(ts, TransKey, TransKey(x)) == Some(x) {
      RowWithUnique(ts, TransKey, IndexOf(ts, x));
    }
  }

  lemma WordsKeptTrans(w0: seq<Word>, w1: seq<Word>, w2: seq<Word>)
    requires WordsKept(w0, w1) && WordsKept(w1, w2)
    ensures WordsKept(w0, w2)
  {
    forall x | x in w0
      ensures RowWith(w2, WordKey, WordKey(x)).Some? && RowWith(w2, WordKey, WordKey(x)).value.id == x.id
    {
      var y := RowWith(w1, WordKey, WordKey(x)).value;
      assert WordKey(y) == WordKey(x);
    }
  }

  lemma KeptSelf(t: Tables)
    requires UniqueBy(t.words, WordKey) && UniqueBy(t.translations, TransKey)
    ensures Kept(t, t)
  {
    WordsKeptSelf(t.words);
    TranslationsKeptSelf(t.translations);
  }

  lemma KeptTrans(t0: Tables, t1: Tables, t2: Tables)
    requires Kept(t0, t1) && Kept(t1, t2)
    ensures Kept(t0, t2)
  {
    WordsKeptTrans(t0.words, t1.words, t2.words);
    forall x | x in t0.translations
      ensures RowWith(t2.translations, TransKey, TransKey(x)).Some?
        && (x.verified ==> RowWith(t2.translations, TransKey, TransKey(x)).value.verified)
    {
      var y := RowWith(t1.translations, TransKey, TransKey(x)).value;
      assert TransKey(y) == TransKey(x);
    }
  }

  /**
   * The rows a completed entry leaves: its Turkish and Portuguese words, the
   * verified translation between them, and its present examples.
   */
  ghost predicate Migrated(t: Tables, trLang: int, ptLang: int, e: DictEntry) {
    var s := RowWith(t.words, WordKey, (trLang, e.turkish));
    var g := RowWith(t.words, WordKey, (ptLang, e.portuguese));
    && s.Some? && g.Some?
    && RowWith(t.translations, TransKey, (s.value.id, g.value.id)).Some?
    && RowWith(t.translations, TransKey, (s.value.id, g.value.id)).value.verified
    && (Present(e.exampleTr) ==> Example(s.value.id, e.exampleTr.value) in t.examples)
    && (Present(e.examplePt) ==> Example(g.value.id, e.examplePt.value) in t.examples)
  }

  /** A migrated entry stays migrated. */
  lemma MigratedStays(t0: Tables, t1: Tables, trLang: int, ptLang: int, e: DictEntry)
    requires Kept(t0, t1) && Migrated(t0, trLang, ptLang, e)
    ensures Migrated(t1, trLang, ptLang, e)
  {
    var s := RowWith(t0.words, WordKey, (trLang, e.turkish)).value;
    var g := RowWith(t0.words, WordKey, (ptLang, e.portuguese)).value;
    assert WordKey(s) == (trLang, e.turkish) && WordKey(g) == (ptLang, e.portuguese);
    var tr := RowWith(t0.translations, TransKey, (s.id, g.id)).value;
    assert TransKey(tr) == (s.id, g.id);
  }

  /** Each of the first `k` entries that does not throw is migrated. */
  ghost predicate MigratedUpTo(t: Tables, trLang: int, ptLang: int,
                               entries: seq<DictEntry>, faults: nat -> Option<EntryStep>, k: nat)
    requires k <= |entries|
  {
    forall j {:trigger Migrated(t, trLang, ptLang, entries[j])} ::
      0 <= j < k && !Fails(entries[j], faults(j)) ==> Migrated(t, trLang, ptLang, entries[j])
  }

  /** The entries migrated before entry `k` stay migrated when it runs, and it joins them when it completes. */
  lemma AllMigratedStay(t0: Tables, t1: Tables, trLang: int, ptLang: int,
                        entries: seq<DictEntry>, faults: nat -> Option<EntryStep>, k: nat)
    requires k < |entries|
    requires Kept(t0, t1)
    requires MigratedUpTo(t0, trLang, ptLang, entries, faults, k)
    requires !Fails(entries[k], faults(k)) ==> Migrated(t1, trLang, ptLang, entries[k])
    ensures MigratedUpTo(t1, trLang, ptLang, entries, faults, k + 1)
  {
    forall j | 0 <= j < k && !Fails(entries[j], faults(j))
      ensures Migrated(t1, trLang, ptLang, entries[j])
    {
      MigratedStays(t0, t1, trLang, ptLang, entries[j]);
    }
  }

  /**
   * The word upserts: a statement that throws writes nothing, and stops the one
   * after it; each id returned is its word's row id; no word loses its row.
   */
  lemma EntryWordsRow(t: Tables, trLang: int, ptLang: int, level: Option<int>, e: DictEntry, fault: Option<EntryStep>)
    requires UniqueBy(t.words, WordKey)
    ensures var w := EntryWordsRun(t, trLang, ptLang, level, e, fault);
      && UniqueBy(w.0.words, WordKey) && WordsKept(t.words, w.0.words)
      && w.0 == t.(words := w.0.words, nextWordId := w.0.nextWordId)
      && (w.1.Some? <==> fault != Some(SourceWordStep))
      && (w.2.Some? <==> fault != Some(SourceWordStep) && fault != Some(TargetWordStep))
      && (fault == Some(SourceWordStep) ==> w.0 == t)
      && (w.1.Some? ==> RowWith(w.0.words, WordKey, (trLang, e.turkish)).Some?
                        && RowWith(w.0.words, WordKey, (trLang, e.turkish)).value.id == w.1.value)
      && (w.2.Some? ==> RowWith(w.0.words, WordKey, (ptLang, e.portuguese)).Some?
                        && RowWith(w.0.words, WordKey, (ptLang, e.portuguese)).value.id == w.2.value)
  {
    WordsKeptSelf(t.words);
    if fault != Some(SourceWordStep) {
      var t1 := WordUpserted(t, trLang, e.turkish, level);
      WordUpsertRow(t, trLang, e.turkish, level);
      if fault != Some(TargetWordStep) {
        var t2 := WordUpserted(t1, ptLang, e.portuguese, level);
        WordUpsertRow(t1, ptLang, e.portuguese, level);
        WordsKeptTrans(t.words, t1.words, t2.words);
        var sw := RowWith(t1.words, WordKey, (trLang, e.turkish)).value;
        assert WordKey(sw) == (trLang, e.turkish);
      }
    }
  }

  /**
   * The example inserts: the entry completes exactly when no present example's
   * insert throws; then its present examples are there; the only rows added are
   * its present examples.
   */
  lemma ExamplesRow(t: Tables, sourceId: int, targetId: int, e: DictEntry, fault: Option<EntryStep>)
    requires NoDuplicates(t.examples)
    requires fault != Some(SourceWordStep) && fault != Some(TargetWordStep) && fault != Some(TranslationStep)
    ensures var r := ExamplesRun(t, sourceId, targetId, e, fault);
      && NoDuplicates(r.0.examples)
      && r.0 == t.(examples := r.0.examples)
      && (r.1 <==> !Fails(e, fault))
      && (r.1 && Present(e.exampleTr) ==> Example(sourceId, e.exampleTr.value) in r.0.examples)
      && (r.1 && Present(e.examplePt) ==> Example(targetId, e.examplePt.value) in r.0.examples)
      && (forall x :: x in t.examples ==> x in r.0.examples)
      && (forall x :: x in r.0.examples ==>
            (x in t.examples
             || (Present(e.exampleTr) && x == Example(sourceId, e.exampleTr.value))
             || (Present(e.examplePt) && x == Example(targetId, e.examplePt.value))))
  {
  }

  /** The translation and the examples: on completion the entry is migrated; nothing is lost. */
  lemma LinksRow(t: Tables, sourceId: int, targetId: int, trLang: int, ptLang: int, e: DictEntry, fault: Option<EntryStep>)
    requires UniqueBy(t.translations, TransKey) && NoDuplicates(t.examples)
    requires RowWith(t.words, WordKey, (trLang, e.turkish)).Some?
    requires RowWith(t.words, WordKey, (trLang, e.turkish)).value.id == sourceId
    requires RowWith(t.words, WordKey, (ptLang, e.portuguese)).Some?
    requires RowWith(t.words, WordKey, (ptLang, e.portuguese)).value.id == targetId
    requires fault != Some(SourceWordStep) && fault != Some(TargetWordStep)
    ensures var r := LinksRun(t, sourceId, targetId, e, fault);
      && UniqueBy(r.0.translations, TransKey) && NoDuplicates(r.0.examples)
      && r.0 == t.(translations := r.0.translations, nextTranslationId := r.0.nextTranslationId,
                   examples := r.0.examples)
      && (r.1 <==> !Fails(e, fault))
      && (r.1 ==> Migrated(r.0, trLang, ptLang, e))
      && TranslationsKept(t.translations, r.0.translations)
      && (forall x :: x in t.examples ==> x in r.0.examples)
  {
    var t0 := t.translations;
    assert TranslationsKept(t0, t0) by {
      forall x | x in t0 ensures RowWith(t0, TransKey, TransKey(x)) == Some(x) {
        RowWithUnique(t0, TransKey, IndexOf(t0, x));
      }
    }
    if fault != Some(TranslationStep) {
      var t1 := TranslationUpserted(t, sourceId, targetId);
      TranslationUpsertRow(t, sourceId, targetId);
      ExamplesRow(t1, sourceId, targetId, e, fault);
    }
  }

  /** An entry completes exactly when none of its statements that run throws. */
  lemma EntryRunCompletes(t: Tables, trLang: int, ptLang: int, level: Option<int>, e: DictEntry, fault: Option<EntryStep>)
    ensures EntryRun(t, trLang, ptLang, level, e, fault).1 <==> !Fails(e, fault)
  {
    var w := EntryWordsRun(t, trLang, ptLang, level, e, fault);
    if fault == Some(SourceWordStep) || fault == Some(TargetWordStep) {
      assert w.2.None?;
    } else {
      assert w.1.Some? && w.2.Some?;
      var l := LinksRun(w.0, w.1.value, w.2.value, e, fault);
      assert EntryRun(t, trLang, ptLang, level, e, fault) == l;
      if fault != Some(TranslationStep) {
        var u := TranslationUpserted(w.0, w.1.value, w.2.value);
        assert l == ExamplesRun(u, w.1.value, w.2.value, e, fault);
      }
    }
  }

  /**
   * One entry keeps the UNIQUE keys and loses nothing; when it completes, its
   * words, their verified translation and its examples are there.
   */
  lemma EntryRow(t: Tables, trLang: int, ptLang: int, level: Option<int>, e: DictEntry, fault: Option<EntryStep>)
    requires Keyed(t)
    ensures var r := EntryRun(t, trLang, ptLang, level, e, fault);
      && Keyed(r.0) && Kept(t, r.0)
      && (r.1 <==> !Fails(e, fault))
      && (r.1 ==> Migrated(r.0, trLang, ptLang, e))
      && r.0.languages == t.languages && r.0.languagePairs == t.languagePairs && r.0.categories == t.categories
  {
    var w := EntryWordsRun(t, trLang, ptLang, level, e, fault);
    EntryWordsRow(t, trLang, ptLang, level, e, fault);
    EntryRunCompletes(t, trLang, ptLang, level, e, fault);
    TranslationsKeptSelf(t.translations);
    var r := EntryRun(t, trLang, ptLang, level, e, fault);
    if w.1.Some? && w.2.Some? {
      LinksRow(w.0, w.1.value, w.2.value, trLang, ptLang, e, fault);
      assert r == LinksRun(w.0, w.1.value, w.2.value, e, fault);
      assert r.0 == w.0.(translations := r.0.translations, nextTranslationId := r.0.nextTranslationId,
                         examples := r.0.examples);
    } else {
      assert r == (w.0, false);
    }
  }

  /** After the first `k` entries the keys hold, nothing is lost, and every completed entry is migrated. */
  lemma {:induction false} EntriesRow(t: Tables, trLang: int, ptLang: int, difficultyMap: map<string, int>,
                                      entries: seq<DictEntry>, faults: nat -> Option<EntryStep>, k: nat)
    requires Keyed(t) && k <= |entries|
    ensures var r := EntriesRun(t, trLang, ptLang, difficultyMap, entries, faults, k);
      && Keyed(r) && Kept(t, r)
      && MigratedUpTo(r, trLang, ptLang, entries, faults, k)
      && r.languages == t.languages && r.languagePairs == t.languagePairs && r.categories == t.categories
    decreases k
  {
    if k == 0 {
      KeptSelf(t);
    } else {
      EntriesRow(t, trLang, ptLang, difficultyMap, entries, faults, k - 1);
      var r0 := EntriesRun(t, trLang, ptLang, difficultyMap, entries, faults, k - 1);
      var level := LevelId(difficultyMap, entries[k - 1].level);
      EntryRow(r0, trLang, ptLang, level, entries[k - 1], faults(k - 1));
      var r := EntryRun(r0, trLang, ptLang, level, entries[k - 1], faults(k - 1)).0;
      AllMigratedStay(r0, r, trLang, ptLang, entries, faults, k - 1);
      KeptTrans(t, r0, r);
    }
  }

  /** The two word upserts of one entry; `None` for a word whose statement did not run. */
  method EntryWords(db: Database, trLang: int, ptLang: int, level: Option<int>, e: DictEntry, fault: Option<EntryStep>)
    returns (sourceId: Option<int>, targetId: Option<int>)
    modifies db`words, db`nextWordId
    ensures (TablesOf(db), sourceId, targetId) == EntryWordsRun(old(TablesOf(db)), trLang, ptLang, level, e, fault)
  {
    sourceId, targetId := None, None;
    if fault == Some(SourceWordStep) {
      return;
    }
    var s := UpsertWord(db, trLang, e.turkish, level);
    sourceId := Some(s);
    if fault == Some(TargetWordStep) {
      return;
    }
    var t := UpsertWord(db, ptLang, e.portuguese, level);
    targetId := Some(t);
  }

  /** The example inserts of one entry, each only when its sentence is present. */
  method EntryExamples(db: Database, sourceId: int, targetId: int, e: DictEntry, fault: Option<EntryStep>)
    returns (done: bool)
    modifies db`examples
    ensures (TablesOf(db), done) == ExamplesRun(old(TablesOf(db)), sourceId, targetId, e, fault)
  {
    if Present(e.exampleTr) {
      if fault == Some(ExampleTrStep) {
        return false;
      }
      InsertExample(db, sourceId, e.exampleTr.value);
    }
    if Present(e.examplePt) {
      if fault == Some(ExamplePtStep) {
        return false;
      }
      InsertExample(db, targetId, e.examplePt.value);
    }
    done := true;
  }

  /** The translation upsert and the example inserts of one entry, after its words. */
  method EntryLinks(db: Database, sourceId: int, targetId: int, e: DictEntry, fault: Option<EntryStep>)
    returns (done: bool)
    modifies db`translations, db`nextTranslationId, db`examples
    ensures (TablesOf(db), done) == LinksRun(old(TablesOf(db)), sourceId, targetId, e, fault)
  {
    if fault == Some(TranslationStep) {
      return false;
    }
    UpsertTranslation(db, sourceId, targetId);
    done := EntryExamples(db, sourceId, targetId, e, fault);
  }

  /** The body of the entry loop, run to the statement that throws, if any. */
  method MigrateEntry(db: Database, trLang: int, ptLang: int, difficultyMap: map<string, int>, e: DictEntry,
                      fault: Option<EntryStep>) returns (done: bool)
    modifies db`words, db`nextWordId, db`translations, db`nextTranslationId, db`examples
    ensures (TablesOf(db), done) == EntryRun(old(TablesOf(db)), trLang, ptLang, LevelId(difficultyMap, e.level), e, fault)
  {
    var s, t := EntryWords(db, trLang, ptLang, LevelId(difficultyMap, e.level), e, fault);
    if s.None? || t.None? {
      return false;
    }
    done := EntryLinks(db, s.value, t.value, e, fault);
  }

  /** One turn of the entry loop: entry `k` runs, and `processedCount` goes up when it completes. */
  method MigrateNext(db: Database, trLang: int, ptLang: int, difficultyMap: map<string, int>,
                     entries: seq<DictEntry>, faults: nat -> Option<EntryStep>, k: nat, processedCount: nat)
    returns (count: nat)
    requires k < |entries|
    requires processedCount == Processed(entries, faults, k)
    modifies db`words, db`nextWordId, db`translations, db`nextTranslationId, db`examples
    ensures TablesOf(db) == EntryRun(old(TablesOf(db)), trLang, ptLang, LevelId(difficultyMap, entries[k].level),
                                     entries[k], faults(k)).0
    ensures count == Processed(entries, faults, k + 1)
  {
    ghost var t0 := TablesOf(db);
    var done := MigrateEntry(db, trLang, ptLang, difficultyMap, entries[k], faults(k));
    EntryRunCompletes(t0, trLang, ptLang, LevelId(difficultyMap, entries[k].level), entries[k], faults(k));
    count := if done then processedCount + 1 else processedCount;
  }

  /** The `for...of` loop over the dictionary: a throwing entry is skipped and not counted. */
  method MigrateEntries(db: Database, trLang: int, ptLang: int, difficultyMap: map<string, int>,
                        entries: seq<DictEntry>, faults: nat -> Option<EntryStep>) returns (processedCount: nat)
    modifies db`words, db`nextWordId, db`translations, db`nextTranslationId, db`examples
    ensures TablesOf(db) == EntriesRun(old(TablesOf(db)), trLang, ptLang, difficultyMap, entries, faults, |entries|)
    ensures processedCount == Processed(entries, faults, |entries|)
  {
    processedCount := 0;
    var k := 0;
    while k < |entries|
      invariant 0 <= k <= |entries|
      invariant TablesOf(db) == EntriesRun(old(TablesOf(db)), trLang, ptLang, difficultyMap, entries, faults, k)
      invariant processedCount == Processed(entries, faults, k)
    {
      processedCount := MigrateNext(db, trLang, ptLang, difficultyMap, entries, faults, k, processedCount);
      k := k + 1;
    }
  }

  // ---------------------------------------------------------------------------
  // The whole migration
  // ---------------------------------------------------------------------------

  /** Languages, categories, then every entry: the tables and `categoryMap`. */
  function MigrationRun(t: Tables, levels: seq<Level>, entries: seq<DictEntry>, faults: nat -> Option<EntryStep>)
    : (Tables, map<string, int>)
  {
    var l := LanguagesRun(t);
    var c := CategoriesRun(l.0, CategoryNames);
    (EntriesRun(c.0, l.1, l.2, NameIds(levels), entries, faults, |entries|), c.1)
  }

  /**
   * After the migration the UNIQUE keys hold and nothing is lost; tr and pt exist
   * under their names with their pair; `categoryMap` gives the row id of each of
   * the ten categories; and every entry that did not throw is migrated.
   */
  lemma MigrationRow(t: Tables, levels: seq<Level>, entries: seq<DictEntry>, faults: nat -> Option<EntryStep>)
    requires Keyed(t)
    ensures var r := MigrationRun(t, levels, entries, faults);
      var tr := RowWith(r.0.languages, LangCode, "tr");
      var pt := RowWith(r.0.languages, LangCode, "pt");
      && Keyed(r.0) && Kept(t, r.0)
      && tr.Some? && tr.value.name == "Turkish" && pt.Some? && pt.value.name == "Portuguese"
      && LanguagePair(tr.value.id, pt.value.id) in r.0.languagePairs
      && (forall n :: n in r.1 <==> n in CategoryNames)
      && (forall n :: n in CategoryNames ==>
            RowWith(r.0.categories, CatName, n).Some? && r.1[n] == RowWith(r.0.categories, CatName, n).value.id)
      && (forall k :: 0 <= k < |entries| && !Fails(entries[k], faults(k)) ==>
            Migrated(r.0, tr.value.id, pt.value.id, entries[k]))
  {
    var l := LanguagesRun(t);
    LanguagesRow(t);
    LanguagePairRow(t);
    CategoriesRow(l.0, CategoryNames);
    var c := CategoriesRun(l.0, CategoryNames);
    KeptSelf(t);
    assert Kept(t, c.0);
    EntriesRow(c.0, l.1, l.2, NameIds(levels), entries, faults, |entries|);
    var r := EntriesRun(c.0, l.1, l.2, NameIds(levels), entries, faults, |entries|);
    KeptTrans(t, c.0, r);
  }

  /** `migrateDictionary`, from the language upserts to the end of the entry loop. */
  method Migrate(db: Database, entries: seq<DictEntry>, faults: nat -> Option<EntryStep>)
    returns (processedCount: nat, categoryMap: map<string, int>)
    modifies db`languages, db`nextLanguageId, db`languagePairs, db`categories, db`nextCategoryId
    modifies db`words, db`nextWordId, db`translations, db`nextTranslationId, db`examples
    ensures (TablesOf(db), categoryMap) == MigrationRun(old(TablesOf(db)), db.levels, entries, faults)
    ensures processedCount == Processed(entries, faults, |entries|)
  {
    var trLang, ptLang := SetUpLanguages(db);
    var difficultyMap := DifficultyMap(db);
    categoryMap := CreateCategories(db);
    processedCount := MigrateEntries(db, trLang, ptLang, difficultyMap, entries, faults);
  }
}
