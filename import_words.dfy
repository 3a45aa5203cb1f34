/**
 * The dictionary importer `import_words.js`: it resolves the ids of the
 * languages tr, en and pt, then, per entry, gets or creates one word per
 * language, adds their examples and the six directed translations among them.
 * It writes the flat word schema; SQL `NULL` never compares equal, so a
 * language whose id is unknown matches no word.
 */
module ImportWords {
  import opened Wrappers
  import opened Seqs
  import opened FlatWords

  datatype LanguageRow = LanguageRow(id: int, code: string)

  /** A row of `translations`, `UNIQUE(source_word_id, target_word_id)`. */
  datatype TranslationPair = TranslationPair(sourceId: int, targetId: int)

  datatype Side = Side(word: string, example: Option<string>)

  /** One element of `words_to_import.json`. */
  datatype Entry = Entry(tr: Side, en: Side, pt: Side, difficulty: Option<int>)

  const ImportCodes := ["tr", "en", "pt"]

  /** `{ tr: null, en: null, pt: null }`. */
  function InitialCodes(): (m: map<string, Option<int>>)
    ensures forall c :: c in m <==> c in ImportCodes
    ensures forall c :: c in m ==> m[c].None?
  {
    map["tr" := None, "en" := None, "pt" := None]
  }

  predicate IsImportCode(l: LanguageRow) { l.code in ImportCodes }

  /** `SELECT code, id FROM languages WHERE code IN ('tr', 'en', 'pt')`. */
  function LanguageQuery(languages: seq<LanguageRow>): seq<LanguageRow> {
    Filter(languages, IsImportCode)
  }

  /** `langCodes` after the assignments of the loop over the rows. */
  function CodesAfter(codes: map<string, Option<int>>, rows: seq<LanguageRow>): map<string, Option<int>>
    decreases |rows|
  {
    if rows == [] then codes
    else
      var last := rows[|rows| - 1];
      CodesAfter(codes, rows[..|rows| - 1])[last.code := Some(last.id)]
  }

  function CodeOf(l: LanguageRow): string { l.code }

  /** With `UNIQUE(code)`, each code maps to the id of its row, and a code without a row keeps its value. */
  lemma {:induction false} CodesAfterRows(codes: map<string, Option<int>>, rows: seq<LanguageRow>, c: string)
    requires UniqueBy(rows, CodeOf)
    ensures forall l :: l in rows && l.code == c ==> c in CodesAfter(codes, rows) && CodesAfter(codes, rows)[c] == Some(l.id)
    ensures (forall l :: l in rows ==> l.code != c) ==>
      (c in CodesAfter(codes, rows) <==> c in codes) && (c in codes ==> CodesAfter(codes, rows)[c] == codes[c])
    decreases |rows|
  {
    if rows != [] {
      var init := rows[..|rows| - 1];
      var last := rows[|rows| - 1];
      assert rows == init + [last];
      assert UniqueBy(init, CodeOf) by {
        forall i, j | 0 <= i < j < |init| ensures CodeOf(init[i]) != CodeOf(init[j]) {
          assert init[i] == rows[i] && init[j] == rows[j];
        }
      }
      CodesAfterRows(codes, init, c);
      forall l | l in init ensures l.code != last.code {
        var k :| 0 <= k < |init| && init[k] == l;
        assert rows[k] == l;
      }
    }
  }

  /** After `getLanguageIds`, `langCodes[c]` is the id of code `c` when the language exists, else `null`. */
  lemma LanguageIdsResolved(languages: seq<LanguageRow>, c: string)
    requires UniqueBy(languages, CodeOf) && c in ImportCodes
    ensures var m := CodesAfter(InitialCodes(), LanguageQuery(languages));
      && c in m
      && (forall l :: l in languages && l.code == c ==> m[c] == Some(l.id))
      && ((forall l :: l in languages ==> l.code != c) ==> m[c] == None)
  {
    FilterKeepsUnique(languages, IsImportCode, CodeOf);
    CodesAfterRows(InitialCodes(), LanguageQuery(languages), c);
  }

  /** `langCodes[lang]`, with `undefined` bound as `NULL`. */
  function LangId(codes: map<string, Option<int>>, lang: string): Option<int> {
    if lang in codes then codes[lang] else None
  }

  /** `language_id = $1 AND (turkish_word = $2 OR english_word = $2 OR portuguese_word = $2)`. */
  predicate Matches(w: FlatWord, langId: Option<int>, text: string) {
    langId.Some? && w.languageId == langId
    && (w.turkish == Some(text) || w.english == Some(text) || w.portuguese == Some(text))
  }

  /** The word's text is in one of its columns. */
  ghost predicate HasText(words: seq<FlatWord>, id: int, text: string) {
    exists w :: w in words && w.id == id && (w.turkish == Some(text) || w.english == Some(text) || w.portuguese == Some(text))
  }

  /** The row `INSERT INTO words (<col>, language_id, difficulty_level)` creates. */
  function NewWord(id: int, lang: string, text: string, langId: Option<int>, difficulty: int): (w: FlatWord)
    ensures lang == "en" ==> w.english == Some(text) && w.turkish == None && w.portuguese == None
    ensures lang == "pt" ==> w.portuguese == Some(text) && w.turkish == None && w.english == None
    ensures lang != "en" && lang != "pt" ==> w.turkish == Some(text) && w.english == None && w.portuguese == None
  {
    if lang == "en" then FlatWord(id, None, None, Some(text), langId, difficulty)
    else if lang == "pt" then FlatWord(id, None, Some(text), None, langId, difficulty)
    else FlatWord(id, Some(text), None, None, langId, difficulty)
  }

  datatype WordOutcome = WordOutcome(words: seq<FlatWord>, nextId: int, id: int)

  function MatchesText(langId: Option<int>, text: string): FlatWord -> bool {
    (w: FlatWord) => Matches(w, langId, text)
  }

  /** `getOrCreateWord`: the first matching row's id, or a new row under the next serial id. */
  function GetOrCreate(words: seq<FlatWord>, nextId: int, langId: Option<int>, lang: string, text: string, difficulty: int)
    : WordOutcome
  {
    match Find(words, MatchesText(langId, text))
    case Some(w) => WordOutcome(words, nextId, w.id)
    case None => WordOutcome(words + [NewWord(nextId, lang, text, langId, difficulty)], nextId + 1, nextId)
  }

  /**
   * The table only grows and the id carries the text; a matching row is reused
   * and nothing is inserted; otherwise one row is added under the next id.
   */
  lemma GetOrCreateRow(words: seq<FlatWord>, nextId: int, langId: Option<int>, lang: string, text: string, difficulty: int)
    ensures var r := GetOrCreate(words, nextId, langId, lang, text, difficulty);
      && words <= r.words && HasText(r.words, r.id, text)
      && ((exists w :: w in words && Matches(w, langId, text)) ==>
            r.words == words && r.nextId == nextId && exists w :: w in words && Matches(w, langId, text) && w.id == r.id)
      && ((forall w :: w in words ==> !Matches(w, langId, text)) ==>
            r == WordOutcome(words + [NewWord(nextId, lang, text, langId, difficulty)], nextId + 1, nextId))
  {
    var nw := NewWord(nextId, lang, text, langId, difficulty);
    assert nw in words + [nw];
  }

  /** A second call with the same word and known language returns the same id and adds nothing. */
  lemma GetOrCreateTwice(words: seq<FlatWord>, nextId: int, langId: Option<int>, lang: string, text: string, d1: int, d2: int)
    requires langId.Some?
    ensures var first := GetOrCreate(words, nextId, langId, lang, text, d1);
      var second := GetOrCreate(first.words, first.nextId, langId, lang, text, d2);
      second.id == first.id && second.words == first.words && second.nextId == first.nextId
  {
    var first := GetOrCreate(words, nextId, langId, lang, text, d1);
    GetOrCreateRow(words, nextId, langId, lang, text, d1);
    GetOrCreateRow(first.words, first.nextId, langId, lang, text, d2);
    if forall w :: w in words ==> !Matches(w, langId, text) {
      var nw := NewWord(nextId, lang, text, langId, d1);
      assert Matches(nw, langId, text);
      assert first.words == words + [nw];
      assert Find(first.words, MatchesText(langId, text)) == Some(nw) by {
        FindFirst(words, nw, MatchesText(langId, text));
      }
    }
  }

  /** When no row of `s` satisfies `p`, the first satisfying row of `s + [x]` is `x`. */
  lemma {:induction false} FindFirst<T(!new)>(s: seq<T>, x: T, p: T -> bool)
    requires p(x) && forall y :: y in s ==> !p(y)
    ensures Find(s + [x], p) == Some(x)
  {
    if s != [] {
      assert (s + [x])[1..] == s[1..] + [x];
      FindFirst(s[1..], x, p);
    }
  }

  /** The example row for `lang`. */
  function NewExample(wordId: int, lang: string, text: string): FlatExample {
    if lang == "en" then FlatExample(wordId, None, None, Some(text))
    else if lang == "pt" then FlatExample(wordId, None, Some(text), None)
    else FlatExample(wordId, Some(text), None, None)
  }

  /**
   * `addExample`: nothing for an absent or empty example; otherwise one row.
   * `word_examples` has no unique constraint, so `ON CONFLICT DO NOTHING` never fires.
   */
  /** `if (!example) return`: the example is inserted only when it is a non-empty string. */
  predicate Given(example: Option<string>) { example.Some? && example.value != "" }

  function WithExample(examples: seq<FlatExample>, wordId: int, lang: string, example: Option<string>)
    : (r: seq<FlatExample>)
    ensures !Given(example) ==> r == examples
    ensures Given(example) ==> r == examples + [NewExample(wordId, lang, example.value)]
  {
    if !Given(example) then examples else examples + [NewExample(wordId, lang, example.value)]
  }

  function PairKey(t: TranslationPair): TranslationPair { t }

  /** `addTranslation`: insert unless the pair is already present. */
  function WithPair(ts: seq<TranslationPair>, s: int, t: int): seq<TranslationPair> {
    if TranslationPair(s, t) in ts then ts else ts + [TranslationPair(s, t)]
  }

  /** Afterwards the pair is there; the table only grows, by at most that pair, and by nothing if it was there. */
  lemma WithPairRow(ts: seq<TranslationPair>, s: int, t: int)
    ensures var r := WithPair(ts, s, t);
      && TranslationPair(s, t) in r && ts <= r
      && (forall p :: p in r <==> p in ts || p == TranslationPair(s, t))
      && (TranslationPair(s, t) in ts ==> r == ts)
      && (TranslationPair(s, t) !in ts ==> r == ts + [TranslationPair(s, t)])
  {
  }

  /** `ON CONFLICT DO NOTHING` keeps the pairs unique, and re-inserting a pair adds nothing. */
  lemma WithPairUnique(ts: seq<TranslationPair>, s: int, t: int)
    requires UniqueBy(ts, PairKey)
    ensures UniqueBy(WithPair(ts, s, t), PairKey)
    ensures WithPair(WithPair(ts, s, t), s, t) == WithPair(ts, s, t)
  {
    var r := WithPair(ts, s, t);
    WithPairRow(ts, s, t);
    forall i, j | 0 <= i < j < |r| ensures PairKey(r[i]) != PairKey(r[j]) {
      if j == |ts| {
        assert r[i] in ts;
      }
    }
  }

  /** The six ordered pairs among three ids, in the order the importer adds them. */
  function SixPairs(tr: int, en: int, pt: int): (r: seq<TranslationPair>)
    ensures |r| == 6
    ensures forall a, b :: a in [tr, en, pt] && b in [tr, en, pt] && a != b ==> TranslationPair(a, b) in r
  {
    [ TranslationPair(tr, en), TranslationPair(en, tr), TranslationPair(tr, pt),
      TranslationPair(pt, tr), TranslationPair(en, pt), TranslationPair(pt, en) ]
  }

  /** What one imported entry leaves behind: its three words and the six pairs among them. */
  ghost predicate EntryImported(words: seq<FlatWord>, ts: seq<TranslationPair>, e: Entry, ids: (int, int, int)) {
    HasText(words, ids.0, e.tr.word) && HasText(words, ids.1, e.en.word) && HasText(words, ids.2, e.pt.word)
    && forall p :: p in SixPairs(ids.0, ids.1, ids.2) ==> p in ts
  }

  lemma HasTextGrows(words: seq<FlatWord>, words2: seq<FlatWord>, id: int, text: string)
    requires HasText(words, id, text) && words <= words2
    ensures HasText(words2, id, text)
  {
    var w :| w in words && w.id == id && (w.turkish == Some(text) || w.english == Some(text) || w.portuguese == Some(text));
    assert w in words2;
  }

  lemma EntryImportedGrows(words: seq<FlatWord>, ts: seq<TranslationPair>, words2: seq<FlatWord>, ts2: seq<TranslationPair>, e: Entry, ids: (int, int, int))
    requires EntryImported(words, ts, e, ids) && words <= words2 && ts <= ts2
    ensures EntryImported(words2, ts2, e, ids)
  {
    assert forall x :: x in words ==> x in words2;
    assert forall p :: p in ts ==> p in ts2;
  }

  /** `entry.difficulty || 1`. */
  function DifficultyOf(e: Entry): (d: int)
    ensures d != 0
    ensures e.difficulty.Some? && e.difficulty.value != 0 ==> d == e.difficulty.value
  {
    if e.difficulty.None? || e.difficulty.value == 0 then 1 else e.difficulty.value
  }

  /** The six `addTranslation` calls of one entry, in order. */
  function PairsAdded(ts: seq<TranslationPair>, tr: int, en: int, pt: int): seq<TranslationPair> {
    WithPair(WithPair(WithPair(WithPair(WithPair(WithPair(ts, tr, en), en, tr), tr, pt), pt, tr), en, pt), pt, en)
  }

  /** The six calls only append, and leave exactly the old pairs and the six new ones. */
  lemma PairsAddedRow(ts: seq<TranslationPair>, tr: int, en: int, pt: int)
    ensures ts <= PairsAdded(ts, tr, en, pt)
    ensures forall p :: p in PairsAdded(ts, tr, en, pt) <==> p in ts || p in SixPairs(tr, en, pt)
  {
    var t1 := WithPair(ts, tr, en);
    var t2 := WithPair(t1, en, tr);
    var t3 := WithPair(t2, tr, pt);
    var t4 := WithPair(t3, pt, tr);
    var t5 := WithPair(t4, en, pt);
    var t6 := WithPair(t5, pt, en);
    WithPairRow(ts, tr, en);
    WithPairRow(t1, en, tr);
    WithPairRow(t2, tr, pt);
    WithPairRow(t3, pt, tr);
    WithPairRow(t4, en, pt);
    WithPairRow(t5, pt, en);
    assert ts <= t6 by {
      assert ts <= t1 <= t2 <= t3 <= t4 <= t5 <= t6;
    }
    assert forall p :: p in t6 <==> p in ts || p in SixPairs(tr, en, pt) by {
      forall p ensures p in t6 <==> p in ts || p in SixPairs(tr, en, pt) {
        assert p in SixPairs(tr, en, pt) <==>
          (p == TranslationPair(tr, en) || p == TranslationPair(en, tr) || p == TranslationPair(tr, pt)
           || p == TranslationPair(pt, tr) || p == TranslationPair(en, pt) || p == TranslationPair(pt, en));
      }
    }
  }

  /** `ON CONFLICT DO NOTHING` keeps the pairs unique through the six calls. */
  lemma PairsAddedUnique(ts: seq<TranslationPair>, tr: int, en: int, pt: int)
    requires UniqueBy(ts, PairKey)
    ensures UniqueBy(PairsAdded(ts, tr, en, pt), PairKey)
  {
    var t1 := WithPair(ts, tr, en);
    var t2 := WithPair(t1, en, tr);
    var t3 := WithPair(t2, tr, pt);
    var t4 := WithPair(t3, pt, tr);
    var t5 := WithPair(t4, en, pt);
    WithPairUnique(ts, tr, en);
    WithPairUnique(t1, en, tr);
    WithPairUnique(t2, tr, pt);
    WithPairUnique(t3, pt, tr);
    WithPairUnique(t4, en, pt);
    WithPairUnique(t5, pt, en);
  }

  /** The tables the importer writes. */
  datatype ImportTables = ImportTables(
    words: seq<FlatWord>, nextWordId: int, examples: seq<FlatExample>, translations: seq<TranslationPair>)

  /** One `getOrCreateWord` call on the tables: the tables after it and the id it returns. */
  function WordStep(t: ImportTables, codes: map<string, Option<int>>, lang: string, text: string, difficulty: int)
    : (ImportTables, int)
  {
    var o := GetOrCreate(t.words, t.nextWordId, LangId(codes, lang), lang, text, difficulty);
    (t.(words := o.words, nextWordId := o.nextId), o.id)
  }

  /** The body of the `for...of` loop of `importWords` on the tables: the tables after it and the three ids. */
  function EntryRun(t: ImportTables, codes: map<string, Option<int>>, e: Entry): (ImportTables, (int, int, int)) {
    var d := DifficultyOf(e);
    var a := WordStep(t, codes, "tr", e.tr.word, d);
    var b := WordStep(a.0, codes, "en", e.en.word, d);
    var c := WordStep(b.0, codes, "pt", e.pt.word, d);
    var ids := (a.1, b.1, c.1);
    var ex := WithExample(WithExample(WithExample(c.0.examples, ids.0, "tr", e.tr.example),
                                      ids.1, "en", e.en.example), ids.2, "pt", e.pt.example);
    (c.0.(examples := ex, translations := PairsAdded(c.0.translations, ids.0, ids.1, ids.2)), ids)
  }

  function GivenCount(e: Entry): nat {
    (if Given(e.tr.example) then 1 else 0) + (if Given(e.en.example) then 1 else 0)
    + (if Given(e.pt.example) then 1 else 0)
  }

  /** One entry's words: the table only grows and each id carries its entry's word. */
  lemma EntryRunWords(t: ImportTables, codes: map<string, Option<int>>, e: Entry)
    ensures var r := EntryRun(t, codes, e);
      && t.words <= r.0.words
      && HasText(r.0.words, r.1.0, e.tr.word) && HasText(r.0.words, r.1.1, e.en.word)
      && HasText(r.0.words, r.1.2, e.pt.word)
  {
    var d := DifficultyOf(e);
    var a := WordStep(t, codes, "tr", e.tr.word, d);
    var b := WordStep(a.0, codes, "en", e.en.word, d);
    var c := WordStep(b.0, codes, "pt", e.pt.word, d);
    GetOrCreateRow(t.words, t.nextWordId, LangId(codes, "tr"), "tr", e.tr.word, d);
    GetOrCreateRow(a.0.words, a.0.nextWordId, LangId(codes, "en"), "en", e.en.word, d);
    GetOrCreateRow(b.0.words, b.0.nextWordId, LangId(codes, "pt"), "pt", e.pt.word, d);
    HasTextGrows(a.0.words, c.0.words, a.1, e.tr.word);
    HasTextGrows(b.0.words, c.0.words, b.1, e.en.word);
    assert EntryRun(t, codes, e).0.words == c.0.words;
  }

  /** One entry's translations: the old pairs and the six among its ids, and no other; still unique. */
  lemma EntryRunPairs(t: ImportTables, codes: map<string, Option<int>>, e: Entry)
    ensures var r := EntryRun(t, codes, e);
      && t.translations <= r.0.translations
      && (forall p :: p in r.0.translations <==> p in t.translations || p in SixPairs(r.1.0, r.1.1, r.1.2))
      && (UniqueBy(t.translations, PairKey) ==> UniqueBy(r.0.translations, PairKey))
  {
    var r := EntryRun(t, codes, e);
    PairsAddedRow(t.translations, r.1.0, r.1.1, r.1.2);
    if UniqueBy(t.translations, PairKey) {
      PairsAddedUnique(t.translations, r.1.0, r.1.1, r.1.2);
    }
  }

  /** One entry's examples: the old rows, then exactly its given examples, each on its word. */
  lemma EntryRunExamples(t: ImportTables, codes: map<string, Option<int>>, e: Entry)
    ensures var r := EntryRun(t, codes, e);
      && t.examples <= r.0.examples
      && |r.0.examples| == |t.examples| + GivenCount(e)
      && (Given(e.tr.example) ==> NewExample(r.1.0, "tr", e.tr.example.value) in r.0.examples)
      && (Given(e.en.example) ==> NewExample(r.1.1, "en", e.en.example.value) in r.0.examples)
      && (Given(e.pt.example) ==> NewExample(r.1.2, "pt", e.pt.example.value) in r.0.examples)
  {
    var r := EntryRun(t, codes, e);
    var x1 := WithExample(t.examples, r.1.0, "tr", e.tr.example);
    var x2 := WithExample(x1, r.1.1, "en", e.en.example);
    var x3 := WithExample(x2, r.1.2, "pt", e.pt.example);
    assert r.0.examples == x3;
    assert t.examples <= x1 <= x2 <= x3;
  }

  /** One entry leaves its three words and the six pairs among them; nothing is lost. */
  lemma EntryRunRow(t: ImportTables, codes: map<string, Option<int>>, e: Entry)
    ensures var r := EntryRun(t, codes, e);
      && t.words <= r.0.words && t.translations <= r.0.translations && t.examples <= r.0.examples
      && EntryImported(r.0.words, r.0.translations, e, r.1)
  {
    EntryRunWords(t, codes, e);
    EntryRunPairs(t, codes, e);
    EntryRunExamples(t, codes, e);
  }

  /** The tables and the ids after the first entries of the loop, one entry after another. */
  function ImportRun(t: ImportTables, codes: map<string, Option<int>>, entries: seq<Entry>)
    : (r: (ImportTables, seq<(int, int, int)>))
    ensures |r.1| == |entries|
    decreases |entries|
  {
    if entries == [] then (t, [])
    else
      var r := ImportRun(t, codes, entries[..|entries| - 1]);
      var s := EntryRun(r.0, codes, entries[|entries| - 1]);
      (s.0, r.1 + [s.1])
  }

  /** Entries imported into the smaller tables stay imported when one more entry is imported into larger ones. */
  lemma AllImportedGrows(words: seq<FlatWord>, ts: seq<TranslationPair>, words2: seq<FlatWord>, ts2: seq<TranslationPair>,
                         init: seq<Entry>, ids: seq<(int, int, int)>, last: Entry, id: (int, int, int))
    requires |ids| == |init| && words <= words2 && ts <= ts2
    requires forall k :: 0 <= k < |init| ==> EntryImported(words, ts, init[k], ids[k])
    requires EntryImported(words2, ts2, last, id)
    ensures forall k :: 0 <= k < |init| + 1 ==> EntryImported(words2, ts2, (init + [last])[k], (ids + [id])[k])
  {
    forall k | 0 <= k < |init| + 1
      ensures EntryImported(words2, ts2, (init + [last])[k], (ids + [id])[k])
    {
      if k < |init| {
        assert (init + [last])[k] == init[k] && (ids + [id])[k] == ids[k];
        EntryImportedGrows(words, ts, words2, ts2, init[k], ids[k]);
      } else {
        assert (init + [last])[k] == last && (ids + [id])[k] == id;
      }
    }
  }

  /** After the loop every entry is imported under its ids, and the tables have only grown. */
  lemma {:induction false} ImportRunRow(t: ImportTables, codes: map<string, Option<int>>, entries: seq<Entry>)
    ensures var r := ImportRun(t, codes, entries);
      && |r.1| == |entries|
      && t.words <= r.0.words && t.translations <= r.0.translations && t.examples <= r.0.examples
      && (forall k :: 0 <= k < |entries| ==> EntryImported(r.0.words, r.0.translations, entries[k], r.1[k]))
    decreases |entries|
  {
    if entries != [] {
      var init := entries[..|entries| - 1];
      var last := entries[|entries| - 1];
      assert entries == init + [last];
      ImportRunRow(t, codes, init);
      var r := ImportRun(t, codes, init);
      var s := EntryRun(r.0, codes, last);
      EntryRunRow(r.0, codes, last);
      AllImportedGrows(r.0.words, r.0.translations, s.0.words, s.0.translations, init, r.1, last, s.1);
      assert ImportRun(t, codes, entries) == (s.0, r.1 + [s.1]);
    }
  }

  /** `ON CONFLICT DO NOTHING` keeps the translation pairs unique through the whole import. */
  lemma {:induction false} ImportRunUnique(t: ImportTables, codes: map<string, Option<int>>, entries: seq<Entry>)
    requires UniqueBy(t.translations, PairKey)
    ensures UniqueBy(ImportRun(t, codes, entries).0.translations, PairKey)
    decreases |entries|
  {
    if entries != [] {
      var init := entries[..|entries| - 1];
      ImportRunUnique(t, codes, init);
      EntryRunPairs(ImportRun(t, codes, init).0, codes, entries[|entries| - 1]);
    }
  }

  /** The importer's connection state: `langCodes` and the tables it writes. */
  class Importer {
    var langCodes: map<string, Option<int>>
    var words: seq<FlatWord>
    var examples: seq<FlatExample>
    var translations: seq<TranslationPair>
    var nextWordId: int

    constructor (words0: seq<FlatWord>, examples0: seq<FlatExample>, translations0: seq<TranslationPair>, nextWordId0: int)
      ensures langCodes == InitialCodes()
      ensures words == words0 && examples == examples0 && translations == translations0 && nextWordId == nextWordId0
    {
      langCodes := InitialCodes();
      words, examples, translations, nextWordId := words0, examples0, translations0, nextWordId0;
    }

    /** `getLanguageIds`: one assignment per returned row. */
    method GetLanguageIds(languages: seq<LanguageRow>)
      modifies this`langCodes
      ensures langCodes == CodesAfter(old(langCodes), LanguageQuery(languages))
    {
      var rows := LanguageQuery(languages);
      var i := 0;
      while i < |rows|
        invariant 0 <= i <= |rows|
        invariant langCodes == CodesAfter(old(langCodes), rows[..i])
      {
        assert rows[..i + 1][..i] == rows[..i];
        langCodes := langCodes[rows[i].code := Some(rows[i].id)];
        i := i + 1;
      }
      assert rows[..i] == rows;
    }

    method GetOrCreateWord(word: string, lang: string, difficulty: int) returns (id: int)
      modifies this`words, this`nextWordId
      ensures (TablesOf(), id) == WordStep(old(TablesOf()), langCodes, lang, word, difficulty)
    {
      var langId := LangId(langCodes, lang);
      var existing := Find(words, MatchesText(langId, word));
      if existing.Some? {
        return existing.value.id;
      }
      words := words + [NewWord(nextWordId, lang, word, langId, difficulty)];
      id := nextWordId;
      nextWordId := nextWordId + 1;
    }

    method AddExample(wordId: int, lang: string, example: Option<string>)
      modifies this`examples
      ensures examples == WithExample(old(examples), wordId, lang, example)
    {
      if example.None? || example.value == "" {
        return;
      }
      examples := examples + [NewExample(wordId, lang, example.value)];
    }

    method AddTranslation(sourceId: int, targetId: int)
      modifies this`translations
      ensures translations == WithPair(old(translations), sourceId, targetId)
    {
      if TranslationPair(sourceId, targetId) !in translations {
        translations := translations + [TranslationPair(sourceId, targetId)];
      }
    }

    /** The tables this connection writes. */
    function TablesOf(): ImportTables
      reads this`words, this`nextWordId, this`examples, this`translations
    {
      ImportTables(words, nextWordId, examples, translations)
    }

    /** The six `addTranslation` calls of one entry. */
    method AddPairs(trId: int, enId: int, ptId: int)
      modifies this`translations
      ensures translations == PairsAdded(old(translations), trId, enId, ptId)
    {
      AddTranslation(trId, enId);
      AddTranslation(enId, trId);
      AddTranslation(trId, ptId);
      AddTranslation(ptId, trId);
      AddTranslation(enId, ptId);
      AddTranslation(ptId, enId);
    }

    /** The body of the `for...of` loop of `importWords`. */
    method ImportEntry(e: Entry) returns (ghost ids: (int, int, int))
      modifies this`words, this`nextWordId, this`examples, this`translations
      ensures (TablesOf(), ids) == EntryRun(old(TablesOf()), old(langCodes), e)
    {
      ghost var t0, codes := TablesOf(), langCodes;
      var d := DifficultyOf(e);
      var trId := GetOrCreateWord(e.tr.word, "tr", d);
      ghost var a := TablesOf();
      assert (a, trId) == WordStep(t0, codes, "tr", e.tr.word, d);
      var enId := GetOrCreateWord(e.en.word, "en", d);
      ghost var b := TablesOf();
      assert (b, enId) == WordStep(a, codes, "en", e.en.word, d);
      var ptId := GetOrCreateWord(e.pt.word, "pt", d);
      ghost var c := TablesOf();
      assert (c, ptId) == WordStep(b, codes, "pt", e.pt.word, d);
      AddExample(trId, "tr", e.tr.example);
      AddExample(enId, "en", e.en.example);
      AddExample(ptId, "pt", e.pt.example);
      AddPairs(trId, enId, ptId);
      ids := (trId, enId, ptId);
      assert TablesOf() == c.(examples := WithExample(WithExample(WithExample(c.examples, trId, "tr", e.tr.example),
                                                                  enId, "en", e.en.example), ptId, "pt", e.pt.example),
                              translations := PairsAdded(c.translations, trId, enId, ptId));
    }

    /** `importWords`: resolve the languages, then import every entry and count it. */
    method ImportAll(entries: seq<Entry>, languages: seq<LanguageRow>) returns (count: nat, ghost ids: seq<(int, int, int)>)
      modifies this`langCodes, this`words, this`nextWordId, this`examples, this`translations
      ensures langCodes == CodesAfter(old(langCodes), LanguageQuery(languages))
      ensures count == |entries|
      ensures (TablesOf(), ids) == ImportRun(old(TablesOf()), langCodes, entries)
      ensures old(words) <= words && old(translations) <= translations && old(examples) <= examples
      ensures forall k :: 0 <= k < |entries| ==> EntryImported(words, translations, entries[k], ids[k])
    {
      GetLanguageIds(languages);
      count := 0;
      ids := [];
      while count < |entries|
        invariant count <= |entries|
        invariant langCodes == CodesAfter(old(langCodes), LanguageQuery(languages))
        invariant (TablesOf(), ids) == ImportRun(old(TablesOf()), langCodes, entries[..count])
      {
        assert entries[..count + 1][..count] == entries[..count];
        var entryIds := ImportEntry(entries[count]);
        ids := ids + [entryIds];
        count := count + 1;
      }
      assert entries[..count] == entries;
      ImportRunRow(old(TablesOf()), langCodes, entries);
    }
  }
}
