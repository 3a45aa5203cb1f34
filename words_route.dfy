/**
 * GET `/api/words` and GET `/api/words/difficulty-levels`: the level-name
 * mapping, the difficulty filter with `LIMIT`, and the per-row choice of the
 * source and target columns.
 */
module WordsRoute {
  import opened Wrappers
  import opened Seqs
  import opened FlatWords

  /** The query string; an absent parameter is `None`. */
  datatype WordsQuery = WordsQuery(source: Option<string>, target: Option<string>, level: Option<string>, count: Option<int>)

  /** The query after its destructuring defaults. */
  datatype Params = Params(source: string, target: string, level: string, count: int)

  function WithDefaults(q: WordsQuery): (p: Params)
    ensures q.source.None? ==> p.source == "tr"
    ensures q.target.None? ==> p.target == "pt"
    ensures q.level.None? ==> p.level == "beginner"
    ensures q.count.None? ==> p.count == 5
    ensures q.source.Some? ==> p.source == q.source.value
    ensures q.target.Some? ==> p.target == q.target.value
    ensures q.level.Some? ==> p.level == q.level.value
    ensures q.count.Some? ==> p.count == q.count.value
  {
    Params(q.source.GetOr("tr"), q.target.GetOr("pt"), q.level.GetOr("beginner"), q.count.GetOr(5))
  }

  /** The level name to `difficulty_level`; anything unrecognised is a beginner. */
  function DifficultyOf(level: string): (d: int)
    ensures 1 <= d <= 3
    ensures d == 2 <==> level == "intermediate"
    ensures d == 3 <==> level == "advanced"
  {
    if level == "advanced" then 3 else if level == "intermediate" then 2 else 1
  }

  datatype DifficultyLevel = DifficultyLevel(id: int, name: string, displayName: string)

  /** The fixed answer of `/difficulty-levels`. */
  function DifficultyLevels(): (r: seq<DifficultyLevel>)
    ensures |r| == 3
    ensures forall i :: 0 <= i < 3 ==> r[i].id == i + 1
    ensures r[0].name == "beginner" && r[0].displayName == "Beginner"
    ensures r[1].name == "intermediate" && r[1].displayName == "Intermediate"
    ensures r[2].name == "advanced" && r[2].displayName == "Advanced"
  {
    [ DifficultyLevel(1, "beginner", "Beginner"),
      DifficultyLevel(2, "intermediate", "Intermediate"),
      DifficultyLevel(3, "advanced", "Advanced") ]
  }

  /** The names that `/difficulty-levels` lists are the ones GET `/` maps back to their ids. */
  lemma LevelNamesRoundTrip()
    ensures forall l :: l in DifficultyLevels() ==> DifficultyOf(l.name) == l.id
  {
    var ls := DifficultyLevels();
    assert ls[0].name == "beginner" && DifficultyOf("beginner") == 1 by {
      assert "beginner" != "advanced" && "beginner" != "intermediate";
    }
  }

  /** One row of `words LEFT JOIN word_examples`. */
  datatype JoinedRow = JoinedRow(word: FlatWord, example: Option<FlatExample>)

  /** The joined rows of the words at one difficulty, in table order. */
  function JoinedRows(words: seq<FlatWord>, examples: seq<FlatExample>, difficulty: int): (r: seq<JoinedRow>)
    ensures forall x :: x in r ==> x.word in words && x.word.difficulty == difficulty
    ensures forall x :: x in r ==> x.example.None? || (x.example.value in examples && x.example.value.wordId == x.word.id)
  {
    if words == [] then []
    else
      assert words == [words[0]] + words[1..];
      var rest := JoinedRows(words[1..], examples, difficulty);
      if words[0].difficulty == difficulty then
        var es := ExampleJoin(examples, words[0].id);
        var here := seq(|es|, i requires 0 <= i < |es| => JoinedRow(words[0], es[i]));
        assert forall x :: x in here ==> x.example in es;
        here + rest
      else rest
  }

  /** Every word at that difficulty has at least one joined row. */
  lemma {:induction false} JoinedRowsComplete(words: seq<FlatWord>, examples: seq<FlatExample>, difficulty: int, w: FlatWord)
    requires w in words && w.difficulty == difficulty
    ensures exists x :: x in JoinedRows(words, examples, difficulty) && x.word == w
  {
    var rest := JoinedRows(words[1..], examples, difficulty);
    if words[0] == w {
      var es := ExampleJoin(examples, w.id);
      var here := seq(|es|, i requires 0 <= i < |es| => JoinedRow(w, es[i]));
      assert JoinedRows(words, examples, difficulty) == here + rest;
      assert here[0] in here + rest;
    } else {
      assert w in words[1..];
      JoinedRowsComplete(words[1..], examples, difficulty, w);
      var x :| x in rest && x.word == w;
      assert x in JoinedRows(words, examples, difficulty);
    }
  }

  /**
   * `ORDER BY RANDOM() LIMIT ?`: the rows ordered by a key drawn per row, then
   * cut to the limit; a negative limit in SQLite means no limit.
   */
  function Limited(rows: seq<JoinedRow>, randomKey: JoinedRow -> int, limit: int): (r: seq<JoinedRow>)
    ensures limit >= 0 ==> |r| == Min(limit, |rows|)
    ensures limit < 0 ==> |r| == |rows|
    ensures multiset(r) <= multiset(rows)
    ensures forall x :: x in r ==> x in rows
  {
    if limit < 0 then
      var r := SortByKey(rows, randomKey);
      assert forall x :: x in r ==> x in multiset(rows);
      r
    else SelectTop(rows, randomKey, limit)
  }

  /** One word as the frontend receives it; `None` is JSON `null`. */
  datatype WordEntry = WordEntry(
    id: int, sourceWord: Option<string>, targetWord: Option<string>, difficulty: int,
    sourceExample: string, targetExample: string)

  /** The column named by a language code, or `''` for any other code. */
  function ByCode(code: string, turkish: Option<string>, portuguese: Option<string>, english: Option<string>)
    : (r: Option<string>)
    ensures code !in ["tr", "pt", "en"] ==> r == Some("")
  {
    if code == "tr" then turkish else if code == "pt" then portuguese else if code == "en" then english else Some("")
  }

  /** `x || ''` on a nullable string. */
  function OrEmpty(x: Option<string>): (r: string)
    ensures x.Some? ==> r == x.value
    ensures x.None? ==> r == ""
  {
    if x.Some? then x.value else ""
  }

  function ExampleColumn(code: string, e: Option<FlatExample>): Option<string> {
    if e.None? then None else ByCode(code, e.value.turkish, e.value.portuguese, e.value.english)
  }

  /** The body of `rows.map(row => ...)`. */
  function ToEntry(row: JoinedRow, source: string, target: string): (r: WordEntry)
    ensures r.id == row.word.id && r.difficulty == row.word.difficulty
  {
    var w := row.word;
    WordEntry(w.id,
      ByCode(source, w.turkish, w.portuguese, w.english),
      ByCode(target, w.turkish, w.portuguese, w.english),
      w.difficulty,
      OrEmpty(ExampleColumn(source, row.example)),
      OrEmpty(ExampleColumn(target, row.example)))
  }

  /** The word columns follow the codes; an unknown code gives `''`; a missing example gives `''`. */
  lemma ToEntryColumns(row: JoinedRow, source: string, target: string)
    ensures var r := ToEntry(row, source, target);
      && (source == "tr" ==> r.sourceWord == row.word.turkish)
      && (source == "pt" ==> r.sourceWord == row.word.portuguese)
      && (source == "en" ==> r.sourceWord == row.word.english)
      && (target == "tr" ==> r.targetWord == row.word.turkish)
      && (target == "pt" ==> r.targetWord == row.word.portuguese)
      && (target == "en" ==> r.targetWord == row.word.english)
      && (source !in ["tr", "pt", "en"] ==> r.sourceWord == Some("") && r.sourceExample == "")
      && (target !in ["tr", "pt", "en"] ==> r.targetWord == Some("") && r.targetExample == "")
      && (row.example.None? ==> r.sourceExample == "" && r.targetExample == "")
      && (source == "tr" && row.example.Some? ==> r.sourceExample == OrEmpty(row.example.value.turkish))
      && (source == "pt" && row.example.Some? ==> r.sourceExample == OrEmpty(row.example.value.portuguese))
      && (source == "en" && row.example.Some? ==> r.sourceExample == OrEmpty(row.example.value.english))
      && (target == "tr" && row.example.Some? ==> r.targetExample == OrEmpty(row.example.value.turkish))
      && (target == "pt" && row.example.Some? ==> r.targetExample == OrEmpty(row.example.value.portuguese))
      && (target == "en" && row.example.Some? ==> r.targetExample == OrEmpty(row.example.value.english))
  {
  }

  /** Swapping the two codes swaps the two sides of every entry. */
  lemma ToEntrySwap(row: JoinedRow, source: string, target: string)
    ensures var a := ToEntry(row, source, target);
      var b := ToEntry(row, target, source);
      a.sourceWord == b.targetWord && a.targetWord == b.sourceWord
      && a.sourceExample == b.targetExample && a.targetExample == b.sourceExample
  {
  }

  function ToEntries(rows: seq<JoinedRow>, source: string, target: string): (r: seq<WordEntry>)
    ensures |r| == |rows|
    ensures forall i :: 0 <= i < |rows| ==> r[i] == ToEntry(rows[i], source, target)
  {
    seq(|rows|, i requires 0 <= i < |rows| => ToEntry(rows[i], source, target))
  }

  /**
   * GET `/api/words`: one entry per matching row the `LIMIT` lets through, so
   * `count` entries when there are enough words at the level, and every one
   * when `count` is negative (`LIMIT -1` in SQLite).
   */
  function GetWords(words: seq<FlatWord>, examples: seq<FlatExample>, q: WordsQuery, randomKey: JoinedRow -> int)
    : (r: seq<WordEntry>)
    ensures var p := WithDefaults(q);
      var matching := |JoinedRows(words, examples, DifficultyOf(p.level))|;
      |r| == if p.count >= 0 then Min(p.count, matching) else matching
  {
    var p := WithDefaults(q);
    var rows := Limited(JoinedRows(words, examples, DifficultyOf(p.level)), randomKey, p.count);
    ToEntries(rows, p.source, p.target)
  }

  /**
   * Every entry is a word at the requested difficulty, there are at most
   * `count` of them, and with no parameters the answer is five beginner words
   * from Turkish to Portuguese.
   */
  lemma GetWordsSelects(words: seq<FlatWord>, examples: seq<FlatExample>, q: WordsQuery, randomKey: JoinedRow -> int)
    ensures var r := GetWords(words, examples, q, randomKey);
      var p := WithDefaults(q);
      && (p.count >= 0 ==> |r| <= p.count)
      && (forall e :: e in r ==> e.difficulty == DifficultyOf(p.level))
      && (forall e :: e in r ==> exists w :: w in words && w.id == e.id && w.difficulty == e.difficulty)
      && (q == WordsQuery(None, None, None, None) ==> |r| <= 5 && forall e :: e in r ==> e.difficulty == 1)
  {
    var p := WithDefaults(q);
    var joined := JoinedRows(words, examples, DifficultyOf(p.level));
    var rows := Limited(joined, randomKey, p.count);
    var r := GetWords(words, examples, q, randomKey);
    forall e | e in r
      ensures e.difficulty == DifficultyOf(p.level) && exists w :: w in words && w.id == e.id && w.difficulty == e.difficulty
    {
      var i :| 0 <= i < |r| && r[i] == e;
      assert rows[i] in joined;
    }
  }

  /** When the table has enough rows at that difficulty, exactly `count` come back. */
  lemma GetWordsFillsLimit(words: seq<FlatWord>, examples: seq<FlatExample>, q: WordsQuery, randomKey: JoinedRow -> int)
    requires 0 <= WithDefaults(q).count <= |JoinedRows(words, examples, DifficultyOf(WithDefaults(q).level))|
    ensures |GetWords(words, examples, q, randomKey)| == WithDefaults(q).count
  {
  }
}
