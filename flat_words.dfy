/**
 * The flat word schema that the SQLite routes and the word importer use: one
 * row per word with a column per language, and example rows with a column per
 * language. NULL columns are `None`.
 */
module FlatWords {
  import opened Wrappers
  import opened Seqs

  datatype FlatWord = FlatWord(
    id: int, turkish: Option<string>, portuguese: Option<string>, english: Option<string>,
    languageId: Option<int>, difficulty: int)

  datatype FlatExample = FlatExample(
    wordId: int, turkish: Option<string>, portuguese: Option<string>, english: Option<string>)

  function LookupFlatWord(words: seq<FlatWord>, id: int): (r: Option<FlatWord>)
    ensures r.Some? ==> r.value in words && r.value.id == id
    ensures r.None? <==> forall w :: w in words ==> w.id != id
  {
    Find(words, (w: FlatWord) => w.id == id)
  }

  /** The examples of one word, in table order. */
  function ExamplesOf(examples: seq<FlatExample>, wordId: int): (r: seq<FlatExample>)
    ensures forall e :: e in r <==> e in examples && e.wordId == wordId
    ensures |r| == Count(examples, (e: FlatExample) => e.wordId == wordId)
  {
    if examples == [] then []
    else
      assert examples == [examples[0]] + examples[1..];
      var rest := ExamplesOf(examples[1..], wordId);
      if examples[0].wordId == wordId then [examples[0]] + rest else rest
  }

  /**
   * What `LEFT JOIN word_examples e ON w.id = e.word_id` contributes per word:
   * one row per example, or one row of NULLs.
   */
  function ExampleJoin(examples: seq<FlatExample>, wordId: int): (r: seq<Option<FlatExample>>)
    ensures |r| >= 1
    ensures (forall e :: e in examples ==> e.wordId != wordId) <==> r == [None]
    ensures forall e :: Some(e) in r <==> e in examples && e.wordId == wordId
    ensures (exists e :: e in examples && e.wordId == wordId) ==>
      && None !in r
      && |r| == Count(examples, (e: FlatExample) => e.wordId == wordId)
      && forall i :: 0 <= i < |r| ==> r[i] == Some(ExamplesOf(examples, wordId)[i])
  {
    var es := ExamplesOf(examples, wordId);
    if es == [] then [None]
    else
      var r := seq(|es|, i requires 0 <= i < |es| => Some(es[i]));
      assert forall e :: Some(e) in r ==> e in es;
      assert forall e :: e in es ==> Some(e) in r by {
        forall e | e in es ensures Some(e) in r {
          var i :| 0 <= i < |es| && es[i] == e;
          assert r[i] == Some(e);
        }
      }
      assert r[0] == Some(es[0]);
      r
  }
}
