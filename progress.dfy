/**
 * The progress routes over the SQLite `user_word_progress` table: the mastery
 * upsert, the statistics, the listing by mastery level and the learning streak.
 * Instants are milliseconds since the epoch and days are UTC day numbers.
 */
module Progress {
  import opened Wrappers
  import opened Seqs
  import opened FlatWords

  const MsPerDay := 24 * 60 * 60 * 1000

  /** `DATE(...)` / `toISOString().split('T')[0]` of an instant, as a day number. */
  function Day(instant: int): int { instant / MsPerDay }

  datatype ProgressRow = ProgressRow(id: int, userId: int, wordId: int, mastery: int, lastReviewed: int)

  /** The key of `UNIQUE(user_id, word_id)`. */
  function Pair(x: ProgressRow): (int, int) { (x.userId, x.wordId) }

  /** `UNIQUE(user_id, word_id)`. */
  ghost predicate OneRowPerWord(rows: seq<ProgressRow>) {
    UniqueBy(rows, Pair)
  }

  predicate IsFor(r: ProgressRow, userId: int, wordId: int) { r.userId == userId && r.wordId == wordId }

  /** The user's row for a word, if any. */
  function RowFor(rows: seq<ProgressRow>, userId: int, wordId: int): (r: Option<ProgressRow>)
    ensures r.Some? ==> r.value in rows && IsFor(r.value, userId, wordId)
    ensures r.None? <==> forall x :: x in rows ==> !IsFor(x, userId, wordId)
  {
    Find(rows, (x: ProgressRow) => IsFor(x, userId, wordId))
  }

  function NotFor(userId: int, wordId: int): ProgressRow -> bool {
    (x: ProgressRow) => !IsFor(x, userId, wordId)
  }

  /**
   * `INSERT OR REPLACE`: the conflicting row is deleted and a new row, with a
   * fresh id, is appended.
   */
  function Upserted(rows: seq<ProgressRow>, id: int, userId: int, wordId: int, mastery: int, now: int)
    : seq<ProgressRow>
  {
    Filter(rows, NotFor(userId, wordId)) + [ProgressRow(id, userId, wordId, mastery, now)]
  }

  /** The upsert keeps one row per (user, word). */
  lemma UpsertKeepsOneRowPerWord(rows: seq<ProgressRow>, id: int, userId: int, wordId: int, mastery: int, now: int)
    requires OneRowPerWord(rows)
    ensures OneRowPerWord(Upserted(rows, id, userId, wordId, mastery, now))
  {
    var kept := Filter(rows, NotFor(userId, wordId));
    FilterKeepsUnique(rows, NotFor(userId, wordId), Pair);
    var r := kept + [ProgressRow(id, userId, wordId, mastery, now)];
    forall i, j | 0 <= i < j < |r| ensures Pair(r[i]) != Pair(r[j]) {
      if j < |kept| {
        assert r[i] == kept[i] && r[j] == kept[j];
      } else {
        assert r[i] in kept;
      }
    }
  }

  /** After the upsert the (user, word) row holds the new level and time; every other pair reads as before. */
  lemma UpsertReplaces(rows: seq<ProgressRow>, id: int, userId: int, wordId: int, mastery: int, now: int, u: int, w: int)
    requires OneRowPerWord(rows)
    ensures var r := Upserted(rows, id, userId, wordId, mastery, now);
      && (u == userId && w == wordId ==> RowFor(r, u, w) == Some(ProgressRow(id, userId, wordId, mastery, now)))
      && (!(u == userId && w == wordId) ==> RowFor(r, u, w) == RowFor(rows, u, w))
  {
    var kept := Filter(rows, NotFor(userId, wordId));
    var r := Upserted(rows, id, userId, wordId, mastery, now);
    var row := ProgressRow(id, userId, wordId, mastery, now);
    UpsertKeepsOneRowPerWord(rows, id, userId, wordId, mastery, now);
    if u == userId && w == wordId {
      assert r[|kept|] == row;
      OnlyRow(r, u, w, |kept|);
    } else {
      match RowFor(rows, u, w)
      case None =>
        assert forall x :: x in r ==> x in kept || x == row;
      case Some(x) =>
        assert x in kept && x in r;
        var i :| 0 <= i < |r| && r[i] == x;
        OnlyRow(r, u, w, i);
    }
  }

  /** With one row per pair, the lookup finds the one row there is. */
  lemma OnlyRow(rows: seq<ProgressRow>, u: int, w: int, i: nat)
    requires OneRowPerWord(rows) && i < |rows| && IsFor(rows[i], u, w)
    ensures RowFor(rows, u, w) == Some(rows[i])
  {
    var x := RowFor(rows, u, w).value;
    var j :| 0 <= j < |rows| && rows[j] == x;
  }

  /** The response of the POST `/word/:wordId` handler. */
  datatype Reply = Ok(message: string) | ServerError(error: string)

  /** `user_word_progress` and its AUTOINCREMENT counter. */
  class ProgressStore {
    var rows: seq<ProgressRow>
    var nextId: int

    ghost predicate Valid()
      reads this
    {
      OneRowPerWord(rows) && forall r :: r in rows ==> r.id < nextId
    }

    constructor ()
      ensures Valid() && rows == [] && nextId == 1
    {
      rows, nextId := [], 1;
    }

    /** `INSERT OR REPLACE ... VALUES (user, word, level, now)`; a failing write changes nothing. */
    method RecordMastery(userId: int, wordId: int, mastery: int, now: int, writeFails: bool) returns (reply: Reply)
      requires Valid()
      modifies this
      ensures Valid()
      ensures writeFails ==> reply == ServerError("Failed to update progress") && rows == old(rows) && nextId == old(nextId)
      ensures !writeFails ==>
        && reply == Ok("Progress updated successfully")
        && rows == Upserted(old(rows), old(nextId), userId, wordId, mastery, now)
        && nextId == old(nextId) + 1
    {
      if writeFails {
        return ServerError("Failed to update progress");
      }
      UpsertKeepsOneRowPerWord(rows, nextId, userId, wordId, mastery, now);
      rows := Upserted(rows, nextId, userId, wordId, mastery, now);
      nextId := nextId + 1;
      reply := Ok("Progress updated successfully");
    }
  }

  // ---------------------------------------------------------------------------
  // Statistics
  // ---------------------------------------------------------------------------

  function OfUser(userId: int): ProgressRow -> bool { (x: ProgressRow) => x.userId == userId }

  /** `SELECT COUNT(*) ... WHERE user_id = ?`. */
  function TotalWords(rows: seq<ProgressRow>, userId: int): (n: nat)
    ensures n <= |rows|
    ensures n == 0 <==> forall x :: x in rows ==> x.userId != userId
  {
    Count(rows, OfUser(userId))
  }

  /** One row of the `GROUP BY mastery_level` breakdown. */
  datatype Group = Group(level: int, count: nat)

  function Levels(groups: seq<Group>): seq<int> {
    seq(|groups|, i requires 0 <= i < |groups| => groups[i].level)
  }

  ghost predicate DistinctLevels(groups: seq<Group>) {
    forall i, j :: 0 <= i < j < |groups| ==> groups[i].level != groups[j].level
  }

  /** Counts one more row of the given level. */
  function Bump(groups: seq<Group>, level: int): (r: seq<Group>)
    requires DistinctLevels(groups)
    ensures DistinctLevels(r)
    ensures |r| == if level in Levels(groups) then |groups| else |groups| + 1
    ensures forall i :: 0 <= i < |groups| ==> r[i].level == groups[i].level
    ensures forall i :: 0 <= i < |groups| ==>
      r[i].count == if groups[i].level == level then groups[i].count + 1 else groups[i].count
    ensures level !in Levels(groups) ==> r[|groups|] == Group(level, 1)
  {
    if groups == [] then [Group(level, 1)]
    else if groups[0].level == level then
      assert Levels(groups)[0] == level;
      [Group(level, groups[0].count + 1)] + groups[1..]
    else
      assert Levels(groups) == [groups[0].level] + Levels(groups[1..]);
      var rest := Bump(groups[1..], level);
      assert forall j :: 0 <= j < |rest| ==> rest[j].level != groups[0].level by {
        forall j | 0 <= j < |rest| ensures rest[j].level != groups[0].level {
          if j < |groups| - 1 {
            assert rest[j].level == groups[j + 1].level;
          }
        }
      }
      [groups[0]] + rest
  }

  /** The groups of a list of levels, in order of first appearance. */
  function Tally(levels: seq<int>): (r: seq<Group>)
    ensures DistinctLevels(r)
    decreases |levels|
  {
    if levels == [] then [] else Bump(Tally(levels[..|levels| - 1]), levels[|levels| - 1])
  }

  function CountOf(levels: seq<int>, level: int): nat {
    Count(levels, (l: int) => l == level)
  }

  function SumCounts(groups: seq<Group>): nat {
    if groups == [] then 0 else groups[0].count + SumCounts(groups[1..])
  }

  lemma {:induction false} BumpSum(groups: seq<Group>, level: int)
    requires DistinctLevels(groups)
    ensures SumCounts(Bump(groups, level)) == SumCounts(groups) + 1
  {
    if groups != [] && groups[0].level != level {
      var tail := groups[1..];
      assert DistinctLevels(tail) by {
        forall i, j | 0 <= i < j < |tail| ensures tail[i].level != tail[j].level {
          assert tail[i] == groups[i + 1] && tail[j] == groups[j + 1];
        }
      }
      BumpSum(tail, level);
    }
  }

  /** The counts of the breakdown sum to the number of rows. */
  lemma {:induction false} TallySum(levels: seq<int>)
    ensures SumCounts(Tally(levels)) == |levels|
    decreases |levels|
  {
    if levels != [] {
      TallySum(levels[..|levels| - 1]);
      BumpSum(Tally(levels[..|levels| - 1]), levels[|levels| - 1]);
    }
  }

  lemma {:induction false} CountOfSnoc(levels: seq<int>, x: int, level: int)
    ensures CountOf(levels + [x], level) == CountOf(levels, level) + (if x == level then 1 else 0)
  {
    if levels == [] {
      assert [x][1..] == [];
    } else {
      assert (levels + [x])[1..] == levels[1..] + [x];
      CountOfSnoc(levels[1..], x, level);
    }
  }

  /** Every level present has a group, and only those. */
  lemma {:induction false} TallyLevels(levels: seq<int>)
    ensures forall l :: l in levels <==> l in Levels(Tally(levels))
    decreases |levels|
  {
    if levels != [] {
      var init := levels[..|levels| - 1];
      var x := levels[|levels| - 1];
      TallyLevels(init);
      assert levels == init + [x];
      var g0 := Tally(init);
      var g := Tally(levels);
      forall l ensures l in levels <==> l in Levels(g) {
        if l in Levels(g) {
          var i :| 0 <= i < |Levels(g)| && Levels(g)[i] == l;
          if i < |g0| { assert Levels(g0)[i] == l; }
        }
        if l in init {
          var i :| 0 <= i < |Levels(g0)| && Levels(g0)[i] == l;
          assert Levels(g)[i] == l;
        }
        if l == x && x !in Levels(g0) {
          assert Levels(g)[|g0|] == l;
        }
      }
    }
  }

  /** Each group counts exactly the rows of its level in `levels`, and at least one. */
  ghost predicate CountsMatch(groups: seq<Group>, levels: seq<int>) {
    forall i :: 0 <= i < |groups| ==> groups[i].count == CountOf(levels, groups[i].level) && groups[i].count >= 1
  }

  /** Counting one more row keeps every group's count exact. */
  lemma BumpCounts(g0: seq<Group>, init: seq<int>, x: int)
    requires DistinctLevels(g0) && CountsMatch(g0, init)
    requires x in Levels(g0) <==> x in init
    ensures CountsMatch(Bump(g0, x), init + [x])
  {
    var g := Bump(g0, x);
    forall i | 0 <= i < |g| ensures g[i].count == CountOf(init + [x], g[i].level) && g[i].count >= 1 {
      CountOfSnoc(init, x, g[i].level);
      if i < |g0| {
        assert g[i].level == g0[i].level;
      } else {
        assert CountOf(init, x) == 0;
      }
    }
  }

  /** Each group counts exactly the rows of its level, and at least one. */
  lemma {:induction false} TallyCounts(levels: seq<int>)
    ensures CountsMatch(Tally(levels), levels)
    decreases |levels|
  {
    if levels != [] {
      var init := levels[..|levels| - 1];
      var x := levels[|levels| - 1];
      TallyCounts(init);
      TallyLevels(init);
      assert levels == init + [x];
      BumpCounts(Tally(init), init, x);
    }
  }

  function LevelOf(x: ProgressRow): int { x.mastery }

  function Masteries(rows: seq<ProgressRow>): (r: seq<int>)
    ensures |r| == |rows|
  {
    seq(|rows|, i requires 0 <= i < |rows| => rows[i].mastery)
  }

  /**
   * `SELECT mastery_level, COUNT(*) ... GROUP BY mastery_level` for one user:
   * one group per level, and a level has a group exactly when one of the
   * user's rows is at that level.
   */
  function MasteryBreakdown(rows: seq<ProgressRow>, userId: int): (r: seq<Group>)
    ensures DistinctLevels(r)
    ensures forall l :: l in Levels(r) <==> exists x :: x in rows && x.userId == userId && x.mastery == l
  {
    var mine := Filter(rows, OfUser(userId));
    TallyLevels(Masteries(mine));
    assert forall l :: l in Masteries(mine) <==> exists x :: x in mine && x.mastery == l by {
      forall l | l in Masteries(mine) ensures exists x :: x in mine && x.mastery == l {
        var i :| 0 <= i < |mine| && Masteries(mine)[i] == l;
        assert mine[i] in mine;
      }
      forall l | exists x :: x in mine && x.mastery == l ensures l in Masteries(mine) {
        var x :| x in mine && x.mastery == l;
        var i :| 0 <= i < |mine| && mine[i] == x;
        assert Masteries(mine)[i] == l;
      }
    }
    Tally(Masteries(mine))
  }

  /** The breakdown's counts add up to `totalWords`. */
  lemma BreakdownSumsToTotal(rows: seq<ProgressRow>, userId: int)
    ensures SumCounts(MasteryBreakdown(rows, userId)) == TotalWords(rows, userId)
  {
    TallySum(Masteries(Filter(rows, OfUser(userId))));
    CountIsFilter(rows, OfUser(userId));
  }

  /** One row of `recentActivity`. */
  datatype Activity = Activity(mastery: int, turkish: Option<string>, portuguese: Option<string>, lastReviewed: int)

  /** The activity row a progress row makes once joined with its word. */
  function ActivityOf(x: ProgressRow, w: FlatWord): Activity {
    Activity(x.mastery, w.turkish, w.portuguese, x.lastReviewed)
  }

  /**
   * The user's rows joined with their word, in table order: each comes from a
   * row of the user whose word exists, and every such row makes one.
   */
  function ActivityRows(rows: seq<ProgressRow>, words: seq<FlatWord>, userId: int): (r: seq<Activity>)
    ensures forall a :: a in r ==>
      exists x :: x in rows && x.userId == userId && LookupFlatWord(words, x.wordId).Some?
        && a == ActivityOf(x, LookupFlatWord(words, x.wordId).value)
    ensures forall x :: x in rows && x.userId == userId && LookupFlatWord(words, x.wordId).Some? ==>
      ActivityOf(x, LookupFlatWord(words, x.wordId).value) in r
    ensures |r| == Count(rows, (x: ProgressRow) => x.userId == userId && LookupFlatWord(words, x.wordId).Some?)
  {
    if rows == [] then []
    else
      assert rows == [rows[0]] + rows[1..];
      var rest := ActivityRows(rows[1..], words, userId);
      var w := LookupFlatWord(words, rows[0].wordId);
      if rows[0].userId == userId && w.Some?
      then [ActivityOf(rows[0], w.value)] + rest
      else rest
  }

  function NewestFirst(a: Activity): int { -a.lastReviewed }

  /**
   * `... ORDER BY wp.last_reviewed DESC LIMIT 10`: the ten newest joined rows
   * (all of them when there are fewer), newest first; no row left out is newer
   * than one taken.
   */
  function RecentActivity(rows: seq<ProgressRow>, words: seq<FlatWord>, userId: int): (r: seq<Activity>)
    ensures |r| == Min(10, |ActivityRows(rows, words, userId)|)
    ensures multiset(r) <= multiset(ActivityRows(rows, words, userId))
    ensures forall i, j :: 0 <= i < j < |r| ==> r[i].lastReviewed >= r[j].lastReviewed
    ensures forall a, x :: a in r && x in multiset(ActivityRows(rows, words, userId)) - multiset(r) ==>
      a.lastReviewed >= x.lastReviewed
  {
    var r := SelectTop(ActivityRows(rows, words, userId), NewestFirst, 10);
    assert forall i, j :: 0 <= i < j < |r| ==> NewestFirst(r[i]) <= NewestFirst(r[j]);
    r
  }

  /** `/stats`. */
  datatype Stats = Stats(totalWords: nat, masteryBreakdown: seq<Group>, recentActivity: seq<Activity>)

  /**
   * The breakdown's counts add up to `totalWords`, and at most ten recent
   * rows come back.
   */
  function GetStats(rows: seq<ProgressRow>, words: seq<FlatWord>, userId: int): (r: Stats)
    ensures SumCounts(r.masteryBreakdown) == r.totalWords
    ensures |r.recentActivity| <= 10
  {
    BreakdownSumsToTotal(rows, userId);
    Stats(TotalWords(rows, userId), MasteryBreakdown(rows, userId), RecentActivity(rows, words, userId))
  }

  // ---------------------------------------------------------------------------
  // Words by mastery level
  // ---------------------------------------------------------------------------

  datatype MasteryWord = MasteryWord(
    id: int, turkish: Option<string>, portuguese: Option<string>, english: Option<string>,
    mastery: int, lastReviewed: int, turkishExample: Option<string>, portugueseExample: Option<string>)

  function WithExamples(w: FlatWord, x: ProgressRow, es: seq<Option<FlatExample>>): (r: seq<MasteryWord>)
    ensures |r| == |es|
    ensures forall m :: m in r ==> m.id == w.id && m.mastery == x.mastery && m.lastReviewed == x.lastReviewed
  {
    seq(|es|, i requires 0 <= i < |es| =>
      MasteryWord(w.id, w.turkish, w.portuguese, w.english, x.mastery, x.lastReviewed,
        if es[i].Some? then es[i].value.turkish else None,
        if es[i].Some? then es[i].value.portuguese else None))
  }

  predicate Listed(x: ProgressRow, userId: int, level: int) { x.userId == userId && x.mastery == level }

  /** The joined rows before ordering. */
  function MasteryRows(rows: seq<ProgressRow>, words: seq<FlatWord>, examples: seq<FlatExample>, userId: int, level: int)
    : seq<MasteryWord>
  {
    if rows == [] then []
    else
      var rest := MasteryRows(rows[1..], words, examples, userId, level);
      var x := rows[0];
      var w := LookupFlatWord(words, x.wordId);
      if Listed(x, userId, level) && w.Some? then WithExamples(w.value, x, ExampleJoin(examples, w.value.id)) + rest
      else rest
  }

  /**
   * Every joined row comes from one of the user's rows at that level, and every
   * such row whose word exists yields at least one joined row.
   */
  lemma {:induction false} MasteryRowsExact(
    rows: seq<ProgressRow>, words: seq<FlatWord>, examples: seq<FlatExample>, userId: int, level: int)
    ensures var r := MasteryRows(rows, words, examples, userId, level);
      && (forall m :: m in r ==> m.mastery == level)
      && (forall m :: m in r ==>
        exists x :: x in rows && Listed(x, userId, level) && x.wordId == m.id && x.lastReviewed == m.lastReviewed)
      && (forall x :: x in rows && Listed(x, userId, level) && LookupFlatWord(words, x.wordId).Some? ==>
        exists m :: m in r && m.id == x.wordId && m.lastReviewed == x.lastReviewed)
  {
    if rows != [] {
      MasteryRowsExact(rows[1..], words, examples, userId, level);
      assert rows == [rows[0]] + rows[1..];
      var x := rows[0];
      var w := LookupFlatWord(words, x.wordId);
      if Listed(x, userId, level) && w.Some? {
        var here := WithExamples(w.value, x, ExampleJoin(examples, w.value.id));
        var rest := MasteryRows(rows[1..], words, examples, userId, level);
        assert here[0] in here + rest;
      }
    }
  }

  function ReviewedDesc(m: MasteryWord): int { -m.lastReviewed }

  /** `/words/:masteryLevel`: the joined rows, newest review first. */
  function WordsByMastery(rows: seq<ProgressRow>, words: seq<FlatWord>, examples: seq<FlatExample>, userId: int, level: int)
    : (r: seq<MasteryWord>)
    ensures multiset(r) == multiset(MasteryRows(rows, words, examples, userId, level))
    ensures forall i, j :: 0 <= i < j < |r| ==> r[i].lastReviewed >= r[j].lastReviewed
  {
    var r := SortByKey(MasteryRows(rows, words, examples, userId, level), ReviewedDesc);
    assert forall i, j :: 0 <= i < j < |r| ==> ReviewedDesc(r[i]) <= ReviewedDesc(r[j]);
    r
  }

  /** The listing holds exactly the user's words at that level. */
  lemma WordsByMasteryExact(
    rows: seq<ProgressRow>, words: seq<FlatWord>, examples: seq<FlatExample>, userId: int, level: int)
    ensures var r := WordsByMastery(rows, words, examples, userId, level);
      && (forall m :: m in r ==> m.mastery == level)
      && (forall m :: m in r ==>
        exists x :: x in rows && Listed(x, userId, level) && x.wordId == m.id && x.lastReviewed == m.lastReviewed)
      && (forall x :: x in rows && Listed(x, userId, level) && LookupFlatWord(words, x.wordId).Some? ==>
        exists m :: m in r && m.id == x.wordId && m.lastReviewed == x.lastReviewed)
  {
    var all := MasteryRows(rows, words, examples, userId, level);
    var r := WordsByMastery(rows, words, examples, userId, level);
    MasteryRowsExact(rows, words, examples, userId, level);
    assert forall m :: m in r <==> m in all by {
      assert forall m :: m in r <==> m in multiset(r);
      assert forall m :: m in all <==> m in multiset(all);
    }
  }

  // ---------------------------------------------------------------------------
  // The learning streak
  // ---------------------------------------------------------------------------

  predicate InWindow(x: ProgressRow, userId: int, today: int) {
    x.userId == userId && Day(x.lastReviewed) >= today - 30
  }

  /** The days of the user's reviews within the window, with repetitions, in table order. */
  function WindowDays(rows: seq<ProgressRow>, userId: int, today: int): (r: seq<int>)
    ensures forall d :: d in r <==> exists x :: x in rows && InWindow(x, userId, today) && Day(x.lastReviewed) == d
  {
    if rows == [] then []
    else
      assert rows == [rows[0]] + rows[1..];
      var rest := WindowDays(rows[1..], userId, today);
      if InWindow(rows[0], userId, today) then [Day(rows[0].lastReviewed)] + rest else rest
  }

  /** Keeps the first occurrence of each value. */
  function Distinct(s: seq<int>): (r: seq<int>)
    ensures forall x :: x in r <==> x in s
    ensures forall i, j :: 0 <= i < j < |r| ==> r[i] != r[j]
  {
    if s == [] then []
    else
      var rest := Distinct(s[1..]);
      assert s == [s[0]] + s[1..];
      if s[0] in rest then rest else [s[0]] + rest
  }

  function Descending(d: int): int { -d }

  /** `SELECT DISTINCT DATE(last_reviewed) ... ORDER BY review_date DESC` over the last 30 days. */
  function ReviewDays(rows: seq<ProgressRow>, userId: int, today: int): (r: seq<int>)
    ensures forall d :: d in r <==> d in WindowDays(rows, userId, today)
    ensures forall i, j :: 0 <= i < j < |r| ==> r[i] > r[j]
  {
    var ds := Distinct(WindowDays(rows, userId, today));
    var r := SortByKey(ds, Descending);
    assert forall d :: d in r <==> d in multiset(ds);
    StrictlyDescending(ds, r);
    r
  }

  lemma StrictlyDescending(ds: seq<int>, r: seq<int>)
    requires forall a, b :: 0 <= a < b < |ds| ==> ds[a] != ds[b]
    requires multiset(r) == multiset(ds) && SortedBy(r, Descending)
    ensures forall i, j :: 0 <= i < j < |r| ==> r[i] > r[j]
  {
    forall i, j | 0 <= i < j < |r| ensures r[i] > r[j] {
      assert Descending(r[i]) <= Descending(r[j]);
      DistinctStaysDistinct(ds, r, i, j);
    }
  }

  lemma DistinctStaysDistinct(ds: seq<int>, r: seq<int>, i: nat, j: nat)
    requires forall a, b :: 0 <= a < b < |ds| ==> ds[a] != ds[b]
    requires multiset(r) == multiset(ds) && i < j < |r|
    ensures r[i] != r[j]
  {
    if r[i] == r[j] {
      var x := r[i];
      assert r == r[..i] + [x] + r[i + 1..j] + [x] + r[j + 1..];
      assert multiset(r)[x] >= 2;
      DistinctCountOne(ds, x);
    }
  }

  lemma {:induction false} DistinctCountOne(ds: seq<int>, x: int)
    requires forall a, b :: 0 <= a < b < |ds| ==> ds[a] != ds[b]
    ensures multiset(ds)[x] <= 1
  {
    if ds != [] {
      var tail := ds[1..];
      assert ds == [ds[0]] + tail;
      assert forall a, b :: 0 <= a < b < |tail| ==> tail[a] != tail[b] by {
        forall a, b | 0 <= a < b < |tail| ensures tail[a] != tail[b] {
          assert tail[a] == ds[a + 1] && tail[b] == ds[b + 1];
        }
      }
      DistinctCountOne(tail, x);
    }
  }

  /** The run of consecutive review days `day, day - 1, ...`, counting at most `limit` of them. */
  function RunLength(days: seq<int>, day: int, limit: nat): (n: nat)
    decreases limit
    ensures n <= limit
    ensures forall d :: day - n < d <= day ==> d in days
    ensures n < limit ==> day - n !in days
  {
    if limit == 0 || day !in days then 0 else 1 + RunLength(days, day - 1, limit - 1)
  }

  /** The run length is determined by where the first gap is. */
  lemma RunLengthIs(days: seq<int>, day: int, limit: nat, n: nat)
    requires n <= limit
    requires forall d :: day - n < d <= day ==> d in days
    requires n == limit || day - n !in days
    ensures RunLength(days, day, limit) == n
  {
  }

  /**
   * The streak as the handler defines it: counted from today when today has a
   * review (checking up to 30 earlier days), else from yesterday (checking up to
   * 29 earlier days), else 0.
   */
  function StreakOf(days: seq<int>, today: int): (n: nat)
    ensures n == 0 <==> today !in days && today - 1 !in days
    ensures today in days ==> n <= 31
    ensures today !in days ==> n <= 30
  {
    if today in days then 1 + RunLength(days, today - 1, 30)
    else if today - 1 in days then 1 + RunLength(days, today - 2, 29)
    else 0
  }

  /** The streak is the number of consecutive review days ending today or yesterday, capped by the window. */
  lemma StreakIsRun(days: seq<int>, today: int)
    ensures today in days ==> StreakOf(days, today) == RunLength(days, today, 31)
    ensures today !in days && today - 1 in days ==> StreakOf(days, today) == RunLength(days, today - 1, 30)
  {
  }

  datatype StreakReport = StreakReport(currentStreak: nat, totalDays: nat, lastActivity: Option<int>)

  /** The two `for` loops with `break` of the `/streak` handler. */
  method CurrentStreak(reviewDates: seq<int>, today: int) returns (streak: nat)
    ensures streak == StreakOf(reviewDates, today)
  {
    streak := 0;
    if today in reviewDates {
      streak := 1;
      var i := 1;
      while i <= 30
        invariant 1 <= i <= 31
        invariant streak == i
        invariant forall d :: today - i < d < today ==> d in reviewDates
      {
        if today - i in reviewDates {
          streak := streak + 1;
        } else {
          RunLengthIs(reviewDates, today - 1, 30, i - 1);
          return;
        }
        i := i + 1;
      }
      RunLengthIs(reviewDates, today - 1, 30, 30);
    } else if today - 1 in reviewDates {
      streak := 1;
      var i := 2;
      while i <= 30
        invariant 2 <= i <= 31
        invariant streak == i - 1
        invariant forall d :: today - i < d < today - 1 ==> d in reviewDates
      {
        if today - i in reviewDates {
          streak := streak + 1;
        } else {
          RunLengthIs(reviewDates, today - 2, 29, i - 2);
          return;
        }
        i := i + 1;
      }
      RunLengthIs(reviewDates, today - 2, 29, 29);
    }
  }

  /** `/streak`. */
  method GetStreak(rows: seq<ProgressRow>, userId: int, today: int) returns (report: StreakReport)
    ensures report.currentStreak == StreakOf(ReviewDays(rows, userId, today), today)
    ensures report.totalDays == |ReviewDays(rows, userId, today)|
    ensures report.lastActivity.None? <==> forall x :: x in rows ==> !InWindow(x, userId, today)
    ensures report.lastActivity.Some? ==>
      report.lastActivity.value in ReviewDays(rows, userId, today)
      && forall d :: d in ReviewDays(rows, userId, today) ==> d <= report.lastActivity.value
  {
    var dates := ReviewDays(rows, userId, today);
    var streak := CurrentStreak(dates, today);
    var last := if |dates| > 0 then Some(dates[0]) else None;
    forall x | x in rows && InWindow(x, userId, today) ensures Day(x.lastReviewed) in dates {
      assert Day(x.lastReviewed) in WindowDays(rows, userId, today);
    }
    if dates != [] {
      assert dates[0] in WindowDays(rows, userId, today);
      forall d | d in dates ensures d <= dates[0] {
        var i :| 0 <= i < |dates| && dates[i] == d;
      }
    }
    report := StreakReport(streak, |dates|, last);
  }
}
