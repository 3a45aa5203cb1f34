/**
 * The background job: the per-user daily word-set generation (existing-set
 * check, candidate query, set, items, queue entry), the loop over all
 * subscribers, and the processor object that hosts both jobs. Day numbers stand
 * for dates; `today` is the date the job runs on.
 */
module EmailProcessor {
  import opened Wrappers
  import opened Seqs
  import opened Store
  import EmailService

  /** One row of the subscribed-users query. */
  datatype Subscriber = Subscriber(
    id: int, sourceLanguageId: int, targetLanguageId: int, difficultyLevelId: int, wordsPerDay: Option<int>)

  /** The join condition and the filter of the subscribed-users query. */
  predicate Subscribes(u: User, p: Preference) {
    u.id == p.userId && p.emailSubscribed && u.isActive
  }

  function SubscriberOf(u: User, p: Preference): Subscriber {
    Subscriber(u.id, p.sourceLanguageId, p.targetLanguageId, p.difficultyLevelId, p.wordsPerDay)
  }

  /** The join rows of one user: one per subscribed preference row, so two such rows give two subscribers. */
  function SubscriptionsOf(u: User, prefs: seq<Preference>): (r: seq<Subscriber>)
    ensures forall s :: s in r <==> exists p :: p in prefs && Subscribes(u, p) && s == SubscriberOf(u, p)
    ensures |r| == Count(prefs, (p: Preference) => Subscribes(u, p))
  {
    if prefs == [] then []
    else
      assert prefs == [prefs[0]] + prefs[1..];
      var rest := SubscriptionsOf(u, prefs[1..]);
      if Subscribes(u, prefs[0]) then [SubscriberOf(u, prefs[0])] + rest else rest
  }

  /** `users JOIN user_preferences` restricted to subscribed, active users. */
  function SubscribedUsers(users: seq<User>, prefs: seq<Preference>): (r: seq<Subscriber>)
    ensures forall s :: s in r <==>
      exists u, p :: u in users && p in prefs && Subscribes(u, p) && s == SubscriberOf(u, p)
  {
    if users == [] then []
    else
      assert users == [users[0]] + users[1..];
      SubscriptionsOf(users[0], prefs) + SubscribedUsers(users[1..], prefs)
  }

  /** `recent_words`: the translation was in one of the user's sets dated within the last 7 days. */
  predicate RecentlySent(cat: Catalog, userId: int, today: int, translationId: int) {
    exists it, s :: it in cat.items && s in cat.sets
      && it.setId == s.id && s.userId == userId && s.date >= today - 7 && it.translationId == translationId
  }

  /** `user_progress` joined on the word: the user's mastery of it, if any. */
  function MasteryOf(progress: seq<Progress>, userId: int, wordId: int): (r: Option<int>)
    ensures r.Some? ==> Progress(userId, wordId, r.value) in progress
    ensures r.None? <==> forall p :: p in progress ==> !(p.userId == userId && p.wordId == wordId)
  {
    match Find(progress, (p: Progress) => p.userId == userId && p.wordId == wordId)
    case Some(p) => Some(p.mastery)
    case None => None
  }

  /** The inner joins of the candidate query for one translation: both words and the source word's level. */
  function JoinedWords(cat: Catalog, t: Translation): (r: Option<(Word, Word, Level)>)
    ensures r.Some? ==>
      && r.value.0 in cat.words && r.value.0.id == t.sourceWordId
      && r.value.1 in cat.words && r.value.1.id == t.targetWordId
      && r.value.2 in cat.levels && r.value.0.difficultyLevelId == Some(r.value.2.id)
  {
    match (LookupWord(cat.words, t.sourceWordId), LookupWord(cat.words, t.targetWordId))
    case (Some(w1), Some(w2)) =>
      if w1.difficultyLevelId.None? then None
      else
        (match LookupLevel(cat.levels, w1.difficultyLevelId.value)
         case Some(l) => Some((w1, w2, l))
         case None => None)
    case _ => None
  }

  /** The `WHERE` clause of the candidate query. */
  predicate Qualifies(cat: Catalog, sub: Subscriber, today: int, t: Translation) {
    match JoinedWords(cat, t)
    case None => false
    case Some((w1, w2, _)) =>
      && w1.languageId == sub.sourceLanguageId
      && w2.languageId == sub.targetLanguageId
      && w1.difficultyLevelId == Some(sub.difficultyLevelId)
      && !RecentlySent(cat, sub.id, today, t.id)
      && (MasteryOf(cat.progress, sub.id, w1.id).None? || MasteryOf(cat.progress, sub.id, w1.id).value < 4)
      && t.verified
  }

  /** One row of the candidate query (pronunciations left out). */
  datatype Candidate = Candidate(
    t: Translation, source: Word, target: Word, level: Level,
    sourceExample: Option<string>, targetExample: Option<string>)

  /** The rows the two example LEFT JOINs make of one qualifying translation. */
  function ExampleRows(t: Translation, w1: Word, w2: Word, l: Level, e1s: seq<Option<string>>, e2s: seq<Option<string>>)
    : (r: seq<Candidate>)
    ensures |e1s| >= 1 && |e2s| >= 1 ==> |r| >= 1
    ensures forall c :: c in r ==>
      c.t == t && c.source == w1 && c.target == w2 && c.level == l && c.sourceExample in e1s && c.targetExample in e2s
  {
    if e1s == [] then []
    else
      var here := seq(|e2s|, j requires 0 <= j < |e2s| => Candidate(t, w1, w2, l, e1s[0], e2s[j]));
      assert forall c :: c in here ==> c.targetExample in e2s;
      here + ExampleRows(t, w1, w2, l, e1s[1..], e2s)
  }

  /** The LEFT JOINs make the cross product: one row per pair of examples. */
  lemma {:induction false} ExampleRowsCount(t: Translation, w1: Word, w2: Word, l: Level,
                                            e1s: seq<Option<string>>, e2s: seq<Option<string>>)
    ensures |ExampleRows(t, w1, w2, l, e1s, e2s)| == |e1s| * |e2s|
    decreases |e1s|
  {
    if e1s != [] {
      ExampleRowsCount(t, w1, w2, l, e1s[1..], e2s);
      assert |e1s| * |e2s| == |e2s| + |e1s[1..]| * |e2s|;
    }
  }

  /** Row `i * |e2s| + j` of the cross product pairs example `i` of the first word with example `j` of the second. */
  lemma {:induction false} ExampleRowsAt(t: Translation, w1: Word, w2: Word, l: Level,
                                         e1s: seq<Option<string>>, e2s: seq<Option<string>>, i: int, j: int)
    requires 0 <= i < |e1s| && 0 <= j < |e2s|
    ensures var r := ExampleRows(t, w1, w2, l, e1s, e2s);
      i * |e2s| + j < |r| && r[i * |e2s| + j] == Candidate(t, w1, w2, l, e1s[i], e2s[j])
    decreases |e1s|
  {
    ExampleRowsCount(t, w1, w2, l, e1s, e2s);
    RowMajor(i, j, |e1s|, |e2s|);
    var here := seq(|e2s|, j requires 0 <= j < |e2s| => Candidate(t, w1, w2, l, e1s[0], e2s[j]));
    var rest := ExampleRows(t, w1, w2, l, e1s[1..], e2s);
    assert ExampleRows(t, w1, w2, l, e1s, e2s) == here + rest;
    if i > 0 {
      ExampleRowsAt(t, w1, w2, l, e1s[1..], e2s, i - 1, j);
      var k := (i - 1) * |e2s| + j;
      assert (here + rest)[|here| + k] == rest[k];
    }
  }

  function TranslationRows(cat: Catalog, sub: Subscriber, today: int, t: Translation): seq<Candidate> {
    if !Qualifies(cat, sub, today, t) then []
    else
      var (w1, w2, l) := JoinedWords(cat, t).value;
      ExampleRows(t, w1, w2, l, ExampleChoices(cat.examples, w1.id), ExampleChoices(cat.examples, w2.id))
  }

  /** A qualifying translation contributes at least one row, and every row it contributes is its own. */
  lemma TranslationRowsExact(cat: Catalog, sub: Subscriber, today: int, t: Translation)
    ensures Qualifies(cat, sub, today, t) ==> |TranslationRows(cat, sub, today, t)| >= 1
    ensures forall c :: c in TranslationRows(cat, sub, today, t) ==>
      && c.t == t && Qualifies(cat, sub, today, t)
      && JoinedWords(cat, t) == Some((c.source, c.target, c.level))
      && c.sourceExample in ExampleChoices(cat.examples, c.source.id)
      && c.targetExample in ExampleChoices(cat.examples, c.target.id)
  {
  }

  /** The candidate query before `ORDER BY ... LIMIT`. */
  function CandidateRows(cat: Catalog, sub: Subscriber, today: int, ts: seq<Translation>): seq<Candidate> {
    if ts == [] then []
    else TranslationRows(cat, sub, today, ts[0]) + CandidateRows(cat, sub, today, ts[1..])
  }

  /** The candidate rows are sound and complete for the `WHERE` clause and the joins. */
  lemma {:induction false} CandidateRowsExact(cat: Catalog, sub: Subscriber, today: int, ts: seq<Translation>)
    ensures forall c :: c in CandidateRows(cat, sub, today, ts) ==>
      && c.t in ts && Qualifies(cat, sub, today, c.t)
      && JoinedWords(cat, c.t) == Some((c.source, c.target, c.level))
      && c.sourceExample in ExampleChoices(cat.examples, c.source.id)
      && c.targetExample in ExampleChoices(cat.examples, c.target.id)
    ensures forall t :: t in ts && Qualifies(cat, sub, today, t) ==>
      exists c :: c in CandidateRows(cat, sub, today, ts) && c.t == t
  {
    if ts != [] {
      CandidateRowsExact(cat, sub, today, ts[1..]);
      TranslationRowsExact(cat, sub, today, ts[0]);
      assert ts == [ts[0]] + ts[1..];
      var here := TranslationRows(cat, sub, today, ts[0]);
      var rest := CandidateRows(cat, sub, today, ts[1..]);
      assert CandidateRows(cat, sub, today, ts) == here + rest;
      assert Qualifies(cat, sub, today, ts[0]) ==> here[0] in here + rest && here[0].t == ts[0];
    }
  }

  function RankOf(c: Candidate): int { c.source.frequencyRank }

  /** A negative `LIMIT` makes PostgreSQL reject the candidate query. */
  predicate NegativeLimit(sub: Subscriber) {
    sub.wordsPerDay.Some? && sub.wordsPerDay.value < 0
  }

  /** The number of rows `LIMIT words_per_day` lets through from `n`: all of them for `LIMIT NULL`. */
  function RowsAllowed(wordsPerDay: Option<int>, n: nat): nat {
    match wordsPerDay
    case None => n
    case Some(k) => if k < 0 then 0 else k
  }

  /** `ORDER BY w1.frequency_rank ASC, RANDOM() LIMIT words_per_day`. */
  function Selection(cat: Catalog, sub: Subscriber, today: int): (r: seq<Candidate>)
    ensures forall c :: c in r ==> c.t in cat.translations && Qualifies(cat, sub, today, c.t)
    ensures forall i, j :: 0 <= i < j < |r| ==> r[i].source.frequencyRank <= r[j].source.frequencyRank
  {
    var pool := CandidateRows(cat, sub, today, cat.translations);
    CandidateRowsExact(cat, sub, today, cat.translations);
    SelectTop(pool, RankOf, RowsAllowed(sub.wordsPerDay, |pool|))
  }

  /**
   * The selection holds as many qualifying rows as the quota allows (all of
   * them when the quota is NULL), each for a qualifying translation, in
   * ascending frequency rank; it is empty only when no translation qualifies
   * or the quota is not positive (a negative quota never gets here: the query
   * raises first).
   */
  lemma SelectionQualifies(cat: Catalog, sub: Subscriber, today: int)
    ensures var r := Selection(cat, sub, today);
      var pool := CandidateRows(cat, sub, today, cat.translations);
      && (sub.wordsPerDay.None? ==> |r| == |pool|)
      && (sub.wordsPerDay.Some? && sub.wordsPerDay.value >= 0 ==> |r| == Min(sub.wordsPerDay.value, |pool|))
      && (forall c :: c in r ==> c.t in cat.translations && Qualifies(cat, sub, today, c.t))
      && (forall i, j :: 0 <= i < j < |r| ==> r[i].source.frequencyRank <= r[j].source.frequencyRank)
      && (r == [] <==> (sub.wordsPerDay.Some? && sub.wordsPerDay.value <= 0)
                       || forall t :: t in cat.translations ==> !Qualifies(cat, sub, today, t))
  {
    var pool := CandidateRows(cat, sub, today, cat.translations);
    var r := Selection(cat, sub, today);
    CandidateRowsExact(cat, sub, today, cat.translations);
    if r != [] {
      assert r[0] in pool;
    }
  }

  /** No candidate row left out of the selection ranks below one that was taken. */
  lemma SelectionTakesLowestRanks(cat: Catalog, sub: Subscriber, today: int, c: Candidate, x: Candidate)
    requires c in Selection(cat, sub, today)
    requires x in CandidateRows(cat, sub, today, cat.translations) && x !in Selection(cat, sub, today)
    ensures c.source.frequencyRank <= x.source.frequencyRank
  {
    var pool := CandidateRows(cat, sub, today, cat.translations);
    var r := Selection(cat, sub, today);
    assert x in multiset(pool) - multiset(r);
  }

  /** The `word_set_items` rows of a new set: one per selected row, `sort_order` its position. */
  function ItemsFor(setId: int, rows: seq<Candidate>): (r: seq<SetItem>)
    ensures |r| == |rows|
    ensures forall i :: 0 <= i < |rows| ==>
      r[i].setId == setId && r[i].translationId == rows[i].t.id && r[i].sortOrder == i
  {
    seq(|rows|, i requires 0 <= i < |rows| => SetItem(setId, rows[i].t.id, i))
  }

  // ---------------------------------------------------------------------------
  // Generation for one subscriber
  // ---------------------------------------------------------------------------

  /** The statement of `generateUserDailyWordSet` at which a database error is raised. */
  datatype GenStep = ExistingCheck | CandidateQuery | InsertSet | InsertItem(k: nat) | Enqueue

  datatype GenOutcome = AlreadyExists | NoSuitableWords | Generated(setId: int, count: nat) | Raised(step: GenStep)

  /** What the generation reads and writes. */
  datatype Tables = Tables(cat: Catalog, queue: seq<QueueEntry>, nextSetId: int, nextQueueId: int)

  datatype GenResult = GenResult(tables: Tables, outcome: GenOutcome)

  function TablesOf(db: Database): Tables
    reads db`users, db`prefs, db`languages, db`levels, db`words
    reads db`translations, db`examples, db`progress, db`sets, db`items
    reads db`queue, db`nextSetId, db`nextQueueId
  {
    Tables(db.Snapshot(), db.queue, db.nextSetId, db.nextQueueId)
  }

  /** How many items are inserted before the fault, if the fault is at an item. */
  function ItemsBeforeFault(n: nat, fault: Option<GenStep>): (k: nat)
    ensures k <= n
    ensures k < n <==> fault.Some? && fault.value.InsertItem? && fault.value.k < n
  {
    if fault.Some? && fault.value.InsertItem? && fault.value.k < n then fault.value.k else n
  }

  predicate SetIdsBelow(sets: seq<WordSet>, next: int) {
    forall s :: s in sets ==> s.id < next
  }

  function PendingEntry(id: int, userId: int, setId: int, now: int): QueueEntry {
    QueueEntry(id, userId, setId, Pending, 0, None, None, now)
  }

  /** The writes from the set insert on: the set, the items up to a fault, then the queue entry. */
  function Insertions(t: Tables, sub: Subscriber, today: int, now: int, sel: seq<Candidate>, fault: Option<GenStep>)
    : GenResult
  {
    var ws := WordSet(t.nextSetId, sub.id, today, sub.sourceLanguageId, sub.targetLanguageId, sub.difficultyLevelId);
    var k := ItemsBeforeFault(|sel|, fault);
    var cat := t.cat.(sets := t.cat.sets + [ws], items := t.cat.items + ItemsFor(ws.id, sel)[..k]);
    var t1 := t.(cat := cat, nextSetId := t.nextSetId + 1);
    if k < |sel| then GenResult(t1, Raised(InsertItem(k)))
    else if fault == Some(Enqueue) then GenResult(t1, Raised(Enqueue))
    else GenResult(t1.(queue := t.queue + [PendingEntry(t.nextQueueId, sub.id, ws.id, now)],
                       nextQueueId := t.nextQueueId + 1),
                   Generated(ws.id, |sel|))
  }

  /**
   * `generateUserDailyWordSet`, with the database error it may meet, once the
   * candidate query has returned `sel`.
   */
  function GenerationWith(t: Tables, sub: Subscriber, today: int, now: int, fault: Option<GenStep>, sel: seq<Candidate>)
    : (r: GenResult)
    ensures r.outcome == AlreadyExists <==> fault != Some(ExistingCheck) && HasSetFor(t.cat.sets, sub.id, today)
    ensures r.outcome == NoSuitableWords <==>
      fault !in {Some(ExistingCheck), Some(CandidateQuery)} && !HasSetFor(t.cat.sets, sub.id, today)
      && !NegativeLimit(sub) && sel == []
    ensures fault != Some(ExistingCheck) && !HasSetFor(t.cat.sets, sub.id, today) && NegativeLimit(sub) ==>
      r == GenResult(t, Raised(CandidateQuery))
    ensures r.outcome.Generated? ==>
      && r.outcome.count == |sel| >= 1
      && r.outcome.setId == t.nextSetId
      && r.tables.cat.sets == t.cat.sets + [WordSet(t.nextSetId, sub.id, today,
           sub.sourceLanguageId, sub.targetLanguageId, sub.difficultyLevelId)]
      && r.tables.cat.items == t.cat.items + ItemsFor(t.nextSetId, sel)
      && r.tables.queue == t.queue + [PendingEntry(t.nextQueueId, sub.id, t.nextSetId, now)]
    ensures r.tables.queue != t.queue ==> r.outcome.Generated?
    ensures r.tables.cat.sets != t.cat.sets ==>
      !HasSetFor(t.cat.sets, sub.id, today)
      && r.tables.cat.sets == t.cat.sets + [WordSet(t.nextSetId, sub.id, today,
           sub.sourceLanguageId, sub.targetLanguageId, sub.difficultyLevelId)]
    ensures r.tables.cat.sets == t.cat.sets ==> r.tables == t && !r.outcome.Generated?
    ensures r.tables.cat == t.cat.(sets := r.tables.cat.sets, items := r.tables.cat.items)
    ensures r.tables.cat.sets != t.cat.sets ==> r.tables.nextSetId == t.nextSetId + 1
    ensures r.tables.cat.sets == t.cat.sets ==> r.tables.nextSetId == t.nextSetId
    ensures r.tables.nextQueueId == t.nextQueueId + (if r.outcome.Generated? then 1 else 0)
    ensures (r.outcome in {AlreadyExists, NoSuitableWords, Raised(ExistingCheck), Raised(CandidateQuery),
                           Raised(InsertSet)}) ==> r.tables == t
    ensures r.outcome == Raised(InsertItem(ItemsBeforeFault(|sel|, fault))) || r.outcome == Raised(Enqueue) ==>
      && r.tables.cat.sets == t.cat.sets + [WordSet(t.nextSetId, sub.id, today,
           sub.sourceLanguageId, sub.targetLanguageId, sub.difficultyLevelId)]
      && r.tables.cat.items == t.cat.items + ItemsFor(t.nextSetId, sel)[..ItemsBeforeFault(|sel|, fault)]
      && r.tables.queue == t.queue && r.tables.nextQueueId == t.nextQueueId
    ensures r.outcome.Raised? && r.outcome.step.InsertItem? ==>
      r.outcome.step.k == ItemsBeforeFault(|sel|, fault) < |sel|
  {
    if fault == Some(ExistingCheck) then GenResult(t, Raised(ExistingCheck))
    else if HasSetFor(t.cat.sets, sub.id, today) then GenResult(t, AlreadyExists)
    else if fault == Some(CandidateQuery) || NegativeLimit(sub) then GenResult(t, Raised(CandidateQuery))
    else if sel == [] then GenResult(t, NoSuitableWords)
    else if fault == Some(InsertSet) then GenResult(t, Raised(InsertSet))
    else Insertions(t, sub, today, now, sel, fault)
  }

  /** `generateUserDailyWordSet` on the tables as they are. */
  function Generation(t: Tables, sub: Subscriber, today: int, now: int, fault: Option<GenStep>): GenResult {
    GenerationWith(t, sub, today, now, fault, Selection(t.cat, sub, today))
  }

  /** Generation never makes a second set for the same user and day. */
  lemma GenerationKeepsOneSetPerDay(t: Tables, sub: Subscriber, today: int, now: int, fault: Option<GenStep>,
                                    sel: seq<Candidate>)
    requires OneSetPerDay(t.cat.sets)
    ensures OneSetPerDay(GenerationWith(t, sub, today, now, fault, sel).tables.cat.sets)
  {
    var r := GenerationWith(t, sub, today, now, fault, sel);
    if r.tables.cat.sets != t.cat.sets {
      var sets := r.tables.cat.sets;
      assert forall k :: 0 <= k < |t.cat.sets| ==> sets[k] == t.cat.sets[k] && t.cat.sets[k] in t.cat.sets;
    }
  }

  /** Set ids stay below the next id the sequence hands out. */
  lemma GenerationKeepsSetIdsFresh(t: Tables, sub: Subscriber, today: int, now: int, fault: Option<GenStep>,
                                   sel: seq<Candidate>)
    requires SetIdsBelow(t.cat.sets, t.nextSetId)
    ensures var r := GenerationWith(t, sub, today, now, fault, sel).tables;
      SetIdsBelow(r.cat.sets, r.nextSetId)
  {
  }

  /** A second run on the same day finds the set the first run made and changes nothing. */
  lemma GenerationIdempotent(t: Tables, sub: Subscriber, today: int, now: int, later: int, fault: Option<GenStep>,
                             sel: seq<Candidate>, sel2: seq<Candidate>)
    requires GenerationWith(t, sub, today, now, fault, sel).tables.cat.sets != t.cat.sets
    ensures var t1 := GenerationWith(t, sub, today, now, fault, sel).tables;
      GenerationWith(t1, sub, today, later, None, sel2) == GenResult(t1, AlreadyExists)
  {
    var t1 := GenerationWith(t, sub, today, now, fault, sel).tables;
    var s := t1.cat.sets[|t1.cat.sets| - 1];
    assert s in t1.cat.sets && s.userId == sub.id && s.date == today;
  }

  // ---------------------------------------------------------------------------
  // Generation for all subscribers
  // ---------------------------------------------------------------------------

  /** The per-user loop: each subscriber's error is caught and the loop goes on. */
  function GenerateAll(t: Tables, subs: seq<Subscriber>, today: int, now: int, faults: nat -> Option<GenStep>)
    : (r: (Tables, seq<GenOutcome>))
    ensures |r.1| == |subs|
    decreases |subs|
  {
    if subs == [] then (t, [])
    else
      var (t1, outs) := GenerateAll(t, subs[..|subs| - 1], today, now, faults);
      var g := Generation(t1, subs[|subs| - 1], today, now, faults(|subs| - 1));
      (g.tables, outs + [g.outcome])
  }

  lemma GenerateAllStep(t: Tables, subs: seq<Subscriber>, i: nat, today: int, now: int, faults: nat -> Option<GenStep>)
    requires i < |subs|
    ensures var prev := GenerateAll(t, subs[..i], today, now, faults);
      var g := Generation(prev.0, subs[i], today, now, faults(i));
      GenerateAll(t, subs[..i + 1], today, now, faults) == (g.tables, prev.1 + [g.outcome])
  {
    assert subs[..i + 1][..i] == subs[..i];
  }

  /** The whole job keeps at most one set per user and day, whatever errors it meets. */
  lemma {:induction false} GenerateAllKeepsOneSetPerDay(t: Tables, subs: seq<Subscriber>, today: int, now: int,
                                                        faults: nat -> Option<GenStep>)
    requires OneSetPerDay(t.cat.sets)
    ensures OneSetPerDay(GenerateAll(t, subs, today, now, faults).0.cat.sets)
    decreases |subs|
  {
    if subs != [] {
      GenerateAllKeepsOneSetPerDay(t, subs[..|subs| - 1], today, now, faults);
      var t1 := GenerateAll(t, subs[..|subs| - 1], today, now, faults).0;
      GenerationKeepsOneSetPerDay(t1, subs[|subs| - 1], today, now, faults(|subs| - 1),
                                  Selection(t1.cat, subs[|subs| - 1], today));
    }
  }

  /** The queue entries from position `from` on are new pending entries, each for a set the user got today. */
  ghost predicate QueueBacked(queue: seq<QueueEntry>, from: nat, sets: seq<WordSet>, today: int) {
    forall k :: from <= k < |queue| ==>
      && queue[k].status == Pending && queue[k].retryCount == 0 && queue[k].sentAt == None
      && exists s :: s in sets && s.id == queue[k].wordSetId && s.userId == queue[k].userId && s.date == today
  }

  lemma GenerationQueuesOnlyGenerated(t: Tables, sub: Subscriber, today: int, now: int, fault: Option<GenStep>,
                                      sel: seq<Candidate>, from: nat)
    requires QueueBacked(t.queue, from, t.cat.sets, today)
    ensures var r := GenerationWith(t, sub, today, now, fault, sel).tables;
      t.queue <= r.queue && QueueBacked(r.queue, from, r.cat.sets, today)
  {
    var r := GenerationWith(t, sub, today, now, fault, sel).tables;
    if r.cat.sets != t.cat.sets {
      var ws := r.cat.sets[|r.cat.sets| - 1];
      assert ws in r.cat.sets;
      forall k | from <= k < |r.queue|
        ensures exists s :: s in r.cat.sets && s.id == r.queue[k].wordSetId && s.userId == r.queue[k].userId && s.date == today
      {
        if k < |t.queue| {
          assert r.queue[k] == t.queue[k];
          var s :| s in t.cat.sets && s.id == t.queue[k].wordSetId && s.userId == t.queue[k].userId && s.date == today;
          assert s in r.cat.sets;
        }
      }
    }
  }

  /** Every queue entry the job adds is pending, untried, and for a set it created today for that user. */
  lemma {:induction false} GenerateAllQueuesOnlyGenerated(t: Tables, subs: seq<Subscriber>, today: int, now: int,
                                                          faults: nat -> Option<GenStep>)
    ensures var r := GenerateAll(t, subs, today, now, faults).0;
      t.queue <= r.queue && QueueBacked(r.queue, |t.queue|, r.cat.sets, today)
    decreases |subs|
  {
    if subs != [] {
      var init := subs[..|subs| - 1];
      var sub := subs[|subs| - 1];
      GenerateAllQueuesOnlyGenerated(t, init, today, now, faults);
      var t1 := GenerateAll(t, init, today, now, faults).0;
      GenerationQueuesOnlyGenerated(t1, sub, today, now, faults(|subs| - 1), Selection(t1.cat, sub, today), |t.queue|);
    }
  }

  // ---------------------------------------------------------------------------
  // The processor object
  // ---------------------------------------------------------------------------

  /**
   * The exported processor with its two jobs. Scheduling is disabled in this
   * build: `Start` and `Stop` only log, so neither changes anything.
   */
  class Processor {
    var isRunning: bool

    constructor ()
      ensures !isRunning
    {
      isRunning := false;
    }

    method Start()
      ensures isRunning == old(isRunning)
    {
    }

    method Stop()
      ensures isRunning == old(isRunning)
    {
    }

    method ProcessEmailQueue(db: Database, queueReadable: bool, transport: EmailService.Message -> EmailService.Delivery,
                             faults: QueueEntry -> EmailService.SendFault, env: EmailService.Env, now: int)
      modifies db`queue
      ensures !queueReadable ==> db.queue == old(db.queue)
      ensures queueReadable ==>
        db.queue == EmailService.Dispatch(old(db.queue), EmailService.PendingBatch(old(db.queue)), db.Snapshot(),
                                          transport, faults, env, now)
    {
      EmailService.ProcessEmailQueue(db, queueReadable, transport, faults, env, now);
    }

    method GenerateUserDailyWordSet(db: Database, sub: Subscriber, today: int, now: int, fault: Option<GenStep>)
      returns (out: GenOutcome)
      modifies db`sets, db`items, db`queue, db`nextSetId, db`nextQueueId
      ensures GenResult(TablesOf(db), out) == Generation(old(TablesOf(db)), sub, today, now, fault)
    {
      if fault == Some(ExistingCheck) {
        return Raised(ExistingCheck);
      }
      if HasSetFor(db.sets, sub.id, today) {
        return AlreadyExists;
      }
      if fault == Some(CandidateQuery) || NegativeLimit(sub) {
        return Raised(CandidateQuery);
      }
      var sel := Selection(db.Snapshot(), sub, today);
      if sel == [] {
        return NoSuitableWords;
      }
      if fault == Some(InsertSet) {
        return Raised(InsertSet);
      }
      out := InsertWordSet(db, sub, today, now, sel, fault);
    }

    /** The set insert, the item loop and the queue insert. */
    method InsertWordSet(db: Database, sub: Subscriber, today: int, now: int, sel: seq<Candidate>, fault: Option<GenStep>)
      returns (out: GenOutcome)
      modifies db`sets, db`items, db`queue, db`nextSetId, db`nextQueueId
      ensures GenResult(TablesOf(db), out) == Insertions(old(TablesOf(db)), sub, today, now, sel, fault)
    {
      ghost var t0 := TablesOf(db);
      var setId := db.nextSetId;
      db.sets := db.sets + [WordSet(setId, sub.id, today, sub.sourceLanguageId, sub.targetLanguageId, sub.difficultyLevelId)];
      db.nextSetId := db.nextSetId + 1;
      var k := InsertItems(db, setId, sel, fault);
      ghost var t1 := TablesOf(db);
      assert t1 == t0.(cat := t0.cat.(sets := db.sets, items := db.items), nextSetId := t0.nextSetId + 1);
      if k < |sel| {
        return Raised(InsertItem(k));
      }
      if fault == Some(Enqueue) {
        return Raised(Enqueue);
      }
      db.queue := db.queue + [PendingEntry(db.nextQueueId, sub.id, setId, now)];
      db.nextQueueId := db.nextQueueId + 1;
      out := Generated(setId, |sel|);
    }

    /** The item loop: one `word_set_items` row per selected row, up to the first failing insert. */
    method InsertItems(db: Database, setId: int, sel: seq<Candidate>, fault: Option<GenStep>) returns (k: nat)
      modifies db`items
      ensures k == ItemsBeforeFault(|sel|, fault)
      ensures db.items == old(db.items) + ItemsFor(setId, sel)[..k]
    {
      var i := 0;
      while i < |sel|
        invariant 0 <= i <= |sel|
        invariant i <= ItemsBeforeFault(|sel|, fault)
        invariant db.items == old(db.items) + ItemsFor(setId, sel)[..i]
      {
        if fault == Some(InsertItem(i)) {
          return i;
        }
        db.items := db.items + [SetItem(setId, sel[i].t.id, i)];
        assert ItemsFor(setId, sel)[..i + 1] == ItemsFor(setId, sel)[..i] + [SetItem(setId, sel[i].t.id, i)];
        i := i + 1;
      }
      return |sel|;
    }

    method GenerateDailyWordSets(db: Database, usersReadable: bool, today: int, now: int, faults: nat -> Option<GenStep>)
      returns (outcomes: seq<GenOutcome>)
      modifies db`sets, db`items, db`queue, db`nextSetId, db`nextQueueId
      ensures !usersReadable ==> outcomes == [] && TablesOf(db) == old(TablesOf(db))
      ensures usersReadable ==>
        var subs := SubscribedUsers(old(db.users), old(db.prefs));
        (TablesOf(db), outcomes) == GenerateAll(old(TablesOf(db)), subs, today, now, faults)
    {
      if !usersReadable {
        return [];
      }
      var subs := SubscribedUsers(db.users, db.prefs);
      outcomes := GenerateForEach(db, subs, today, now, faults);
    }

    /** The `for` loop of `generateDailyWordSets` over the subscriber rows. */
    method GenerateForEach(db: Database, subs: seq<Subscriber>, today: int, now: int, faults: nat -> Option<GenStep>)
      returns (outcomes: seq<GenOutcome>)
      modifies db`sets, db`items, db`queue, db`nextSetId, db`nextQueueId
      ensures (TablesOf(db), outcomes) == GenerateAll(old(TablesOf(db)), subs, today, now, faults)
    {
      ghost var t0 := TablesOf(db);
      outcomes := [];
      var i := 0;
      while i < |subs|
        invariant 0 <= i <= |subs|
        invariant (TablesOf(db), outcomes) == GenerateAll(t0, subs[..i], today, now, faults)
      {
        var out := GenerateUserDailyWordSet(db, subs[i], today, now, faults(i));
        GenerateAllStep(t0, subs, i, today, now, faults);
        outcomes := outcomes + [out];
        i := i + 1;
      }
      assert subs[..|subs|] == subs;
    }
  }
}
