# Turkish–Portuguese translator: a verified model of its core

This project models the sequential logic of a language-learning application, and proves properties of that model. The application shows daily word cards to users and emails them a daily set of words. The model covers:

- **Email queue and dispatch** (`email_service.dfy`, `email_processor.dfy`):
  - the status update of queue rows;
  - one delivery attempt (`sendDailyEmail`), including its `'failed'` write in the catch;
  - the batch loop, which takes at most 50 pending entries, oldest first, and isolates failures;
  - the plain-text digest;
  - token-checked unsubscription.
- **Daily word-set generation** (`email_processor.dfy`):
  - the per-user existing-set check;
  - the candidate query: joins, `WHERE` clause, example `LEFT JOIN`s, then `ORDER BY frequency_rank LIMIT words_per_day`, where a NULL quota takes every row and a negative one makes the query fail;
  - the set, item and queue writes, including the state a database error leaves behind;
  - the loop over subscribed users;
  - the processor object.
- **Progress routes** (`progress.dfy`): the mastery upsert (`INSERT OR REPLACE`), the statistics, the listing by mastery level, and the learning streak.
- **Words routes** (`words_route.dfy`, `flat_words.dfy`): the level-name mapping, the query defaults, the difficulty filter with `LIMIT`, the per-row column choice, and `/difficulty-levels`.
- **Dictionary importer** (`import_words.dfy`): language ids, get-or-create of words, examples, and the six directed translations of each entry.
- **Dictionary migration** (`migrate_dictionary.dfy`, `upserts.dfy`): `INSERT ... ON CONFLICT` upserts of languages, the language pair, categories, words, translations and examples, and the entry loop that skips an entry that throws.
- **Word-list page** (`app.dfy`): the language lists, the target choices, the source selector's guard, and the local mastery update.
- **Subscription form** (`subscription_form.dfy`): the e-mail pattern `^[^\s@]+@[^\s@]+\.[^\s@]+$`, the input handler, and the submit, success and reset cycle.

How the model stands in for the application's effects:

- **Tables.** Tables are sequences of rows. The PostgreSQL tables are the fields of `Store.Database`; their `SERIAL` keys are counters. The SQLite progress table is a `ProgressStore`, and the importer's tables are fields of `ImportWords.Importer`.
- **SQL.** `WHERE`, `ORDER BY` and `LIMIT` become `Filter`, a stable sort and `SelectTop`. A `RANDOM()` tie-break is the table order; in `/api/words` it is a key function passed in.
- **The mail transport** is a function from message to `Delivered` or `Rejected(reason)`.
- **Formatting collaborators.** HMAC-SHA256, `encodeURIComponent` and the locale date renderings are functions in `EmailService.Env`.
- **Times.** `now` and `today` are parameters. Days are day numbers. Generation uses one `today` for both the JavaScript UTC date and PostgreSQL's `CURRENT_DATE` (see "Left out").
- **Database errors.** Where the code catches a database error, the statement that throws is a parameter (a `fault`). In `sendDailyEmail` these are the user or word-set read and the `'sent'` write (`EmailService.SendFault`); in generation, each statement of the per-user run; in the migration, each statement of an entry.

Three behaviours of the code that the model keeps as written:

- **Retry counts on a failed send.** A failure is written twice: `sendDailyEmail` writes `'failed'` plus one retry, then the loop's catch writes again. An entry fetched with retry count 0 or 1 ends `'pending'` with one more retry. An entry fetched with 2 ends `'failed'` with retry count 4 (`EmailService.RowEffect`).
- **Missing user or word set.** The entry gets one more retry like any other failure.
- **No claim step.** The pending entries are read and processed without being marked as taken first.

## Model

| member | source | states |
|---|---|---|
| EmailService.StatusUpdated | backend/services/emailService.js:377-386 | every row of the word set gets the status and the message (null when omitted); `sent_at` changes only on `'sent'`; the retry count rises by exactly 1 only on `'failed'`; other rows and the row identity stay |
| EmailService.UpdateEmailQueueStatus | backend/services/emailService.js:377-386 | the queue afterwards is that update of the old queue |
| EmailService.GetUser | backend/services/emailService.js:71-81 | the result is an active user with that id, and none exists exactly when no such row exists |
| EmailService.PairViews | backend/services/emailService.js:104-109 | every joined row carries the two words, the level name and one example choice of each side; non-empty when each side has a choice |
| EmailService.PairViewsCount | backend/services/emailService.js:104-109 | the join yields one row per pair of example choices |
| EmailService.PairViewsAt | backend/services/emailService.js:104-109 | row i·m+j pairs the i-th source choice with the j-th target choice |
| EmailService.GetWordSet | backend/services/emailService.js:83-116 | a set is returned only for an existing id, and only with at least one word (the inner joins) |
| EmailService.ExampleLine | backend/services/emailService.js:357-358 | the example line is empty exactly when the example is null or empty, otherwise it is the caption followed by the example |
| EmailService.EntriesFrom | backend/services/emailService.js:355-359 | one text block per word, in order, block i for word i |
| EmailService.GenerateEmailContent | backend/services/emailService.js:118-120 | the name is `first_name` when truthy, else `'there'`; the word count is the number of words |
| EmailService.GreetsByName | backend/services/emailService.js:348-351 | right after the heading the text greets the user by that name |
| EmailService.EntriesNumbered | backend/services/emailService.js:355-356 | the blocks are numbered 1..n in order |
| EmailService.ComposeMessage | backend/services/emailService.js:35-43 | the message goes to the user's address |
| EmailService.Compose | backend/services/emailService.js:24-29 | no message exactly when the active user or the word set is missing; otherwise it is addressed to that user |
| EmailService.DeliveryOutcome | backend/services/emailService.js:19-69 | a failing user or set read raises its error; a missing user or set raises "User or word set not found"; otherwise the attempt resolves exactly when the transport delivers and the `'sent'` write succeeds, raising the transport's reason on a rejection and the write's error when that write fails |
| EmailService.RowEffect | backend/services/emailService.js:413-421 | success: `'sent'`, sent time set, message cleared, retries kept; failure: the message is recorded, and the row is `'pending'` with one more retry when fetched below 2, else `'failed'` with two more |
| EmailService.ProcessEntry | backend/services/emailService.js:406-422 | one loop turn applies that effect to every row of the entry's word set and leaves the other rows |
| EmailService.Dispatch | backend/services/emailService.js:406-423 | processing the batch keeps the queue's length |
| EmailService.DispatchRow | backend/services/emailService.js:406-423 | each row ends as if only the batch entries of its own word set had run, in batch order: a failure does not stop, or change, the others |
| EmailService.RowDispatchSameEntry | backend/services/emailService.js:377-386 | dispatch changes only status, retries, message and send time of a row |
| EmailService.RowDispatchNone | backend/services/emailService.js:406-423 | a row whose word set has no entry in the batch is untouched |
| EmailService.DispatchSingleEntry | backend/services/emailService.js:406-421 | a row whose word set has exactly one batch entry gets exactly that entry's effect |
| EmailService.PendingBatch | backend/services/emailService.js:392-399 | at most 50 entries, each a queue row that is `'pending'` with fewer than 3 retries |
| EmailService.PendingBatchOldest | backend/services/emailService.js:392-399 | the batch has `min(50, eligible)` entries in ascending `created_at`, and no eligible entry left out is older than one taken |
| EmailService.SendDailyEmail | backend/services/emailService.js:19-69 | the result is that outcome for the user and set in the database; on success the queue is marked `'sent'`, on any error (including a failed `'sent'` write) it is marked `'failed'` with the error message |
| EmailService.Deliver | backend/services/emailService.js:27-62 | once the reads succeed: the outcome above; the `'sent'` write happens exactly on success, and a raised attempt leaves the queue as it was |
| EmailService.DeliveredButNotMarked | backend/services/emailService.js:55-67 | a delivered message whose `'sent'` write fails still raises, the row is not marked sent, and one fetched below retry 2 stays pending, so the email goes out again |
| EmailService.ProcessEmailQueue | backend/services/emailService.js:388-430 | an unreadable queue means no write; otherwise the queue is the dispatch of the pending batch |
| EmailService.DispatchBatch | backend/services/emailService.js:406-423 | the loop leaves the queue equal to `Dispatch` of the batch |
| EmailService.ProcessOne | backend/services/emailService.js:407-422 | one iteration: the attempt, and the catch's second write on a raised attempt |
| EmailService.UserIdByEmail | backend/services/emailService.js:443 | the id of a user with that address, and none exactly when no user has it |
| EmailService.Unsubscribed | backend/services/emailService.js:440-445 | exactly the preference rows of that user get `is_email_subscribed = false`; the rest are unchanged |
| EmailService.AffectedRows | backend/services/emailService.js:446-447 | positive exactly when some preference row belongs to that user |
| EmailService.GenerateUnsubscribeToken | backend/services/emailService.js:372-375 | the HMAC of the address under `JWT_SECRET`, or under `'fallback-secret'` when that is unset or empty |
| EmailService.UnsubscribeUser | backend/services/emailService.js:432-448 | a wrong token raises "Invalid unsubscribe token" and writes nothing; a right one unsubscribes the user and returns whether a row changed |
| EmailProcessor.SubscribedUsers | backend/jobs/emailProcessor.js:69-75 | exactly the (user, preference) pairs with the same user id, subscribed and active |
| EmailProcessor.SubscriptionsOf | backend/jobs/emailProcessor.js:69-75 | one user's join rows: exactly its subscribed preference rows while the user is active, one row per such preference row, so a user with two of them is processed twice |
| EmailProcessor.MasteryOf | backend/jobs/emailProcessor.js:141 | the user's mastery of the word if a progress row exists, none exactly when none does |
| EmailProcessor.JoinedWords | backend/jobs/emailProcessor.js:136-138 | both words exist with the translation's ids, and the source word's level exists |
| EmailProcessor.ExampleRows | backend/jobs/emailProcessor.js:139-140 | every row is that translation and its joined words and level with one example choice of each side; non-empty when each side has a choice |
| EmailProcessor.ExampleRowsCount | backend/jobs/emailProcessor.js:139-140 | one row per pair of example choices |
| EmailProcessor.ExampleRowsAt | backend/jobs/emailProcessor.js:139-140 | row i·m+j pairs the i-th source choice with the j-th target choice |
| EmailProcessor.TranslationRowsExact | backend/jobs/emailProcessor.js:135-147 | a qualifying translation yields at least one row, and every row is that translation with its joined words and examples |
| EmailProcessor.CandidateRowsExact | backend/jobs/emailProcessor.js:135-147 | every candidate row satisfies the joins, language, level, recency, mastery < 4 and verified conditions, and every qualifying translation has a row |
| EmailProcessor.Selection | backend/jobs/emailProcessor.js:142-149 | every selected row is for a qualifying translation, and the rows come in ascending frequency rank |
| EmailProcessor.SelectionQualifies | backend/jobs/emailProcessor.js:142-149 | `min(words_per_day, candidates)` rows, or every candidate when `words_per_day` is NULL (`LIMIT NULL`); each qualifying, in ascending frequency rank; empty exactly when the quota is zero or negative or nothing qualifies |
| EmailProcessor.SelectionTakesLowestRanks | backend/jobs/emailProcessor.js:148-149 | no candidate left out ranks below one taken |
| EmailProcessor.ItemsFor | backend/jobs/emailProcessor.js:183-190 | one item per selected row, in order, with `sort_order` i |
| EmailProcessor.ItemsBeforeFault | backend/jobs/emailProcessor.js:183-190 | the item loop stops early exactly when an item insert fails |
| EmailProcessor.GenerationWith | backend/jobs/emailProcessor.js:97-200 | `AlreadyExists` exactly when the check runs and finds a set for (user, today); `NoSuitableWords` exactly when the query runs and selects nothing; both, and a failing check, query or set insert, write nothing; a negative `words_per_day` makes the candidate query raise, so nothing is written; success adds one set under the next id, its items at 0..n-1 and one pending queue entry; a failing item or queue insert leaves the set and the items before it; the queue grows only on success; only `sets` and `items` of the catalogue change, the set counter advances exactly when a set is written, and the queue counter exactly on success |
| EmailProcessor.GenerationKeepsOneSetPerDay | backend/jobs/emailProcessor.js:100-110 | generation never makes a second set for a user and day |
| EmailProcessor.GenerationKeepsSetIdsFresh | backend/jobs/emailProcessor.js:166-180 | set ids stay below the next id handed out |
| EmailProcessor.GenerationIdempotent | backend/jobs/emailProcessor.js:100-110 | a second run on the same day finds the new set and changes nothing |
| EmailProcessor.GenerateAll | backend/jobs/emailProcessor.js:82-88 | one outcome per subscriber: each user's error is caught and the loop goes on |
| EmailProcessor.GenerateAllKeepsOneSetPerDay | backend/jobs/emailProcessor.js:82-88 | the whole job keeps at most one set per user and day, whatever errors occur |
| EmailProcessor.GenerationQueuesOnlyGenerated | backend/jobs/emailProcessor.js:192-197 | the queue only grows, and each new entry is pending, untried, for a set of that user dated today |
| EmailProcessor.GenerateAllQueuesOnlyGenerated | backend/jobs/emailProcessor.js:64-95 | the same for the whole job |
| EmailProcessor.Processor.constructor | backend/jobs/emailProcessor.js:11-13 | the processor starts not running |
| EmailProcessor.Processor.Start | backend/jobs/emailProcessor.js:15-18 | scheduling is disabled: the state does not change |
| EmailProcessor.Processor.Stop | backend/jobs/emailProcessor.js:202-205 | the state does not change |
| EmailProcessor.Processor.ProcessEmailQueue | backend/jobs/emailProcessor.js:20-62 | a failed batch read writes nothing; otherwise every batch entry is attempted in order, a failure recorded as `'failed'` from retry 2, else `'pending'` |
| EmailProcessor.Processor.GenerateUserDailyWordSet | backend/jobs/emailProcessor.js:97-200 | the tables and the outcome are those of the generation function |
| EmailProcessor.Processor.InsertWordSet | backend/jobs/emailProcessor.js:165-197 | the set insert, the items up to a failing insert, then the queue entry |
| EmailProcessor.Processor.InsertItems | backend/jobs/emailProcessor.js:183-190 | the items table grows by the items up to the first failing insert |
| EmailProcessor.Processor.GenerateDailyWordSets | backend/jobs/emailProcessor.js:64-95 | an unreadable user query writes nothing; otherwise the generation runs for each subscribed user in order |
| EmailProcessor.Processor.GenerateForEach | backend/jobs/emailProcessor.js:82-88 | the loop's tables and outcomes are those of `GenerateAll` |
| Progress.UpsertKeepsOneRowPerWord | backend/routes/progress.js:31-33 | `INSERT OR REPLACE` keeps one row per (user, word) |
| Progress.UpsertReplaces | backend/routes/progress.js:31-33 | afterwards the (user, word) row holds the new level and time; every other pair reads as before |
| Progress.ProgressStore.RecordMastery | backend/routes/progress.js:25-47 | a failing write answers the error and changes nothing; otherwise the table is upserted, the id counter advances and the answer is the success message |
| Progress.TotalWords | backend/routes/progress.js:55-57 | at most the number of rows, and 0 exactly when the user has none |
| Progress.Tally | backend/routes/progress.js:65-67 | the breakdown has one group per level |
| Progress.TallyLevels | backend/routes/progress.js:65-67 | a level has a group exactly when some row has it |
| Progress.TallyCounts | backend/routes/progress.js:65-67 | each group counts exactly the rows of its level, at least one |
| Progress.TallySum | backend/routes/progress.js:65-67 | the counts sum to the number of rows |
| Progress.MasteryBreakdown | backend/routes/progress.js:65-67 | one group per mastery level, and a level has a group exactly when one of the user's rows is at that level |
| Progress.BreakdownSumsToTotal | backend/routes/progress.js:55-67 | the breakdown's counts add up to `totalWords` |
| Progress.ActivityRows | backend/routes/progress.js:76 | the joined rows are exactly the user's progress rows whose word exists, one per such row |
| Progress.RecentActivity | backend/routes/progress.js:76 | `min(10, n)` of those rows, newest review first, and no row left out is newer than one listed |
| Progress.GetStats | backend/routes/progress.js:50-90 | the `/stats` reply: the breakdown's counts add up to `totalWords`, and at most ten recent rows |
| Progress.MasteryRowsExact | backend/routes/progress.js:110 | every listed row is one of the user's rows at that level, and each such row whose word exists is listed |
| Progress.WordsByMastery | backend/routes/progress.js:110 | the listing is a permutation of the joined rows, newest review first |
| Progress.WordsByMasteryExact | backend/routes/progress.js:110 | the listing holds exactly the user's words at that level |
| Progress.WindowDays | backend/routes/progress.js:134 | exactly the days of the user's reviews in the last 30 days |
| Progress.ReviewDays | backend/routes/progress.js:134 | those days, distinct and strictly descending |
| Progress.RunLength | backend/routes/progress.js:149-168 | the run of consecutive review days counted back from a day, at most the limit, and stopped by the first gap |
| Progress.StreakOf | backend/routes/progress.js:143-169 | 0 exactly when neither today nor yesterday has a review; at most 31 from today, at most 30 from yesterday |
| Progress.StreakIsRun | backend/routes/progress.js:143-169 | the streak is the run of consecutive days ending today, or yesterday |
| Progress.CurrentStreak | backend/routes/progress.js:143-169 | the two `for`/`break` loops compute that streak |
| Progress.GetStreak | backend/routes/progress.js:133-175 | the streak, `totalDays` the number of distinct days, `lastActivity` the latest day or null exactly when there is none |
| FlatWords.ExampleJoin | backend/routes/words.js:27 | a single NULL row exactly when the word has no example; otherwise one row per example of the word, in table order, and no NULL |
| WordsRoute.WithDefaults | backend/routes/words.js:7 | absent parameters become `'tr'`, `'pt'`, `'beginner'`, 5; present ones are kept |
| WordsRoute.DifficultyOf | backend/routes/words.js:8-10 | 2 exactly for `'intermediate'`, 3 exactly for `'advanced'`, 1 otherwise |
| WordsRoute.DifficultyLevels | backend/routes/words.js:98-106 | three levels: 1 `beginner`/`Beginner`, 2 `intermediate`/`Intermediate`, 3 `advanced`/`Advanced` |
| WordsRoute.LevelNamesRoundTrip | backend/routes/words.js:98-106 | each listed name maps back to its id |
| WordsRoute.JoinedRows | backend/routes/words.js:26-28 | every row is a word at that difficulty with one of its examples or none |
| WordsRoute.JoinedRowsComplete | backend/routes/words.js:26-28 | every word at that difficulty has a row |
| WordsRoute.Limited | backend/routes/words.js:29-30 | `min(limit, rows)` rows drawn from the input; a negative limit keeps all |
| WordsRoute.ByCode | backend/routes/words.js:41-60 | an unknown code gives `''` |
| WordsRoute.OrEmpty | backend/routes/words.js:67-68 | a null example becomes `''`, any other value is kept |
| WordsRoute.ToEntry | backend/routes/words.js:62-69 | `id` and `difficulty` are copied |
| WordsRoute.ToEntryColumns | backend/routes/words.js:40-70 | each word and example column is the one of its code among tr/pt/en; an unknown code gives `''` for word and example; a row without an example gives `''` for both examples |
| WordsRoute.ToEntrySwap | backend/routes/words.js:43-60 | swapping the codes swaps the two sides |
| WordsRoute.ToEntries | backend/routes/words.js:40-70 | the output matches the rows 1:1 in order |
| WordsRoute.GetWords | backend/routes/words.js:16-33 | one entry per matching row the `LIMIT` lets through: `min(count, rows at the level)`, or all of them for a negative `count` |
| WordsRoute.GetWordsSelects | backend/routes/words.js:16-33 | at most `count` entries, all at the requested difficulty and taken from the table; no parameters gives at most five beginner words |
| WordsRoute.GetWordsFillsLimit | backend/routes/words.js:28-30 | with enough rows, exactly `count` entries |
| ImportWords.InitialCodes | import_words.js:17 | the map holds tr, en and pt, all null |
| ImportWords.CodesAfterRows | import_words.js:19-24 | under `UNIQUE(code)` each returned code maps to its row's id, and other codes keep their value |
| ImportWords.LanguageIdsResolved | import_words.js:19-24 | after `getLanguageIds` each of tr, en, pt maps to its language's id, or null when the language is absent |
| ImportWords.NewWord | import_words.js:34-41 | the text goes into the English column for `en`, the Portuguese for `pt`, else the Turkish |
| ImportWords.GetOrCreateRow | import_words.js:26-42 | a matching row in that language returns its id and inserts nothing; otherwise one row under the next id; the table only grows and the id carries the text |
| ImportWords.GetOrCreateTwice | import_words.js:28-41 | a second call with the same word and a known language returns the same id and adds no row |
| ImportWords.WithExample | import_words.js:44-54 | nothing for an absent or empty example, otherwise one row |
| ImportWords.WithPairRow | import_words.js:56-61 | afterwards the pair is present; the table grows by that pair exactly when it was absent, and by nothing else |
| ImportWords.PairsAddedRow | import_words.js:76-81 | the six inserts keep every old pair and add exactly the six pairs among the ids |
| ImportWords.PairsAddedUnique | import_words.js:76-81 | the six inserts keep the pairs unique |
| ImportWords.WithPairUnique | import_words.js:56-61 | the pairs stay unique, and re-inserting a pair adds nothing |
| ImportWords.SixPairs | import_words.js:76-81 | all six ordered pairs of distinct ids among tr, en, pt |
| ImportWords.DifficultyOf | import_words.js:68-70 | `entry.difficulty || 1` |
| ImportWords.EntryRunWords | import_words.js:66-70 | one entry's words: the table only grows and each returned id carries its word |
| ImportWords.EntryRunPairs | import_words.js:76-81 | one entry's translations are the old pairs plus the six among its ids, still unique |
| ImportWords.EntryRunExamples | import_words.js:72-74 | one entry adds exactly its given examples, each on its word, after the old rows |
| ImportWords.EntryRunRow | import_words.js:66-83 | one entry leaves its three words and six pairs and loses nothing |
| ImportWords.ImportRunRow | import_words.js:63-86 | after the loop every entry's words and pairs are present and nothing is lost |
| ImportWords.ImportRunUnique | import_words.js:63-86 | the translation pairs stay unique through the whole import |
| ImportWords.Importer.constructor | import_words.js:17 | `langCodes` starts with all three codes null |
| ImportWords.Importer.GetLanguageIds | import_words.js:19-24 | the loop assigns one code per returned row |
| ImportWords.Importer.GetOrCreateWord | import_words.js:26-42 | the tables and the id are one get-or-create step with the language id the map gives |
| ImportWords.Importer.AddExample | import_words.js:44-54 | the examples table is `WithExample` of the old one |
| ImportWords.Importer.AddTranslation | import_words.js:56-61 | the pairs are `WithPair` of the old ones |
| ImportWords.Importer.AddPairs | import_words.js:76-81 | the translations are the old ones with the six pairs added in order |
| ImportWords.Importer.ImportEntry | import_words.js:66-83 | the tables and ids are one entry's run: its three words, its given examples, then its six pairs |
| ImportWords.Importer.ImportAll | import_words.js:63-86 | the language map is resolved first; the count is the number of entries; the tables are the entries run in order; nothing is lost and every entry's words and pairs are present at the end |
| Upserts.Updated | backend/scripts/migrate-dictionary.js:78-80 | same length; exactly the rows with the key take the update |
| Upserts.InsertNew | backend/scripts/migrate-dictionary.js:37-41 | `DO NOTHING` on a row key: present afterwards, inserted only if absent, duplicates never created |
| Upserts.UpsertShape | backend/scripts/migrate-dictionary.js:75-83 | the key stays unique, old rows keep their place, the key's row is updated, a new key appends the inserted row |
| Upserts.UpsertRow | backend/scripts/migrate-dictionary.js:75-83 | the key's row is the updated old row or the inserted one, every other key reads as before, and no other row appears |
| Upserts.UpsertedFromSameRows | backend/scripts/migrate-dictionary.js:24 | that description fixes the table's rows up to order |
| Upserts.UpsertTwice | backend/scripts/migrate-dictionary.js:23-31 | running the same idempotent upsert again changes nothing |
| Upserts.UpsertKeeps | backend/scripts/migrate-dictionary.js:75-94 | every old row is still found under its key, updated when it is the key's row |
| MigrateDictionary.UpsertLanguage | backend/scripts/migrate-dictionary.js:23-26 | the tables afterwards are the language upsert of the old ones, and the id is the code's row id |
| MigrateDictionary.LanguageUpsertRow | backend/scripts/migrate-dictionary.js:23-31 | `code` stays unique; an existing row takes the new name and keeps id and native name, else a row is inserted with the next id; the id returned is that row's; other codes are unchanged |
| MigrateDictionary.InsertLanguagePair | backend/scripts/migrate-dictionary.js:37-41 | the tables afterwards are the old ones with the pair inserted unless present |
| MigrateDictionary.UpsertCategory | backend/scripts/migrate-dictionary.js:61-64 | the tables afterwards are the category upsert of the old ones, and the id is the name's row id |
| MigrateDictionary.CategoryUpsertRow | backend/scripts/migrate-dictionary.js:61-64 | names stay unique; an existing row is kept as it was, else one is inserted with the next id; the id returned is that row's; other names are unchanged |
| MigrateDictionary.UpsertWord | backend/scripts/migrate-dictionary.js:75-83 | the tables afterwards are the word upsert of the old ones, and the id is the (language, word) row id |
| MigrateDictionary.UpsertTranslation | backend/scripts/migrate-dictionary.js:97-103 | the tables afterwards are the translation upsert of the old ones |
| MigrateDictionary.TranslationUpsertRow | backend/scripts/migrate-dictionary.js:97-103 | the pair stays unique and its row is marked verified or inserted verified; other pairs keep their rows; no translation is lost or unverified |
| MigrateDictionary.InsertExample | backend/scripts/migrate-dictionary.js:107-112 | the tables afterwards are the old ones with the (word, sentence) row inserted unless present |
| MigrateDictionary.NameIdsOf | backend/scripts/migrate-dictionary.js:44-48 | a name is mapped exactly when some level has it, to the id of such a level |
| MigrateDictionary.DifficultyMap | backend/scripts/migrate-dictionary.js:44-48 | the `forEach` builds that map |
| MigrateDictionary.UpsertCategories | backend/scripts/migrate-dictionary.js:59-66 | the loop leaves the tables and `categoryMap` of the category run over the names |
| MigrateDictionary.CreateCategories | backend/scripts/migrate-dictionary.js:53-66 | the same run over the ten category names |
| MigrateDictionary.CategoriesRow | backend/scripts/migrate-dictionary.js:59-66 | `categoryMap` holds exactly the names, each with its row's id; existing categories are untouched; only the categories table changes |
| MigrateDictionary.MigratedStays | backend/scripts/migrate-dictionary.js:72-132 | later entries never undo an entry already migrated |
| MigrateDictionary.AllMigratedStay | backend/scripts/migrate-dictionary.js:72-132 | the completed entries before the current one stay migrated, and it joins them when it completes |
| MigrateDictionary.ProcessedAll | backend/scripts/migrate-dictionary.js:124 | every entry is counted exactly when none throws |
| MigrateDictionary.EntryWords | backend/scripts/migrate-dictionary.js:75-94 | the tables and the two ids are those of the word upserts up to the first that throws |
| MigrateDictionary.EntryExamples | backend/scripts/migrate-dictionary.js:105-122 | the tables and the completion flag are those of the example inserts up to the first that throws |
| MigrateDictionary.EntryLinks | backend/scripts/migrate-dictionary.js:96-122 | the tables and the flag are those of the translation upsert then the example inserts |
| MigrateDictionary.MigrateEntry | backend/scripts/migrate-dictionary.js:73-131 | the tables and the flag are one entry's run, with the level id looked up in `difficultyMap` |
| MigrateDictionary.MigrateNext | backend/scripts/migrate-dictionary.js:72-132 | one turn runs the entry and advances `processedCount` exactly for an entry that does not throw |
| MigrateDictionary.MigrateEntries | backend/scripts/migrate-dictionary.js:71-132 | the tables are every entry run in order, and `processedCount` counts the entries that do not throw |
| MigrateDictionary.EntryWordsRow | backend/scripts/migrate-dictionary.js:75-94 | a throwing word upsert writes nothing and stops the next one; each id returned is its word's row id; no word loses its row |
| MigrateDictionary.ExamplesRow | backend/scripts/migrate-dictionary.js:105-122 | the entry completes exactly when no present example's insert throws; then its present examples exist; no other row is added |
| MigrateDictionary.LinksRow | backend/scripts/migrate-dictionary.js:96-122 | on completion the entry is migrated: both words, their verified translation and its examples; nothing is lost |
| MigrateDictionary.EntryRunCompletes | backend/scripts/migrate-dictionary.js:73-131 | an entry completes exactly when none of its statements that run throws |
| MigrateDictionary.EntryRow | backend/scripts/migrate-dictionary.js:73-131 | one entry keeps the UNIQUE keys, loses nothing, leaves languages and categories, and is migrated when it completes |
| MigrateDictionary.EntriesRow | backend/scripts/migrate-dictionary.js:71-132 | after the loop the keys hold, nothing is lost, and every entry that did not throw is migrated |
| MigrateDictionary.SetUpLanguages | backend/scripts/migrate-dictionary.js:21-41 | the tables and the two ids are those of the two language upserts and the pair insert |
| MigrateDictionary.LanguagesRow | backend/scripts/migrate-dictionary.js:21-31 | tr and pt exist under their English names (an existing row keeps its id and native name), and every other language is unchanged |
| MigrateDictionary.LanguagePairRow | backend/scripts/migrate-dictionary.js:33-41 | the ids returned are the tr and pt rows' ids, and their pair exists, inserted only if absent |
| MigrateDictionary.Migrate | backend/scripts/migrate-dictionary.js:21-132 | the tables and `categoryMap` are the whole migration run, and `processedCount` counts the entries that do not throw |
| MigrateDictionary.MigrationRow | backend/scripts/migrate-dictionary.js:21-132 | afterwards the keys hold and nothing is lost; tr and pt exist with their names and their pair; `categoryMap` gives each of the ten categories its row id; every entry that did not throw is migrated |
| MigrateDictionary.LanguageUpsertRerun | backend/scripts/migrate-dictionary.js:23-31 | re-running a language upsert never duplicates the code |
| MigrateDictionary.WordUpsertRow | backend/scripts/migrate-dictionary.js:75-94 | an existing word keeps its id and takes the new level and rank 1000; a new word gets the next id |
| App.AvailableTargetLangs | src/App.jsx:38 | exactly the languages whose code differs from the source |
| App.AvailableTargetLangsOrder | src/App.jsx:38 | the list keeps the original order, dropping only the source's entry |
| App.InitialSelection | src/App.jsx:29-30 | the initial source and target are different known codes |
| App.ChangeSource | src/App.jsx:233-240 | the source takes the code; the target is unchanged unless it equals the new source, and then it differs from it |
| App.ChangeSourceSeparates | src/App.jsx:233-240 | afterwards source and target always differ; on a clash the target becomes the first language not equal to the source (`'en'` when Turkish is chosen, otherwise `'tr'`) |
| App.ChangeTarget | src/App.jsx:254 | a target chosen among the options differs from the source |
| App.HandleMasteryChange | src/App.jsx:66-74 | same length and order; every word is kept; exactly the cards with that id take the level |
| App.MasteryChangeLastWins | src/App.jsx:66-74 | a second level for the same word overrides the first |
| App.MasteryChangesCommute | src/App.jsx:66-74 | changes to two different words commute |
| App.MasteryChangeAbsent | src/App.jsx:66-74 | an id not on the page leaves the cards unchanged |
| SubscriptionForm.InitialForm | src/components/EmailSubscriptionModal.jsx:7-15 | initial values `''`, `'daily'`, 5, `'09:00'`, no error, not submitting, no success |
| SubscriptionForm.MatchIsWellFormed | src/components/EmailSubscriptionModal.jsx:24 | a match has no white space, one `'@'` after a non-empty local part, and a dotted domain |
| SubscriptionForm.WellFormedMatches | src/components/EmailSubscriptionModal.jsx:24 | every such address matches |
| SubscriptionForm.EmailPatternMeaning | src/components/EmailSubscriptionModal.jsx:24 | the pattern matches exactly the well-formed addresses |
| SubscriptionForm.EmailAcceptedMeaning | src/components/EmailSubscriptionModal.jsx:24 | it accepts exactly the addresses with no white space, exactly one `'@'`, text before it, and a domain with a dot that has a character on each side (so the empty address is rejected) |
| SubscriptionForm.InputChange | src/components/EmailSubscriptionModal.jsx:45-48 | only the named field changes, and the error is cleared |
| SubscriptionForm.InputChangeLastWins | src/components/EmailSubscriptionModal.jsx:45-48 | the last value for a field wins |
| SubscriptionForm.InputChangesCommute | src/components/EmailSubscriptionModal.jsx:45-48 | changes to different fields commute |
| SubscriptionForm.SubmitStarted | src/components/EmailSubscriptionModal.jsx:19-20 | the error is cleared and the form is submitting, with its values kept |
| SubscriptionForm.SubmitSettled | src/components/EmailSubscriptionModal.jsx:17-43 | afterwards not submitting, values kept; error `'Please enter a valid email address'` exactly when rejected, else empty; success set when accepted |
| SubscriptionForm.SuccessTimerFired | src/components/EmailSubscriptionModal.jsx:32-36 | the banner goes and the values return to the initial ones |
| SubscriptionForm.SubmitClearsEarlierError | src/components/EmailSubscriptionModal.jsx:19 | an earlier error never survives a submission |
| SubscriptionForm.SuccessResets | src/components/EmailSubscriptionModal.jsx:7-36 | a successful submission followed by its timer gives back the initial form |
| SubscriptionForm.ResetFormRejected | src/components/EmailSubscriptionModal.jsx:24-25 | the initial form is rejected with the message |
| Seqs.SelectTop | backend/jobs/emailProcessor.js:148-149 | `ORDER BY key LIMIT n`: `min(n, rows)` rows drawn from the input, sorted, none ranked above a row left out |
| Seqs.DecimalRoundTrip | backend/services/emailService.js:356 | a number's decimal rendering reads back as the number |
| Store.ExampleChoices | backend/jobs/emailProcessor.js:139-140 | the `LEFT JOIN` gives a single NULL exactly when the word has no example sentence; otherwise one choice per sentence, in table order, and no NULL |

## Left out

- I/O and external effects are outside the model:
  - the connection pools and SQL text;
  - SendGrid (the transport is a function parameter);
  - HMAC-SHA256 (RFC 2104) and `encodeURIComponent`, which are `Env` functions;
  - locale date formatting;
  - the HTML body of the digest;
  - the `setTimeout` delays, which are not modelled as time;
  - console logging.
- Some database errors are not modelled: a failure of the `'failed'` write inside `sendDailyEmail`'s catch, a failure of the dispatch loop's own catch write, read errors on the GET routes (HTTP 500), and the last-resort `catch` of the migration script.
- NULL `mastery_level` is not modelled: a POST to `/word/:wordId` without `masteryLevel` stores NULL, but the model's level is always an integer.
- NULL `frequency_rank` is not modelled: every word has an integer rank, so where PostgreSQL sorts NULL ranks last does not arise.
- EmailProcessor.GenerationWith: the existing-set check and the new set's date use the JavaScript UTC date (`new Date().toISOString()`), while the seven-day recency window uses PostgreSQL `CURRENT_DATE` in the server's time zone. The model takes both as the same `today`, so it cannot show the window shifting by one day against the set's date around midnight on a server that is not on UTC.
- EmailProcessor.SubscribedUsers: the order of the join's rows is taken as users first, then preference rows, in table order; PostgreSQL does not fix that order. The number of rows is stated per user (SubscriptionsOf).
- Concurrency is left out: overlapping dispatch or generation runs, and the callback order of the SQLite driver.
- Scheduling is left out: the cron start of the processor is disabled in the code, so `Start` changes nothing.
- GET `/api/words/languages` and the route authentication are not part of this model.
- Query-string parsing is left out: `count` is already an integer (the NaN of `parseInt` is not modelled), and the form's `wordsPerDay` is already an integer.
- `SERIAL` ids are counters that advance on every upsert statement, conflict or not; the ids themselves are not constrained further.
- The DDL of the normalized PostgreSQL schema is not in the code; its UNIQUE keys are taken from the `ON CONFLICT` targets the migration names, since PostgreSQL requires a matching unique index.
- The importer writes the flat word schema of the SQLite routes. Its `word_examples` table has no unique constraint, so `ON CONFLICT DO NOTHING` there never fires.
- ImportWords.GetOrCreateTwice: stated only for a language whose id is known, because `language_id = NULL` matches no row, so an unknown language inserts a new word on every call.
- Progress.Tally: the groups come out in the order their level first appears in the table; SQLite does not fix the row order of `GROUP BY`, so the model's order is one of the orders it may return.
- Progress.ReviewDays: SQLite compares the ISO `last_reviewed` string with `DATE('now', '-30 days')` as text; the model takes this as a comparison of day numbers.
- Progress.Upserted: `INSERT OR REPLACE` deletes the conflicting row and appends a new one with a fresh id; the AUTOINCREMENT id is a counter of the store.
- EmailService.Dispatch: its own contract states only the length; the row-by-row meaning is in DispatchRow and DispatchSingleEntry.
- EmailService.GetWordSet: the word content is stated for one item's joined rows (PairViews), not for the aggregate order of `json_agg`, which PostgreSQL leaves unspecified.
- The subscription form never calls its `onSubmit` prop; the submission is a simulated delay, and the parent's `onClose` is outside the model.
- The `\s` and `[^\s@]` classes are stated over Unicode code points. JavaScript tests UTF-16 code units, but the two accept the same addresses, since every character of `\s` is a single code unit.
- The rendering, animation and styling of the page and the form, `ProgressDashboard` and `WordCard` are outside the model.
- `migrate_data.js` maps difficulties differently (1, 3, 5) and is not part of this model.
