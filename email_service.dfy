/**
 * The email service: queue status updates, one delivery attempt for a daily word
 * set, the batch dispatch loop, the plain-text body of the digest, and
 * token-checked unsubscription. Delivery goes through a transport function that
 * answers `Delivered` or `Rejected(reason)`.
 */
module EmailService {
  import opened Wrappers
  import opened Seqs
  import opened Store

  /**
   * Process configuration and the collaborators the model leaves abstract:
   * the hex HMAC-SHA256 of a message under a key, `encodeURIComponent`, and the
   * two locale date renderings of the digest.
   */
  datatype Env = Env(
    emailFrom: Option<string>, emailFromName: Option<string>,
    frontendUrl: string, jwtSecret: Option<string>,
    hmacHex: (string, string) -> string,
    encodeUri: string -> string,
    longDate: int -> string,
    todayShort: string)

  datatype Delivery = Delivered | Rejected(reason: string)

  /** What is handed to the transport (HTML body and tracking settings left out). */
  datatype Message = Message(to: string, fromEmail: string, fromName: string, subject: string, text: string)

  /** `sendDailyEmail` either resolves with `{success: true}` or raises with a message. */
  datatype SendResult = Resolved | Raised(message: string)

  const NotFoundMessage := "User or word set not found"
  const InvalidTokenMessage := "Invalid unsubscribe token"

  /** JavaScript truthiness of a possibly-null string. */
  predicate Truthy(s: Option<string>) { s.Some? && s.value != "" }

  /** `s || fallback` on a possibly-null string. */
  function OrElse(s: Option<string>, fallback: string): string {
    if Truthy(s) then s.value else fallback
  }

  function FromEmail(env: Env): string { OrElse(env.emailFrom, "noreply@yourdomain.com") }
  function FromName(env: Env): string { OrElse(env.emailFromName, "Language Learning Platform") }

  /** The HMAC of the address under `JWT_SECRET`, or the fallback secret when it is unset or empty. */
  function GenerateUnsubscribeToken(env: Env, email: string): (r: string)
    ensures Truthy(env.jwtSecret) ==> r == env.hmacHex(env.jwtSecret.value, email)
    ensures !Truthy(env.jwtSecret) ==> r == env.hmacHex("fallback-secret", email)
  {
    env.hmacHex(OrElse(env.jwtSecret, "fallback-secret"), email)
  }

  // ---------------------------------------------------------------------------
  // Queue status updates
  // ---------------------------------------------------------------------------

  /** Two queue rows are the same entry: only status, retries, message and send time may differ. */
  predicate SameEntry(a: QueueEntry, b: QueueEntry) {
    a.id == b.id && a.userId == b.userId && a.wordSetId == b.wordSetId && a.createdAt == b.createdAt
  }

  /** The `SET` list of `updateEmailQueueStatus` applied to one row. */
  function UpdatedRow(e: QueueEntry, status: Status, err: Option<string>, now: int): QueueEntry {
    e.(status := status,
       sentAt := if status == Sent then Some(now) else e.sentAt,
       errorMessage := err,
       retryCount := if status == Failed then e.retryCount + 1 else e.retryCount)
  }

  /** `UPDATE email_queue ... WHERE daily_word_set_id = wordSetId`. */
  function StatusUpdated(q: seq<QueueEntry>, wordSetId: int, status: Status, err: Option<string>, now: int)
    : (r: seq<QueueEntry>)
    ensures |r| == |q|
    ensures forall i :: 0 <= i < |q| && q[i].wordSetId != wordSetId ==> r[i] == q[i]
    ensures forall i :: 0 <= i < |q| && q[i].wordSetId == wordSetId ==>
      && SameEntry(r[i], q[i])
      && r[i].status == status
      && r[i].errorMessage == err
      && r[i].sentAt == (if status == Sent then Some(now) else q[i].sentAt)
      && r[i].retryCount == (if status == Failed then q[i].retryCount + 1 else q[i].retryCount)
  {
    seq(|q|, i requires 0 <= i < |q| =>
      if q[i].wordSetId == wordSetId then UpdatedRow(q[i], status, err, now) else q[i])
  }

  method UpdateEmailQueueStatus(db: Database, wordSetId: int, status: Status, err: Option<string>, now: int)
    modifies db`queue
    ensures db.queue == StatusUpdated(old(db.queue), wordSetId, status, err, now)
  {
    db.queue := StatusUpdated(db.queue, wordSetId, status, err, now);
  }

  // ---------------------------------------------------------------------------
  // Reading the user and the word set
  // ---------------------------------------------------------------------------

  /** `getUser`: the first active user with that id. */
  function GetUser(users: seq<User>, userId: int): (r: Option<User>)
    ensures r.Some? ==> r.value in users && r.value.id == userId && r.value.isActive
    ensures r.None? <==> forall u :: u in users ==> !(u.id == userId && u.isActive)
  {
    Find(users, (u: User) => u.id == userId && u.isActive)
  }

  /** One element of the aggregated `words` array of `getWordSet`. */
  datatype WordView = WordView(
    sourceWord: string, targetWord: string,
    sourceExample: Option<string>, targetExample: Option<string>, difficulty: string)

  datatype WordSetView = WordSetView(
    id: int, date: int, sourceLanguage: string, targetLanguage: string,
    difficultyLevel: string, words: seq<WordView>)

  /** The cross product of the two example LEFT JOINs for one translation. */
  function PairViews(w1: Word, w2: Word, difficulty: string, e1s: seq<Option<string>>, e2s: seq<Option<string>>)
    : (r: seq<WordView>)
    ensures |e1s| >= 1 && |e2s| >= 1 ==> |r| >= 1
    ensures forall v :: v in r ==>
      v.sourceWord == w1.text && v.targetWord == w2.text && v.difficulty == difficulty
      && v.sourceExample in e1s && v.targetExample in e2s
  {
    if e1s == [] then []
    else
      seq(|e2s|, j requires 0 <= j < |e2s| => WordView(w1.text, w2.text, e1s[0], e2s[j], difficulty))
      + PairViews(w1, w2, difficulty, e1s[1..], e2s)
  }

  /** The LEFT JOINs make the cross product: one row per pair of examples. */
  lemma {:induction false} PairViewsCount(w1: Word, w2: Word, difficulty: string,
                                          e1s: seq<Option<string>>, e2s: seq<Option<string>>)
    ensures |PairViews(w1, w2, difficulty, e1s, e2s)| == |e1s| * |e2s|
    decreases |e1s|
  {
    if e1s != [] {
      PairViewsCount(w1, w2, difficulty, e1s[1..], e2s);
      assert |e1s| * |e2s| == |e2s| + |e1s[1..]| * |e2s|;
    }
  }

  /** Row `i * |e2s| + j` of the cross product pairs example `i` of the first word with example `j` of the second. */
  lemma {:induction false} PairViewsAt(w1: Word, w2: Word, difficulty: string,
                                       e1s: seq<Option<string>>, e2s: seq<Option<string>>, i: int, j: int)
    requires 0 <= i < |e1s| && 0 <= j < |e2s|
    ensures var r := PairViews(w1, w2, difficulty, e1s, e2s);
      i * |e2s| + j < |r| && r[i * |e2s| + j] == WordView(w1.text, w2.text, e1s[i], e2s[j], difficulty)
    decreases |e1s|
  {
    PairViewsCount(w1, w2, difficulty, e1s, e2s);
    RowMajor(i, j, |e1s|, |e2s|);
    var here := seq(|e2s|, j requires 0 <= j < |e2s| => WordView(w1.text, w2.text, e1s[0], e2s[j], difficulty));
    var rest := PairViews(w1, w2, difficulty, e1s[1..], e2s);
    assert PairViews(w1, w2, difficulty, e1s, e2s) == here + rest;
    if i > 0 {
      PairViewsAt(w1, w2, difficulty, e1s[1..], e2s, i - 1, j);
      var k := (i - 1) * |e2s| + j;
      assert (here + rest)[|here| + k] == rest[k];
    }
  }

  /** The joined rows that one `word_set_items` row contributes. */
  function ItemViews(cat: Catalog, item: SetItem, difficulty: string): seq<WordView> {
    match LookupTranslation(cat.translations, item.translationId)
    case None => []
    case Some(t) =>
      match (LookupWord(cat.words, t.sourceWordId), LookupWord(cat.words, t.targetWordId))
      case (Some(w1), Some(w2)) =>
        PairViews(w1, w2, difficulty, ExampleChoices(cat.examples, w1.id), ExampleChoices(cat.examples, w2.id))
      case _ => []
  }

  function SetViews(cat: Catalog, items: seq<SetItem>, setId: int, difficulty: string): seq<WordView> {
    if items == [] then []
    else
      var here := if items[0].setId == setId then ItemViews(cat, items[0], difficulty) else [];
      here + SetViews(cat, items[1..], setId, difficulty)
  }

  /**
   * `getWordSet`: the set with its language names and level name, and the
   * aggregated words. The inner joins make a set with no resolvable item, or a
   * missing language or level, come back as no row at all.
   */
  function GetWordSet(cat: Catalog, setId: int): (r: Option<WordSetView>)
    ensures r.Some? ==> r.value.id == setId && |r.value.words| >= 1
    ensures r.Some? ==> exists s :: s in cat.sets && s.id == setId
  {
    match Find(cat.sets, (s: WordSet) => s.id == setId)
    case None => None
    case Some(s) =>
      match (LookupLanguage(cat.languages, s.sourceLanguageId), LookupLanguage(cat.languages, s.targetLanguageId),
             LookupLevel(cat.levels, s.difficultyLevelId))
      case (Some(sl), Some(tl), Some(dl)) =>
        var words := SetViews(cat, cat.items, s.id, dl.name);
        if words == [] then None else Some(WordSetView(s.id, s.date, sl.name, tl.name, dl.name, words))
      case _ => None
  }

  // ---------------------------------------------------------------------------
  // The plain-text digest
  // ---------------------------------------------------------------------------

  /** The two values the digest interpolates besides the words, and the text body. */
  datatype EmailContent = EmailContent(userName: string, wordCount: nat, text: string)

  /** An example line: the labelled example, or nothing when the example is empty or NULL. */
  function ExampleLine(caption: string, example: Option<string>): (r: string)
    requires caption != ""
    ensures r == "" <==> !Truthy(example)
    ensures Truthy(example) ==> r == caption + example.value
  {
    if Truthy(example) then caption + example.value else ""
  }

  /** The text block of the word at position `index` (numbered from 1). */
  function EntryText(index: nat, w: WordView): string {
    "\n" + (DecimalString(index + 1) + EntryRest(w))
  }

  /** What follows the number in a text block. */
  function EntryRest(w: WordView): string {
    ". " + (w.sourceWord + " → " + w.targetWord + " (" + w.difficulty + ")\n"
    + ExampleLine("   Example: ", w.sourceExample) + "\n"
    + ExampleLine("   Exemplo: ", w.targetExample) + "\n")
  }

  /** `words.map((word, index) => ...)`, the blocks numbered from `first`. */
  function EntriesFrom(words: seq<WordView>, first: nat): (r: seq<string>)
    ensures |r| == |words|
    ensures forall i :: 0 <= i < |words| ==> r[i] == EntryText(first + i, words[i])
  {
    if words == [] then [] else [EntryText(first, words[0])] + EntriesFrom(words[1..], first + 1)
  }

  function Join(parts: seq<string>, sep: string): string {
    if parts == [] then "" else if |parts| == 1 then parts[0] else parts[0] + sep + Join(parts[1..], sep)
  }

  function UnsubscribeUrl(env: Env, email: string): string {
    env.frontendUrl + "/unsubscribe?email=" + env.encodeUri(email) + "&token=" + GenerateUnsubscribeToken(env, email)
  }

  /** How a user without a first name is greeted. */
  const AnonymousName := "there"

  function Greeting(name: string): string { "Hello " + name + "!" }

  function TextHead(ws: WordSetView, env: Env): string {
    "\nYour Daily " + ws.targetLanguage + " Words - " + env.longDate(ws.date) + "\n\n"
  }

  function TextBody(name: string, email: string, ws: WordSetView, env: Env): string {
    TextHead(ws, env) + (Greeting(name) + TextTail(email, ws, env))
  }

  /** The rest of the text body, piece by piece. */
  function TextTail(email: string, ws: WordSetView, env: Env): string {
    Concat([
      "\n\nHere are your daily ", ws.targetLanguage, " words to expand your vocabulary:\n\n",
      Join(EntriesFrom(ws.words, 0), "\n"),
      "\n\nPractice these words online: ", env.frontendUrl, "/words",
      "\n\nKeep learning and expanding your language skills!\n\n---\nUnsubscribe: ",
      UnsubscribeUrl(env, email), "\n    "])
  }

  function Concat(parts: seq<string>): string {
    if parts == [] then "" else parts[0] + Concat(parts[1..])
  }

  /** `generateEmailContent`, text part. */
  function GenerateEmailContent(user: User, ws: WordSetView, env: Env): (c: EmailContent)
    ensures Truthy(user.firstName) ==> c.userName == user.firstName.value
    ensures !Truthy(user.firstName) ==> c.userName == AnonymousName
    ensures c.wordCount == |ws.words|
  {
    var name := OrElse(user.firstName, AnonymousName);
    EmailContent(name, |ws.words|, TextBody(name, user.email, ws, env))
  }

  /** Right after the heading, the text greets the user by first name, or as "there". */
  lemma GreetsByName(user: User, ws: WordSetView, env: Env)
    ensures var c := GenerateEmailContent(user, ws, env);
      var at := |TextHead(ws, env)|;
      |c.text| >= at + |Greeting(c.userName)| && c.text[at..at + |Greeting(c.userName)|] == Greeting(c.userName)
  {
    var name := OrElse(user.firstName, AnonymousName);
    InfixAt(TextHead(ws, env), Greeting(name), TextTail(user.email, ws, env));
  }

  lemma InfixAt<T>(a: seq<T>, b: seq<T>, c: seq<T>)
    ensures |a + (b + c)| >= |a| + |b|
    ensures (a + (b + c))[|a|..|a| + |b|] == b
  {
  }

  /** The number that opens a text block: the digits after its leading newline. */
  function EntryNumber(entry: string): nat {
    if entry == [] then 0 else ParseDecimal(LeadingDigits(entry[1..]))
  }

  /** The text body numbers the words 1..n in order. */
  lemma {:induction false} EntriesNumbered(words: seq<WordView>)
    ensures forall i :: 0 <= i < |words| ==> EntryNumber(EntriesFrom(words, 0)[i]) == i + 1
  {
    forall i | 0 <= i < |words| ensures EntryNumber(EntriesFrom(words, 0)[i]) == i + 1 {
      var d := DecimalString(i + 1);
      var rest := EntryRest(words[i]);
      assert EntryText(i, words[i])[1..] == d + rest;
      assert rest[0] == '.';
      LeadingDigitsOf(d, rest);
      DecimalRoundTrip(i + 1);
    }
  }

  function Subject(ws: WordSetView, env: Env): string {
    "Your Daily " + ws.targetLanguage + " Words - " + env.todayShort
  }

  function ComposeMessage(user: User, ws: WordSetView, env: Env): (m: Message)
    ensures m.to == user.email
  {
    Message(user.email, FromEmail(env), FromName(env), Subject(ws, env), GenerateEmailContent(user, ws, env).text)
  }

  // ---------------------------------------------------------------------------
  // One delivery attempt and the dispatch cycle
  // ---------------------------------------------------------------------------

  /** The message `sendDailyEmail` hands to the transport, or none when the user or the set is not found. */
  function Compose(cat: Catalog, userId: int, wordSetId: int, env: Env): (r: Option<Message>)
    ensures r.None? <==> GetUser(cat.users, userId).None? || GetWordSet(cat, wordSetId).None?
    ensures r.Some? ==> r.value.to == GetUser(cat.users, userId).value.email
  {
    var user := GetUser(cat.users, userId);
    var ws := GetWordSet(cat, wordSetId);
    if user.None? || ws.None? then None else Some(ComposeMessage(user.value, ws.value, env))
  }

  /**
   * A database error inside `sendDailyEmail`'s `try`: reading the user or the
   * word set throws, or the `'sent'` status write after a delivered message
   * throws. Each carries the error's message.
   */
  datatype SendFault = NoFault | ReadFails(message: string) | SentWriteFails(message: string)

  /**
   * How an attempt comes out once the user and the set are read (or their read
   * threw) and the message is composed or found missing.
   */
  function DeliveryOutcome(message: Option<Message>, transport: Message -> Delivery, fault: SendFault): (r: SendResult)
    ensures fault.ReadFails? ==> r == Raised(fault.message)
    ensures !fault.ReadFails? && message.None? ==> r == Raised(NotFoundMessage)
    ensures !fault.ReadFails? && message.Some? ==>
      && (r == Resolved <==> transport(message.value) == Delivered && fault.NoFault?)
      && (transport(message.value).Rejected? ==> r == Raised(transport(message.value).reason))
      && (transport(message.value) == Delivered && fault.SentWriteFails? ==> r == Raised(fault.message))
  {
    if fault.ReadFails? then Raised(fault.message)
    else
      match message
      case None => Raised(NotFoundMessage)
      case Some(m) =>
        match transport(m)
        case Delivered => if fault.SentWriteFails? then Raised(fault.message) else Resolved
        case Rejected(reason) => Raised(reason)
  }

  /** What one `sendDailyEmail` call resolves or raises with. */
  function SendAttempt(cat: Catalog, userId: int, wordSetId: int, transport: Message -> Delivery, fault: SendFault, env: Env)
    : SendResult
  {
    DeliveryOutcome(Compose(cat, userId, wordSetId, env), transport, fault)
  }

  /** The queue writes of `sendDailyEmail`: `'sent'` on success, `'failed'` in its catch. */
  function QueueAfterSend(q: seq<QueueEntry>, wordSetId: int, res: SendResult, now: int): seq<QueueEntry> {
    if res.Resolved? then StatusUpdated(q, wordSetId, Sent, None, now)
    else StatusUpdated(q, wordSetId, Failed, Some(res.message), now)
  }

  /** The status the dispatch loop's catch writes, from the retry count it fetched. */
  function RetryStatus(fetchedRetries: nat): Status {
    if fetchedRetries >= 2 then Failed else Pending
  }

  /**
   * The net effect of one attempt on a queue row of that word set: success marks
   * it sent; a failure is written twice, once by `sendDailyEmail` (`'failed'`,
   * one more retry) and once by the loop's catch (status from the fetched retry
   * count, one more retry again when that status is `'failed'`).
   */
  function RowEffect(row: QueueEntry, fetchedRetries: nat, res: SendResult, now: int): (r: QueueEntry)
    ensures SameEntry(r, row)
    ensures res.Resolved? ==>
      r.status == Sent && r.sentAt == Some(now) && r.errorMessage == None && r.retryCount == row.retryCount
    ensures res.Raised? ==> r.errorMessage == Some(res.message) && r.sentAt == row.sentAt
    ensures res.Raised? && fetchedRetries < 2 ==> r.status == Pending && r.retryCount == row.retryCount + 1
    ensures res.Raised? && fetchedRetries >= 2 ==> r.status == Failed && r.retryCount == row.retryCount + 2
  {
    if res.Resolved? then UpdatedRow(row, Sent, None, now)
    else
      var afterSend := UpdatedRow(row, Failed, Some(res.message), now);
      UpdatedRow(afterSend, RetryStatus(fetchedRetries), Some(res.message), now)
  }

  /** One iteration of the dispatch loop, for the fetched entry `e` whose attempt came out as `res`. */
  function ProcessEntry(q: seq<QueueEntry>, e: QueueEntry, res: SendResult, now: int): (r: seq<QueueEntry>)
    ensures |r| == |q|
    ensures forall i :: 0 <= i < |q| ==>
      r[i] == if q[i].wordSetId == e.wordSetId then RowEffect(q[i], e.retryCount, res, now) else q[i]
  {
    var afterSend := QueueAfterSend(q, e.wordSetId, res, now);
    if res.Resolved? then afterSend
    else StatusUpdated(afterSend, e.wordSetId, RetryStatus(e.retryCount), Some(res.message), now)
  }

  /** The attempt for a fetched entry, with the database error it meets, if any. */
  function AttemptFor(e: QueueEntry, cat: Catalog, transport: Message -> Delivery, faults: QueueEntry -> SendFault, env: Env): SendResult {
    SendAttempt(cat, e.userId, e.wordSetId, transport, faults(e), env)
  }

  /** The loop over the fetched batch, in order. */
  function Dispatch(q: seq<QueueEntry>, batch: seq<QueueEntry>, cat: Catalog, transport: Message -> Delivery, faults: QueueEntry -> SendFault, env: Env, now: int)
    : (r: seq<QueueEntry>)
    ensures |r| == |q|
    decreases |batch|
  {
    if batch == [] then q
    else
      var e := batch[|batch| - 1];
      ProcessEntry(Dispatch(q, batch[..|batch| - 1], cat, transport, faults, env, now), e, AttemptFor(e, cat, transport, faults, env), now)
  }

  /** The effect of the whole batch on one row: the effects of the entries of its word set, in batch order. */
  function RowDispatch(row: QueueEntry, batch: seq<QueueEntry>, cat: Catalog, transport: Message -> Delivery, faults: QueueEntry -> SendFault, env: Env, now: int)
    : QueueEntry
    decreases |batch|
  {
    if batch == [] then row
    else
      var before := RowDispatch(row, batch[..|batch| - 1], cat, transport, faults, env, now);
      var e := batch[|batch| - 1];
      if row.wordSetId == e.wordSetId
      then RowEffect(before, e.retryCount, AttemptFor(e, cat, transport, faults, env), now)
      else before
  }

  /**
   * Each row ends up as if only the batch entries of its own word set had been
   * processed: an entry's outcome does not depend on how the others went, and a
   * failed entry does not stop the loop.
   */
  lemma {:induction false} DispatchRow(q: seq<QueueEntry>, batch: seq<QueueEntry>, cat: Catalog, transport: Message -> Delivery, faults: QueueEntry -> SendFault, env: Env, now: int)
    ensures forall i :: 0 <= i < |q| ==>
      Dispatch(q, batch, cat, transport, faults, env, now)[i] == RowDispatch(q[i], batch, cat, transport, faults, env, now)
    decreases |batch|
  {
    if batch != [] {
      DispatchRow(q, batch[..|batch| - 1], cat, transport, faults, env, now);
      var before := Dispatch(q, batch[..|batch| - 1], cat, transport, faults, env, now);
      forall i | 0 <= i < |q|
        ensures Dispatch(q, batch, cat, transport, faults, env, now)[i] == RowDispatch(q[i], batch, cat, transport, faults, env, now)
      {
        assert before[i].wordSetId == q[i].wordSetId by {
          RowDispatchSameEntry(q[i], batch[..|batch| - 1], cat, transport, faults, env, now);
        }
      }
    }
  }

  lemma {:induction false} RowDispatchSameEntry(row: QueueEntry, batch: seq<QueueEntry>, cat: Catalog, transport: Message -> Delivery, faults: QueueEntry -> SendFault, env: Env, now: int)
    ensures SameEntry(RowDispatch(row, batch, cat, transport, faults, env, now), row)
    decreases |batch|
  {
    if batch != [] {
      RowDispatchSameEntry(row, batch[..|batch| - 1], cat, transport, faults, env, now);
    }
  }

  /** A row whose word set has exactly one entry in the batch gets exactly that entry's effect. */
  lemma {:induction false} DispatchSingleEntry(q: seq<QueueEntry>, batch: seq<QueueEntry>, j: nat, i: nat,
                                               cat: Catalog, transport: Message -> Delivery, faults: QueueEntry -> SendFault, env: Env, now: int)
    requires j < |batch| && i < |q| && batch[j].wordSetId == q[i].wordSetId
    requires forall k :: 0 <= k < |batch| && k != j ==> batch[k].wordSetId != q[i].wordSetId
    ensures Dispatch(q, batch, cat, transport, faults, env, now)[i]
         == RowEffect(q[i], batch[j].retryCount, AttemptFor(batch[j], cat, transport, faults, env), now)
  {
    DispatchRow(q, batch, cat, transport, faults, env, now);
    RowDispatchSingle(q[i], batch, j, cat, transport, faults, env, now);
  }

  lemma {:induction false} RowDispatchSingle(row: QueueEntry, batch: seq<QueueEntry>, j: nat,
                                             cat: Catalog, transport: Message -> Delivery, faults: QueueEntry -> SendFault, env: Env, now: int)
    requires j < |batch| && batch[j].wordSetId == row.wordSetId
    requires forall k :: 0 <= k < |batch| && k != j ==> batch[k].wordSetId != row.wordSetId
    ensures RowDispatch(row, batch, cat, transport, faults, env, now)
         == RowEffect(row, batch[j].retryCount, AttemptFor(batch[j], cat, transport, faults, env), now)
    decreases |batch|
  {
    var init := batch[..|batch| - 1];
    if j == |batch| - 1 {
      RowDispatchNone(row, init, cat, transport, faults, env, now);
    } else {
      RowDispatchSingle(row, init, j, cat, transport, faults, env, now);
    }
  }

  lemma {:induction false} RowDispatchNone(row: QueueEntry, batch: seq<QueueEntry>,
                                           cat: Catalog, transport: Message -> Delivery, faults: QueueEntry -> SendFault, env: Env, now: int)
    requires forall k :: 0 <= k < |batch| ==> batch[k].wordSetId != row.wordSetId
    ensures RowDispatch(row, batch, cat, transport, faults, env, now) == row
    decreases |batch|
  {
    if batch != [] {
      RowDispatchNone(row, batch[..|batch| - 1], cat, transport, faults, env, now);
    }
  }

  /** Entries a dispatch cycle may pick up. */
  predicate Dispatchable(e: QueueEntry) { e.status == Pending && e.retryCount < 3 }

  function CreatedAt(e: QueueEntry): int { e.createdAt }

  /** The batch query: pending entries with fewer than 3 retries, oldest first, at most 50. */
  function PendingBatch(q: seq<QueueEntry>): (r: seq<QueueEntry>)
    ensures |r| <= 50
    ensures forall e :: e in r ==> e in q && e.status == Pending && e.retryCount < 3
  {
    SelectTop(Filter(q, Dispatchable), CreatedAt, 50)
  }

  /** The batch holds as many eligible entries as there are, up to 50, and they are the oldest. */
  lemma PendingBatchOldest(q: seq<QueueEntry>)
    ensures |PendingBatch(q)| == Min(50, Count(q, Dispatchable))
    ensures forall i, j :: 0 <= i < j < |PendingBatch(q)| ==> PendingBatch(q)[i].createdAt <= PendingBatch(q)[j].createdAt
    ensures forall y, x :: y in PendingBatch(q) && x in q && Dispatchable(x) && x !in PendingBatch(q) ==>
      y.createdAt <= x.createdAt
  {
    var pool := Filter(q, Dispatchable);
    var r := PendingBatch(q);
    CountIsFilter(q, Dispatchable);
    forall y, x | y in r && x in q && Dispatchable(x) && x !in r ensures y.createdAt <= x.createdAt {
      assert x in pool;
      assert x in multiset(pool) - multiset(r);
    }
  }

  /**
   * A message the transport delivered whose `'sent'` write then throws is
   * recorded as a failure: the row goes back to `'pending'` when fetched below 2
   * retries, so the next cycle picks it up and sends it again.
   */
  lemma DeliveredButNotMarked(e: QueueEntry, cat: Catalog, transport: Message -> Delivery,
                              faults: QueueEntry -> SendFault, env: Env, now: int)
    requires Compose(cat, e.userId, e.wordSetId, env).Some?
    requires transport(Compose(cat, e.userId, e.wordSetId, env).value) == Delivered
    requires faults(e).SentWriteFails?
    ensures var res := AttemptFor(e, cat, transport, faults, env);
      var row := RowEffect(e, e.retryCount, res, now);
      && res == Raised(faults(e).message)
      && row.status != Sent && row.sentAt == e.sentAt
      && (e.retryCount < 2 ==> Dispatchable(row))
  {
  }

  method SendDailyEmail(db: Database, userId: int, wordSetId: int, transport: Message -> Delivery, fault: SendFault,
                        env: Env, now: int)
    returns (r: SendResult)
    modifies db`queue
    ensures r == SendAttempt(db.Snapshot(), userId, wordSetId, transport, fault, env)
    ensures db.queue == QueueAfterSend(old(db.queue), wordSetId, r, now)
  {
    ghost var cat := db.Snapshot();
    if fault.ReadFails? {
      r := Raised(fault.message);
    } else {
      var message := Compose(db.Snapshot(), userId, wordSetId, env);
      r := Deliver(db, wordSetId, message, transport, fault, now);
      if r.Resolved? {
        return;
      }
    }
    UpdateEmailQueueStatus(db, wordSetId, Failed, Some(r.message), now);
    assert db.Snapshot() == cat;
  }

  /**
   * The existence check, the send and the `'sent'` write of `sendDailyEmail`,
   * once the message is composed or found missing; a raise leaves the queue
   * for the catch.
   */
  method Deliver(db: Database, wordSetId: int, message: Option<Message>, transport: Message -> Delivery,
                 fault: SendFault, now: int)
    returns (r: SendResult)
    requires !fault.ReadFails?
    modifies db`queue
    ensures r == DeliveryOutcome(message, transport, fault)
    ensures r.Resolved? ==> db.queue == StatusUpdated(old(db.queue), wordSetId, Sent, None, now)
    ensures r.Raised? ==> db.queue == old(db.queue)
  {
    if message.None? {
      return Raised(NotFoundMessage);
    }
    var reply := transport(message.value);
    if reply.Rejected? {
      return Raised(reply.reason);
    }
    if fault.SentWriteFails? {
      return Raised(fault.message);
    }
    UpdateEmailQueueStatus(db, wordSetId, Sent, None, now);
    r := Resolved;
  }

  /**
   * `processEmailQueue`. When the batch query fails nothing is written;
   * otherwise every fetched entry is attempted in order, and a raised attempt
   * is caught and recorded before the loop goes on.
   */
  method ProcessEmailQueue(db: Database, queueReadable: bool, transport: Message -> Delivery, faults: QueueEntry -> SendFault, env: Env, now: int)
    modifies db`queue
    ensures !queueReadable ==> db.queue == old(db.queue)
    ensures queueReadable ==>
      db.queue == Dispatch(old(db.queue), PendingBatch(old(db.queue)), db.Snapshot(), transport, faults, env, now)
  {
    if !queueReadable {
      return;
    }
    var batch := PendingBatch(db.queue);
    DispatchBatch(db, batch, transport, faults, env, now);
  }

  /** The `for` loop of `processEmailQueue` over a fetched batch. */
  method DispatchBatch(db: Database, batch: seq<QueueEntry>, transport: Message -> Delivery, faults: QueueEntry -> SendFault, env: Env, now: int)
    modifies db`queue
    ensures db.queue == Dispatch(old(db.queue), batch, db.Snapshot(), transport, faults, env, now)
  {
    ghost var q0 := db.queue;
    ghost var cat := db.Snapshot();
    var i := 0;
    while i < |batch|
      invariant 0 <= i <= |batch|
      invariant db.Snapshot() == cat
      invariant db.queue == Dispatch(q0, batch[..i], cat, transport, faults, env, now)
    {
      ProcessOne(db, batch[i], transport, faults, env, now);
      DispatchStep(q0, batch, i, cat, transport, faults, env, now);
      i := i + 1;
    }
    assert batch[..|batch|] == batch;
  }

  lemma DispatchStep(q: seq<QueueEntry>, batch: seq<QueueEntry>, i: nat,
                     cat: Catalog, transport: Message -> Delivery, faults: QueueEntry -> SendFault, env: Env, now: int)
    requires i < |batch|
    ensures Dispatch(q, batch[..i + 1], cat, transport, faults, env, now)
         == ProcessEntry(Dispatch(q, batch[..i], cat, transport, faults, env, now), batch[i], AttemptFor(batch[i], cat, transport, faults, env), now)
  {
    assert batch[..i + 1][..i] == batch[..i];
  }

  /** One iteration of the dispatch loop: the attempt, and the catch that records a raised one. */
  method ProcessOne(db: Database, e: QueueEntry, transport: Message -> Delivery, faults: QueueEntry -> SendFault, env: Env, now: int)
    modifies db`queue
    ensures db.queue == ProcessEntry(old(db.queue), e, AttemptFor(e, db.Snapshot(), transport, faults, env), now)
  {
    var res := SendDailyEmail(db, e.userId, e.wordSetId, transport, faults(e), env, now);
    if res.Raised? {
      UpdateEmailQueueStatus(db, e.wordSetId, RetryStatus(e.retryCount), Some(res.message), now);
    }
  }

  // ---------------------------------------------------------------------------
  // Unsubscribing
  // ---------------------------------------------------------------------------

  /** `SELECT id FROM users WHERE email = $1` (email is UNIQUE). */
  function UserIdByEmail(users: seq<User>, email: string): (r: Option<int>)
    ensures r.Some? ==> exists u :: u in users && u.email == email && u.id == r.value
    ensures r.None? <==> forall u :: u in users ==> u.email != email
  {
    match Find(users, (u: User) => u.email == email)
    case Some(u) => Some(u.id)
    case None => None
  }

  /** `UPDATE user_preferences SET is_email_subscribed = false WHERE user_id = (...)`. */
  function Unsubscribed(prefs: seq<Preference>, userId: Option<int>): (r: seq<Preference>)
    ensures |r| == |prefs|
    ensures forall i :: 0 <= i < |prefs| && userId == Some(prefs[i].userId) ==>
      r[i] == prefs[i].(emailSubscribed := false)
    ensures forall i :: 0 <= i < |prefs| && userId != Some(prefs[i].userId) ==> r[i] == prefs[i]
  {
    seq(|prefs|, i requires 0 <= i < |prefs| =>
      if userId == Some(prefs[i].userId) then prefs[i].(emailSubscribed := false) else prefs[i])
  }

  /** The `rowCount` of that update: every preference row of the user, subscribed or not. */
  function AffectedRows(prefs: seq<Preference>, userId: Option<int>): (n: nat)
    ensures n > 0 <==> exists p :: p in prefs && userId == Some(p.userId)
  {
    Count(prefs, (p: Preference) => userId == Some(p.userId))
  }

  method UnsubscribeUser(db: Database, email: string, token: string, env: Env) returns (r: Result<bool, string>)
    modifies db`prefs
    ensures token != GenerateUnsubscribeToken(env, email) ==>
      r == Failure(InvalidTokenMessage) && db.prefs == old(db.prefs)
    ensures token == GenerateUnsubscribeToken(env, email) ==>
      && db.prefs == Unsubscribed(old(db.prefs), UserIdByEmail(db.users, email))
      && r == Result.Success(AffectedRows(old(db.prefs), UserIdByEmail(db.users, email)) > 0)
  {
    var expected := GenerateUnsubscribeToken(env, email);
    if token != expected {
      return Failure(InvalidTokenMessage);
    }
    var userId := UserIdByEmail(db.users, email);
    var rowCount := AffectedRows(db.prefs, userId);
    db.prefs := Unsubscribed(db.prefs, userId);
    r := Result.Success(rowCount > 0);
  }
}
