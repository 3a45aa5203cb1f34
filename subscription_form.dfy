/**
 * The e-mail subscription form: its field values, the error text shown under
 * the e-mail input, and the success banner. The address check is the regular
 * expression `^[^\s@]+@[^\s@]+\.[^\s@]+$`, stated here as the split it matches.
 */
module SubscriptionForm {

  datatype FormData = FormData(email: string, frequency: string, wordsPerDay: int, time: string)

  datatype Form = Form(data: FormData, error: string, submitting: bool, success: bool)

  /** The values the form starts with and returns to after a successful submission. */
  const InitialData := FormData("", "daily", 5, "09:00")

  const InvalidEmailMessage := "Please enter a valid email address"

  /** The form as first rendered: initial values, no error, nothing in flight. */
  function InitialForm(): (f: Form)
    ensures f.data.email == "" && f.data.frequency == "daily" && f.data.wordsPerDay == 5 && f.data.time == "09:00"
    ensures f.error == "" && !f.submitting && !f.success
  {
    Form(InitialData, "", false, false)
  }

  // ---------------------------------------------------------------------------
  // The address pattern
  // ---------------------------------------------------------------------------

  /** JavaScript's `\s`: the white space and line terminator characters of ECMAScript. */
  predicate IsSpace(c: char) {
    c == '\t' || c == '\n' || c == '\U{000B}' || c == '\U{000C}' || c == '\r' || c == ' '
    || c == '\U{00A0}' || c == '\U{1680}' || ('\U{2000}' <= c <= '\U{200A}')
    || c == '\U{2028}' || c == '\U{2029}' || c == '\U{202F}' || c == '\U{205F}' || c == '\U{3000}'
    || c == '\U{FEFF}'
  }

  /** `[^\s@]`. */
  predicate Plain(c: char) { !IsSpace(c) && c != '@' }

  /** `[^\s@]+` matches the whole of `s`. */
  predicate PlainRun(s: string) { |s| > 0 && forall k :: 0 <= k < |s| ==> Plain(s[k]) }

  /**
   * The pattern matches `s`: `s` is a run, an `'@'` at `i`, a run, a `'.'` at
   * `j` and a run. The middle run may itself hold dots; any dot with plain
   * characters on both sides serves as `j`.
   */
  predicate MatchesEmailPattern(s: string) {
    exists i, j :: 0 <= i < j < |s| && s[i] == '@' && s[j] == '.'
      && PlainRun(s[..i]) && PlainRun(s[i + 1..j]) && PlainRun(s[j + 1..])
  }

  /** `!formData.email || !pattern.test(formData.email)` is false. */
  predicate EmailAccepted(email: string) {
    email != "" && MatchesEmailPattern(email)
  }

  // The pattern in plain words.

  function Occurrences(s: string, c: char): (n: nat)
    ensures n <= |s|
    ensures n == 0 <==> forall k :: 0 <= k < |s| ==> s[k] != c
  {
    if s == [] then 0 else (if s[0] == c then 1 else 0) + Occurrences(s[1..], c)
  }

  function AtIndex(s: string): (i: nat)
    requires Occurrences(s, '@') > 0
    ensures i < |s| && s[i] == '@'
    ensures forall k :: 0 <= k < i ==> s[k] != '@'
  {
    if s[0] == '@' then 0 else 1 + AtIndex(s[1..])
  }

  predicate NoWhitespace(s: string) { forall k :: 0 <= k < |s| ==> !IsSpace(s[k]) }

  /** A domain holds a dot with at least one character before it and one after it. */
  predicate DottedDomain(d: string) { exists j :: 0 < j < |d| - 1 && d[j] == '.' }

  /** What the pattern asks of an address, spelled out. */
  predicate WellFormedAddress(s: string) {
    NoWhitespace(s) && Occurrences(s, '@') == 1 && AtIndex(s) > 0 && DottedDomain(s[AtIndex(s) + 1..])
  }

  lemma {:induction false} OccurrencesAppend(a: string, b: string, c: char)
    ensures Occurrences(a + b, c) == Occurrences(a, c) + Occurrences(b, c)
  {
    if a == [] {
      assert a + b == b;
    } else {
      assert (a + b)[1..] == a[1..] + b;
      OccurrencesAppend(a[1..], b, c);
    }
  }

  /** A run of `[^\s@]` holds no `'@'`. */
  lemma PlainRunHasNoAt(t: string)
    requires PlainRun(t)
    ensures Occurrences(t, '@') == 0
  {
  }

  /** A match splits the address into a local part, an `'@'` and a dotted domain. */
  lemma MatchIsWellFormed(s: string, i: nat, j: nat)
    requires i < j < |s| && s[i] == '@' && s[j] == '.'
    requires PlainRun(s[..i]) && PlainRun(s[i + 1..j]) && PlainRun(s[j + 1..])
    ensures WellFormedAddress(s)
  {
    var a, b, c := s[..i], s[i + 1..j], s[j + 1..];
    assert s == a + ['@'] + b + ['.'] + c;
    forall k | 0 <= k < |s| ensures !IsSpace(s[k]) {
      if k < i {
        assert s[k] == a[k];
      } else if i < k < j {
        assert s[k] == b[k - i - 1];
      } else if j < k {
        assert s[k] == c[k - j - 1];
      }
    }
    PlainRunHasNoAt(a);
    PlainRunHasNoAt(b);
    PlainRunHasNoAt(c);
    OccurrencesAppend(a + ['@'] + b + ['.'], c, '@');
    OccurrencesAppend(a + ['@'] + b, ['.'], '@');
    OccurrencesAppend(a + ['@'], b, '@');
    OccurrencesAppend(a, ['@'], '@');
    assert Occurrences(s, '@') == 1;
    forall k | 0 <= k < i ensures s[k] != '@' {
      assert s[k] == a[k];
    }
    assert AtIndex(s) == i;
    var d := s[i + 1..];
    assert d[j - i - 1] == '.';
  }

  /** A well-formed address has the split the pattern looks for. */
  lemma WellFormedMatches(s: string)
    requires WellFormedAddress(s)
    ensures MatchesEmailPattern(s)
  {
    var i := AtIndex(s);
    var d := s[i + 1..];
    var j0 :| 0 < j0 < |d| - 1 && d[j0] == '.';
    var j := i + 1 + j0;
    OccurrencesAround(s, i, '@');
    assert s[j] == '.';
    forall k | i < k < |s| ensures s[k] != '@' {
      assert s[k] == d[k - i - 1];
    }
    var a, b, c := s[..i], s[i + 1..j], s[j + 1..];
    forall k | 0 <= k < |a| ensures Plain(a[k]) {
      assert a[k] == s[k];
    }
    forall k | 0 <= k < |b| ensures Plain(b[k]) {
      assert b[k] == s[i + 1 + k];
    }
    forall k | 0 <= k < |c| ensures Plain(c[k]) {
      assert c[k] == s[j + 1 + k];
    }
  }

  /** Splitting `s` around position `i` counts the character there once. */
  lemma OccurrencesAround(s: string, i: nat, c: char)
    requires i < |s|
    ensures Occurrences(s, c) == Occurrences(s[..i], c) + (if s[i] == c then 1 else 0) + Occurrences(s[i + 1..], c)
  {
    assert s == s[..i] + [s[i]] + s[i + 1..];
    OccurrencesAppend(s[..i] + [s[i]], s[i + 1..], c);
    OccurrencesAppend(s[..i], [s[i]], c);
  }

  /** The pattern accepts exactly the well-formed addresses. */
  lemma EmailPatternMeaning(s: string)
    ensures MatchesEmailPattern(s) <==> WellFormedAddress(s)
  {
    if MatchesEmailPattern(s) {
      var i, j :| 0 <= i < j < |s| && s[i] == '@' && s[j] == '.'
        && PlainRun(s[..i]) && PlainRun(s[i + 1..j]) && PlainRun(s[j + 1..]);
      MatchIsWellFormed(s, i, j);
    }
    if WellFormedAddress(s) {
      WellFormedMatches(s);
    }
  }

  /** The characterisation, unpacked: no white space, one `'@'` with text before it, and a dot inside the domain. */
  lemma EmailAcceptedMeaning(s: string)
    ensures EmailAccepted(s) <==>
      NoWhitespace(s) && Occurrences(s, '@') == 1 && AtIndex(s) > 0 && DottedDomain(s[AtIndex(s) + 1..])
  {
    EmailPatternMeaning(s);
  }

  // ---------------------------------------------------------------------------
  // Handlers
  // ---------------------------------------------------------------------------

  /** The `[field]: value` arguments `handleInputChange` receives from the inputs. */
  datatype Change = SetEmail(email: string) | SetFrequency(frequency: string)
                  | SetWordsPerDay(wordsPerDay: int) | SetTime(time: string)

  /** `handleInputChange(field, value)`: the named field takes the value and the error is cleared. */
  function InputChange(f: Form, c: Change): (r: Form)
    ensures r.error == "" && r.submitting == f.submitting && r.success == f.success
    ensures r.data.email == (if c.SetEmail? then c.email else f.data.email)
    ensures r.data.frequency == (if c.SetFrequency? then c.frequency else f.data.frequency)
    ensures r.data.wordsPerDay == (if c.SetWordsPerDay? then c.wordsPerDay else f.data.wordsPerDay)
    ensures r.data.time == (if c.SetTime? then c.time else f.data.time)
  {
    var d := match c
      case SetEmail(v) => f.data.(email := v)
      case SetFrequency(v) => f.data.(frequency := v)
      case SetWordsPerDay(v) => f.data.(wordsPerDay := v)
      case SetTime(v) => f.data.(time := v);
    f.(data := d, error := "")
  }

  /** The same field changed twice keeps the last value. */
  lemma InputChangeLastWins(f: Form, c1: Change, c2: Change)
    requires c1.SetEmail? == c2.SetEmail? && c1.SetFrequency? == c2.SetFrequency?
    requires c1.SetWordsPerDay? == c2.SetWordsPerDay? && c1.SetTime? == c2.SetTime?
    ensures InputChange(InputChange(f, c1), c2) == InputChange(f, c2)
  {
  }

  /** Changes to two different fields can be made in either order. */
  lemma InputChangesCommute(f: Form, c1: Change, c2: Change)
    requires c1.SetEmail? ==> !c2.SetEmail?
    requires c1.SetFrequency? ==> !c2.SetFrequency?
    requires c1.SetWordsPerDay? ==> !c2.SetWordsPerDay?
    requires c1.SetTime? ==> !c2.SetTime?
    ensures InputChange(InputChange(f, c1), c2) == InputChange(InputChange(f, c2), c1)
  {
  }

  /** `setError('')` and `setIsSubmitting(true)` at the start of `handleSubmit`. */
  function SubmitStarted(f: Form): (r: Form)
    ensures r.error == "" && r.submitting && r.data == f.data && r.success == f.success
  {
    f.(error := "", submitting := true)
  }

  /**
   * `handleSubmit` once its `try`/`finally` is over: a rejected address shows
   * the message; an accepted one shows the success banner after the simulated
   * delay. Either way the form is no longer submitting and its values are kept.
   */
  function SubmitSettled(f: Form): (r: Form)
    ensures !r.submitting && r.data == f.data
    ensures r.error == (if EmailAccepted(f.data.email) then "" else InvalidEmailMessage)
    ensures r.success == (EmailAccepted(f.data.email) || f.success)
  {
    var started := SubmitStarted(f);
    if EmailAccepted(started.data.email) then started.(submitting := false, success := true)
    else started.(error := InvalidEmailMessage, submitting := false)
  }

  /** The timer after a success: the banner goes and the form returns to its initial values. */
  function SuccessTimerFired(f: Form): (r: Form)
    ensures r.data == InitialData && !r.success
    ensures r.error == f.error && r.submitting == f.submitting
  {
    f.(data := InitialData, success := false)
  }

  /** An error from an earlier attempt never survives a submission. */
  lemma SubmitClearsEarlierError(f: Form)
    ensures SubmitSettled(f).error == "" || SubmitSettled(f).error == InvalidEmailMessage
    ensures SubmitSettled(f).error == SubmitSettled(f.(error := "")).error
  {
  }

  /** A successful submission followed by its timer brings the form back to where it started. */
  lemma SuccessResets(f: Form)
    requires EmailAccepted(f.data.email)
    ensures SuccessTimerFired(SubmitSettled(f)) == InitialForm()
  {
  }

  /** The reset form is rejected until an address is typed in. */
  lemma ResetFormRejected()
    ensures !EmailAccepted(InitialForm().data.email)
    ensures SubmitSettled(InitialForm()).error == InvalidEmailMessage
  {
  }
}
