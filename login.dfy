/**
 * The `POST /login` decision: a chain of guards over the submitted email and date of
 * birth and the record store, ending in the user to bind into the session.
 */
module Login {
  import opened Wrappers
  import opened JsValues
  import opened Dates
  import opened Family

  /** A body field is present and truthy: given and not the empty string. */
  predicate Present(v: Option<string>) {
    v.Some? && v.value != ""
  }

  /** The store query `{email, status: 'approved'}` matches this record. */
  predicate ApprovedWith(f: StoredFamily, email: string) {
    f.record.email == Scalar(email) && f.record.status == Approved
  }

  /** `k` is the first record of the store that the query matches. */
  ghost predicate IsFirstApproved(store: seq<StoredFamily>, email: string, k: nat) {
    k < |store| && ApprovedWith(store[k], email) &&
    forall j :: 0 <= j < k ==> !ApprovedWith(store[j], email)
  }

  /** `findOne`: the position of the first matching record, if any. */
  function FindApproved(store: seq<StoredFamily>, email: string): (r: Option<nat>)
    ensures r.None? <==> forall k :: 0 <= k < |store| ==> !ApprovedWith(store[k], email)
    ensures r.Some? ==> IsFirstApproved(store, email, r.value)
  {
    if |store| == 0 then None
    else if ApprovedWith(store[0], email) then Some(0)
    else
      match FindApproved(store[1..], email)
      case None => None
      case Some(k) => Some(k + 1)
  }

  /** The projection of a record that the session keeps. */
  function UserOf(f: StoredFamily): (u: SessionUser)
    ensures u.id == f.id && u.email == f.record.email && u.name == f.record.familyHead
  {
    SessionUser(f.id, f.record.email, f.record.familyHead)
  }

  datatype LoginOutcome =
    | MissingCredentials
    | NotFoundOrNotApproved
    | LoginFailed            // a date could not be normalised (RangeError caught by the handler)
    | IncorrectDob
    | LoggedIn(user: SessionUser)

  /** At most one record is the first match. */
  lemma FirstApprovedUnique(store: seq<StoredFamily>, email: string, k: nat)
    requires IsFirstApproved(store, email, k)
    ensures forall j: nat :: IsFirstApproved(store, email, j) ==> j == k
  {
  }

  /**
   * The login decision. Missing credentials are refused before the store is consulted;
   * then the first approved record with the email is looked up; then the date-only values
   * of the submitted and the stored date of birth are compared.
   */
  function Decide(email: Option<string>, dob: Option<string>, store: seq<StoredFamily>, parseDate: DateParser)
    : (r: LoginOutcome)
    ensures r.MissingCredentials? <==> !Present(email) || !Present(dob)
    ensures r.NotFoundOrNotApproved? <==>
      Present(email) && Present(dob) &&
      forall k :: 0 <= k < |store| ==> !ApprovedWith(store[k], email.value)
    ensures r.LoginFailed? <==>
      Present(email) && Present(dob) &&
      exists k: nat :: IsFirstApproved(store, email.value, k) &&
        (parseDate(dob.value).None? || store[k].record.dob.None?)
    ensures r.IncorrectDob? <==>
      Present(email) && Present(dob) &&
      exists k: nat :: IsFirstApproved(store, email.value, k) &&
        DateOnly(parseDate(dob.value)).Some? && DateOnly(store[k].record.dob).Some? &&
        DateOnly(parseDate(dob.value)) != DateOnly(store[k].record.dob)
    ensures r.LoggedIn? <==>
      Present(email) && Present(dob) &&
      exists k: nat :: IsFirstApproved(store, email.value, k) &&
        DateOnly(parseDate(dob.value)).Some? &&
        DateOnly(parseDate(dob.value)) == DateOnly(store[k].record.dob)
    ensures r.LoggedIn? ==>
      (exists k: nat :: IsFirstApproved(store, email.value, k) && r.user == UserOf(store[k])) &&
      r.user.email == Scalar(email.value)
  {
    if !Present(email) || !Present(dob) then MissingCredentials
    else
      match FindApproved(store, email.value)
      case None => NotFoundOrNotApproved
      case Some(k) =>
        FirstApprovedUnique(store, email.value, k);
        var dobInput := DateOnly(parseDate(dob.value));
        var dobStored := DateOnly(store[k].record.dob);
        if dobInput.None? || dobStored.None? then LoginFailed
        else if dobInput != dobStored then IncorrectDob
        else LoggedIn(UserOf(store[k]))
  }

  const MissingCredentialsMessage := "Email and DOB are required"
  const NotFoundMessage := "User not found or not approved"
  const IncorrectDobMessage := "Incorrect Date of Birth"
  const LoginFailedMessage := "Login failed. Please try again."

  /** The message the login page is re-rendered with after a refusal. */
  function FailureMessage(o: LoginOutcome): string
    requires !o.LoggedIn?
  {
    match o
    case MissingCredentials => MissingCredentialsMessage
    case NotFoundOrNotApproved => NotFoundMessage
    case IncorrectDob => IncorrectDobMessage
    case LoginFailed => LoginFailedMessage
  }

  /**
   * Dates need only agree on the calendar day: an approved record whose stored date of
   * birth falls on the same UTC day as the submitted one, at any time of day, logs in.
   */
  lemma SameDayLogsIn(email: string, dob: string, store: seq<StoredFamily>, parseDate: DateParser, k: nat, day: int)
    requires email != "" && dob != ""
    requires IsFirstApproved(store, email, k)
    requires parseDate(dob).Some? && store[k].record.dob.Some?
    requires OnDay(parseDate(dob).value, day) && OnDay(store[k].record.dob.value, day)
    ensures Decide(Some(email), Some(dob), store, parseDate) == LoggedIn(UserOf(store[k]))
  {
    UtcDayIsCalendarDay(parseDate(dob).value, day);
    UtcDayIsCalendarDay(store[k].record.dob.value, day);
    FirstApprovedUnique(store, email, k);
  }

  /** A submitted date on another UTC day than the stored one is refused as an incorrect date of birth. */
  lemma OtherDayIsIncorrect(email: string, dob: string, store: seq<StoredFamily>, parseDate: DateParser, k: nat, day: int)
    requires email != "" && dob != ""
    requires IsFirstApproved(store, email, k)
    requires parseDate(dob).Some? && store[k].record.dob.Some?
    requires OnDay(store[k].record.dob.value, day) && !OnDay(parseDate(dob).value, day)
    ensures Decide(Some(email), Some(dob), store, parseDate) == IncorrectDob
  {
    UtcDayIsCalendarDay(parseDate(dob).value, day);
    UtcDayIsCalendarDay(store[k].record.dob.value, day);
    FirstApprovedUnique(store, email, k);
  }

  /** When approved emails are unique, the store's order does not matter: the only approved record decides. */
  lemma UniqueApprovedRecordDecides(store: seq<StoredFamily>, email: string, k: nat)
    requires k < |store| && ApprovedWith(store[k], email)
    requires forall j :: 0 <= j < |store| && j != k ==> !ApprovedWith(store[j], email)
    ensures FindApproved(store, email) == Some(k)
  {
  }

  /** A record that was never approved cannot be the one a login finds. */
  lemma UnapprovedNeverLogsIn(email: Option<string>, dob: Option<string>, store: seq<StoredFamily>, parseDate: DateParser)
    requires forall k :: 0 <= k < |store| ==> store[k].record.status != Approved
    ensures Decide(email, dob, store, parseDate) == MissingCredentials ||
            Decide(email, dob, store, parseDate) == NotFoundOrNotApproved
  {
  }
}
