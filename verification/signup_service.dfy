/**
 * `addUserSignup`: re-validates a signup, normalises it, hands it to the store's insert into
 * `beta_signups`, and turns the store's answer into rows or a user-facing message.
 * The store is not modelled: its reply to the insert is an input.
 */
module SignupService {
  import opened Outcomes
  import opened Text
  import opened EmailPattern

  const NameRequiredMessage := "Name is required and cannot be empty"
  const EmailRequiredMessage := "Valid email is required"
  const DuplicateEmailMessage := "An account with this email already exists"
  const MissingFieldsMessage := "Missing required fields"
  const InsertFailedPrefix := "Database insertion failed: "
  const UnexpectedMessage := "An unexpected error occurred during signup. Please try again."

  /** PostgreSQL SQLSTATE `unique_violation` (Appendix A of the PostgreSQL manual). */
  const UniqueViolation := "23505"
  /** PostgreSQL SQLSTATE `not_null_violation`. */
  const NotNullViolation := "23502"

  /** The caller's data; an absent field is `undefined`. */
  datatype SignupRequest = SignupRequest(
    name: Option<string>,
    email: Option<string>,
    genres: Option<seq<string>>,
    experienceLevel: Option<string>,
    favoriteArtists: Option<seq<string>>,
    featuresRequest: Option<string>)

  /** The `sanitizedData` record sent to the insert. */
  datatype SignupRow = SignupRow(
    name: string,
    email: string,
    genres: seq<string>,
    experienceLevel: string,
    favoriteArtists: seq<string>,
    featuresRequest: string,
    createdAt: string)

  /** A row as the store hands it back, with the identifier the store assigned. */
  datatype StoredRow = StoredRow(id: nat, row: SignupRow)

  /**
   * A value thrown inside the `try` block: an `Error` object, or a value that is neither an
   * `Error` nor `null`/`undefined`.
   */
  datatype Thrown = ErrorObject(message: string) | NonError

  /** How the store answers the insert: the inserted rows, a coded error, or a thrown value. */
  datatype InsertReply =
    | Inserted(rows: seq<StoredRow>)
    | Rejected(code: string, message: string)
    | Raised(thrown: Thrown)

  /** What one call does: the row it sent to the store, if any, and how the call settles. */
  datatype Attempt = Attempt(sent: Option<SignupRow>, outcome: Result<seq<StoredRow>>)

  /** The domain reading of a store error code. */
  datatype ErrorKind = DuplicateEmail | MissingRequiredField | PersistenceFailure

  predicate NameGiven(req: SignupRequest) {
    req.name.Some? && Trim(req.name.value) != ""
  }

  predicate EmailGiven(req: SignupRequest) {
    req.email.Some? && EmailShaped(req.email.value)
  }

  /** A row fit for the table: a trimmed non-empty name and a trimmed, lower-case, well-shaped address. */
  predicate Clean(row: SignupRow) {
    && row.name != "" && IsTrimmed(row.name)
    && IsTrimmed(row.email) && !HasUpper(row.email) && EmailShaped(row.email)
  }

  /** `x || fallback` for a field that is either absent or holds a truthy value. */
  function OrDefault<T>(x: Option<T>, fallback: T): T {
    match x
    case Some(v) => v
    case None => fallback
  }

  /** The normalised record: trimmed name, trimmed lower-case address, absent fields defaulted. */
  function Sanitize(req: SignupRequest, createdAt: string): (row: SignupRow)
    requires req.name.Some? && req.email.Some?
    ensures row.name == Trim(req.name.value)
    ensures row.email == Lower(Trim(req.email.value))
    ensures row.genres == (if req.genres.Some? then req.genres.value else [])
    ensures row.favoriteArtists == (if req.favoriteArtists.Some? then req.favoriteArtists.value else [])
    ensures row.experienceLevel == (if req.experienceLevel.Some? then req.experienceLevel.value else "")
    ensures row.featuresRequest == (if req.featuresRequest.Some? then req.featuresRequest.value else "")
    ensures row.createdAt == createdAt
    ensures NameGiven(req) && EmailGiven(req) ==> Clean(row)
  {
    LowerKeepsSpaces(Trim(req.email.value));
    ShapedTrim(req.email.value);
    ShapedLower(Trim(req.email.value));
    SignupRow(
      Trim(req.name.value),
      Lower(Trim(req.email.value)),
      OrDefault(req.genres, []),
      OrDefault(req.experienceLevel, ""),
      OrDefault(req.favoriteArtists, []),
      OrDefault(req.featuresRequest, ""),
      createdAt)
  }

  /** The switch on `error.code`. */
  function Classify(code: string): ErrorKind {
    if code == UniqueViolation then DuplicateEmail
    else if code == NotNullViolation then MissingRequiredField
    else PersistenceFailure
  }

  /** The message thrown for a store error. */
  function StoreErrorMessage(code: string, message: string): (m: string)
    ensures Classify(code) == DuplicateEmail ==> m == DuplicateEmailMessage
    ensures Classify(code) == MissingRequiredField ==> m == MissingFieldsMessage
    ensures Classify(code) == PersistenceFailure ==> InsertFailedPrefix <= m && m[|InsertFailedPrefix|..] == message
  {
    match Classify(code)
    case DuplicateEmail => DuplicateEmailMessage
    case MissingRequiredField => MissingFieldsMessage
    case PersistenceFailure => InsertFailedPrefix + message
  }

  /** How a caller reading only the message tells the three kinds apart. */
  function KindOfMessage(m: string): ErrorKind {
    if m == DuplicateEmailMessage then DuplicateEmail
    else if m == MissingFieldsMessage then MissingRequiredField
    else PersistenceFailure
  }

  /** The message loses nothing of the classification: the kind can be read back from it. */
  lemma ClassificationReadable(code: string, message: string)
    ensures KindOfMessage(StoreErrorMessage(code, message)) == Classify(code)
  {
    if Classify(code) == PersistenceFailure {
      var m := StoreErrorMessage(code, message);
      assert m[0] == 'D';
      assert DuplicateEmailMessage[0] == 'A' && MissingFieldsMessage[0] == 'M';
    }
  }

  /** `error instanceof Error ? error.message : fallback`, the test both signup `catch` blocks make. */
  function MessageOf(t: Thrown, fallback: string): (m: string)
    ensures t.ErrorObject? ==> m == t.message
    ensures t.NonError? ==> m == fallback
  {
    match t
    case ErrorObject(message) => message
    case NonError => fallback
  }

  /** The outer `catch`: an `Error` keeps its message, anything else becomes the generic message. */
  function Rethrown(t: Thrown): (m: string)
    ensures t.ErrorObject? ==> m == t.message
    ensures t.NonError? ==> m == UnexpectedMessage
  {
    MessageOf(t, UnexpectedMessage)
  }

  /** `addUserSignup(userData)`, with `createdAt` for `new Date().toISOString()` and `reply` for the store's answer. */
  function AddUserSignup(req: SignupRequest, createdAt: string, reply: InsertReply): (a: Attempt)
    ensures !NameGiven(req) ==> a == Attempt(None, Failure(NameRequiredMessage))
    ensures NameGiven(req) && !EmailGiven(req) ==> a == Attempt(None, Failure(EmailRequiredMessage))
    ensures a.sent.Some? <==> NameGiven(req) && EmailGiven(req)
    ensures a.sent.Some? ==> a.sent.value == Sanitize(req, createdAt) && Clean(a.sent.value)
    ensures a.sent.Some? && reply.Inserted? ==> a.outcome == Success(reply.rows)
    ensures a.sent.Some? && reply.Rejected? ==>
      a.outcome == Failure(StoreErrorMessage(reply.code, reply.message))
    ensures a.sent.Some? && reply.Raised? ==> a.outcome == Failure(Rethrown(reply.thrown))
  {
    if !NameGiven(req) then
      Attempt(None, Failure(Rethrown(ErrorObject(NameRequiredMessage))))
    else if !EmailGiven(req) then
      Attempt(None, Failure(Rethrown(ErrorObject(EmailRequiredMessage))))
    else
      var row := Sanitize(req, createdAt);
      var outcome := match reply
        case Inserted(rows) => Success(rows)
        case Rejected(code, message) => Failure(Rethrown(ErrorObject(StoreErrorMessage(code, message))))
        case Raised(thrown) => Failure(Rethrown(thrown));
      Attempt(Some(row), outcome)
  }

  /** A stored row offered again as a request, every field present. */
  function Resubmit(row: SignupRow): SignupRequest {
    SignupRequest(
      Some(row.name), Some(row.email), Some(row.genres),
      Some(row.experienceLevel), Some(row.favoriteArtists), Some(row.featuresRequest))
  }

  /** Sanitising a sanitised record changes nothing. */
  lemma SanitizeIdempotent(req: SignupRequest, createdAt: string)
    requires req.name.Some? && req.email.Some?
    ensures Sanitize(Resubmit(Sanitize(req, createdAt)), createdAt) == Sanitize(req, createdAt)
  {
    var row := Sanitize(req, createdAt);
    TrimIdempotent(req.name.value);
    var e := Trim(req.email.value);
    LowerKeepsSpaces(e);
    TrimPadded("", Lower(e), "");
    assert "" + Lower(e) + "" == Lower(e);
    LowerOfLower(Lower(e));
  }

  /** A clean row passes the defensive checks again, and is sent exactly as it is. */
  lemma ResubmitClean(row: SignupRow, reply: InsertReply)
    requires Clean(row)
    ensures AddUserSignup(Resubmit(row), row.createdAt, reply).sent == Some(row)
  {
    var req := Resubmit(row);
    assert Trim(row.name) == row.name by {
      TrimPadded("", row.name, "");
      assert "" + row.name + "" == row.name;
    }
    assert Trim(row.email) == row.email by {
      TrimPadded("", row.email, "");
      assert "" + row.email + "" == row.email;
    }
    LowerOfLower(row.email);
    assert NameGiven(req) && EmailGiven(req);
    var sent := Sanitize(req, row.createdAt);
    assert sent.name == row.name && sent.email == row.email;
    assert sent == row;
  }

  /** Blanks around the name and address and upper-case letters in the address are normalised away. */
  lemma NormalisationExample(createdAt: string)
    ensures var row := Sanitize(SignupRequest(Some(" Alex "), Some(" A@B.COM "), None, None, None, None), createdAt);
      row.name == "Alex" && row.email == "a@b.com" && row.genres == [] && row.featuresRequest == ""
  {
    TrimExample(" ", "Alex", " ", " Alex ");
    TrimExample(" ", "A@B.COM", " ", " A@B.COM ");
    LowerExample();
  }

  lemma TrimExample(pre: string, x: string, post: string, s: string)
    requires AllSpace(pre) && AllSpace(post) && IsTrimmed(x) && s == pre + x + post
    ensures Trim(s) == x
  {
    TrimPadded(pre, x, post);
  }

  lemma LowerExample()
    ensures Lower("A@B.COM") == "a@b.com"
  {
    var l := Lower("A@B.COM");
    assert l[0] == 'a' && l[1] == '@' && l[2] == 'b' && l[3] == '.';
    assert l[4] == 'c' && l[5] == 'o' && l[6] == 'm';
  }
}
