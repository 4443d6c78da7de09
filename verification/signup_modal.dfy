/** The signup modal: field validation before the insert, and the comma-separated list inputs. */
module SignupModal {
  import opened Text
  import opened Seqs
  import opened EmailPattern
  import opened SignupForms
  import opened Outcomes
  import SignupService

  const NameMessage := "Please enter your name"
  const EmailBlankMessage := "Please enter your email"
  const EmailFormatMessage := "Please enter a valid email address"
  const GenresMessage := "Please select at least one genre"
  const LevelMessage := "Please select your experience level"

  /** Every message the checks can produce, in the order the checks run. */
  const CheckOrder := [NameMessage, EmailBlankMessage, EmailFormatMessage, GenresMessage, LevelMessage]

  /** The position of a message in `CheckOrder`. */
  function Rank(m: string): (k: nat)
    ensures k < |CheckOrder| && (m in CheckOrder ==> CheckOrder[k] == m)
  {
    MessagesDistinct();
    if m == NameMessage then 0
    else if m == EmailBlankMessage then 1
    else if m == EmailFormatMessage then 2
    else if m == GenresMessage then 3
    else 4
  }

  /** The five messages differ from each other (they already differ in length). */
  lemma MessagesDistinct()
    ensures |NameMessage| == 22 && |EmailBlankMessage| == 23 && |EmailFormatMessage| == 34
    ensures |GenresMessage| == 32 && |LevelMessage| == 35
  {
  }

  /**
   * The messages `handleSubmit` collects. Every check runs whatever the others found, and the
   * messages come out in check order, each at most once.
   */
  function ValidationErrors(f: SignupForm): (errs: seq<string>)
    ensures |errs| <= 4
    ensures forall i | 0 <= i < |errs| :: errs[i] in CheckOrder
    ensures forall i, j | 0 <= i < j < |errs| :: Rank(errs[i]) < Rank(errs[j])
    ensures NameMessage in errs <==> Trim(f.name) == ""
    ensures EmailBlankMessage in errs <==> Trim(f.email) == ""
    ensures EmailFormatMessage in errs <==> Trim(f.email) != "" && !EmailShaped(f.email)
    ensures GenresMessage in errs <==> |f.genres| == 0
    ensures LevelMessage in errs <==> f.experienceLevel == ""
  {
    var blankEmail := Trim(f.email) == "";
    Collect(Trim(f.name) == "", blankEmail, !blankEmail && !EmailShaped(f.email),
            |f.genres| == 0, f.experienceLevel == "")
  }

  /** The messages of the checks that failed, one per failed check, in check order. */
  function Collect(badName: bool, blankEmail: bool, badEmail: bool, noGenres: bool, noLevel: bool)
    : (errs: seq<string>)
    requires !(blankEmail && badEmail)
    ensures |errs| <= 4
    ensures forall i | 0 <= i < |errs| :: errs[i] in CheckOrder
    ensures forall i, j | 0 <= i < j < |errs| :: Rank(errs[i]) < Rank(errs[j])
    ensures NameMessage in errs <==> badName
    ensures EmailBlankMessage in errs <==> blankEmail
    ensures EmailFormatMessage in errs <==> badEmail
    ensures GenresMessage in errs <==> noGenres
    ensures LevelMessage in errs <==> noLevel
  {
    MessagesDistinct();
    var name := if badName then [NameMessage] else [];
    var email := if blankEmail then [EmailBlankMessage] else if badEmail then [EmailFormatMessage] else [];
    var genres := if noGenres then [GenresMessage] else [];
    var level := if noLevel then [LevelMessage] else [];
    InOrder(name, email, genres, level);
    Membership(name, email, genres, level);
    name + email + genres + level
  }

  /** A message is among the concatenated results exactly when its own check contributed it. */
  lemma Membership(name: seq<string>, email: seq<string>, genres: seq<string>, level: seq<string>)
    requires name == [] || name == [NameMessage]
    requires email == [] || email == [EmailBlankMessage] || email == [EmailFormatMessage]
    requires genres == [] || genres == [GenresMessage]
    requires level == [] || level == [LevelMessage]
    ensures var errs := name + email + genres + level;
      && (NameMessage in errs <==> name != [])
      && (EmailBlankMessage in errs <==> email == [EmailBlankMessage])
      && (EmailFormatMessage in errs <==> email == [EmailFormatMessage])
      && (GenresMessage in errs <==> genres != [])
      && (LevelMessage in errs <==> level != [])
  {
    MessagesDistinct();
  }

  /** Concatenating at most one message from each check, checks in order, keeps ranks increasing. */
  lemma InOrder(name: seq<string>, email: seq<string>, genres: seq<string>, level: seq<string>)
    requires name == [] || name == [NameMessage]
    requires email == [] || email == [EmailBlankMessage] || email == [EmailFormatMessage]
    requires genres == [] || genres == [GenresMessage]
    requires level == [] || level == [LevelMessage]
    ensures var errs := name + email + genres + level;
      && |errs| <= 4
      && (forall i | 0 <= i < |errs| :: errs[i] in CheckOrder)
      && (forall i, j | 0 <= i < j < |errs| :: Rank(errs[i]) < Rank(errs[j]))
  {
    MessagesDistinct();
  }

  /** Where the validation block leaves a submission of the modal. */
  datatype SubmitStep =
    | ShowError(message: string)
    /** Every check passed; the submission goes on to the insert. */
    | Proceed

  /** The validation gate of `handleSubmit`: either the joined messages are shown, or the submission goes on. */
  function HandleSubmit(f: SignupForm): (step: SubmitStep)
    ensures step.Proceed? <==>
      Trim(f.name) != "" && EmailShaped(f.email) && |f.genres| > 0 && f.experienceLevel != ""
    ensures step.ShowError? ==> step.message != "" && Join(ValidationErrors(f), ". ") == step.message
  {
    var errs := ValidationErrors(f);
    NoErrorsExactlyWhenValid(f);
    if |errs| > 0 then
      JoinHead(errs, ". ");
      ShowError(Join(errs, ". "))
    else
      Proceed
  }

  /** The form has no validation message exactly when all four fields are acceptable. */
  lemma NoErrorsExactlyWhenValid(f: SignupForm)
    ensures ValidationErrors(f) == [] <==>
      Trim(f.name) != "" && EmailShaped(f.email) && |f.genres| > 0 && f.experienceLevel != ""
  {
    var errs := ValidationErrors(f);
    ShapedNotBlank(f.email);
    if errs != [] {
      assert errs[0] in CheckOrder;
    }
  }

  /** The banner text the modal's `catch` shows for a thrown value that is not an `Error`. */
  const UnexpectedMessage := "An unexpected error occurred. Please try again."

  /** How a submission ends: the success view, or a message in the error banner. */
  datatype SubmitEnd = Succeeded | Shown(message: string)

  /** The store's answer to the modal's insert: stored, or a thrown value (`if (error) throw error`). */
  datatype InsertAnswer = Stored | Threw(thrown: SignupService.Thrown)

  /** What one submission does: the record it sends to `beta_signups`, if any, and how it ends. */
  datatype SubmitRun = SubmitRun(sent: Option<SignupForm>, end: SubmitEnd)

  /**
   * `handleSubmit` as written. The modal's client is the default export of the signup service
   * module, an object holding only `supabase` and `addUserSignup`. Calling its missing `from`
   * throws a `TypeError` before any record is built; the `catch` shows that error's message,
   * `clientError` here, whose wording is the JavaScript engine's.
   */
  function SubmitAsWritten(f: SignupForm, clientError: string): (run: SubmitRun)
    ensures run.sent == None && run.end != Succeeded
    ensures HandleSubmit(f).ShowError? ==> run.end == Shown(HandleSubmit(f).message)
    ensures HandleSubmit(f).Proceed? ==> run.end == Shown(clientError)
  {
    match HandleSubmit(f)
    case ShowError(message) => SubmitRun(None, Shown(message))
    case Proceed => SubmitRun(None, Shown(SignupService.MessageOf(SignupService.ErrorObject(clientError), UnexpectedMessage)))
  }

  /**
   * `handleSubmit` as its insert evidently intends it, through a client that has `from`: a form
   * that passes validation is inserted with its fields as they are, and the submission succeeds
   * exactly when the store accepts it.
   */
  function SubmitIntended(f: SignupForm, answer: InsertAnswer): (run: SubmitRun)
    ensures run.sent.Some? <==> HandleSubmit(f).Proceed?
    ensures run.sent.Some? ==> run.sent.value == f
    ensures run.end == Succeeded <==> HandleSubmit(f).Proceed? && answer.Stored?
    ensures HandleSubmit(f).ShowError? ==> run.end == Shown(HandleSubmit(f).message)
    ensures HandleSubmit(f).Proceed? && answer.Threw? ==> run.end == Shown(SignupService.MessageOf(answer.thrown, UnexpectedMessage))
  {
    match HandleSubmit(f)
    case ShowError(message) => SubmitRun(None, Shown(message))
    case Proceed =>
      match answer
      case Stored => SubmitRun(Some(f), Succeeded)
      case Threw(t) => SubmitRun(Some(f), Shown(SignupService.MessageOf(t, UnexpectedMessage)))
  }

  /**
   * The code as written and as intended part ways exactly on the forms that pass validation: there
   * the intended submission sends the form and can succeed, the written one never sends anything.
   */
  lemma SubmitDiffersExactlyWhenValid(f: SignupForm, clientError: string)
    ensures SubmitAsWritten(f, clientError) != SubmitIntended(f, Stored) <==> ValidationErrors(f) == []
    ensures ValidationErrors(f) != [] ==>
      forall answer :: SubmitAsWritten(f, clientError) == SubmitIntended(f, answer)
  {
    if ValidationErrors(f) == [] {
      assert HandleSubmit(f).Proceed?;
    } else {
      assert HandleSubmit(f).ShowError?;
    }
  }

  /** The well-formed example form never signs up as written, whatever the store would answer. */
  lemma ExampleNeverSignsUp(clientError: string)
    ensures var f := SignupForm("Alex", "a@b.com", ["Rock"], "Beginner", [], "");
      && SubmitAsWritten(f, clientError) == SubmitRun(None, Shown(clientError))
      && SubmitIntended(f, Stored) == SubmitRun(Some(f), Succeeded)
  {
    ValidExample();
  }

  function NonEmpty(): string -> bool {
    s => |s| > 0
  }

  /** `value.split(',').map(item => item.trim()).filter(Boolean)`. */
  function ParseCommaList(text: string): (items: seq<string>)
    ensures |items| <= multiset(text)[','] + 1
    ensures forall k | 0 <= k < |items| :: |items[k]| > 0 && IsTrimmed(items[k]) && ',' !in items[k]
  {
    SplitCount(text, ',');
    var pieces := TrimAll(Split(text, ','));
    CleanPieces(text);
    var items := Filter(NonEmpty(), pieces);
    assert forall k | 0 <= k < |items| :: items[k] in items;
    items
  }

  /** The trimmed pieces of a split at commas are trimmed and comma-free. */
  lemma CleanPieces(text: string)
    ensures forall x | x in TrimAll(Split(text, ',')) :: IsTrimmed(x) && ',' !in x
  {
    var pieces := TrimAll(Split(text, ','));
    forall x | x in pieces ensures IsTrimmed(x) && ',' !in x {
      var k :| 0 <= k < |pieces| && pieces[k] == x;
      assert ',' !in Split(text, ',')[k];
    }
  }

  /** The modal's `handleMultiSelectChange`: the named list field becomes the parsed list, nothing else changes. */
  function HandleMultiSelectChange(f: SignupForm, field: ListField, text: string): (r: SignupForm)
    ensures r.Selected(field) == ParseCommaList(text)
    ensures forall k | 0 <= k < |r.Selected(field)| ::
      |r.Selected(field)[k]| > 0 && IsTrimmed(r.Selected(field)[k]) && ',' !in r.Selected(field)[k]
    ensures forall g: ListField | g != field :: r.Selected(g) == f.Selected(g)
    ensures r.name == f.name && r.email == f.email && r.experienceLevel == f.experienceLevel
    ensures r.featuresRequest == f.featuresRequest
  {
    f.WithSelected(field, ParseCommaList(text))
  }

  /** Re-entering a list exactly as the input displays it leaves the form unchanged. */
  lemma RetypeDisplayedList(f: SignupForm, field: ListField)
    requires forall k | 0 <= k < |f.Selected(field)| ::
      |f.Selected(field)[k]| > 0 && IsTrimmed(f.Selected(field)[k]) && ',' !in f.Selected(field)[k]
    ensures HandleMultiSelectChange(f, field, Join(f.Selected(field), ", ")) == f
  {
    ParseDisplayedList(f.Selected(field));
  }

  /**
   * The list inputs display `list.join(', ')`; parsing that text gives the list back whenever its
   * items are non-empty, trimmed and free of commas.
   */
  lemma ParseDisplayedList(xs: seq<string>)
    requires forall k | 0 <= k < |xs| :: |xs[k]| > 0 && IsTrimmed(xs[k]) && ',' !in xs[k]
    ensures ParseCommaList(Join(xs, ", ")) == xs
  {
    if |xs| == 0 {
      assert Split("", ',') == [""];
      assert TrimAll([""]) == [""];
      assert Filter(NonEmpty(), [""]) == Filter(NonEmpty(), [""][1..]);
    } else {
      TrimSplitJoin("", xs);
      assert "" + Join(xs, ", ") == Join(xs, ", ");
      FilterKeepsAll(NonEmpty(), xs);
    }
  }

  /** The well-formed example submission passes every check. */
  lemma ValidExample()
    ensures ValidationErrors(SignupForm("Alex", "a@b.com", ["Rock"], "Beginner", [], "")) == []
  {
    assert !IsSpace("Alex"[0]);
    assert MatchAt("a@b.com", 1, 3);
  }

  /** A non-blank address without `@` or without `.` draws the format message, whatever the other fields hold. */
  lemma MissingAtOrDot(f: SignupForm)
    requires Trim(f.email) != ""
    requires '@' !in f.email || '.' !in f.email
    ensures EmailFormatMessage in ValidationErrors(f)
    ensures EmailBlankMessage !in ValidationErrors(f)
  {
    ShapedNeedsAtAndDot(f.email);
  }
}
