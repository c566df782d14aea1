/**
 * The public contact form (src/components/sections/Contact.tsx): its fields and attachment,
 * the multipart payload a submission sends, the message shown when sending fails, and the
 * four-state status the form moves through.
 */
module Contact {
  import opened Wrappers
  import opened Js
  import Text
  import ServerError

  /** The form's text fields. */
  datatype ContactForm = ContactForm(
    fullName: string,
    email: string,
    phoneNumber: string,
    organization: string,
    subject: string,
    message: string,
    preferredContactMethod: string)

  /** The fields on mount and after a successful submission. */
  const InitialForm := ContactForm("", "", "", "", "", "", "email")

  /** A chosen file; its contents are not modelled. */
  datatype Attachment = Attachment(name: string, size: nat)

  datatype Status = Idle | Submitting | Succeeded | Failed

  /** Everything the component keeps in state. */
  datatype ContactView = ContactView(form: ContactForm, file: Option<Attachment>, status: Status, errorMessage: string)

  const InitialView := ContactView(InitialForm, None, Idle, "")

  /** `handleChange`: the input named `name` takes `value`. A name that is not a field adds a
      property nothing reads, so the fields stay as they were. */
  function SetField(form: ContactForm, name: string, value: string): (r: ContactForm)
  {
    match name
    case "full_name" => form.(fullName := value)
    case "email" => form.(email := value)
    case "phone_number" => form.(phoneNumber := value)
    case "organization" => form.(organization := value)
    case "subject" => form.(subject := value)
    case "message" => form.(message := value)
    case "preferred_contact_method" => form.(preferredContactMethod := value)
    case _ => form
  }

  /** The names of the form's fields. */
  const FieldNames: seq<string> :=
    ["full_name", "email", "phone_number", "organization", "subject", "message", "preferred_contact_method"]

  /** The value of field `name`, the partner of `SetField`. */
  function FieldValue(form: ContactForm, name: string): string
    requires name in FieldNames
  {
    match name
    case "full_name" => form.fullName
    case "email" => form.email
    case "phone_number" => form.phoneNumber
    case "organization" => form.organization
    case "subject" => form.subject
    case "message" => form.message
    case _ => form.preferredContactMethod
  }

  /** Setting a field changes that field and no other; an unknown name changes nothing. */
  lemma SetFieldChangesOnlyThatField(form: ContactForm, name: string, value: string)
    ensures name in FieldNames ==> FieldValue(SetField(form, name, value), name) == value
    ensures forall other | other in FieldNames && other != name ::
              FieldValue(SetField(form, name, value), other) == FieldValue(form, other)
    ensures name !in FieldNames ==> SetField(form, name, value) == form
  {
  }

  /** `handleFileChange`: the first chosen file replaces the attachment; an empty choice
      keeps the one there was. */
  function ChooseFile(view: ContactView, files: seq<Attachment>): (r: ContactView)
    ensures |files| > 0 ==> r == view.(file := Some(files[0]))
    ensures |files| == 0 ==> r == view
  {
    if |files| > 0 then view.(file := Some(files[0])) else view
  }

  /** One entry of the multipart body. */
  datatype Part = TextPart(text: string) | FilePart(file: Attachment)

  const NameDefault := "Not Provided"
  const SubjectDefault := "General Inquiry"
  const MessageDefault := "No message provided"
  const MethodDefault := "email"

  /** `s.trim() || fallback`. */
  function TrimmedOr(s: string, fallback: string): (r: string)
    ensures Text.Trim(s) != "" ==> r == Text.Trim(s)
    ensures Text.Trim(s) == "" ==> r == fallback
  {
    var t := Text.Trim(s);
    if t != "" then t else fallback
  }

  /** The values a submission sends for the seven fields: the e-mail as typed, name, subject
      and message trimmed or defaulted, phone and organisation trimmed, and the contact method
      or its default. */
  function Cleaned(form: ContactForm): (r: ContactForm)
    ensures r.email == form.email
    ensures r.fullName != "" && r.subject != "" && r.message != "" && r.preferredContactMethod != ""
    ensures Text.Trim(form.fullName) != "" ==> r.fullName == Text.Trim(form.fullName)
    ensures Text.Trim(form.fullName) == "" ==> r.fullName == NameDefault
    ensures Text.Trim(form.subject) != "" ==> r.subject == Text.Trim(form.subject)
    ensures Text.Trim(form.subject) == "" ==> r.subject == SubjectDefault
    ensures Text.Trim(form.message) != "" ==> r.message == Text.Trim(form.message)
    ensures Text.Trim(form.message) == "" ==> r.message == MessageDefault
    ensures r.phoneNumber == Text.Trim(form.phoneNumber) && r.organization == Text.Trim(form.organization)
    ensures form.preferredContactMethod != "" ==> r.preferredContactMethod == form.preferredContactMethod
    ensures form.preferredContactMethod == "" ==> r.preferredContactMethod == MethodDefault
  {
    ContactForm(
      TrimmedOr(form.fullName, NameDefault),
      form.email,
      Text.Trim(form.phoneNumber),
      Text.Trim(form.organization),
      TrimmedOr(form.subject, SubjectDefault),
      TrimmedOr(form.message, MessageDefault),
      if form.preferredContactMethod != "" then form.preferredContactMethod else MethodDefault)
  }

  /** The names of the payload's entries, in the order they are appended. */
  const PayloadNames: seq<string> :=
    ["email", "full_name", "subject", "message", "phone_number", "organization", "preferred_contact_method",
     "file_attached"]

  /** The seven text values of a form, in payload order. */
  function TextValues(form: ContactForm): seq<string> {
    [form.email, form.fullName, form.subject, form.message, form.phoneNumber, form.organization,
     form.preferredContactMethod]
  }

  /** The multipart body a submission sends, in order: the seven text entries with the cleaned
      values, then the file when one is chosen. */
  function Payload(form: ContactForm, file: Option<Attachment>): (r: seq<(string, Part)>)
    ensures |r| == if file.Some? then 8 else 7
    ensures forall i | 0 <= i < 7 :: r[i] == (PayloadNames[i], TextPart(TextValues(Cleaned(form))[i]))
    ensures file.Some? ==> r[7] == (PayloadNames[7], FilePart(file.value))
  {
    Entries(TextValues(Cleaned(form)), file)
  }

  /** The seven text values, each under its name, then the file under the last name. */
  function Entries(values: seq<string>, file: Option<Attachment>): (r: seq<(string, Part)>)
    requires |values| == 7
    ensures |r| == if file.Some? then 8 else 7
    ensures forall i | 0 <= i < 7 :: r[i] == (PayloadNames[i], TextPart(values[i]))
    ensures file.Some? ==> r[7] == (PayloadNames[7], FilePart(file.value))
  {
    var fields := seq(7, i requires 0 <= i < 7 => (PayloadNames[i], TextPart(values[i])));
    if file.Some? then fields + [(PayloadNames[7], FilePart(file.value))] else fields
  }

  /** No two entries of the payload share a name, and it names a file exactly when one is
      chosen. */
  lemma PayloadNamesDistinct(form: ContactForm, file: Option<Attachment>)
    ensures forall i, j | 0 <= i < j < |Payload(form, file)| :: Payload(form, file)[i].0 != Payload(form, file)[j].0
    ensures (exists i | 0 <= i < |Payload(form, file)| :: Payload(form, file)[i].0 == "file_attached") <==> file.Some?
  {
    var values := TextValues(Cleaned(form));
    EntriesNamesDistinct(values, file);
    assert Payload(form, file) == Entries(values, file);
  }

  lemma EntriesNamesDistinct(values: seq<string>, file: Option<Attachment>)
    requires |values| == 7
    ensures forall i, j | 0 <= i < j < |Entries(values, file)| :: Entries(values, file)[i].0 != Entries(values, file)[j].0
    ensures (exists i | 0 <= i < |Entries(values, file)| :: Entries(values, file)[i].0 == "file_attached") <==> file.Some?
  {
    var r := Entries(values, file);
    assert forall i | 0 <= i < |r| :: r[i].0 == PayloadNames[i];
    NamesAllDistinct();
    assert PayloadNames[7] == "file_attached";
  }

  /** No name is listed twice. */
  lemma NamesAllDistinct()
    ensures forall i, j | 0 <= i < j < |PayloadNames| :: PayloadNames[i] != PayloadNames[j]
  {
    forall i, j | 0 <= i < j < |PayloadNames| ensures PayloadNames[i] != PayloadNames[j] {
      NamesDistinct(i, j);
    }
  }

  /** The payload names differ pairwise: by length, or else by their first letter. */
  lemma NamesDistinct(i: nat, j: nat)
    requires i < j < |PayloadNames|
    ensures PayloadNames[i] != PayloadNames[j]
  {
    var lengths := [5, 9, 7, 7, 12, 12, 24, 13];
    assert forall k | 0 <= k < 8 :: |PayloadNames[k]| == lengths[k];
    if lengths[i] == lengths[j] {
      assert PayloadNames[i][0] != PayloadNames[j][0];
    }
  }

  /** Cleaning is idempotent: trimming and the defaults are applied once and for all. */
  lemma CleanedIdempotent(form: ContactForm)
    ensures Cleaned(Cleaned(form)) == Cleaned(form)
  {
    CleanedTextStable(form);
    CleanedOtherStable(form);
  }

  lemma CleanedTextStable(form: ContactForm)
    ensures Cleaned(Cleaned(form)).fullName == Cleaned(form).fullName
    ensures Cleaned(Cleaned(form)).subject == Cleaned(form).subject
    ensures Cleaned(Cleaned(form)).message == Cleaned(form).message
  {
    DefaultsAreTrimmed();
    TrimFixed(form.fullName, NameDefault);
    TrimFixed(form.subject, SubjectDefault);
    TrimFixed(form.message, MessageDefault);
  }

  /** The three defaults have no surrounding whitespace. */
  lemma DefaultsAreTrimmed()
    ensures Text.Trim(NameDefault) == NameDefault
    ensures Text.Trim(SubjectDefault) == SubjectDefault
    ensures Text.Trim(MessageDefault) == MessageDefault
  {
    LetterEndsTrimmed(NameDefault);
    LetterEndsTrimmed(SubjectDefault);
    LetterEndsTrimmed(MessageDefault);
  }

  /** A string that starts and ends with a letter is its own trim. */
  lemma LetterEndsTrimmed(s: string)
    requires |s| > 0 && ('A' <= s[0] <= 'z') && ('A' <= s[|s| - 1] <= 'z')
    ensures Text.Trim(s) == s
  {
    Text.TrimOfTrimmed(s);
  }

  lemma CleanedOtherStable(form: ContactForm)
    ensures Cleaned(Cleaned(form)).phoneNumber == Cleaned(form).phoneNumber
    ensures Cleaned(Cleaned(form)).organization == Cleaned(form).organization
  {
    Text.TrimIdempotent(form.phoneNumber);
    Text.TrimIdempotent(form.organization);
  }

  /** Re-submitting what was sent sends the same payload again. */
  lemma PayloadIsStable(form: ContactForm, file: Option<Attachment>)
    ensures Payload(Cleaned(form), file) == Payload(form, file)
  {
    CleanedIdempotent(form);
  }

  /** `TrimmedOr` is idempotent for a non-empty default that is its own trim. */
  lemma TrimFixed(s: string, fallback: string)
    requires fallback != "" && Text.Trim(fallback) == fallback
    ensures TrimmedOr(TrimmedOr(s, fallback), fallback) == TrimmedOr(s, fallback)
  {
    Text.TrimIdempotent(s);
  }

  const GenericError := "Something went wrong. Please try again later."

  /** The message shown when sending fails; `body` is `err.response?.data`. A string body is
      shown as it is; an object's or array's values are flattened and joined with `", "`;
      anything else, or an empty join, gives the generic sentence. */
  function ErrorMessage(body: Json<()>): (r: string)
    ensures r != ""
    ensures body.Str? && body.s != "" ==> r == body.s
    ensures !Truthy(body) || body.Num? || body.Bool? ==> r == GenericError
  {
    if !Truthy(body) then GenericError
    else if body.Str? then body.s
    else if body.Obj? || body.Arr? || body.Rec? then
      var joined := JoinValues(Flat(Values(body)), ", ");
      if joined != "" then joined else GenericError
    else GenericError
  }

  /** A field-error object from the back end shows every message, field by field. */
  lemma FieldErrorsShown(fields: seq<(string, seq<string>)>)
    ensures ErrorMessage(ServerError.ErrorsObject<()>(fields)) ==
              if Text.Join(ServerError.AllMessages(fields), ", ") != "" then Text.Join(ServerError.AllMessages(fields), ", ")
              else GenericError
  {
    ServerError.FlatFieldErrors<()>(fields);
    JoinStrs<()>(ServerError.AllMessages(fields), ", ");
  }

  /** What the back end does with a submission. */
  datatype SendOutcome = Sent | SendFailed(body: Json<()>)

  /** The events the component reacts to. `Respond` is the answer to the pending submission. */
  datatype Event =
    | Change(name: string, value: string)
    | ChooseFiles(files: seq<Attachment>)
    | Submit
    | Respond(outcome: SendOutcome)
    | SendAnother

  /** The submit button is disabled while submitting, and the form is replaced by the thank
      you panel after a success. */
  predicate CanSubmit(status: Status) {
    status.Idle? || status.Failed?
  }

  /** `handleSubmit` up to the request: the status becomes `submitting` and the old message
      is cleared. */
  function StartSubmit(view: ContactView): (r: ContactView)
    ensures r.status == Submitting && r.errorMessage == ""
    ensures r.form == view.form && r.file == view.file
  {
    view.(status := Submitting, errorMessage := "")
  }

  /** `handleSubmit` after the request: on success the fields and the attachment are reset;
      on failure they are kept and the message is shown. */
  function FinishSubmit(view: ContactView, outcome: SendOutcome): (r: ContactView)
    ensures outcome.Sent? ==> r == ContactView(InitialForm, None, Succeeded, view.errorMessage)
    ensures outcome.SendFailed? ==>
              r == view.(status := Failed, errorMessage := ErrorMessage(outcome.body))
  {
    match outcome
    case Sent => ContactView(InitialForm, None, Succeeded, view.errorMessage)
    case SendFailed(body) => view.(status := Failed, errorMessage := ErrorMessage(body))
  }

  /** One event. Events the page cannot deliver in the current status (a submission while
      one is pending or after a success, an answer with none pending, "send another" while
      the form is shown) leave the view unchanged. */
  function Step(view: ContactView, e: Event): ContactView
  {
    match e
    case Change(name, value) => view.(form := SetField(view.form, name, value))
    case ChooseFiles(files) => ChooseFile(view, files)
    case Submit => if CanSubmit(view.status) then StartSubmit(view) else view
    case Respond(outcome) => if view.status.Submitting? then FinishSubmit(view, outcome) else view
    case SendAnother => if view.status.Succeeded? then view.(status := Idle) else view
  }

  /** The status changes the component allows. */
  predicate Allowed(from: Status, to: Status) {
    || from == to
    || (CanSubmit(from) && to == Submitting)
    || (from == Submitting && (to == Succeeded || to == Failed))
    || (from == Succeeded && to == Idle)
  }

  /** Every event moves the status along an allowed edge. */
  lemma StepAllowed(view: ContactView, e: Event)
    ensures Allowed(view.status, Step(view, e).status)
    ensures Step(view, e).status == Succeeded && view.status != Succeeded ==>
              view.status == Submitting && e.Respond? && e.outcome.Sent?
  {
  }

  /** The views a sequence of events passes through, starting with `view`. */
  function Run(view: ContactView, events: seq<Event>): (r: seq<ContactView>)
    ensures |r| == |events| + 1 && r[0] == view
    decreases |events|
  {
    if |events| == 0 then [view] else [view] + Run(Step(view, events[0]), events[1..])
  }

  /** Along any run, each view follows from the one before by its event, and each status
      change is an allowed edge. */
  lemma {:induction false} RunAllowed(view: ContactView, events: seq<Event>)
    ensures forall i | 0 <= i < |events| :: Allowed(Run(view, events)[i].status, Run(view, events)[i + 1].status)
    ensures forall i | 0 <= i < |events| :: Run(view, events)[i + 1] == Step(Run(view, events)[i], events[i])
    decreases |events|
  {
    if |events| > 0 {
      var next := Step(view, events[0]);
      RunAllowed(next, events[1..]);
      StepAllowed(view, events[0]);
      var r := Run(view, events);
      var rest := Run(next, events[1..]);
      assert r[1..] == rest;
      forall i | 1 <= i < |events|
        ensures Allowed(r[i].status, r[i + 1].status) && r[i + 1] == Step(r[i], events[i])
      {
        assert r[i] == rest[i - 1] && r[i + 1] == rest[i];
        assert events[i] == events[1..][i - 1];
      }
    }
  }
}
