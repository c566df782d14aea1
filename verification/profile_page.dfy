/**
 * The profile editor (src/app/dashboard/profile/page.tsx): the form starts empty, is replaced
 * by the stored profile when one is fetched, and is saved by patching the stored profile when
 * the form carries its id, or by creating one and taking over what the back end returns.
 */
module ProfilePage {
  import opened Wrappers
  import Js
  import opened FormState
  import Types
  import ServerError

  const Schema: FormState.Schema := [
    ("full_name", TextKind), ("title", TextKind), ("email", TextKind), ("phone_number", TextKind),
    ("location", TextKind), ("linkedin_url", TextKind), ("github_url", TextKind),
    ("portfolio_url", TextKind), ("summary", TextKind), ("skills", ListKind)]

  /** The form before anything is fetched: every field empty and no id. */
  const Initial: Form := Blank(Schema)

  /** The form object a stored profile becomes: its id first when it has one, then the fields. */
  function FormOf(p: Types.Profile): (r: Form)
    ensures p.id.Some? ==> |r| == 11 && r[0] == ("id", TextValue(p.id.value)) && Conforms(r[1..], Schema)
    ensures p.id.None? ==> Conforms(r, Schema)
  {
    var fields := [
      ("full_name", TextValue(p.fullName)), ("title", TextValue(p.title)), ("email", TextValue(p.email)),
      ("phone_number", TextValue(p.phoneNumber)), ("location", TextValue(p.location)),
      ("linkedin_url", TextValue(p.linkedinUrl)), ("github_url", TextValue(p.githubUrl)),
      ("portfolio_url", TextValue(p.portfolioUrl)), ("summary", TextValue(p.summary)),
      ("skills", ListValue(p.skills))];
    match p.id
    case Some(id) =>
      var r := [("id", TextValue(id))] + fields;
      assert r[1..] == fields;
      r
    case None => fields
  }

  /** What `GET /profile/` gives: the `data` of the response (`None` when it is falsy), or an
      error, a 404 meaning that no profile exists yet. */
  datatype FetchOutcome = Fetched(data: Option<Types.Profile>) | FetchFailed(status: Option<int>)

  /** `fetchProfile`: a fetched profile replaces the form; anything else leaves it alone. */
  function AfterFetch(form: Form, outcome: FetchOutcome): (r: Form)
    ensures outcome.Fetched? && outcome.data.Some? ==> r == FormOf(outcome.data.value)
    ensures !(outcome.Fetched? && outcome.data.Some?) ==> r == form
  {
    match outcome
    case Fetched(Some(p)) => FormOf(p)
    case _ => form
  }

  /** `handleChange`: every input of the page is a text input. */
  function Change(form: Form, name: string, value: string): (r: Form)
    ensures Get(r, name) == Some(TextValue(value))
    ensures forall k | k != name :: Get(r, k) == Get(form, k)
  {
    HandleChange(form, ChangeEvent(name, value, false, false))
  }

  /** The id the save uses: `formData.id` when it is a non-empty string. */
  function ProfileId(form: Form): (r: Option<string>)
    ensures r.Some? <==> TextAt(form, "id") != ""
    ensures r.Some? ==> r.value == TextAt(form, "id")
  {
    var id := TextAt(form, "id");
    if id != "" then Some(id) else None
  }

  /** A stored profile's id is the id its form carries. */
  lemma FormOfCarriesId(p: Types.Profile)
    ensures p.id.Some? && p.id.value != "" ==> ProfileId(FormOf(p)) == p.id
    ensures p.id.None? ==> ProfileId(FormOf(p)) == None
  {
    var r := FormOf(p);
    if p.id.Some? {
      IndexOfUnique(Keys(r), "id", 0);
    } else {
      assert "id" !in Keys(r);
    }
  }

  const Base := "/profile/"

  /** `handleSubmit`'s request. */
  function Save(form: Form): (r: SaveRequest)
    ensures r.body == form
    ensures r.Patch? <==> TextAt(form, "id") != ""
    ensures r.Patch? ==> r.url == "/profile/" + TextAt(form, "id") + "/"
    ensures r.Post? ==> r.url == "/profile/"
  {
    SaveRequestFor(Base, ProfileId(form), form)
  }

  /** How the back end answers the save: a patch accepted, a profile created (the response's
      `data`), or a rejection. */
  datatype SaveResponse = Updated | Created(profile: Types.Profile) | SaveRejected(body: Js.Json<()>)

  /** The page after a save: its form and its two banners. */
  datatype PageState = PageState(form: Form, success: string, error: string)

  const SuccessMessage := "Profile updated successfully!"
  const SaveFallback := "Failed to save profile"

  /** `handleSubmit` after the request. A created profile replaces the form; on failure the
      form is kept and only the error banner is shown. */
  function AfterSave(form: Form, response: SaveResponse): (r: PageState)
    ensures response.Updated? ==> r == PageState(form, SuccessMessage, "")
    ensures response.Created? ==> r == PageState(FormOf(response.profile), SuccessMessage, "")
    ensures response.SaveRejected? ==>
              r == PageState(form, "", ServerError.SaveErrorMessage(response.body, SaveFallback))
  {
    match response
    case Updated => PageState(form, SuccessMessage, "")
    case Created(p) => PageState(FormOf(p), SuccessMessage, "")
    case SaveRejected(body) => PageState(form, "", ServerError.SaveErrorMessage(body, SaveFallback))
  }

  /** A fetched profile with an id is saved by patching it, never by creating another one. */
  lemma FetchedProfileIsPatched(p: Types.Profile, form: Form)
    requires p.id.Some? && p.id.value != ""
    ensures Save(AfterFetch(form, Fetched(Some(p)))) == Patch("/profile/" + p.id.value + "/", FormOf(p))
  {
    FormOfCarriesId(p);
  }

  /** Once a profile with an id is created, the next save patches it. */
  lemma CreateOnlyOnce(form: Form, p: Types.Profile)
    requires p.id.Some? && p.id.value != ""
    ensures Save(AfterSave(form, Created(p)).form).Patch?
    ensures Save(AfterSave(form, Created(p)).form).url == "/profile/" + p.id.value + "/"
  {
    FormOfCarriesId(p);
  }

  /** Without a fetched profile the first save creates one. */
  lemma FirstSaveCreates(outcome: FetchOutcome)
    requires !(outcome.Fetched? && outcome.data.Some?)
    ensures Save(AfterFetch(Initial, outcome)) == Post("/profile/", Initial)
  {
    assert "id" !in Keys(Initial);
  }
}
