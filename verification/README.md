# Portfolio front end: a Dafny model of its logic

The portfolio front end is a Next.js application with a public site and an admin dashboard. Most
of it renders pages; this project models the deterministic logic underneath, as pure functions
and state transitions over immutable values:

- **Dates.** The date normalisation helpers, and the cut-at-`T` copy inside each dashboard form.
- **Files and slugs.** The image validator, the unique-filename builder, the upload path and the
  slug generator.
- **Session and tokens.** The HTTP client's request interceptor, which attaches
  `Authorization: Bearer <token>` as in section 2.1 of RFC 6750, and its response interceptor,
  which refreshes the token and retries at most once after a 401 (section 15.5.2 of RFC 9110).
  The authentication context's state machine is modelled alongside them.
- **Contact form.** The public contact form's payload, its error message and its four-state
  status machine.
- **Dashboard forms.** The four editors for projects, experiences, certifications and
  workshops, and the profile page. Each is modelled as an ordered field record with change
  events, list editors, PATCH-or-POST routing and the shared server-error message.
- **List pages.** Search, status and category filters, delete and update by id, the fallbacks
  applied to fetched payloads, the category buttons, the publish and feature toggles and the
  technology cell.
- **Dashboard overview.** Its per-request fallbacks, counts, view total and activity icons.
- **Page head.** The strings the SEO component derives.

Browser storage is a `map<string, string>`. A redirect is a flag or an optional path.

Every network call is an abstract outcome passed in as a parameter: a response body or a
failure. Response bodies are `Js.Json<T>` values. This type covers `undefined`, `null`, booleans,
numbers, strings, arrays and objects, plus typed entity records `Rec(T)`. It comes with
JavaScript's truthiness, `||`, `?.` as opposed to `.`, `Object.values`, `flat`, `join` and
`String(...)`. The clock, the random suffix, `JSON.parse`/`JSON.stringify` of the stored user and
`toLocaleDateString` are parameters too.

Modules:

- Shared helpers:
  - `Wrappers`: `Option` and `Result`.
  - `Text`: JavaScript `trim`, ASCII `toLowerCase`, `includes`, `split`, `join`, `padStart` and
    decimal rendering.
  - `Seqs`: filtering and removal with their subsequence facts.
  - `Js`: the payload values described above.
  - `Types`: the entity shapes.
  - `ListView`: search, delete and update by id, and reading results.
  - `ServerError`: the save-error message.
  - `TagList`: the list editors.
  - `FormState`: field records, change events and save routing.
- One module per source file for everything else.

## Model

| member | source | states |
|---|---|---|
| DateUtils.DateShapedHasNoSlashOrT | src/lib/dateUtils.ts:13 | a string of the `dddd-dd-dd` shape holds neither `/` nor `T`, so the later branches never see it |
| DateUtils.BeforeT | src/lib/dateUtils.ts:19 | `split('T')[0]`: the prefix before the first `T` (no `T` in it, and `T` follows it), or the whole string when it has no `T` |
| DateUtils.FormatDateForInput | src/lib/dateUtils.ts:9-33 | missing or empty gives `''`; a date-shaped string is returned as is; otherwise a `T` cuts before the first `T`; without a `T`, a string that does not split on `/` into three parts is returned unchanged |
| DateUtils.SlashedInput | src/lib/dateUtils.ts:23-29 | `y/m/d` without `T` becomes `y-` then `m` and `d` left-padded with `0` to at least two characters and never truncated; the result is at least six characters longer than the year |
| DateUtils.FormatDateForApi | src/lib/dateUtils.ts:40-59 | `None` exactly for a missing or empty string; a date-shaped string is kept; a string with `/` has every `/` replaced by `-` (same length, no padding) before any `T` check; otherwise a `T` cuts before the first `T`; otherwise the string is kept |
| DateUtils.DateShapedIsFixedPoint | src/lib/dateUtils.ts:12-15 | a date-shaped string is returned unchanged by both functions, so normalising twice is normalising once |
| DateUtils.BranchOrderDiffers | src/lib/dateUtils.ts:18-19 | for input holding both `T` and `/`, the input helper cuts at `T` while the API helper rewrites the slashes, keeping the `T`, so its result is not date-shaped |
| DateUtils.FormDateValue | src/components/dashboard/ExperienceForm.tsx:16-19 | the forms' local helper: `''` for missing or empty, the prefix before the first `T`, or the whole string without a `T` |
| DateUtils.FormHelperAgreement | src/components/dashboard/CertificationForm.tsx:16-19 | the local helper agrees with the library helper on date-shaped input and on input holding a `T` |
| DateUtils.FormHelperKeepsSlashes | src/components/dashboard/WorkshopForm.tsx:16-19 | where they disagree: a `y/m/d` string is kept by the local helper but rewritten by the library helper |
| FileUpload.ValidateImageFile | src/lib/fileUpload.ts:16-36 | valid iff a file is given, its type is one of the five allowed and its size is at most 5·1024·1024; a missing file, a wrong type and an oversize file each get their message, in that order |
| FileUpload.SizeLimit | src/lib/fileUpload.ts:10 | exactly 5242880 bytes is accepted and 5242881 is rejected with "File size exceeds 5MB limit." |
| FileUpload.TypeCheckedBeforeSize | src/lib/fileUpload.ts:21-33 | a file with a wrong type and too large a size reports the type error |
| FileUpload.Extension | src/lib/fileUpload.ts:44 | `split('.').pop()`: no `.` in it, and the whole name when the name has no `.` |
| FileUpload.BaseName | src/lib/fileUpload.ts:45 | all but the last `.`-separated part, rejoined; empty for a name without `.` |
| FileUpload.NameParts | src/lib/fileUpload.ts:44-45 | for a name with a `.`, base, `.` and extension put back together give the name |
| FileUpload.NamePartsOf | src/lib/fileUpload.ts:44-45 | splitting `base.ext` (no other `.`) gives back `base` and `ext` |
| FileUpload.SafeName | src/lib/fileUpload.ts:46 | one character per character: letters, digits, `-` and `_` are kept (lowercased), anything else becomes `-`; every output character is in `[a-z0-9_-]` |
| FileUpload.SafeNameOfSafe | src/lib/fileUpload.ts:46 | sanitising an already safe name changes nothing |
| FileUpload.UniqueFilenameParts | src/lib/fileUpload.ts:41-49 | the unique name keeps the original extension, and its base is the sanitised base, `-`, the timestamp, `-` and the random suffix; a name without `.` gives an empty sanitised base and the whole name as extension |
| FileUpload.UploadProjectImage | src/lib/fileUpload.ts:67-79 | fails with the validator's error exactly when the file is invalid; otherwise returns `/uploads/projects/` followed by the unique filename |
| FileUpload.RemoveSpecial | src/lib/fileUpload.ts:88 | keeps exactly the word characters, white space and `-` of the input, in order (the input filtered by that class); an input made only of those is unchanged |
| FileUpload.CollapseSeparators | src/lib/fileUpload.ts:89 | the output is empty iff the input is, starts with `-` iff the input starts with a separator, never holds `--`, and with its dashes left out equals the input with its separators left out |
| FileUpload.CollapseIsScan | src/lib/fileUpload.ts:89 | the collapse equals a left-to-right scan that copies every non-separator, writes one `-` for the first separator of each run and nothing for the rest of the run |
| FileUpload.TrimDashes | src/lib/fileUpload.ts:90 | the result is the input with a run of dashes cut off at each end: a contiguous slice whose cut-off prefix and suffix are all `-`, that neither starts nor ends with `-`, and keeps the no-`--` property |
| FileUpload.GenerateSlug | src/lib/fileUpload.ts:84-91 | the slug uses only `[a-z0-9-]`, has no `--` and no leading or trailing `-` |
| FileUpload.SlugShape | src/lib/fileUpload.ts:85-90 | the lowercase, trim, strip, collapse and trim-dashes pipeline always ends in a slug |
| FileUpload.SlugFixedPoint | src/lib/fileUpload.ts:84-91 | a slug is its own slug |
| FileUpload.SlugIdempotent | src/lib/fileUpload.ts:84-91 | applying the slug generator twice equals applying it once |
| FileUpload.SlugKeepsAlnums | src/lib/fileUpload.ts:84-91 | the slug keeps exactly the ASCII letters and digits of the lowercased input, in order; it is empty iff there are none |
| FileUpload.SlugWithoutAlnums | src/lib/fileUpload.ts:90 | a non-empty slug holds at least one letter or digit |
| ApiClient.ClearSession | src/lib/api.ts:70-72 | removes exactly the access token, refresh token and user keys; every other key keeps its value and nothing is added |
| ApiClient.AttachToken | src/lib/api.ts:11-26 | only the Authorization header can change; it changes iff the URL is not public, the code runs in a browser, headers exist and a non-empty access token is stored, and then it is `Bearer ` + token |
| ApiClient.PublicRequestsCarryNoToken | src/lib/api.ts:14-19 | a URL containing the login or CV-download path is passed through unchanged |
| ApiClient.PrivateRequestsCarryToken | src/lib/api.ts:19-23 | any other request with headers and a stored token gets `Bearer ` + token, and the token is read back after the prefix |
| ApiClient.OnResponseError | src/lib/api.ts:33-82 | login and refresh calls, non-401 errors and already retried requests are rejected unchanged with storage untouched; a missing refresh token or a failed refresh clears the session, flags the redirect and rejects with the refresh error; only a successful refresh retries, marked as retried, with the new access token stored and set as Bearer |
| ApiClient.RetryAtMostOnce | src/lib/api.ts:45-46 | if the re-issued request fails again, whatever its status and whatever a refresh would return, the failure is passed on and storage is left alone |
| ApiClient.RetryCarriesNewToken | src/lib/api.ts:60-67 | the retried request carries `Bearer` + the new token, and the request interceptor leaves it as it is |
| ApiClient.RefreshKeepsOtherKeys | src/lib/api.ts:60-61 | a refresh keeps the stored refresh token and user |
| AuthContext.LoadAuthState | src/contexts/AuthContext.tsx:33-59 | loading always ends; the state is authenticated with the stored values iff all three stored strings are non-empty and the user parses; otherwise the previous state is kept with loading off |
| AuthContext.LoadFromInitial | src/contexts/AuthContext.tsx:24-30 | from the initial state, loading yields either the stored session or exactly the signed-out state |
| AuthContext.Persist | src/contexts/AuthContext.tsx:61-68 | storage is written only for an authenticated state with a user and both tokens, and then only the three keys change |
| AuthContext.PersistLoadRoundTrip | src/contexts/AuthContext.tsx:36-66 | a persisted session loads back as the same state |
| AuthContext.LoginErrorMessage | src/contexts/AuthContext.tsx:97-101 | `data.data.error` when truthy, else `data.message` when truthy, else the fixed sentence |
| AuthContext.LoginErrorPrecedence | src/contexts/AuthContext.tsx:98-100 | for any object body: while a nested `data.error` is truthy, adding a `message` changes nothing; otherwise a truthy `message` is what is shown |
| AuthContext.Login | src/contexts/AuthContext.tsx:70-103 | a response with data gives an authenticated, not loading state with tokens from `access`/`refresh`, the eight user fields copied and navigation to `/dashboard`; any failure gives the error message |
| AuthContext.LoginIsPersisted | src/contexts/AuthContext.tsx:62-92 | a successful login is persisted and loads back as the same session |
| AuthContext.Logout | src/contexts/AuthContext.tsx:105-122 | removes exactly the three keys, resets to signed out and not loading, and navigates to `/login` |
| AuthContext.LogoutIsFinal | src/contexts/AuthContext.tsx:105-122 | after logout, loading gives the signed-out state and persisting writes nothing |
| AuthContext.RefreshAccessToken | src/contexts/AuthContext.tsx:124-148 | no refresh token gives false with no change; a failure logs out and gives false; success changes only the access token, in state and storage, and gives true |
| AuthContext.RefreshKeepsSessionLoadable | src/contexts/AuthContext.tsx:134-142 | after a successful refresh the stored session loads back with the new access token |
| Seo.FullTitle | src/components/SEO.tsx:25 | a title holding `\|` is kept; any other gets ` \| Portfolio` appended |
| Seo.FullTitleIdempotent | src/components/SEO.tsx:25 | every full title holds `\|`, so deriving a title from a full title changes nothing |
| Seo.DefaultFullTitle | src/components/SEO.tsx:15 | without a title the page is titled exactly `Portfolio \| Software Developer` |
| Seo.CanonicalUrl | src/components/SEO.tsx:26 | a non-empty canonical URL is used, otherwise the site URL |
| Seo.OgImageUrl | src/components/SEO.tsx:27 | an image starting with `http` is kept; any other is prefixed with the site URL |
| Seo.OgImageIsAbsolute | src/components/SEO.tsx:27 | the image URL always starts with `http`, so deriving it from itself changes nothing |
| Seo.DefaultOgImageUrl | src/components/SEO.tsx:18 | without an image, the default card's absolute URL |
| Seo.KeywordsRoundTrip | src/components/SEO.tsx:35 | the keywords line, joined with `", "`, splits on `,` back into the keywords, each after the first with its leading space |
| Text.Trim | src/components/dashboard/ProjectForm.tsx:49 | `trim()`: the result neither starts nor ends with white space, is no longer than the input, and is empty iff the input is all white space |
| Text.TrimSlice | src/components/dashboard/ProjectForm.tsx:49 | the trim is a contiguous slice of the input, and everything cut off before and after it is white space |
| Text.TrimIdempotent | src/components/sections/Contact.tsx:45 | trimming twice is trimming once |
| Text.ToLower | src/app/dashboard/projects/page.tsx:81 | `toLowerCase()` on ASCII: the same length, each character lowered, and no upper-case letter left |
| Text.ToLowerOfLower | src/app/dashboard/projects/page.tsx:81 | lowering a lower-case string changes nothing |
| Text.ContainsIffOccurs | src/app/dashboard/projects/page.tsx:81 | `includes` holds iff the term occurs at some position |
| Text.Split | src/lib/dateUtils.ts:24 | `split(c)`: one part more than there are `c`, no part holds `c`, joining with `c` gives the input back, and the first part is the prefix before the first `c` |
| Text.SplitJoin | src/components/SEO.tsx:35 | splitting a join of `c`-free parts gives the parts back |
| Text.PadStart | src/lib/dateUtils.ts:28 | `padStart(width, fill)`: the string is kept at the end, preceded by fill characters up to the width, and never truncated |
| Text.ReplaceChar | src/lib/dateUtils.ts:50 | the same length, each `a` replaced by `b` and every other character kept |
| Text.DecimalRoundTrip | src/app/dashboard/projects/page.tsx:169 | the decimal rendering of a count reads back as that count |
| Js.RecordsOf | src/app/dashboard/certifications/page.tsx:28 | `Array.isArray(v) ? v : []`: a non-array gives no records, and an array of records gives them all in order |
| Js.RecordsOfArray | src/app/dashboard/certifications/page.tsx:27-28 | an array of records reads back as those records |
| Js.JoinStrs | src/components/sections/Contact.tsx:87 | joining string values is joining the strings |
| ServerError.SaveErrorMessage | src/components/dashboard/ProjectForm.tsx:99-101 | no response gives the form's sentence; no truthy errors and no truthy message gives it too; otherwise a non-empty string message is shown as is |
| ServerError.FlatFieldErrors | src/components/dashboard/ProjectForm.tsx:100 | `Object.values(errors).flat()` over a field-error object is every message of every field, in order |
| ServerError.FieldErrorsMessage | src/components/dashboard/ProjectForm.tsx:99-100 | a field-error body shows all its messages joined with `", "` |
| Seqs.Filter | src/app/dashboard/projects/page.tsx:80-83 | `filter` keeps an order-preserving subsequence of exactly the elements that pass |
| Seqs.RemoveAll | src/components/dashboard/ProjectForm.tsx:61 | removing a value keeps an order-preserving subsequence without it, with every other element kept |
| Seqs.RemoveAt | src/components/dashboard/ExperienceForm.tsx:80 | removing position `i` shifts the later elements down by one and keeps the earlier ones; an index outside the list changes nothing |
| TagList.AddUnique | src/components/dashboard/ProjectForm.tsx:48-56 | the trimmed input is appended and the input cleared iff it is non-empty and not yet listed; otherwise nothing changes; the old list is always a prefix |
| TagList.AddUniqueKeepsList | src/components/dashboard/ProjectForm.tsx:49-52 | what is added is trimmed and non-empty; a list without duplicates keeps none; the list changes iff the trimmed input is non-empty and absent |
| TagList.Remove | src/components/dashboard/ProjectForm.tsx:58-63 | every entry equal to the item is dropped and every other entry is kept, in order: an order-preserving subsequence whose length is the old length minus the item's occurrences; the input is untouched |
| TagList.RemoveUndoesAdd | src/components/dashboard/CertificationForm.tsx:48-63 | removing what was just added gives back the list |
| TagList.AddAny | src/components/dashboard/ExperienceForm.tsx:67-75 | any non-blank input is appended trimmed, duplicates included, and the input cleared; a blank input changes nothing |
| TagList.RemoveIndex | src/components/dashboard/ExperienceForm.tsx:77-82 | the entry at the index is dropped and the others kept in order; an out-of-range index changes nothing |
| TagList.RemoveIndexUndoesAddAny | src/components/dashboard/ExperienceForm.tsx:67-82 | removing the entry just appended gives back the list |
| TagList.EditsKeepList | src/components/dashboard/ProjectForm.tsx:48-80 | under any sequence of typing, adds and removes, a duplicate-free list stays duplicate-free, and every entry not there at the start is trimmed and non-empty |
| FormState.Set | src/components/dashboard/ProjectForm.tsx:42-45 | `{ ...prev, [name]: v }`: the key reads `v` afterwards, every other key reads as before, and a new key is appended at the end |
| FormState.SetTwice | src/components/dashboard/ProjectForm.tsx:42-45 | a second write to the same key overrides the first |
| FormState.HandleChange | src/components/dashboard/ProjectForm.tsx:38-46 | a change stores `checked` for a checkbox and the string value otherwise, under the input's name only |
| FormState.ChangeKeepsShape | src/components/dashboard/CertificationForm.tsx:38-46 | a change event that fits the form's fields keeps the form's shape |
| FormState.Blank | src/components/dashboard/ProjectForm.tsx:18-34 | the blank form has every schema field with its kind's empty value, in schema order |
| FormState.FillReads | src/components/dashboard/ProjectForm.tsx:18-34 | when a schema names each key once, every key of a form filled from it reads back its own value |
| FormState.AddItem | src/components/dashboard/WorkshopForm.tsx:48-56 | a list field's add is the list editor's unique add, and no other field changes |
| FormState.RemoveItem | src/components/dashboard/WorkshopForm.tsx:58-63 | a list field's remove is the list editor's remove, and no other field changes |
| FormState.AddAnyItem | src/components/dashboard/ExperienceForm.tsx:67-75 | the achievements add on the form, with no other field changed |
| FormState.RemoveItemAt | src/components/dashboard/ExperienceForm.tsx:77-82 | the achievements remove by position on the form, with no other field changed |
| FormState.ListEditKeepsShape | src/components/dashboard/ProjectForm.tsx:48-80 | writing a list field keeps the form's shape |
| FormState.SaveRequestFor | src/components/dashboard/ProjectForm.tsx:88-94 | the body is the form; PATCH iff an id is given, to the base followed by the id and `/`; otherwise POST to the base |
| FormState.SaveUrlsDistinct | src/components/dashboard/ProjectForm.tsx:88-94 | an update never goes to the create URL, and different ids go to different URLs |
| FormState.FinishSave | src/components/dashboard/ProjectForm.tsx:95-102 | a save closes the editor iff it succeeded; a rejection shows the server-error message with the form's sentence as fallback |
| FormState.RejectionMessages | src/components/dashboard/WorkshopForm.tsx:80-82 | a field-error rejection shows every message joined with `", "`, and a rejection without a response shows the fallback |
| ProjectForm.Initial | src/components/dashboard/ProjectForm.tsx:18-34 | the form has the project form's fields and kinds, and is blank when creating; the edit values are stated by EditFormStory, EditFormLinks and EditFormSettings |
| ProjectForm.EditFormHoldsProject | src/components/dashboard/ProjectForm.tsx:19-30 | editing starts from the project's title, technologies and gallery images, a missing gallery being empty |
| ProjectForm.EditFormStory | src/components/dashboard/ProjectForm.tsx:19-26 | editing starts from the project's title, description, problem, process, impact, results, slug and technologies |
| ProjectForm.EditFormLinks | src/components/dashboard/ProjectForm.tsx:27-30 | the demo URL, GitHub URL and image start from the project's or `''`, the gallery from the project's or `[]` |
| ProjectForm.EditFormSettings | src/components/dashboard/ProjectForm.tsx:31-33 | the display order and the published and featured flags start from the project's |
| ProjectForm.Save | src/components/dashboard/ProjectForm.tsx:88-94 | PATCH `/projects/{id}/` when editing and POST `/projects/` when creating, with the form as body |
| ExperienceForm.Initial | src/components/dashboard/ExperienceForm.tsx:24-36 | the form has the experience form's fields and kinds, is blank when creating, and both dates hold no `T`; the edit values are stated by EditFormDates, EditFormTexts, EditFormLists and EditFormSettings |
| ExperienceForm.EditFormDates | src/components/dashboard/ExperienceForm.tsx:28-29 | the start date is cut before its first `T` or kept whole, and a missing end date is `''` |
| ExperienceForm.EditFormTexts | src/components/dashboard/ExperienceForm.tsx:25-30 | company, position and description start from the record's, the location from the record's or `''` |
| ExperienceForm.EditFormLists | src/components/dashboard/ExperienceForm.tsx:31-32 | the technologies and achievements start from the record's |
| ExperienceForm.EditFormSettings | src/components/dashboard/ExperienceForm.tsx:33-35 | the current flag and display order start from the record's, and `is_published` from the record's or `false` |
| ExperienceForm.Save | src/components/dashboard/ExperienceForm.tsx:90-94 | PATCH `/experience/{id}/` when editing, else POST `/experience/` |
| CertificationForm.Initial | src/components/dashboard/CertificationForm.tsx:24-35 | the form has the certification form's fields and kinds, is blank when creating, and both dates hold no `T`; the edit values are stated by EditFormTexts, EditFormDates and EditFormSettings |
| CertificationForm.EditFormWithoutExpiry | src/components/dashboard/CertificationForm.tsx:28-32 | a certification without expiry starts with an empty expiry date and its own skills |
| CertificationForm.EditFormTexts | src/components/dashboard/CertificationForm.tsx:25-31 | name and issuer start from the record's; credential id, credential URL and description from the record's or `''` |
| CertificationForm.EditFormDates | src/components/dashboard/CertificationForm.tsx:27-28 | both dates start as the form's cut-at-`T` helper gives them |
| CertificationForm.EditFormSettings | src/components/dashboard/CertificationForm.tsx:32-34 | the skills and display order start from the record's, and `is_published` from the record's or `false` |
| CertificationForm.Save | src/components/dashboard/CertificationForm.tsx:71-75 | PATCH `/certifications/{id}/` when editing, else POST `/certifications/` |
| WorkshopForm.Initial | src/components/dashboard/WorkshopForm.tsx:24-35 | the form has the workshop form's fields and kinds, is blank when creating, and the date holds no `T`; the edit values are stated by EditFormTexts and EditFormSettings |
| WorkshopForm.EditFormHoldsWorkshop | src/components/dashboard/WorkshopForm.tsx:28-31 | the topics are the workshop's, and a missing duration starts at 0 |
| WorkshopForm.EditFormTexts | src/components/dashboard/WorkshopForm.tsx:25-32 | title, organiser and description start from the record's, the date cut at `T`, and location and certificate URL from the record's or `''` |
| WorkshopForm.EditFormSettings | src/components/dashboard/WorkshopForm.tsx:28-34 | the duration starts from the record's or 0, the topics and display order from the record's, and `is_published` from the record's or `false` |
| WorkshopForm.Save | src/components/dashboard/WorkshopForm.tsx:71-75 | PATCH `/workshops/{id}/` when editing, else POST `/workshops/` |
| ProfilePage.FormOf | src/app/dashboard/profile/page.tsx:55 | a fetched profile becomes the form: its id first when it has one, then the ten profile fields |
| ProfilePage.AfterFetch | src/app/dashboard/profile/page.tsx:49-65 | the form is replaced only when the response carries data; a failure, including a 404, leaves the form |
| ProfilePage.Change | src/app/dashboard/profile/page.tsx:67-73 | a change stores the string value under the input's name only |
| ProfilePage.ProfileId | src/app/dashboard/profile/page.tsx:99 | the form has an id iff its `id` field is a non-empty string |
| ProfilePage.FormOfCarriesId | src/app/dashboard/profile/page.tsx:55-99 | a fetched profile's id is the form's id |
| ProfilePage.Save | src/app/dashboard/profile/page.tsx:99-106 | PATCH `/profile/{id}/` iff the form has an id, else POST `/profile/`, with the form as body |
| ProfilePage.AfterSave | src/app/dashboard/profile/page.tsx:98-114 | an update shows the success message; a create also replaces the form with the returned profile; a rejection shows the server-error message with `Failed to save profile` as fallback |
| ProfilePage.FetchedProfileIsPatched | src/app/dashboard/profile/page.tsx:54-101 | after fetching a profile with an id, saving patches that profile |
| ProfilePage.CreateOnlyOnce | src/app/dashboard/profile/page.tsx:104-105 | after a create, the next save is a PATCH of the created profile |
| ProfilePage.FirstSaveCreates | src/app/dashboard/profile/page.tsx:32-65 | when no profile was fetched, the blank form is POSTed |
| Contact.SetFieldChangesOnlyThatField | src/components/sections/Contact.tsx:23-25 | a change sets the named field and no other; an unknown name changes nothing |
| Contact.ChooseFile | src/components/sections/Contact.tsx:27-31 | the first chosen file is kept; an empty choice changes nothing |
| Contact.TrimmedOr | src/components/sections/Contact.tsx:45-47 | `s.trim() \|\| fallback` |
| Contact.Cleaned | src/components/sections/Contact.tsx:41-52 | the e-mail is sent as entered; name, subject and message are trimmed or defaulted to `Not Provided`, `General Inquiry` and `No message provided`; phone and organisation are trimmed and may be empty; an empty method becomes `email` |
| Contact.Payload | src/components/sections/Contact.tsx:39-57 | seven text parts in append order with the cleaned values, plus `file_attached` exactly when a file is chosen |
| Contact.PayloadNamesDistinct | src/components/sections/Contact.tsx:42-56 | no part name repeats, and `file_attached` appears iff a file was chosen |
| Contact.CleanedIdempotent | src/components/sections/Contact.tsx:45-52 | cleaning a cleaned form changes nothing |
| Contact.PayloadIsStable | src/components/sections/Contact.tsx:39-57 | the payload of the cleaned form is the payload of the form |
| Contact.TrimFixed | src/components/sections/Contact.tsx:45-47 | with a trimmed, non-empty default, trim-or-default is idempotent |
| Contact.ErrorMessage | src/components/sections/Contact.tsx:79-92 | never empty; a non-empty string body is shown as is; a missing, falsy, numeric or boolean body shows the generic sentence |
| Contact.FieldErrorsShown | src/components/sections/Contact.tsx:85-88 | an object of field errors shows all its messages joined with `", "`, or the generic sentence when there are none |
| Contact.StartSubmit | src/components/sections/Contact.tsx:35-36 | submitting clears the message and keeps the form and file |
| Contact.FinishSubmit | src/components/sections/Contact.tsx:65-92 | success resets every field (method `email`), clears the file and shows success; failure keeps the form and shows the error message |
| Contact.StepAllowed | src/components/sections/Contact.tsx:35-128 | every event moves along idle/error to submitting to success or error, and success to idle; success is reached only from submitting |
| Contact.Run | src/components/sections/Contact.tsx:20-128 | a run records one view per event after the starting one |
| Contact.RunAllowed | src/components/sections/Contact.tsx:35-128 | every consecutive pair in a run is an allowed move, made by that event |
| ListView.MatchesIgnoresCase | src/app/dashboard/messages/page.tsx:76-80 | the empty term matches every field, and lowering either side changes nothing |
| ListView.Search | src/app/dashboard/messages/page.tsx:75-85 | an order-preserving subsequence of exactly the records with a matching field |
| ListView.EmptySearchShowsAll | src/app/dashboard/workshops/page.tsx:48-51 | an empty term shows every record |
| ListView.DeleteById | src/app/dashboard/experience/page.tsx:40 | an order-preserving subsequence without the id and with every other record |
| ListView.UpdateById | src/app/dashboard/messages/page.tsx:66 | records with the id are updated and every other record kept, position by position |
| ListView.UpdateThenDelete | src/app/dashboard/messages/page.tsx:52-66 | updating then deleting an id is deleting it |
| ListView.ResultsOf | src/app/dashboard/certifications/page.tsx:27-28 | reading `data` of a nullish body throws; otherwise an array `data.results` gives its records and any other `results`, falsy or truthy, gives `[]` |
| ListView.LoadResults | src/app/dashboard/workshops/page.tsx:22-35 | any failure leaves the list empty; otherwise the results' records |
| ListView.ResultsRoundTrip | src/app/dashboard/experience/page.tsx:27-28 | a results body's records are read back exactly |
| CertificationsPage.Filtered | src/app/dashboard/certifications/page.tsx:48-51 | shown iff the term is in the name or issuing organisation, ignoring case, in order |
| CertificationsPage.Delete | src/app/dashboard/certifications/page.tsx:37-46 | a successful delete leaves an order-preserving subsequence of the list without the id and with every record of another id; a failed one changes nothing |
| CertificationsPage.ExpiryLine | src/app/dashboard/certifications/page.tsx:115-120 | an expiry line only for a non-empty expiry date, with ` (Expired)` iff expired |
| WorkshopsPage.Filtered | src/app/dashboard/workshops/page.tsx:48-51 | shown iff the term is in the title or organiser, ignoring case, in order |
| WorkshopsPage.Delete | src/app/dashboard/workshops/page.tsx:37-46 | a successful delete leaves an order-preserving subsequence of the list without the id and with every record of another id; a failed one changes nothing |
| ExperiencePage.Filtered | src/app/dashboard/experience/page.tsx:48-51 | shown iff the term is in the company or position, ignoring case, in order |
| ExperiencePage.Delete | src/app/dashboard/experience/page.tsx:37-46 | a successful delete leaves an order-preserving subsequence of the list without the id and with every record of another id; a failed one changes nothing |
| MessagesPage.Load | src/app/dashboard/messages/page.tsx:34-47 | an array `data.data` gives its records; a falsy `data.data` falls back to the body, whose records are read when it is an array; a truthy non-array `data.data` or a non-array body gives `[]`; an error or a nullish body gives `[]` |
| MessagesPage.LoadReadsBothShapes | src/app/dashboard/messages/page.tsx:38-40 | both the wrapped and the bare array of messages are read |
| MessagesPage.Visible | src/app/dashboard/messages/page.tsx:75-85 | shown iff the term is in the name, e-mail, subject or message and the filter is `all` or the status, in order |
| MessagesPage.VisibleByDefault | src/app/dashboard/messages/page.tsx:75-85 | an empty term with `all` shows every message, and any filter shows only its status |
| MessagesPage.Delete | src/app/dashboard/messages/page.tsx:49-61 | success removes exactly that id's messages, clears the confirmation and clears the selection iff it had that id; failure changes nothing |
| MessagesPage.UpdateStatus | src/app/dashboard/messages/page.tsx:63-73 | success gives each message with the id the new status and leaves every other message, and every other field, as it was; the opened message follows iff it has the id; failure changes nothing |
| MessagesPage.ActionsKeepSelectionListed | src/app/dashboard/messages/page.tsx:49-73 | deleting and updating keep the selected message listed |
| MessagesPage.StatusColor | src/app/dashboard/messages/page.tsx:87-94 | `new` gets the blue badge, `contacted` the yellow one, every other status the grey one |
| ProjectsAdminPage.Load | src/app/dashboard/projects/page.tsx:35-47 | a failure, or a body or `data` that cannot be read, keeps the list; a readable `data` gives the records of an array `results` and `[]` for any other `results` |
| ProjectsAdminPage.LoadReadsResults | src/app/dashboard/projects/page.tsx:41 | a results body's projects are read back exactly |
| ProjectsAdminPage.Filtered | src/app/dashboard/projects/page.tsx:80-83 | shown iff the term is in the title or description, ignoring case, in order |
| ProjectsAdminPage.Delete | src/app/dashboard/projects/page.tsx:49-58 | a successful delete leaves an order-preserving subsequence of the table without the id and with every project of another id; a failed one changes nothing |
| ProjectsAdminPage.PublishAction | src/app/dashboard/projects/page.tsx:62 | `unpublish` iff published, else `publish` |
| ProjectsAdminPage.FeatureAction | src/app/dashboard/projects/page.tsx:72 | `unfeature` iff featured, else `feature` |
| ProjectsAdminPage.TogglesFlip | src/app/dashboard/projects/page.tsx:60-78 | under the assumed back-end effect `Applied` (the page only posts the action and fetches again), the chosen action flips its flag, and toggling twice restores the project |
| ProjectsAdminPage.TechnologyCell | src/app/dashboard/projects/page.tsx:159-171 | the first min(3, n) technologies, and a `+k` badge iff n > 3 |
| ProjectsAdminPage.TechnologyCellCounts | src/app/dashboard/projects/page.tsx:167-170 | the badge reads back as n − 3, and without it every technology is shown |
| ProjectsPage.Load | src/app/projects/page.tsx:20-32 | an array `data.data.results` gives its records; when that is falsy an array `data.results` gives its records; neither shape gives `[]`; a failed request keeps the gallery and a nullish body empties it |
| ProjectsPage.LoadReadsBothShapes | src/app/projects/page.tsx:24 | both the wrapped and the flat results shape are read |
| ProjectsPage.Visible | src/app/projects/page.tsx:37-45 | shown iff the term is in the title or description, ignoring case, and the category is `All` or the project's own, in order |
| ProjectsPage.DefaultShowsAll | src/app/projects/page.tsx:25-26 | with no term and `All`, the gallery shows every project, as right after the fetch |
| ProjectsPage.NamedCategories | src/app/projects/page.tsx:47 | the truthy categories of the projects in project order: an order-preserving subsequence of the category column with one entry per project that has a non-empty category |
| ProjectsPage.Distinct | src/app/projects/page.tsx:47 | `Array.from(new Set(xs))`: no duplicates, exactly the values of `xs`, an order-preserving subsequence of `xs`, and equal to the first occurrences of the values |
| Seqs.FirstOccurrences | src/app/projects/page.tsx:47 | the first occurrence of each value in order: an order-preserving, duplicate-free subsequence holding every value |
| ProjectsPage.DistinctAfterFirst | src/app/projects/page.tsx:47 | continuing the set over the rest of the values after a prefix gives the first occurrences of the whole |
| ProjectsPage.Categories | src/app/projects/page.tsx:47 | `All` first, then each named category once, in the order the categories first occur among the projects |
| ProjectsPage.CategoryButtonsFilter | src/app/projects/page.tsx:41-47 | a category button other than `All` shows only that category's projects, and at least one |
| ProjectsPage.AllListedTwice | src/app/projects/page.tsx:47 | a project whose category is named `All` makes `All` appear a second time |
| DashboardOverview.BodyOr | src/app/dashboard/page.tsx:48-53 | a failed request is replaced by its own fallback body |
| DashboardOverview.Count | src/app/dashboard/page.tsx:63-66 | throws exactly for a nullish body; otherwise a truthy `data.data.count` is the value and a falsy one gives 0 |
| DashboardOverview.CountFallbackIsZero | src/app/dashboard/page.tsx:48-51 | the fallback counts 0, and a body with count n shows n |
| DashboardOverview.MessageCount | src/app/dashboard/page.tsx:67 | throws exactly for a nullish body; an array `data.data` gives its length; otherwise a truthy `data.data.length` is the value and a falsy one gives 0 |
| DashboardOverview.MessageCountOfList | src/app/dashboard/page.tsx:52-67 | the fallback counts 0, and a list of messages counts its length |
| DashboardOverview.ViewsOf | src/app/dashboard/page.tsx:59 | `p.view_count \|\| 0` for one result; throws exactly on a nullish element |
| DashboardOverview.SumViews | src/app/dashboard/page.tsx:59 | the reduce throws iff some element is nullish |
| DashboardOverview.TotalViews | src/app/dashboard/page.tsx:57-60 | 0 when the results are not an array; throws for a nullish body |
| DashboardOverview.SumViewsOfRecords | src/app/dashboard/page.tsx:57-60 | over project records, the reduce is the sum of their view counts, a missing count being 0 |
| DashboardOverview.TotalViewsOfResults | src/app/dashboard/page.tsx:57-60 | a results body of projects shows the total of their view counts |
| DashboardOverview.ActivitiesOf | src/app/dashboard/page.tsx:71 | throws exactly for a nullish body; otherwise an array `data.data.results` gives its records and anything else gives `[]` |
| DashboardOverview.Refresh | src/app/dashboard/page.tsx:42-77 | an error before `setStats` keeps everything; otherwise the stats are set, and the feed becomes the records of an array `data.data.results`, `[]` for any other value, `[]` when the request failed, and stays as it was when reading `data` throws |
| DashboardOverview.AllFailedShowsZeros | src/app/dashboard/page.tsx:47-71 | when every request fails, every card shows 0 and the feed is empty |
| DashboardOverview.FailureZeroesOnlyItsCount | src/app/dashboard/page.tsx:47-69 | one failed count request zeroes its own card and changes nothing else |
| DashboardOverview.ActivityIcon | src/app/dashboard/page.tsx:88-96 | the clock icon iff the kind is not project, experience, certification or message |
| DashboardOverview.KindColour | src/app/dashboard/page.tsx:98-106 | grey iff the kind is unknown |
| DashboardOverview.ActivityColour | src/app/dashboard/page.tsx:98-106 | an unknown kind gets the grey classes |
| DashboardOverview.TintInjective | src/app/dashboard/page.tsx:100-104 | different colours give different class strings |
| DashboardOverview.IconAndColourAgree | src/app/dashboard/page.tsx:88-106 | the clock icon iff the grey classes, and distinct known kinds get distinct colours |

## Left out

- Rendering, animation, timers and loading flags are not modelled. This covers the 3-second
  success message on the profile page, the `loading` spinners, modals and navigation beyond a
  path value.
- The HTTP client's base URL and the actual network traffic are parameters. Each call is a
  response body or a failure.
- The request interceptor's server-side check (`typeof window`) is a `browser` flag on the
  request interceptor. The response interceptor is modelled as it runs in the browser.
- Concurrency is not modelled: the parallel requests of the dashboard overview, and overlapping
  token refreshes, which the client does not guard against. Everything is sequential.
- `fileToBase64`, the CV download and the contact component's UI guards are outside the model.
- Numbers are integers. JavaScript floating point, `NaN` and number-to-string formatting of
  non-integers are not modelled.
- `Math.random().toString(36)` is a string parameter, and `Date.now()` is a number parameter.
- Lowercasing is ASCII only, and string length counts characters, not UTF-16 code units.
  Unicode case mapping is not modelled.
- `toLocaleDateString` is a `format` parameter.
- Arrays received from the back end keep their typed records. Other elements (plain objects,
  numbers, strings) are dropped from lists, and `Object.values` of a typed record is treated as
  empty.
- A truthy payload that is not an array is treated as the empty list. This covers the public
  gallery's `setProjects`, the admin list and the activity feed, which store it as it is. The
  pages cannot render such a value either.
- A profile create's response is assumed to carry the profile.
- Field edits on a name the contact form does not have change nothing in the model. The
  component adds such a key, but it never reaches the payload.
- A number input's value is stored as a string, as the browser reports it. A number field
  therefore accepts text, and no arithmetic is done on it.
- List operations on a key that does not hold a list treat it as empty.
- FileUpload.UniqueFilename: states nothing itself; its properties are in
  UniqueFilenameParts.
- Seo.KeywordsContent: states nothing itself; its properties are in KeywordsRoundTrip.
- DashboardOverview.ViewsOf: a plain object's non-numeric `view_count` counts as 0. JavaScript
  would concatenate it as a string.
- DashboardOverview.TotalViews: the overview requests one page of size 1. The total therefore
  covers the returned results only, which the model takes as given.
- ProjectsPage.Load: the public gallery stores a truthy non-array `results` as it is; the model
  reads no records from it.
- ProjectsAdminPage.Load: the admin table stores a truthy non-array `results` as it is; the
  model reads no records from it.
- DashboardOverview.ActivitiesOf: the feed stores a truthy non-array `results` as it is; the
  model reads no records from it.
- DashboardOverview.Refresh: the same truthy non-array feed gives `[]`, as in ActivitiesOf.
- CertificationsPage.Load, WorkshopsPage.Load, ExperiencePage.Load: their contracts state only
  the failure case. Their full behaviour is stated by ListView.LoadResults, which they call.
