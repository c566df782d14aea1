/**
 * The certification editor (src/components/dashboard/CertificationForm.tsx): its initial form
 * with dates cut for the date inputs, its skills list, and its save.
 */
module CertificationForm {
  import opened Wrappers
  import opened FormState
  import Types
  import Seqs
  import DateUtils

  const Schema: FormState.Schema := [
    ("name", TextKind), ("issuing_organization", TextKind), ("issue_date", TextKind),
    ("expiry_date", TextKind), ("credential_id", TextKind), ("credential_url", TextKind),
    ("description", TextKind), ("skills", ListKind), ("display_order", NumberKind),
    ("is_published", FlagKind)]

  /** The form on opening: empty for a new certificate; for an edit, the record's values with
      both dates cut before any `T`, missing optional text empty, and a missing publication
      flag false. */
  function Initial(certification: Option<Types.Certification>): (r: Form)
    ensures Conforms(r, Schema)
    ensures certification.None? ==> r == Blank(Schema)
    ensures 'T' !in r[2].1.s && 'T' !in r[3].1.s
  {
    match certification
    case None => Blank(Schema)
    case Some(c) => Fill(Schema, EditValues(c))
  }

  /** A certificate without an expiry date is edited with an empty expiry field. */
  lemma EditFormWithoutExpiry(c: Types.Certification)
    requires c.expiryDate.None?
    ensures TextAt(Initial(Some(c)), "expiry_date") == ""
    ensures ItemsAt(Initial(Some(c)), "skills") == c.skills
  {
    var r := Initial(Some(c));
    FieldKeys();
    GetConforming(r, Schema, "expiry_date", 3);
    GetConforming(r, Schema, "skills", 7);
  }

  /** Where the expiry date and the skills sit, with no earlier field of the same name. */
  lemma FieldKeys()
    ensures Schema[3].0 == "expiry_date" && forall j | 0 <= j < 3 :: Schema[j].0 != "expiry_date"
    ensures Schema[7].0 == "skills" && forall j | 0 <= j < 7 :: Schema[j].0 != "skills"
  {
  }

  /** The values an edit form starts from, in the schema's order. */
  function EditValues(c: Types.Certification): (r: seq<FieldValue>)
    ensures |r| == |Schema| && forall i | 0 <= i < |Schema| :: HasKind(r[i], Schema[i].1)
  {
    [TextValue(c.name),
     TextValue(c.issuingOrganization),
     TextValue(DateUtils.FormDateValue(Some(c.issueDate))),
     TextValue(DateUtils.FormDateValue(c.expiryDate)),
     TextValue(c.credentialId.GetOr("")),
     TextValue(c.credentialUrl.GetOr("")),
     TextValue(c.description.GetOr("")),
     ListValue(c.skills),
     NumberValue(c.displayOrder),
     FlagValue(c.isPublished.GetOr(false))]
  }

  /** The certification form names each field once. */
  lemma KeysDistinct()
    ensures Seqs.NoDuplicates(SchemaKeys(Schema))
  {
  }

  /** The record's name and issuer, and its optional texts, each empty when missing. */
  lemma EditFormTexts(c: Types.Certification)
    ensures Get(Initial(Some(c)), "name") == Some(TextValue(c.name))
    ensures Get(Initial(Some(c)), "issuing_organization") == Some(TextValue(c.issuingOrganization))
    ensures Get(Initial(Some(c)), "credential_id") == Some(TextValue(c.credentialId.GetOr("")))
    ensures Get(Initial(Some(c)), "credential_url") == Some(TextValue(c.credentialUrl.GetOr("")))
    ensures Get(Initial(Some(c)), "description") == Some(TextValue(c.description.GetOr("")))
  {
    TextsLayout(c);
    FieldAt(c, 0);
    FieldAt(c, 1);
    FieldAt(c, 4);
    FieldAt(c, 5);
    FieldAt(c, 6);
  }

  /** Where the fields of `EditFormTexts` sit and what an edit fills in there. */
  lemma TextsLayout(c: Types.Certification)
    ensures Schema[0].0 == "name" && EditValues(c)[0] == TextValue(c.name)
    ensures Schema[1].0 == "issuing_organization" && EditValues(c)[1] == TextValue(c.issuingOrganization)
    ensures Schema[4].0 == "credential_id" && EditValues(c)[4] == TextValue(c.credentialId.GetOr(""))
    ensures Schema[5].0 == "credential_url" && EditValues(c)[5] == TextValue(c.credentialUrl.GetOr(""))
    ensures Schema[6].0 == "description" && EditValues(c)[6] == TextValue(c.description.GetOr(""))
  {
  }

  /** Both dates as the date inputs take them. */
  lemma EditFormDates(c: Types.Certification)
    ensures Get(Initial(Some(c)), "issue_date") == Some(TextValue(DateUtils.FormDateValue(Some(c.issueDate))))
    ensures Get(Initial(Some(c)), "expiry_date") == Some(TextValue(DateUtils.FormDateValue(c.expiryDate)))
  {
    DatesLayout(c);
    FieldAt(c, 2);
    FieldAt(c, 3);
  }

  /** Where the fields of `EditFormDates` sit and what an edit fills in there. */
  lemma DatesLayout(c: Types.Certification)
    ensures Schema[2].0 == "issue_date" && EditValues(c)[2] == TextValue(DateUtils.FormDateValue(Some(c.issueDate)))
    ensures Schema[3].0 == "expiry_date" && EditValues(c)[3] == TextValue(DateUtils.FormDateValue(c.expiryDate))
  {
  }

  /** The skills, the display order, and the publication flag, false when missing. */
  lemma EditFormSettings(c: Types.Certification)
    ensures Get(Initial(Some(c)), "skills") == Some(ListValue(c.skills))
    ensures Get(Initial(Some(c)), "display_order") == Some(NumberValue(c.displayOrder))
    ensures Get(Initial(Some(c)), "is_published") == Some(FlagValue(c.isPublished.GetOr(false)))
  {
    SettingsLayout(c);
    FieldAt(c, 7);
    FieldAt(c, 8);
    FieldAt(c, 9);
  }

  /** Where the fields of `EditFormSettings` sit and what an edit fills in there. */
  lemma SettingsLayout(c: Types.Certification)
    ensures Schema[7].0 == "skills" && EditValues(c)[7] == ListValue(c.skills)
    ensures Schema[8].0 == "display_order" && EditValues(c)[8] == NumberValue(c.displayOrder)
    ensures Schema[9].0 == "is_published" && EditValues(c)[9] == FlagValue(c.isPublished.GetOr(false))
  {
  }

  /** Each field of an edit form holds the value filled in at its place. */
  lemma FieldAt(c: Types.Certification, i: nat)
    requires i < |Schema|
    ensures Get(Initial(Some(c)), Schema[i].0) == Some(EditValues(c)[i])
  {
    KeysDistinct();
    FillReads(Schema, EditValues(c), i);
  }

  const Base := "/certifications/"
  const SaveFallback := "Failed to save certification"

  /** `handleSubmit`: patch the certificate being edited, or create a new one. */
  function Save(certification: Option<Types.Certification>, form: Form): (r: SaveRequest)
    ensures r.body == form
    ensures certification.Some? <==> r.Patch?
    ensures certification.Some? ==> r.url == "/certifications/" + certification.value.id + "/"
    ensures certification.None? ==> r.url == "/certifications/"
  {
    SaveRequestFor(Base, if certification.Some? then Some(certification.value.id) else None, form)
  }
}
