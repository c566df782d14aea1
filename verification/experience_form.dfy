/**
 * The experience editor (src/components/dashboard/ExperienceForm.tsx): its initial form with
 * dates cut for the date inputs, its technology and achievement lists, and its save.
 */
module ExperienceForm {
  import opened Wrappers
  import opened FormState
  import Types
  import Seqs
  import DateUtils

  const Schema: FormState.Schema := [
    ("company", TextKind), ("position", TextKind), ("location", TextKind), ("start_date", TextKind),
    ("end_date", TextKind), ("description", TextKind), ("technologies", ListKind),
    ("achievements", ListKind), ("is_current", FlagKind), ("display_order", NumberKind),
    ("is_published", FlagKind)]

  /** The form on opening: empty for a new position; for an edit, the record's values with
      both dates cut before any `T`, a missing location or end date empty, and a missing
      publication flag false. */
  function Initial(experience: Option<Types.Experience>): (r: Form)
    ensures Conforms(r, Schema)
    ensures experience.None? ==> r == Blank(Schema)
    ensures 'T' !in r[3].1.s && 'T' !in r[4].1.s
  {
    match experience
    case None => Blank(Schema)
    case Some(e) => Fill(Schema, EditValues(e))
  }

  /** An edit form shows a back-end timestamp as the date before its `T`, and a plain date as
      it is. */
  lemma EditFormDates(e: Types.Experience)
    ensures 'T' in e.startDate ==> DateUtils.IsPrefixBeforeFirstT(TextAt(Initial(Some(e)), "start_date"), e.startDate)
    ensures 'T' !in e.startDate ==> TextAt(Initial(Some(e)), "start_date") == e.startDate
    ensures e.endDate.None? ==> TextAt(Initial(Some(e)), "end_date") == ""
  {
    DateFields(e);
  }

  /** The two date fields of an edit form hold the record's dates as the date inputs take
      them. */
  lemma DateFields(e: Types.Experience)
    ensures TextAt(Initial(Some(e)), "start_date") == DateUtils.FormDateValue(Some(e.startDate))
    ensures TextAt(Initial(Some(e)), "end_date") == DateUtils.FormDateValue(e.endDate)
  {
    var r := Initial(Some(e));
    assert r[3].1 == TextValue(DateUtils.FormDateValue(Some(e.startDate)));
    assert r[4].1 == TextValue(DateUtils.FormDateValue(e.endDate));
    DateKeys();
    GetConforming(r, Schema, "start_date", 3);
    GetConforming(r, Schema, "end_date", 4);
  }

  /** The two dates are the fourth and fifth fields, and no earlier field shares their names. */
  lemma DateKeys()
    ensures Schema[3].0 == "start_date" && forall j | 0 <= j < 3 :: Schema[j].0 != "start_date"
    ensures Schema[4].0 == "end_date" && forall j | 0 <= j < 4 :: Schema[j].0 != "end_date"
  {
    assert "position"[0] != "end_date"[0] && "location"[0] != "end_date"[0];
  }

  /** The values an edit form starts from, in the schema's order. */
  function EditValues(e: Types.Experience): (r: seq<FieldValue>)
    ensures |r| == |Schema| && forall i | 0 <= i < |Schema| :: HasKind(r[i], Schema[i].1)
  {
    [TextValue(e.company),
     TextValue(e.position),
     TextValue(e.location.GetOr("")),
     TextValue(DateUtils.FormDateValue(Some(e.startDate))),
     TextValue(DateUtils.FormDateValue(e.endDate)),
     TextValue(e.description),
     ListValue(e.technologies),
     ListValue(e.achievements),
     FlagValue(e.isCurrent),
     NumberValue(e.displayOrder),
     FlagValue(e.isPublished.GetOr(false))]
  }

  /** The experience form names each field once. */
  lemma KeysDistinct()
    ensures Seqs.NoDuplicates(SchemaKeys(Schema))
  {
  }

  /** The record's texts, a missing location being empty. */
  lemma EditFormTexts(e: Types.Experience)
    ensures Get(Initial(Some(e)), "company") == Some(TextValue(e.company))
    ensures Get(Initial(Some(e)), "position") == Some(TextValue(e.position))
    ensures Get(Initial(Some(e)), "location") == Some(TextValue(e.location.GetOr("")))
    ensures Get(Initial(Some(e)), "description") == Some(TextValue(e.description))
  {
    TextsLayout(e);
    FieldAt(e, 0);
    FieldAt(e, 1);
    FieldAt(e, 2);
    FieldAt(e, 5);
  }

  /** Where the fields of `EditFormTexts` sit and what an edit fills in there. */
  lemma TextsLayout(e: Types.Experience)
    ensures Schema[0].0 == "company" && EditValues(e)[0] == TextValue(e.company)
    ensures Schema[1].0 == "position" && EditValues(e)[1] == TextValue(e.position)
    ensures Schema[2].0 == "location" && EditValues(e)[2] == TextValue(e.location.GetOr(""))
    ensures Schema[5].0 == "description" && EditValues(e)[5] == TextValue(e.description)
  {
  }

  /** The record's technologies and achievements. */
  lemma EditFormLists(e: Types.Experience)
    ensures Get(Initial(Some(e)), "technologies") == Some(ListValue(e.technologies))
    ensures Get(Initial(Some(e)), "achievements") == Some(ListValue(e.achievements))
  {
    ListsLayout(e);
    FieldAt(e, 6);
    FieldAt(e, 7);
  }

  /** Where the fields of `EditFormLists` sit and what an edit fills in there. */
  lemma ListsLayout(e: Types.Experience)
    ensures Schema[6].0 == "technologies" && EditValues(e)[6] == ListValue(e.technologies)
    ensures Schema[7].0 == "achievements" && EditValues(e)[7] == ListValue(e.achievements)
  {
  }

  /** The current flag, the display order, and the publication flag, false when missing. */
  lemma EditFormSettings(e: Types.Experience)
    ensures Get(Initial(Some(e)), "is_current") == Some(FlagValue(e.isCurrent))
    ensures Get(Initial(Some(e)), "display_order") == Some(NumberValue(e.displayOrder))
    ensures Get(Initial(Some(e)), "is_published") == Some(FlagValue(e.isPublished.GetOr(false)))
  {
    SettingsLayout(e);
    FieldAt(e, 8);
    FieldAt(e, 9);
    FieldAt(e, 10);
  }

  /** Where the fields of `EditFormSettings` sit and what an edit fills in there. */
  lemma SettingsLayout(e: Types.Experience)
    ensures Schema[8].0 == "is_current" && EditValues(e)[8] == FlagValue(e.isCurrent)
    ensures Schema[9].0 == "display_order" && EditValues(e)[9] == NumberValue(e.displayOrder)
    ensures Schema[10].0 == "is_published" && EditValues(e)[10] == FlagValue(e.isPublished.GetOr(false))
  {
  }

  /** Each field of an edit form holds the value filled in at its place. */
  lemma FieldAt(e: Types.Experience, i: nat)
    requires i < |Schema|
    ensures Get(Initial(Some(e)), Schema[i].0) == Some(EditValues(e)[i])
  {
    KeysDistinct();
    FillReads(Schema, EditValues(e), i);
  }

  const Base := "/experience/"
  const SaveFallback := "Failed to save experience"

  /** `handleSubmit`: patch the position being edited, or create a new one. */
  function Save(experience: Option<Types.Experience>, form: Form): (r: SaveRequest)
    ensures r.body == form
    ensures experience.Some? <==> r.Patch?
    ensures experience.Some? ==> r.url == "/experience/" + experience.value.id + "/"
    ensures experience.None? ==> r.url == "/experience/"
  {
    SaveRequestFor(Base, if experience.Some? then Some(experience.value.id) else None, form)
  }
}
