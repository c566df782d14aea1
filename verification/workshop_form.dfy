/**
 * The workshop editor (src/components/dashboard/WorkshopForm.tsx): its initial form with the
 * date cut for the date input, its topics list, and its save.
 */
module WorkshopForm {
  import opened Wrappers
  import opened FormState
  import Types
  import Seqs
  import DateUtils

  const Schema: FormState.Schema := [
    ("title", TextKind), ("organizer", TextKind), ("date", TextKind), ("duration_hours", NumberKind),
    ("location", TextKind), ("description", TextKind), ("topics", ListKind),
    ("certificate_url", TextKind), ("display_order", NumberKind), ("is_published", FlagKind)]

  /** The form on opening: empty for a new workshop; for an edit, the record's values with the
      date cut before any `T`, a missing duration 0, missing optional text empty, and a
      missing publication flag false. */
  function Initial(workshop: Option<Types.Workshop>): (r: Form)
    ensures Conforms(r, Schema)
    ensures workshop.None? ==> r == Blank(Schema)
    ensures 'T' !in r[2].1.s
  {
    match workshop
    case None => Blank(Schema)
    case Some(w) => Fill(Schema, EditValues(w))
  }

  /** An edit form keeps the workshop's topics and shows a missing duration as 0. */
  lemma EditFormHoldsWorkshop(w: Types.Workshop)
    ensures ItemsAt(Initial(Some(w)), "topics") == w.topics
    ensures w.durationHours.None? ==> Get(Initial(Some(w)), "duration_hours") == Some(NumberValue(0))
  {
    var r := Initial(Some(w));
    FieldKeys();
    GetConforming(r, Schema, "topics", 6);
    GetConforming(r, Schema, "duration_hours", 3);
  }

  /** Where the topics and the duration sit, with no earlier field of the same name. */
  lemma FieldKeys()
    ensures Schema[6].0 == "topics" && forall j | 0 <= j < 6 :: Schema[j].0 != "topics"
    ensures Schema[3].0 == "duration_hours" && forall j | 0 <= j < 3 :: Schema[j].0 != "duration_hours"
  {
  }

  /** The values an edit form starts from, in the schema's order. */
  function EditValues(w: Types.Workshop): (r: seq<FieldValue>)
    ensures |r| == |Schema| && forall i | 0 <= i < |Schema| :: HasKind(r[i], Schema[i].1)
  {
    [TextValue(w.title),
     TextValue(w.organizer),
     TextValue(DateUtils.FormDateValue(Some(w.date))),
     NumberValue(w.durationHours.GetOr(0)),
     TextValue(w.location.GetOr("")),
     TextValue(w.description),
     ListValue(w.topics),
     TextValue(w.certificateUrl.GetOr("")),
     NumberValue(w.displayOrder),
     FlagValue(w.isPublished.GetOr(false))]
  }

  /** The workshop form names each field once. */
  lemma KeysDistinct()
    ensures Seqs.NoDuplicates(SchemaKeys(Schema))
  {
  }

  /** The record's texts and date, optional ones empty when missing. */
  lemma EditFormTexts(w: Types.Workshop)
    ensures Get(Initial(Some(w)), "title") == Some(TextValue(w.title))
    ensures Get(Initial(Some(w)), "organizer") == Some(TextValue(w.organizer))
    ensures Get(Initial(Some(w)), "date") == Some(TextValue(DateUtils.FormDateValue(Some(w.date))))
    ensures Get(Initial(Some(w)), "location") == Some(TextValue(w.location.GetOr("")))
    ensures Get(Initial(Some(w)), "description") == Some(TextValue(w.description))
    ensures Get(Initial(Some(w)), "certificate_url") == Some(TextValue(w.certificateUrl.GetOr("")))
  {
    TextsLayout(w);
    FieldAt(w, 0);
    FieldAt(w, 1);
    FieldAt(w, 2);
    FieldAt(w, 4);
    FieldAt(w, 5);
    FieldAt(w, 7);
  }

  /** Where the fields of `EditFormTexts` sit and what an edit fills in there. */
  lemma TextsLayout(w: Types.Workshop)
    ensures Schema[0].0 == "title" && EditValues(w)[0] == TextValue(w.title)
    ensures Schema[1].0 == "organizer" && EditValues(w)[1] == TextValue(w.organizer)
    ensures Schema[2].0 == "date" && EditValues(w)[2] == TextValue(DateUtils.FormDateValue(Some(w.date)))
    ensures Schema[4].0 == "location" && EditValues(w)[4] == TextValue(w.location.GetOr(""))
    ensures Schema[5].0 == "description" && EditValues(w)[5] == TextValue(w.description)
    ensures Schema[7].0 == "certificate_url" && EditValues(w)[7] == TextValue(w.certificateUrl.GetOr(""))
  {
  }

  /** The duration, 0 when missing, the topics, the display order, and the publication flag, false when missing. */
  lemma EditFormSettings(w: Types.Workshop)
    ensures Get(Initial(Some(w)), "duration_hours") == Some(NumberValue(w.durationHours.GetOr(0)))
    ensures Get(Initial(Some(w)), "topics") == Some(ListValue(w.topics))
    ensures Get(Initial(Some(w)), "display_order") == Some(NumberValue(w.displayOrder))
    ensures Get(Initial(Some(w)), "is_published") == Some(FlagValue(w.isPublished.GetOr(false)))
  {
    SettingsLayout(w);
    FieldAt(w, 3);
    FieldAt(w, 6);
    FieldAt(w, 8);
    FieldAt(w, 9);
  }

  /** Where the fields of `EditFormSettings` sit and what an edit fills in there. */
  lemma SettingsLayout(w: Types.Workshop)
    ensures Schema[3].0 == "duration_hours" && EditValues(w)[3] == NumberValue(w.durationHours.GetOr(0))
    ensures Schema[6].0 == "topics" && EditValues(w)[6] == ListValue(w.topics)
    ensures Schema[8].0 == "display_order" && EditValues(w)[8] == NumberValue(w.displayOrder)
    ensures Schema[9].0 == "is_published" && EditValues(w)[9] == FlagValue(w.isPublished.GetOr(false))
  {
  }

  /** Each field of an edit form holds the value filled in at its place. */
  lemma FieldAt(w: Types.Workshop, i: nat)
    requires i < |Schema|
    ensures Get(Initial(Some(w)), Schema[i].0) == Some(EditValues(w)[i])
  {
    KeysDistinct();
    FillReads(Schema, EditValues(w), i);
  }

  const Base := "/workshops/"
  const SaveFallback := "Failed to save workshop"

  /** `handleSubmit`: patch the workshop being edited, or create a new one. */
  function Save(workshop: Option<Types.Workshop>, form: Form): (r: SaveRequest)
    ensures r.body == form
    ensures workshop.Some? <==> r.Patch?
    ensures workshop.Some? ==> r.url == "/workshops/" + workshop.value.id + "/"
    ensures workshop.None? ==> r.url == "/workshops/"
  {
    SaveRequestFor(Base, if workshop.Some? then Some(workshop.value.id) else None, form)
  }
}
