/**
 * The project editor (src/components/dashboard/ProjectForm.tsx): its initial form, its two
 * list fields and its save.
 */
module ProjectForm {
  import opened Wrappers
  import opened FormState
  import Types
  import Seqs

  const Schema: FormState.Schema := [
    ("title", TextKind), ("description", TextKind), ("problem", TextKind), ("process", TextKind),
    ("impact", TextKind), ("results", TextKind), ("project_slug", TextKind), ("technologies", ListKind),
    ("live_demo_url", TextKind), ("github_url", TextKind), ("project_image", TextKind),
    ("gallery_images", ListKind), ("display_order", NumberKind), ("is_published", FlagKind),
    ("is_featured", FlagKind)]

  /** The form on opening: empty for a new project, the project's values for an edit, with a
      missing URL, image or gallery taken as empty. */
  function Initial(project: Option<Types.Project>): (r: Form)
    ensures Conforms(r, Schema)
    ensures project.None? ==> r == Blank(Schema)
  {
    match project
    case None => Blank(Schema)
    case Some(p) => Fill(Schema, EditValues(p))
  }

  /** An edit form carries the project's title, technologies and gallery, a missing gallery
      being empty. */
  lemma EditFormHoldsProject(p: Types.Project)
    ensures TextAt(Initial(Some(p)), "title") == p.title
    ensures ItemsAt(Initial(Some(p)), "technologies") == p.technologies
    ensures ItemsAt(Initial(Some(p)), "gallery_images") == p.galleryImages.GetOr([])
  {
    var r := Initial(Some(p));
    assert r[0].1 == TextValue(p.title) && r[7].1 == ListValue(p.technologies);
    assert r[11].1 == ListValue(p.galleryImages.GetOr([]));
    FieldKeys();
    GetConforming(r, Schema, "title", 0);
    GetConforming(r, Schema, "technologies", 7);
    GetConforming(r, Schema, "gallery_images", 11);
  }

  /** Where the title and the two lists sit, with no earlier field of the same name. */
  lemma FieldKeys()
    ensures Schema[0].0 == "title"
    ensures Schema[7].0 == "technologies" && forall j | 0 <= j < 7 :: Schema[j].0 != "technologies"
    ensures Schema[11].0 == "gallery_images" && forall j | 0 <= j < 11 :: Schema[j].0 != "gallery_images"
  {
    assert "project_slug"[0] != "technologies"[0];
  }

  /** The project's own texts, slug and technologies. */
  lemma EditFormStory(p: Types.Project)
    ensures Get(Initial(Some(p)), "title") == Some(TextValue(p.title))
    ensures Get(Initial(Some(p)), "description") == Some(TextValue(p.description))
    ensures Get(Initial(Some(p)), "problem") == Some(TextValue(p.problem))
    ensures Get(Initial(Some(p)), "process") == Some(TextValue(p.process))
    ensures Get(Initial(Some(p)), "impact") == Some(TextValue(p.impact))
    ensures Get(Initial(Some(p)), "results") == Some(TextValue(p.results))
    ensures Get(Initial(Some(p)), "project_slug") == Some(TextValue(p.projectSlug))
    ensures Get(Initial(Some(p)), "technologies") == Some(ListValue(p.technologies))
  {
    StoryLayout(p);
    FieldAt(p, 0);
    FieldAt(p, 1);
    FieldAt(p, 2);
    FieldAt(p, 3);
    FieldAt(p, 4);
    FieldAt(p, 5);
    FieldAt(p, 6);
    FieldAt(p, 7);
  }

  /** Where the fields of `EditFormStory` sit and what an edit fills in there. */
  lemma StoryLayout(p: Types.Project)
    ensures Schema[0].0 == "title" && EditValues(p)[0] == TextValue(p.title)
    ensures Schema[1].0 == "description" && EditValues(p)[1] == TextValue(p.description)
    ensures Schema[2].0 == "problem" && EditValues(p)[2] == TextValue(p.problem)
    ensures Schema[3].0 == "process" && EditValues(p)[3] == TextValue(p.process)
    ensures Schema[4].0 == "impact" && EditValues(p)[4] == TextValue(p.impact)
    ensures Schema[5].0 == "results" && EditValues(p)[5] == TextValue(p.results)
    ensures Schema[6].0 == "project_slug" && EditValues(p)[6] == TextValue(p.projectSlug)
    ensures Schema[7].0 == "technologies" && EditValues(p)[7] == ListValue(p.technologies)
  {
  }

  /** The links, image and gallery, each empty when missing. */
  lemma EditFormLinks(p: Types.Project)
    ensures Get(Initial(Some(p)), "live_demo_url") == Some(TextValue(p.liveDemoUrl.GetOr("")))
    ensures Get(Initial(Some(p)), "github_url") == Some(TextValue(p.githubUrl.GetOr("")))
    ensures Get(Initial(Some(p)), "project_image") == Some(TextValue(p.projectImage.GetOr("")))
    ensures Get(Initial(Some(p)), "gallery_images") == Some(ListValue(p.galleryImages.GetOr([])))
  {
    LinksLayout(p);
    FieldAt(p, 8);
    FieldAt(p, 9);
    FieldAt(p, 10);
    FieldAt(p, 11);
  }

  /** Where the fields of `EditFormLinks` sit and what an edit fills in there. */
  lemma LinksLayout(p: Types.Project)
    ensures Schema[8].0 == "live_demo_url" && EditValues(p)[8] == TextValue(p.liveDemoUrl.GetOr(""))
    ensures Schema[9].0 == "github_url" && EditValues(p)[9] == TextValue(p.githubUrl.GetOr(""))
    ensures Schema[10].0 == "project_image" && EditValues(p)[10] == TextValue(p.projectImage.GetOr(""))
    ensures Schema[11].0 == "gallery_images" && EditValues(p)[11] == ListValue(p.galleryImages.GetOr([]))
  {
  }

  /** The display order and the two flags. */
  lemma EditFormSettings(p: Types.Project)
    ensures Get(Initial(Some(p)), "display_order") == Some(NumberValue(p.displayOrder))
    ensures Get(Initial(Some(p)), "is_published") == Some(FlagValue(p.isPublished))
    ensures Get(Initial(Some(p)), "is_featured") == Some(FlagValue(p.isFeatured))
  {
    SettingsLayout(p);
    FieldAt(p, 12);
    FieldAt(p, 13);
    FieldAt(p, 14);
  }

  /** Where the fields of `EditFormSettings` sit and what an edit fills in there. */
  lemma SettingsLayout(p: Types.Project)
    ensures Schema[12].0 == "display_order" && EditValues(p)[12] == NumberValue(p.displayOrder)
    ensures Schema[13].0 == "is_published" && EditValues(p)[13] == FlagValue(p.isPublished)
    ensures Schema[14].0 == "is_featured" && EditValues(p)[14] == FlagValue(p.isFeatured)
  {
  }

  /** The values an edit form starts from, in the schema's order. */
  function EditValues(p: Types.Project): (r: seq<FieldValue>)
    ensures |r| == |Schema| && forall i | 0 <= i < |Schema| :: HasKind(r[i], Schema[i].1)
  {
    [TextValue(p.title), TextValue(p.description), TextValue(p.problem), TextValue(p.process),
     TextValue(p.impact), TextValue(p.results), TextValue(p.projectSlug), ListValue(p.technologies),
     TextValue(p.liveDemoUrl.GetOr("")), TextValue(p.githubUrl.GetOr("")), TextValue(p.projectImage.GetOr("")),
     ListValue(p.galleryImages.GetOr([])), NumberValue(p.displayOrder), FlagValue(p.isPublished),
     FlagValue(p.isFeatured)]
  }

  /** The project form names each field once. */
  lemma KeysDistinct()
    ensures Seqs.NoDuplicates(SchemaKeys(Schema))
  {
  }

  /** Each field of an edit form holds the value filled in at its place. */
  lemma FieldAt(p: Types.Project, i: nat)
    requires i < |Schema|
    ensures Get(Initial(Some(p)), Schema[i].0) == Some(EditValues(p)[i])
  {
    KeysDistinct();
    FillReads(Schema, EditValues(p), i);
  }

  const Base := "/projects/"
  const SaveFallback := "Failed to save project"

  /** `handleSubmit`: patch the project being edited, or create a new one. */
  function Save(project: Option<Types.Project>, form: Form): (r: SaveRequest)
    ensures r.body == form
    ensures project.Some? <==> r.Patch?
    ensures project.Some? ==> r.url == "/projects/" + project.value.id + "/"
    ensures project.None? ==> r.url == "/projects/"
  {
    SaveRequestFor(Base, if project.Some? then Some(project.value.id) else None, form)
  }
}
