/**
 * The dashboard's project table (src/app/dashboard/projects/page.tsx): loading, searching by
 * title or description, deleting, the publish and feature toggles, and the technology cell.
 */
module ProjectsAdminPage {
  import opened Wrappers
  import opened Js
  import Types
  import Text
  import ListView
  import Seqs

  type Project = Types.Project

  /** `fetchProjects`: `response.data.data.results || []`. Reading `data` of a nullish value
      throws and the error is only logged, so the table keeps what it had; a request that
      fails keeps it too. A readable `data` without an array `results` empties the table. */
  function Load(previous: seq<Project>, f: ListView.Fetch<Project>): (r: seq<Project>)
    ensures f.RequestFailed? ==> r == previous
    ensures f.Responded? && (IsNullish(f.body) || IsNullish(Property(f.body, "data"))) ==> r == previous
    ensures f.Responded? && !IsNullish(f.body) && !IsNullish(Property(f.body, "data")) ==>
              var results := Property(Property(f.body, "data"), "results");
              (results.Arr? ==> r == RecordsOf(results)) && (!results.Arr? ==> r == [])
  {
    match f
    case RequestFailed => previous
    case Responded(body) =>
      if IsNullish(body) || IsNullish(Property(body, "data")) then previous
      else RecordsOf(Or(Property(Property(body, "data"), "results"), Arr([])))
  }

  /** A results body replaces the table with its projects. */
  lemma LoadReadsResults(previous: seq<Project>, ps: seq<Project>)
    ensures Load(previous, ListView.Responded(ListView.ResultsBody(ps))) == ps
  {
    RecordsOfArray(ps);
  }

  function SearchFields(p: Project): seq<string> {
    [p.title, p.description]
  }

  /** The projects whose title or description contains the search term, ignoring case. */
  function Filtered(projects: seq<Project>, term: string): (r: seq<Project>)
    ensures Seqs.IsSubsequence(r, projects)
    ensures forall i | 0 <= i < |r| :: ListView.Matches(r[i].title, term) || ListView.Matches(r[i].description, term)
    ensures forall i | 0 <= i < |projects| ::
              ListView.Matches(projects[i].title, term) || ListView.Matches(projects[i].description, term)
              ==> projects[i] in r
  {
    var r := ListView.Search(projects, term, SearchFields);
    assert forall p :: ListView.MatchesAny(SearchFields(p), term) <==>
             ListView.Matches(p.title, term) || ListView.Matches(p.description, term) by {
      forall p ensures ListView.MatchesAny(SearchFields(p), term) <==>
             ListView.Matches(p.title, term) || ListView.Matches(p.description, term) {
        assert SearchFields(p)[0] == p.title && SearchFields(p)[1] == p.description;
      }
    }
    r
  }

  function IdOf(p: Project): string { p.id }

  /** `handleDelete`: on success the project leaves the table; on failure nothing changes. */
  function Delete(projects: seq<Project>, id: string, deleted: bool): (r: seq<Project>)
    ensures deleted ==> Seqs.IsSubsequence(r, projects)
    ensures deleted ==> forall i | 0 <= i < |r| :: r[i].id != id
    ensures deleted ==> forall i | 0 <= i < |projects| :: projects[i].id != id ==> projects[i] in r
    ensures !deleted ==> r == projects
  {
    if deleted then ListView.DeleteById(projects, id, IdOf) else projects
  }

  /** The four actions the back end offers on a project. */
  datatype Action = Publish | Unpublish | Feature | Unfeature

  function ActionName(a: Action): string {
    match a
    case Publish => "publish"
    case Unpublish => "unpublish"
    case Feature => "feature"
    case Unfeature => "unfeature"
  }

  /** The action of the publish button: the opposite of the project's state. */
  function PublishAction(p: Project): (a: Action)
    ensures a == Publish <==> !p.isPublished
    ensures a == Unpublish <==> p.isPublished
  {
    if p.isPublished then Unpublish else Publish
  }

  /** The action of the feature button: the opposite of the project's state. */
  function FeatureAction(p: Project): (a: Action)
    ensures a == Feature <==> !p.isFeatured
    ensures a == Unfeature <==> p.isFeatured
  {
    if p.isFeatured then Unfeature else Feature
  }

  /** The URL a toggle posts to. */
  function ActionUrl(p: Project, a: Action): string {
    "/projects/" + p.id + "/" + ActionName(a) + "/"
  }

  /** What the back end's action is assumed to do to the project. The page itself only posts
      the action and then fetches the table again, so this is an assumption about the back
      end, not behaviour of the page. */
  function Applied(p: Project, a: Action): Project {
    match a
    case Publish => p.(isPublished := true)
    case Unpublish => p.(isPublished := false)
    case Feature => p.(isFeatured := true)
    case Unfeature => p.(isFeatured := false)
  }

  /** Under the assumed back-end effect `Applied`, each toggle flips its own flag and no
      other, and toggling twice gives the project back. */
  lemma TogglesFlip(p: Project)
    ensures Applied(p, PublishAction(p)) == p.(isPublished := !p.isPublished)
    ensures Applied(p, FeatureAction(p)) == p.(isFeatured := !p.isFeatured)
    ensures var q := Applied(p, PublishAction(p)); Applied(q, PublishAction(q)) == p
    ensures var q := Applied(p, FeatureAction(p)); Applied(q, FeatureAction(q)) == p
  {
  }

  /** The table cell of a project's technologies: at most three badges, then `+n` for the
      rest. */
  datatype TechCell = TechCell(shown: seq<string>, more: Option<string>)

  function TechnologyCell(technologies: seq<string>): (r: TechCell)
    ensures |r.shown| <= 3 && r.shown <= technologies
    ensures |r.shown| == if |technologies| < 3 then |technologies| else 3
    ensures r.more.Some? <==> |technologies| > 3
  {
    var n := |technologies|;
    TechCell(technologies[..if n < 3 then n else 3],
             if n > 3 then Some("+" + Text.NatToDecimal(n - 3)) else None)
  }

  /** The badges and the `+n` together account for every technology. */
  lemma TechnologyCellCounts(technologies: seq<string>)
    ensures var c := TechnologyCell(technologies);
            c.more.Some? ==> |c.more.value| > 1 && c.more.value[0] == '+' &&
                             |c.shown| + Text.DecimalValue(c.more.value[1..]) == |technologies|
    ensures var c := TechnologyCell(technologies); c.more.None? ==> c.shown == technologies
  {
    var n := |technologies|;
    if n > 3 {
      var more := "+" + Text.NatToDecimal(n - 3);
      assert more[1..] == Text.NatToDecimal(n - 3);
      Text.DecimalRoundTrip(n - 3);
    }
  }
}
