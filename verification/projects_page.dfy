/**
 * The public project gallery (src/app/projects/page.tsx): loading the published projects,
 * filtering by search term and category, and the category buttons.
 */
module ProjectsPage {
  import opened Wrappers
  import opened Js
  import Types
  import ListView
  import Seqs

  type Project = Types.Project

  /** `data?.data?.results || data?.results || []`, kept only when it is an array. A failed
      request leaves the gallery as it was. */
  function Load(previous: seq<Project>, f: ListView.Fetch<Project>): (r: seq<Project>)
    ensures f.RequestFailed? ==> r == previous
    ensures f.Responded? && IsNullish(f.body) ==> r == []
    ensures f.Responded? && Get(Get(f.body, "data"), "results").Arr? ==>
              r == RecordsOf(Get(Get(f.body, "data"), "results"))
    ensures f.Responded? && !Truthy(Get(Get(f.body, "data"), "results")) && Get(f.body, "results").Arr? ==>
              r == RecordsOf(Get(f.body, "results"))
    ensures f.Responded? && !Get(Get(f.body, "data"), "results").Arr? &&
              (Truthy(Get(Get(f.body, "data"), "results")) || !Get(f.body, "results").Arr?) ==>
              r == []
  {
    match f
    case RequestFailed => previous
    case Responded(body) =>
      RecordsOf(Or(Or(Get(Get(body, "data"), "results"), Get(body, "results")), Arr([])))
  }

  /** Both the wrapped and the flat results shape are read. */
  lemma LoadReadsBothShapes(previous: seq<Project>, ps: seq<Project>)
    ensures Load(previous, ListView.Responded(ListView.ResultsBody(ps))) == ps
    ensures Load(previous, ListView.Responded(Obj([("results", ArrayOf(ps))]))) == ps
  {
    RecordsOfArray(ps);
    var flat: Json<Project> := Obj([("results", ArrayOf(ps))]);
    assert "results" != "data" by { assert |"results"| != |"data"|; }
    assert flat.fields[..0] == [];
    assert Lookup(flat.fields, "data") == Lookup(flat.fields[..0], "data") == Undefined;
    assert Get(flat, "data") == Undefined;
    assert Get(flat, "results") == ArrayOf(ps);
  }

  /** The category filter: `All`, or the project's own category. */
  predicate InCategory(p: Project, category: string) {
    category == "All" || p.category == Some(category)
  }

  /** The projects shown: the term in the title or description, ignoring case, and the
      category filter passed. */
  function Visible(projects: seq<Project>, term: string, category: string): (r: seq<Project>)
    ensures Seqs.IsSubsequence(r, projects)
    ensures forall i | 0 <= i < |r| ::
              (ListView.Matches(r[i].title, term) || ListView.Matches(r[i].description, term)) && InCategory(r[i], category)
    ensures forall i | 0 <= i < |projects| ::
              ((ListView.Matches(projects[i].title, term) || ListView.Matches(projects[i].description, term))
               && InCategory(projects[i], category)) ==> projects[i] in r
  {
    Seqs.Filter(projects, (p: Project) => (ListView.Matches(p.title, term) || ListView.Matches(p.description, term)) && InCategory(p, category))
  }

  /** Right after loading, with no term and `All` selected, the gallery shows every project. */
  lemma DefaultShowsAll(projects: seq<Project>)
    ensures Visible(projects, "", "All") == projects
  {
    forall i | 0 <= i < |projects| ensures ListView.Matches(projects[i].title, "") {
      ListView.MatchesIgnoresCase(projects[i].title, "");
    }
  }

  /** The projects' categories position by position, `""` for a project without one. */
  function CategoryColumn(projects: seq<Project>): (r: seq<string>)
    ensures |r| == |projects|
    ensures forall i | 0 <= i < |projects| :: r[i] == projects[i].category.GetOr("")
  {
    seq(|projects|, i requires 0 <= i < |projects| => projects[i].category.GetOr(""))
  }

  /** A project whose category the page lists: present and non-empty. */
  predicate HasCategory(p: Project) {
    p.category.Some? && p.category.value != ""
  }

  /** The non-empty categories of the projects, in order, repeats included: the column of
      categories with exactly the blank entries left out. */
  function NamedCategories(projects: seq<Project>): (r: seq<string>)
    ensures forall c | c in r :: c != "" && exists i | 0 <= i < |projects| :: projects[i].category == Some(c)
    ensures forall i | 0 <= i < |projects| :: projects[i].category.Some? && projects[i].category.value != "" ==>
              projects[i].category.value in r
    ensures Seqs.IsSubsequence(r, CategoryColumn(projects))
    ensures |r| == Seqs.CountWhere(projects, HasCategory)
  {
    if |projects| == 0 then []
    else
      var rest := NamedCategories(projects[1..]);
      var column := CategoryColumn(projects);
      assert column[1..] == CategoryColumn(projects[1..]);
      assert forall c | c in rest :: exists i | 0 <= i < |projects| :: projects[i].category == Some(c) by {
        forall c | c in rest ensures exists i | 0 <= i < |projects| :: projects[i].category == Some(c) {
          var j :| 0 <= j < |projects[1..]| && projects[1..][j].category == Some(c);
          assert projects[j + 1].category == Some(c);
        }
      }
      var c := projects[0].category;
      if c.Some? && c.value != "" then
        assert ([c.value] + rest)[1..] == rest;
        [c.value] + rest
      else rest
  }

  /** `Array.from(new Set(xs))`: each value once, in order of first occurrence. */
  function Distinct(xs: seq<string>): (r: seq<string>)
    ensures Seqs.NoDuplicates(r)
    ensures forall x :: x in r <==> x in xs
    ensures Seqs.IsSubsequence(r, xs)
    ensures r == Seqs.FirstOccurrences(xs)
  {
    DistinctAfterFirst([], xs);
    assert [] + xs == xs;
    DistinctAfter([], xs)
  }

  /** Running the set over the rest of the values, after the first occurrences of a prefix
      have been collected, gives the first occurrences of the whole. */
  lemma {:induction false} DistinctAfterFirst(prefix: seq<string>, xs: seq<string>)
    ensures DistinctAfter(Seqs.FirstOccurrences(prefix), xs) == Seqs.FirstOccurrences(prefix + xs)
    decreases |xs|
  {
    if |xs| == 0 {
      assert prefix + xs == prefix;
    } else {
      var longer := prefix + [xs[0]];
      assert longer[..|longer| - 1] == prefix;
      assert longer + xs[1..] == prefix + xs;
      SeenIffListed(prefix);
      DistinctAfterFirst(longer, xs[1..]);
    }
  }

  /** The collected first occurrences hold exactly the values of the prefix. */
  lemma SeenIffListed(prefix: seq<string>)
    ensures forall x :: x in Seqs.FirstOccurrences(prefix) <==> x in prefix
  {
    Seqs.SubsequenceElements(Seqs.FirstOccurrences(prefix), prefix);
  }

  function DistinctAfter(seen: seq<string>, xs: seq<string>): (r: seq<string>)
    requires Seqs.NoDuplicates(seen)
    ensures Seqs.NoDuplicates(r)
    ensures forall x :: x in r <==> x in seen || x in xs
    ensures |r| >= |seen| && r[..|seen|] == seen
    decreases |xs|
  {
    if |xs| == 0 then seen
    else if xs[0] in seen then DistinctAfter(seen, xs[1..])
    else DistinctAfter(seen + [xs[0]], xs[1..])
  }

  /** The category buttons: `All`, then each named category once, in the order the
      categories first occur among the projects. */
  function Categories(projects: seq<Project>): (r: seq<string>)
    ensures |r| >= 1 && r[0] == "All"
    ensures Seqs.NoDuplicates(r[1..])
    ensures forall c :: c in r[1..] <==> c in NamedCategories(projects)
    ensures Seqs.IsSubsequence(r[1..], NamedCategories(projects))
    ensures r[1..] == Seqs.FirstOccurrences(NamedCategories(projects))
  {
    var r := ["All"] + Distinct(NamedCategories(projects));
    assert r[1..] == Distinct(NamedCategories(projects));
    r
  }

  /** Choosing a category button other than `All` shows projects of that category only, and
      every listed category has a project to show. */
  lemma CategoryButtonsFilter(projects: seq<Project>, i: nat)
    requires 1 <= i < |Categories(projects)| && Categories(projects)[i] != "All"
    ensures forall k | 0 <= k < |Visible(projects, "", Categories(projects)[i])| ::
              Visible(projects, "", Categories(projects)[i])[k].category == Some(Categories(projects)[i])
    ensures |Visible(projects, "", Categories(projects)[i])| > 0
  {
    var c := Categories(projects)[i];
    assert c == Categories(projects)[1..][i - 1];
    assert c in NamedCategories(projects);
    var j :| 0 <= j < |projects| && projects[j].category == Some(c);
    ListView.MatchesIgnoresCase(projects[j].title, "");
    assert projects[j] in Visible(projects, "", c);
  }

  /** The leading `All` is not part of the de-duplication: a project whose category is
      itself named `All` makes the button appear twice. */
  lemma AllListedTwice(projects: seq<Project>, j: nat)
    requires j < |projects| && projects[j].category == Some("All")
    ensures exists k | 1 <= k < |Categories(projects)| :: Categories(projects)[k] == "All"
  {
    var cs := Categories(projects);
    assert "All" in cs[1..];
    var k :| 0 <= k < |cs[1..]| && cs[1..][k] == "All";
    assert cs[k + 1] == "All";
  }
}
