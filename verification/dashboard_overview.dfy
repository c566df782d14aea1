/**
 * The dashboard overview (src/app/dashboard/page.tsx): six requests, each replaced by its
 * own fallback body when it fails, read into the stat cards and the recent-activity list;
 * and the icon and colour of an activity.
 */
module DashboardOverview {
  import opened Wrappers
  import opened Js
  import Types
  import ListView

  type Project = Types.Project

  /** An entry of the recent-activity feed. */
  datatype Activity = Activity(kind: string, id: string, title: string, description: string, timestamp: string)

  /** The answers of the six requests, in the order they are issued. Only the counts are read
      from the experience, certification, workshop and message answers. */
  datatype Answers = Answers(
    projects: ListView.Fetch<Project>,
    experiences: ListView.Fetch<()>,
    certifications: ListView.Fetch<()>,
    workshops: ListView.Fetch<()>,
    messages: ListView.Fetch<()>,
    activities: ListView.Fetch<Activity>)

  /** The stat cards' values: each count as the value the page stores, and the view total. */
  datatype Stats = Stats(
    projects: Json<Project>,
    experiences: Json<()>,
    certifications: Json<()>,
    workshops: Json<()>,
    messages: Json<()>,
    totalViews: int)

  datatype Overview = Overview(stats: Stats, activities: seq<Activity>)

  const InitialOverview: Overview :=
    Overview(Stats(Num(0), Num(0), Num(0), Num(0), Num(0), 0), [])

  /** `{ data: { count: 0 } }`, what a failed count request is replaced by. */
  function CountFallback<T>(): Json<T> {
    CountBody(0)
  }

  /** `{ data: { length: 0 } }`, what a failed message request is replaced by. */
  function MessagesFallback(): Json<()> {
    Obj([("data", Obj([("length", Num(0))]))])
  }

  /** `{ data: { results: [] } }`, what a failed activity request is replaced by. */
  function ActivitiesFallback(): Json<Activity> {
    Obj([("data", Obj([("results", Arr([]))]))])
  }

  /** The body a request's `.catch` leaves: the answer, or the fallback. */
  function BodyOr<T>(f: ListView.Fetch<T>, fallback: Json<T>): (r: Json<T>)
    ensures f.Responded? ==> r == f.body
    ensures f.RequestFailed? ==> r == fallback
  {
    match f
    case Responded(body) => body
    case RequestFailed => fallback
  }

  /** `res.data.data?.count || 0`; reading `data` of a nullish body throws. */
  function Count<T>(body: Json<T>): (r: Result<Json<T>, TypeError>)
    ensures r.Failure? <==> IsNullish(body)
    ensures r.Success? ==> Truthy(r.value) || r.value == Num(0)
    ensures r.Success? && Truthy(Get(Property(body, "data"), "count")) ==>
              r.value == Get(Property(body, "data"), "count")
    ensures r.Success? && !Truthy(Get(Property(body, "data"), "count")) ==> r.value == Num(0)
  {
    match Member(body, "data")
    case Failure(e) => Failure(e)
    case Success(d) => Success(Or(Get(d, "count"), Num(0)))
  }

  /** `{ data: { count: n } }`. */
  function CountBody<T>(n: int): Json<T> {
    Obj([("data", Obj([("count", Num(n))]))])
  }

  /** A count request that failed shows 0, and an answer carrying a count shows it. */
  lemma CountFallbackIsZero<T>(n: int)
    ensures Count(CountFallback<T>()) == Success(Num(0))
    ensures Count(CountBody<T>(n)) == Success(Num(n))
  {
    assert "data" != "count" by { assert |"data"| != |"count"|; }
  }

  /** The message count: the length of an array payload, else its `length`, else 0. */
  function MessageCount(body: Json<()>): (r: Result<Json<()>, TypeError>)
    ensures r.Failure? <==> IsNullish(body)
    ensures r.Success? && Property(body, "data").Arr? ==> r.value == Num(|Property(body, "data").elems|)
    ensures r.Success? && !Property(body, "data").Arr? && Truthy(Get(Property(body, "data"), "length")) ==>
              r.value == Get(Property(body, "data"), "length")
    ensures r.Success? && !Property(body, "data").Arr? && !Truthy(Get(Property(body, "data"), "length")) ==>
              r.value == Num(0)
  {
    match Member(body, "data")
    case Failure(e) => Failure(e)
    case Success(d) => if d.Arr? then Success(Num(|d.elems|)) else Success(Or(Get(d, "length"), Num(0)))
  }

  /** A failed message request shows 0, and a message list shows its length. */
  lemma MessageCountOfList(msgs: seq<Json<()>>)
    ensures MessageCount(MessagesFallback()) == Success(Num(0))
    ensures MessageCount(Obj([("data", Arr(msgs))])) == Success(Num(|msgs|))
  {
    assert "data" != "length" by { assert |"data"| != |"length"|; }
  }

  /** `p.view_count || 0` for one element of the results: a record's count, the numeric
      `view_count` of a plain object, 0 for other values; reading it off a nullish element
      throws. */
  function ViewsOf(e: Json<Project>): (r: Result<int, TypeError>)
    ensures r.Failure? <==> IsNullish(e)
    ensures e.Rec? ==> r == Success(e.record.viewCount.GetOr(0))
  {
    match e
    case Undefined => Failure(TypeError)
    case Null => Failure(TypeError)
    case Rec(p) => Success(p.viewCount.GetOr(0))
    case Obj(_) =>
      var v := Property(e, "view_count");
      Success(if v.Num? then v.n else 0)
    case _ => Success(0)
  }

  /** The `reduce` over the results, from the left. */
  function SumViews(elems: seq<Json<Project>>): (r: Result<int, TypeError>)
    ensures r.Failure? <==> exists i | 0 <= i < |elems| :: IsNullish(elems[i])
    decreases |elems|
  {
    if |elems| == 0 then Success(0)
    else
      match SumViews(elems[..|elems| - 1])
      case Failure(e) => Failure(e)
      case Success(s) =>
        match ViewsOf(elems[|elems| - 1])
        case Failure(e) => Failure(e)
        case Success(v) => Success(s + v)
  }

  /** The view count of a project, a missing count being 0. */
  function Views(p: Project): int {
    p.viewCount.GetOr(0)
  }

  /** The total of the view counts of a list of projects, summed from the front. */
  function TotalOf(ps: seq<Project>): int
    decreases |ps|
  {
    if |ps| == 0 then 0 else Views(ps[0]) + TotalOf(ps[1..])
  }

  /** `totalViews`: the sum over `data.data?.results || []` when that is an array, else 0. */
  function TotalViews(body: Json<Project>): (r: Result<int, TypeError>)
    ensures IsNullish(body) ==> r.Failure?
    ensures !IsNullish(body) && !Or(Get(Property(body, "data"), "results"), Arr([])).Arr? ==> r == Success(0)
  {
    match Member(body, "data")
    case Failure(e) => Failure(e)
    case Success(d) =>
      var results := Or(Get(d, "results"), Arr([]));
      if results.Arr? then SumViews(results.elems) else Success(0)
  }

  /** Over an array of project records the reduce is the total of their view counts, so a
      results body of projects shows exactly that total. */
  lemma {:induction false} SumViewsOfRecords(ps: seq<Project>)
    ensures SumViews(ArrayOf(ps).elems) == Success(TotalOf(ps))
    decreases |ps|
  {
    if |ps| > 0 {
      var last := |ps| - 1;
      var front, p := ps[..last], ps[last];
      var elems := ArrayOf(ps).elems;
      assert elems[..last] == ArrayOf(front).elems;
      SumViewsOfRecords(front);
      var before := TotalOf(front);
      assert SumViews(elems[..last]) == Success(before);
      assert ViewsOf(elems[last]) == Success(Views(p));
      assert SumViews(elems) == Success(before + Views(p));
      assert front + [p] == ps;
      TotalOfSnoc(front, p);
    }
  }

  /** Summing from the front or the back gives the same total. */
  lemma {:induction false} TotalOfSnoc(ps: seq<Project>, p: Project)
    ensures TotalOf(ps + [p]) == TotalOf(ps) + Views(p)
    decreases |ps|
  {
    if |ps| > 0 {
      assert (ps + [p])[1..] == ps[1..] + [p];
      TotalOfSnoc(ps[1..], p);
    }
  }

  lemma TotalViewsOfResults(ps: seq<Project>)
    ensures TotalViews(ListView.ResultsBody(ps)) == Success(TotalOf(ps))
  {
    ListView.ResultsBodyReads(ps);
    SumViewsOfRecords(ps);
    assert Or(ArrayOf(ps), Arr([])) == ArrayOf(ps);
  }

  /** `data.data?.results || []`, its records kept: an array `results` gives its records,
      anything else an empty feed. */
  function ActivitiesOf(body: Json<Activity>): (r: Result<seq<Activity>, TypeError>)
    ensures r.Failure? <==> IsNullish(body)
    ensures r.Success? && Get(Property(body, "data"), "results").Arr? ==>
              r.value == RecordsOf(Get(Property(body, "data"), "results"))
    ensures r.Success? && !Get(Property(body, "data"), "results").Arr? ==> r.value == []
  {
    match Member(body, "data")
    case Failure(e) => Failure(e)
    case Success(d) => Success(RecordsOf(Or(Get(d, "results"), Arr([]))))
  }

  /** The stats the answers give, or the error that aborts `setStats`. */
  function StatsOf(a: Answers): Result<Stats, TypeError> {
    match TotalViews(BodyOr(a.projects, CountFallback()))
    case Failure(e) => Failure(e)
    case Success(total) =>
      match Count(BodyOr(a.projects, CountFallback()))
      case Failure(e) => Failure(e)
      case Success(projects) =>
        match Count(BodyOr(a.experiences, CountFallback()))
        case Failure(e) => Failure(e)
        case Success(experiences) =>
          match Count(BodyOr(a.certifications, CountFallback()))
          case Failure(e) => Failure(e)
          case Success(certifications) =>
            match Count(BodyOr(a.workshops, CountFallback()))
            case Failure(e) => Failure(e)
            case Success(workshops) =>
              match MessageCount(BodyOr(a.messages, MessagesFallback()))
              case Failure(e) => Failure(e)
              case Success(messages) =>
                Success(Stats(projects, experiences, certifications, workshops, messages, total))
  }

  /** `fetchStats`: the stats are set when every count can be read, then the activities; an
      error on the way leaves the rest as it was. */
  function Refresh(prev: Overview, a: Answers): (r: Overview)
    ensures StatsOf(a).Failure? ==> r == prev
    ensures StatsOf(a).Success? ==> r.stats == StatsOf(a).value
    ensures StatsOf(a).Success? && IsNullish(BodyOr(a.activities, ActivitiesFallback())) ==> r.activities == prev.activities
    ensures StatsOf(a).Success? && !IsNullish(BodyOr(a.activities, ActivitiesFallback())) ==>
              var results := Get(Property(BodyOr(a.activities, ActivitiesFallback()), "data"), "results");
              (results.Arr? ==> r.activities == RecordsOf(results)) && (!results.Arr? ==> r.activities == [])
    ensures StatsOf(a).Success? && a.activities.RequestFailed? ==> r.activities == []
  {
    match StatsOf(a)
    case Failure(_) => prev
    case Success(stats) =>
      match ActivitiesOf(BodyOr(a.activities, ActivitiesFallback()))
      case Failure(_) => Overview(stats, prev.activities)
      case Success(activities) => Overview(stats, activities)
  }

  /** When every request fails, every card shows 0 and the feed is empty. */
  lemma AllFailedShowsZeros(prev: Overview)
    ensures Refresh(prev, Answers(ListView.RequestFailed, ListView.RequestFailed, ListView.RequestFailed,
                                  ListView.RequestFailed, ListView.RequestFailed, ListView.RequestFailed))
            == InitialOverview
  {
    assert "data" != "count" && "data" != "length" && "data" != "results" by {
      assert |"data"| != |"count"| && |"data"| != |"length"| && |"data"| != |"results"|;
    }
  }

  /** One failed count request zeroes its own card only: the experiences request stands for
      each of the four counts. */
  lemma FailureZeroesOnlyItsCount(prev: Overview, a: Answers)
    requires StatsOf(a).Success?
    ensures StatsOf(a.(experiences := ListView.RequestFailed)).Success?
    ensures Refresh(prev, a.(experiences := ListView.RequestFailed)) ==
            Refresh(prev, a).(stats := Refresh(prev, a).stats.(experiences := Num(0)))
  {
    CountFallbackIsZero<()>(0);
  }

  /** The icons of the activity feed. */
  datatype Icon = FolderKanban | Briefcase | Award | Mail | Clock

  /** `getActivityIcon`. */
  function ActivityIcon(kind: string): (r: Icon)
    ensures r == Clock <==> kind !in KnownKinds
  {
    if kind == "project" then FolderKanban
    else if kind == "experience" then Briefcase
    else if kind == "certification" then Award
    else if kind == "message" then Mail
    else Clock
  }

  const KnownKinds: set<string> := {"project", "experience", "certification", "message"}

  /** A colour's text and tinted background classes. */
  function Tint(colour: string): (r: string)
    ensures |r| == 2 * |colour| + 20
    ensures r[..5] == "text-" && r[5..5 + |colour|] == colour
  {
    "text-" + colour + "-500 bg-" + colour + "-500/10"
  }

  /** Distinct colours give distinct classes. */
  lemma TintInjective(c: string, d: string)
    ensures Tint(c) == Tint(d) ==> c == d
  {
    if Tint(c) == Tint(d) {
      assert Tint(c)[5..5 + |c|] == Tint(d)[5..5 + |d|];
    }
  }

  /** The colour named in each activity kind's classes. */
  function KindColour(kind: string): (r: string)
    ensures r == "gray" <==> kind !in KnownKinds
  {
    if kind == "project" then "blue"
    else if kind == "experience" then "green"
    else if kind == "certification" then "yellow"
    else if kind == "message" then "pink"
    else "gray"
  }

  /** `getActivityColor`. */
  function ActivityColour(kind: string): (r: string)
    ensures kind !in KnownKinds ==> r == Tint("gray")
  {
    Tint(KindColour(kind))
  }

  /** Icon and colour agree: an unknown kind gets the clock and grey, a known one neither, and
      distinct known kinds get distinct colours. */
  lemma IconAndColourAgree(kind: string, other: string)
    ensures ActivityIcon(kind) == Clock <==> ActivityColour(kind) == Tint("gray")
    ensures kind in KnownKinds && other in KnownKinds && kind != other ==> ActivityColour(kind) != ActivityColour(other)
  {
    TintInjective(KindColour(kind), "gray");
    TintInjective(KindColour(kind), KindColour(other));
    if kind in KnownKinds && other in KnownKinds && kind != other {
      var c, d := KindColour(kind), KindColour(other);
      assert c != d by {
        if |c| == |d| {
          assert c[0] != d[0];
        }
      }
    }
  }
}
