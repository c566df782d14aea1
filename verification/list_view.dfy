/**
 * What the dashboard's list pages share: the case-insensitive search box, removing a deleted
 * record by id, rewriting the records with a given id, and reading an array of records out
 * of a response body.
 */
module ListView {
  import opened Wrappers
  import opened Js
  import Text
  import Seqs

  /** `field.toLowerCase().includes(term.toLowerCase())`. */
  predicate Matches(field: string, term: string) {
    Text.Contains(Text.ToLower(field), Text.ToLower(term))
  }

  /** The empty search matches everything, and the case of either side does not matter. */
  lemma MatchesIgnoresCase(field: string, term: string)
    ensures Matches(field, "")
    ensures Matches(field, Text.ToLower(term)) == Matches(field, term)
    ensures Matches(Text.ToLower(field), term) == Matches(field, term)
  {
    Text.ContainsEmpty(Text.ToLower(field));
    Text.ToLowerOfLower(Text.ToLower(term));
    Text.ToLowerOfLower(Text.ToLower(field));
  }

  /** A search term found in some field. */
  predicate MatchesAny(fields: seq<string>, term: string) {
    exists j | 0 <= j < |fields| :: Matches(fields[j], term)
  }

  /** The records whose searched fields contain the term, in their order. */
  function Search<T>(items: seq<T>, term: string, fields: T -> seq<string>): (r: seq<T>)
    ensures Seqs.IsSubsequence(r, items)
    ensures forall i | 0 <= i < |r| :: MatchesAny(fields(r[i]), term)
    ensures forall i | 0 <= i < |items| :: MatchesAny(fields(items[i]), term) ==> items[i] in r
  {
    Seqs.Filter(items, x => MatchesAny(fields(x), term))
  }

  /** An empty search shows every record, provided each has a field to search. */
  lemma EmptySearchShowsAll<T>(items: seq<T>, fields: T -> seq<string>)
    requires forall i | 0 <= i < |items| :: |fields(items[i])| > 0
    ensures Search(items, "", fields) == items
  {
    forall i | 0 <= i < |items| ensures MatchesAny(fields(items[i]), "") {
      MatchesIgnoresCase(fields(items[i])[0], "");
    }
  }

  /** `items.filter(x => x.id !== id)` after a successful delete. */
  function DeleteById<T>(items: seq<T>, id: string, idOf: T -> string): (r: seq<T>)
    ensures Seqs.IsSubsequence(r, items)
    ensures forall i | 0 <= i < |r| :: idOf(r[i]) != id
    ensures forall i | 0 <= i < |items| :: idOf(items[i]) != id ==> items[i] in r
  {
    Seqs.Filter(items, x => idOf(x) != id)
  }

  /** Deleting an id that is not listed changes nothing; deleting twice is deleting once. */
  lemma DeleteByIdIdempotent<T>(items: seq<T>, id: string, idOf: T -> string)
    ensures (forall i | 0 <= i < |items| :: idOf(items[i]) != id) ==> DeleteById(items, id, idOf) == items
    ensures DeleteById(DeleteById(items, id, idOf), id, idOf) == DeleteById(items, id, idOf)
  {
  }

  /** `items.map(x => x.id === id ? update(x) : x)` after a successful update. */
  function UpdateById<T>(items: seq<T>, id: string, idOf: T -> string, update: T -> T): (r: seq<T>)
    ensures |r| == |items|
    ensures forall i | 0 <= i < |items| :: idOf(items[i]) == id ==> r[i] == update(items[i])
    ensures forall i | 0 <= i < |items| :: idOf(items[i]) != id ==> r[i] == items[i]
  {
    seq(|items|, i requires 0 <= i < |items| => if idOf(items[i]) == id then update(items[i]) else items[i])
  }

  /** An update that keeps ids then a delete of the same id is the delete alone. */
  lemma {:induction false} UpdateThenDelete<T>(items: seq<T>, id: string, idOf: T -> string, update: T -> T)
    requires forall x :: idOf(update(x)) == idOf(x)
    ensures DeleteById(UpdateById(items, id, idOf, update), id, idOf) == DeleteById(items, id, idOf)
    decreases |items|
  {
    if |items| > 0 {
      var u := UpdateById(items, id, idOf, update);
      assert u[1..] == UpdateById(items[1..], id, idOf, update);
      UpdateThenDelete(items[1..], id, idOf, update);
    }
  }

  /** `Array.isArray(v) ? v : []` on a value read out of a response. */
  function ArrayRecords<T>(v: Json<T>): (r: seq<T>)
    ensures !v.Arr? ==> r == []
    ensures RecordsOf(ArrayOf(RecordsOf(v))) == r
  {
    RecordsOfArray(RecordsOf(v));
    RecordsOf(v)
  }

  /** A body `{ data: { results: [...] } }`. */
  function ResultsBody<T>(rs: seq<T>): Json<T> {
    Obj([("data", Obj([("results", ArrayOf(rs))]))])
  }

  /** A results body reads back through `data` and then `results`. */
  lemma ResultsBodyReads<T>(rs: seq<T>)
    ensures Member(ResultsBody(rs), "data") == Success(Obj([("results", ArrayOf(rs))]))
    ensures Get(Obj([("results", ArrayOf(rs))]), "results") == ArrayOf(rs)
  {
    assert [("data", Obj([("results", ArrayOf(rs))]))][..0] == [];
    assert [("results", ArrayOf(rs))][..0] == [];
  }

  /** `response.data.data?.results || []` filtered by `Array.isArray`, as the certificate,
      workshop and experience pages read it: `None` when reading `data` of a nullish body
      throws, the records of an array `results`, and nothing for any other `results`, falsy
      or not. */
  function ResultsOf<T>(body: Json<T>): (r: Option<seq<T>>)
    ensures r.None? <==> IsNullish(body)
    ensures r.Some? && !Truthy(Get(Property(body, "data"), "results")) ==> r.value == []
    ensures r.Some? && !Get(Property(body, "data"), "results").Arr? ==> r.value == []
    ensures r.Some? && Get(Property(body, "data"), "results").Arr? ==>
              r.value == RecordsOf(Get(Property(body, "data"), "results"))
  {
    if IsNullish(body) then None
    else Some(RecordsOf(Or(Get(Property(body, "data"), "results"), Arr([]))))
  }

  /** A page's GET request: the response body, or a failure (no response, or an error
      status). */
  datatype Fetch<T> = Responded(body: Json<T>) | RequestFailed

  /** How the certificate, workshop and experience pages load their list: any failure,
      including a body whose `data` cannot be read, leaves the list empty. */
  function LoadResults<T>(f: Fetch<T>): (r: seq<T>)
    ensures f.RequestFailed? ==> r == []
    ensures f.Responded? && IsNullish(f.body) ==> r == []
    ensures f.Responded? && !IsNullish(f.body) ==> r == ResultsOf(f.body).value
  {
    match f
    case Responded(body) => ResultsOf(body).GetOr([])
    case RequestFailed => []
  }

  /** The records a results body carries are read back exactly. */
  lemma ResultsRoundTrip<T>(rs: seq<T>)
    ensures ResultsOf(ResultsBody(rs)) == Some(rs)
    ensures LoadResults(Responded(ResultsBody(rs))) == rs
  {
    RecordsOfArray(rs);
  }
}
