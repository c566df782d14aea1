/**
 * The certificate list (src/app/dashboard/certifications/page.tsx): loading, searching by
 * name or issuer, deleting, and the expiry line of a card.
 */
module CertificationsPage {
  import opened Wrappers
  import Types
  import ListView
  import Seqs

  function Load(f: ListView.Fetch<Types.Certification>): (r: seq<Types.Certification>)
    ensures f.RequestFailed? ==> r == []
  {
    ListView.LoadResults(f)
  }

  function SearchFields(c: Types.Certification): seq<string> {
    [c.name, c.issuingOrganization]
  }

  /** The certificates whose name or issuer contains the search term, ignoring case. */
  function Filtered(certifications: seq<Types.Certification>, term: string): (r: seq<Types.Certification>)
    ensures Seqs.IsSubsequence(r, certifications)
    ensures forall i | 0 <= i < |r| :: ListView.Matches(r[i].name, term) || ListView.Matches(r[i].issuingOrganization, term)
    ensures forall i | 0 <= i < |certifications| ::
              ListView.Matches(certifications[i].name, term) || ListView.Matches(certifications[i].issuingOrganization, term)
              ==> certifications[i] in r
  {
    var r := ListView.Search(certifications, term, SearchFields);
    assert forall c :: ListView.MatchesAny(SearchFields(c), term) <==>
             ListView.Matches(c.name, term) || ListView.Matches(c.issuingOrganization, term) by {
      forall c ensures ListView.MatchesAny(SearchFields(c), term) <==>
             ListView.Matches(c.name, term) || ListView.Matches(c.issuingOrganization, term) {
        assert SearchFields(c)[0] == c.name && SearchFields(c)[1] == c.issuingOrganization;
      }
    }
    r
  }

  function IdOf(c: Types.Certification): string { c.id }

  /** `handleDelete`: on success the certificate leaves the list; on failure nothing changes. */
  function Delete(certifications: seq<Types.Certification>, id: string, deleted: bool): (r: seq<Types.Certification>)
    ensures deleted ==> Seqs.IsSubsequence(r, certifications)
    ensures deleted ==> forall i | 0 <= i < |r| :: r[i].id != id
    ensures deleted ==> forall i | 0 <= i < |certifications| :: certifications[i].id != id ==> certifications[i] in r
    ensures !deleted ==> r == certifications
  {
    if deleted then ListView.DeleteById(certifications, id, IdOf) else certifications
  }

  /** The expiry line of a card: shown only for a non-empty expiry date, and marked
      ` (Expired)` exactly when the back end says so. `format` renders a date for the
      browser's locale. */
  function ExpiryLine(c: Types.Certification, format: string -> string): (r: Option<string>)
    ensures r.Some? <==> c.expiryDate.Some? && c.expiryDate.value != ""
    ensures r.Some? && !c.isExpired ==> r.value == "Expires: " + format(c.expiryDate.value)
    ensures r.Some? && c.isExpired ==> r.value == "Expires: " + format(c.expiryDate.value) + " (Expired)"
  {
    match c.expiryDate
    case Some(d) =>
      if d != "" then Some("Expires: " + format(d) + (if c.isExpired then " (Expired)" else "")) else None
    case None => None
  }
}

/**
 * The workshop list (src/app/dashboard/workshops/page.tsx): loading, searching by title or
 * organiser, deleting.
 */
module WorkshopsPage {
  import Types
  import ListView
  import Seqs

  function Load(f: ListView.Fetch<Types.Workshop>): (r: seq<Types.Workshop>)
    ensures f.RequestFailed? ==> r == []
  {
    ListView.LoadResults(f)
  }

  function SearchFields(w: Types.Workshop): seq<string> {
    [w.title, w.organizer]
  }

  /** The workshops whose title or organiser contains the search term, ignoring case. */
  function Filtered(workshops: seq<Types.Workshop>, term: string): (r: seq<Types.Workshop>)
    ensures Seqs.IsSubsequence(r, workshops)
    ensures forall i | 0 <= i < |r| :: ListView.Matches(r[i].title, term) || ListView.Matches(r[i].organizer, term)
    ensures forall i | 0 <= i < |workshops| ::
              ListView.Matches(workshops[i].title, term) || ListView.Matches(workshops[i].organizer, term)
              ==> workshops[i] in r
  {
    var r := ListView.Search(workshops, term, SearchFields);
    assert forall w :: ListView.MatchesAny(SearchFields(w), term) <==>
             ListView.Matches(w.title, term) || ListView.Matches(w.organizer, term) by {
      forall w ensures ListView.MatchesAny(SearchFields(w), term) <==>
             ListView.Matches(w.title, term) || ListView.Matches(w.organizer, term) {
        assert SearchFields(w)[0] == w.title && SearchFields(w)[1] == w.organizer;
      }
    }
    r
  }

  function IdOf(w: Types.Workshop): string { w.id }

  /** `handleDelete`: on success the workshop leaves the list; on failure nothing changes. */
  function Delete(workshops: seq<Types.Workshop>, id: string, deleted: bool): (r: seq<Types.Workshop>)
    ensures deleted ==> Seqs.IsSubsequence(r, workshops)
    ensures deleted ==> forall i | 0 <= i < |r| :: r[i].id != id
    ensures deleted ==> forall i | 0 <= i < |workshops| :: workshops[i].id != id ==> workshops[i] in r
    ensures !deleted ==> r == workshops
  {
    if deleted then ListView.DeleteById(workshops, id, IdOf) else workshops
  }
}

/**
 * The experience list (src/app/dashboard/experience/page.tsx): loading, searching by company
 * or position, deleting.
 */
module ExperiencePage {
  import Types
  import ListView
  import Seqs

  function Load(f: ListView.Fetch<Types.Experience>): (r: seq<Types.Experience>)
    ensures f.RequestFailed? ==> r == []
  {
    ListView.LoadResults(f)
  }

  function SearchFields(e: Types.Experience): seq<string> {
    [e.company, e.position]
  }

  /** The positions whose company or title contains the search term, ignoring case. */
  function Filtered(experiences: seq<Types.Experience>, term: string): (r: seq<Types.Experience>)
    ensures Seqs.IsSubsequence(r, experiences)
    ensures forall i | 0 <= i < |r| :: ListView.Matches(r[i].company, term) || ListView.Matches(r[i].position, term)
    ensures forall i | 0 <= i < |experiences| ::
              ListView.Matches(experiences[i].company, term) || ListView.Matches(experiences[i].position, term)
              ==> experiences[i] in r
  {
    var r := ListView.Search(experiences, term, SearchFields);
    assert forall e :: ListView.MatchesAny(SearchFields(e), term) <==>
             ListView.Matches(e.company, term) || ListView.Matches(e.position, term) by {
      forall e ensures ListView.MatchesAny(SearchFields(e), term) <==>
             ListView.Matches(e.company, term) || ListView.Matches(e.position, term) {
        assert SearchFields(e)[0] == e.company && SearchFields(e)[1] == e.position;
      }
    }
    r
  }

  function IdOf(e: Types.Experience): string { e.id }

  /** `handleDelete`: on success the position leaves the list; on failure nothing changes. */
  function Delete(experiences: seq<Types.Experience>, id: string, deleted: bool): (r: seq<Types.Experience>)
    ensures deleted ==> Seqs.IsSubsequence(r, experiences)
    ensures deleted ==> forall i | 0 <= i < |r| :: r[i].id != id
    ensures deleted ==> forall i | 0 <= i < |experiences| :: experiences[i].id != id ==> experiences[i] in r
    ensures !deleted ==> r == experiences
  {
    if deleted then ListView.DeleteById(experiences, id, IdOf) else experiences
  }
}
