/**
 * The inbox of contact messages (src/app/dashboard/messages/page.tsx): loading in either of
 * two response shapes, searching with a status filter, deleting, changing a message's status
 * while keeping the opened message in step, and the status badge colour.
 */
module MessagesPage {
  import opened Wrappers
  import opened Js
  import Types
  import ListView
  import Seqs

  type Message = Types.ContactMessage

  /** `fetchMessages`: the body's `data`, or the body itself when `data` is falsy, kept only
      when it is an array, so a truthy non-array `data` or a non-array body gives an empty
      inbox; any failure leaves the inbox empty. */
  function Load(f: ListView.Fetch<Message>): (r: seq<Message>)
    ensures f.RequestFailed? ==> r == []
    ensures f.Responded? && IsNullish(f.body) ==> r == []
    ensures f.Responded? && !IsNullish(f.body) && Property(f.body, "data").Arr? ==>
              r == RecordsOf(Property(f.body, "data"))
    ensures f.Responded? && !IsNullish(f.body) && !Truthy(Property(f.body, "data")) ==>
              r == RecordsOf(f.body)
    ensures f.Responded? && !IsNullish(f.body) && Truthy(Property(f.body, "data")) && !Property(f.body, "data").Arr? ==>
              r == []
    ensures f.Responded? && !IsNullish(f.body) && !Truthy(Property(f.body, "data")) && !f.body.Arr? ==>
              r == []
  {
    match f
    case Responded(body) => if IsNullish(body) then [] else RecordsOf(Or(Property(body, "data"), body))
    case RequestFailed => []
  }

  /** Both shapes the back end may answer with are read: messages wrapped in `data`, and a
      bare array of messages. */
  lemma LoadReadsBothShapes(ms: seq<Message>)
    ensures Load(ListView.Responded(Obj([("data", ArrayOf(ms))]))) == ms
    ensures Load(ListView.Responded(ArrayOf(ms))) == ms
  {
    RecordsOfArray(ms);
  }

  /** A message passes the status filter `all`, or the filter equal to its status. */
  predicate StatusMatches(m: Message, statusFilter: string) {
    statusFilter == "all" || m.status == statusFilter
  }

  function SearchFields(m: Message): seq<string> {
    [m.fullName, m.email, m.subject, m.message]
  }

  /** The messages shown: the search term in the sender's name, e-mail, subject or text,
      ignoring case, and the status filter passed. */
  function Visible(messages: seq<Message>, term: string, statusFilter: string): (r: seq<Message>)
    ensures Seqs.IsSubsequence(r, messages)
    ensures forall i | 0 <= i < |r| :: ListView.MatchesAny(SearchFields(r[i]), term) && StatusMatches(r[i], statusFilter)
    ensures forall i | 0 <= i < |messages| ::
              ListView.MatchesAny(SearchFields(messages[i]), term) && StatusMatches(messages[i], statusFilter)
              ==> messages[i] in r
  {
    Seqs.Filter(messages, m => ListView.MatchesAny(SearchFields(m), term) && StatusMatches(m, statusFilter))
  }

  /** Without a search term and with the `all` filter every message is shown; with a status
      filter only messages of that status are. */
  lemma VisibleByDefault(messages: seq<Message>, statusFilter: string)
    ensures Visible(messages, "", "all") == messages
    ensures forall i | 0 <= i < |Visible(messages, "", statusFilter)| ::
              statusFilter == "all" || Visible(messages, "", statusFilter)[i].status == statusFilter
  {
    forall i | 0 <= i < |messages|
      ensures ListView.MatchesAny(SearchFields(messages[i]), "") && StatusMatches(messages[i], "all")
    {
      ListView.MatchesIgnoresCase(messages[i].fullName, "");
      assert SearchFields(messages[i])[0] == messages[i].fullName;
    }
  }

  /** The page's list and the message opened in the side panel. */
  datatype Inbox = Inbox(messages: seq<Message>, selected: Option<Message>, deleteConfirm: Option<string>)

  function IdOf(m: Message): string { m.id }

  /** `handleDelete`: on success the message leaves the list, the confirmation closes, and
      the panel closes when it showed that message; on failure nothing changes. */
  function Delete(inbox: Inbox, id: string, deleted: bool): (r: Inbox)
    ensures !deleted ==> r == inbox
    ensures deleted ==> r.messages == ListView.DeleteById(inbox.messages, id, IdOf) && r.deleteConfirm.None?
    ensures deleted ==> r.selected.None? || r.selected.value.id != id
    ensures deleted && inbox.selected.Some? && inbox.selected.value.id != id ==> r.selected == inbox.selected
  {
    if !deleted then inbox
    else
      Inbox(ListView.DeleteById(inbox.messages, id, IdOf), if inbox.selected.Some? && inbox.selected.value.id == id then None else inbox.selected, None)
  }

  /** `updateStatus`: on success every message with the id takes the status, and so does the
      opened message when it is that one; on failure nothing changes. */
  function UpdateStatus(inbox: Inbox, id: string, status: string, updated: bool): (r: Inbox)
    ensures !updated ==> r == inbox
    ensures updated ==> |r.messages| == |inbox.messages| && r.deleteConfirm == inbox.deleteConfirm
    ensures updated ==> forall i | 0 <= i < |r.messages| ::
              r.messages[i].id == inbox.messages[i].id &&
              r.messages[i].status == (if inbox.messages[i].id == id then status else inbox.messages[i].status)
    ensures updated ==> forall i | 0 <= i < |r.messages| ::
              r.messages[i] == if inbox.messages[i].id == id then inbox.messages[i].(status := status) else inbox.messages[i]
    ensures updated && inbox.selected.Some? && inbox.selected.value.id == id ==>
              r.selected == Some(inbox.selected.value.(status := status))
    ensures updated && !(inbox.selected.Some? && inbox.selected.value.id == id) ==> r.selected == inbox.selected
  {
    if !updated then inbox
    else
      var messages := ListView.UpdateById(inbox.messages, id, IdOf, (m: Message) => m.(status := status));
      var selected := if inbox.selected.Some? && inbox.selected.value.id == id
                      then Some(inbox.selected.value.(status := status)) else inbox.selected;
      Inbox(messages, selected, inbox.deleteConfirm)
  }

  /** The opened message is one of the listed messages. */
  predicate SelectionListed(inbox: Inbox) {
    inbox.selected.None? || inbox.selected.value in inbox.messages
  }

  /** Deleting and changing status keep the opened message in step with the list. */
  lemma ActionsKeepSelectionListed(inbox: Inbox, id: string, status: string, ok: bool)
    requires SelectionListed(inbox)
    ensures SelectionListed(Delete(inbox, id, ok))
    ensures SelectionListed(UpdateStatus(inbox, id, status, ok))
  {
    if ok && inbox.selected.Some? {
      var s := inbox.selected.value;
      var i :| 0 <= i < |inbox.messages| && inbox.messages[i] == s;
      var u := UpdateStatus(inbox, id, status, ok);
      assert u.messages[i] == u.selected.value;
    }
  }

  /** The badge classes for a Tailwind colour name; every status uses the same pattern. */
  function Badge(colour: string): (r: string)
    ensures colour != "" ==> |r| > 3 && r[3] == colour[0]
  {
    "bg-" + colour + "-500/10 text-" + colour + "-500 border-" + colour + "-500/20"
  }

  const NewColor := Badge("blue")
  const ContactedColor := Badge("yellow")
  const GreyColor := Badge("gray")

  /** The badge of a status: blue for new, yellow for contacted, grey for closed and for any
      other status. */
  function StatusColor(status: string): (r: string)
    ensures r == NewColor <==> status == "new"
    ensures r == ContactedColor <==> status == "contacted"
    ensures r == GreyColor <==> status != "new" && status != "contacted"
  {
    if status == "new" then NewColor
    else if status == "contacted" then ContactedColor
    else if status == "closed" then GreyColor
    else GreyColor
  }
}
