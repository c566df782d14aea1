/**
 * The error message the four dashboard forms and the profile page show when a save fails:
 * the flattened values of `data.errors` joined with ", " when that is truthy, otherwise
 * `message` when truthy, otherwise the form's fixed sentence.
 */
module ServerError {
  import opened Js
  import Text

  /** `err.response?.data?.data?.errors`, where `body` is `err.response?.data`. */
  function ErrorsOf<T>(body: Json<T>): Json<T> {
    Get(Get(body, "data"), "errors")
  }

  /** The message shown after a failed save; `body` is `Undefined` when no response arrived. */
  function SaveErrorMessage<T>(body: Json<T>, fallback: string): (r: string)
    ensures body.Undefined? ==> r == fallback
    ensures !Truthy(ErrorsOf(body)) && !Truthy(Get(body, "message")) ==> r == fallback
    ensures !Truthy(ErrorsOf(body)) && Get(body, "message").Str? && Get(body, "message").s != "" ==>
              r == Get(body, "message").s
  {
    var errors := ErrorsOf(body);
    if Truthy(errors) then JoinValues(Flat(Values(errors)), ", ")
    else ToStr(Or(Get(body, "message"), Str(fallback)))
  }

  /** The field-error object the back end sends: each field name with its list of messages. */
  function ErrorsObject<T>(fields: seq<(string, seq<string>)>): Json<T> {
    Obj(seq(|fields|, i requires 0 <= i < |fields| => (fields[i].0, Arr(Strs(fields[i].1)))))
  }

  /** The whole error body `{"data": {"errors": {...}}}`. */
  function FieldErrorsBody<T>(fields: seq<(string, seq<string>)>): Json<T> {
    Obj([("data", Obj([("errors", ErrorsObject(fields))]))])
  }

  /** Every message of every field, field by field. */
  function AllMessages(fields: seq<(string, seq<string>)>): seq<string> {
    if |fields| == 0 then [] else fields[0].1 + AllMessages(fields[1..])
  }

  lemma StrsAppend<T>(a: seq<string>, b: seq<string>)
    ensures Strs<T>(a + b) == Strs<T>(a) + Strs<T>(b)
  {
  }

  /** Flattening the values of a field-error object lists every message in field order. */
  lemma {:induction false} FlatFieldErrors<T>(fields: seq<(string, seq<string>)>)
    ensures Flat(Values(ErrorsObject<T>(fields))) == Strs<T>(AllMessages(fields))
    decreases |fields|
  {
    var vs := Values(ErrorsObject<T>(fields));
    if |fields| > 0 {
      FlatFieldErrors<T>(fields[1..]);
      assert vs[1..] == Values(ErrorsObject<T>(fields[1..]));
      StrsAppend<T>(fields[0].1, AllMessages(fields[1..]));
    }
  }

  /** With the back end's field-error shape the message is every field message joined with
      ", "; an empty error object therefore yields the empty message. */
  lemma FieldErrorsMessage<T>(fields: seq<(string, seq<string>)>, fallback: string)
    ensures SaveErrorMessage(FieldErrorsBody<T>(fields), fallback) == Text.Join(AllMessages(fields), ", ")
  {
    FlatFieldErrors<T>(fields);
    JoinStrs<T>(AllMessages(fields), ", ");
  }
}
