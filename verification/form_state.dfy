/**
 * What the dashboard forms (the four editors under src/components/dashboard/ and the profile page) share:
 * the form object edited by `handleChange`, the list fields edited by the list editors, and
 * the request and message of `handleSubmit`.
 *
 * A form is a JavaScript object: a sequence of key/value pairs in insertion order, each key
 * once. A schema names the keys and the kind of value each holds.
 */
module FormState {
  import opened Wrappers
  import opened Js
  import Text
  import TagList
  import ServerError
  import Seqs

  datatype FieldValue =
    | TextValue(s: string)
    | FlagValue(b: bool)
    | NumberValue(n: int)
    | ListValue(items: seq<string>)

  type Form = seq<(string, FieldValue)>

  function Keys(form: Form): (r: seq<string>)
    ensures |r| == |form| && forall i | 0 <= i < |form| :: r[i] == form[i].0
  {
    seq(|form|, i requires 0 <= i < |form| => form[i].0)
  }

  /** The position of the first occurrence of `key`. */
  function IndexOf(keys: seq<string>, key: string): (r: Option<nat>)
    ensures r.Some? ==> r.value < |keys| && keys[r.value] == key && forall j | 0 <= j < r.value :: keys[j] != key
    ensures r.None? <==> key !in keys
    decreases |keys|
  {
    if |keys| == 0 then None
    else if keys[0] == key then Some(0)
    else match IndexOf(keys[1..], key)
      case Some(i) => Some(i + 1)
      case None => None
  }

  /** A position that is the first occurrence of `key` is the one `IndexOf` finds. */
  lemma IndexOfUnique(keys: seq<string>, key: string, i: nat)
    requires i < |keys| && keys[i] == key && forall j | 0 <= j < i :: keys[j] != key
    ensures IndexOf(keys, key) == Some(i)
  {
    assert key in keys;
  }

  /** `form[key]`, `None` for `undefined`. */
  function Get(form: Form, key: string): Option<FieldValue> {
    match IndexOf(Keys(form), key)
    case Some(i) => Some(form[i].1)
    case None => None
  }

  /** In a form laid out by a schema, `form[key]` is the value at the key's first place in
      the schema. */
  lemma GetConforming(form: Form, schema: Schema, key: string, i: nat)
    requires Conforms(form, schema)
    requires i < |schema| && schema[i].0 == key
    requires forall j | 0 <= j < i :: schema[j].0 != key
    ensures Get(form, key) == Some(form[i].1)
  {
    IndexOfUnique(Keys(form), key, i);
  }

  /** `{ ...form, [key]: v }`: an existing key keeps its place, a new one is appended. */
  function Set(form: Form, key: string, v: FieldValue): (r: Form)
    ensures Get(r, key) == Some(v)
    ensures forall k | k != key :: Get(r, k) == Get(form, k)
    ensures key in Keys(form) ==> Keys(r) == Keys(form)
    ensures key !in Keys(form) ==> Keys(r) == Keys(form) + [key]
  {
    match IndexOf(Keys(form), key)
    case Some(i) =>
      var r := form[i := (key, v)];
      assert Keys(r) == Keys(form);
      r
    case None =>
      var r := form + [(key, v)];
      assert Keys(r) == Keys(form) + [key];
      IndexOfUnique(Keys(r), key, |form|);
      AppendKeepsOthers(form, key, v);
      r
  }

  /** Appending a new key leaves every other key's value as it was. */
  lemma AppendKeepsOthers(form: Form, key: string, v: FieldValue)
    requires key !in Keys(form)
    ensures forall k | k != key :: Get(form + [(key, v)], k) == Get(form, k)
  {
    var r := form + [(key, v)];
    assert Keys(r) == Keys(form) + [key];
    forall k | k != key ensures Get(r, k) == Get(form, k) {
      match IndexOf(Keys(form), k)
      case Some(j) => IndexOfUnique(Keys(r), k, j);
      case None => assert k !in Keys(r);
    }
  }

  /** Once set, a key keeps whatever is set last. */
  lemma SetTwice(form: Form, key: string, v: FieldValue, w: FieldValue)
    ensures Set(Set(form, key, v), key, w) == Set(form, key, w)
  {
    var a := Set(form, key, v);
    match IndexOf(Keys(form), key)
    case Some(i) =>
      IndexOfUnique(Keys(a), key, i);
    case None =>
      IndexOfUnique(Keys(a), key, |form|);
  }

  /** The kinds of value a form holds. A number input reports its value as a string, so a
      number field holds a number until it is edited and a string afterwards. */
  datatype Kind = TextKind | FlagKind | NumberKind | ListKind

  type Schema = seq<(string, Kind)>

  predicate HasKind(v: FieldValue, k: Kind) {
    match k
    case TextKind => v.TextValue?
    case FlagKind => v.FlagValue?
    case NumberKind => v.NumberValue? || v.TextValue?
    case ListKind => v.ListValue?
  }

  function SchemaKeys(schema: Schema): (r: seq<string>)
    ensures |r| == |schema| && forall i | 0 <= i < |schema| :: r[i] == schema[i].0
  {
    seq(|schema|, i requires 0 <= i < |schema| => schema[i].0)
  }

  /** The form has exactly the schema's keys, in its order, each with a value of its kind. */
  predicate Conforms(form: Form, schema: Schema) {
    && |form| == |schema|
    && forall i | 0 <= i < |form| :: form[i].0 == schema[i].0 && HasKind(form[i].1, schema[i].1)
  }

  /** The value of an empty field: `''`, `false`, `0` or `[]`. */
  function BlankValue(k: Kind): (v: FieldValue)
    ensures HasKind(v, k)
  {
    match k
    case TextKind => TextValue("")
    case FlagKind => FlagValue(false)
    case NumberKind => NumberValue(0)
    case ListKind => ListValue([])
  }

  /** The form for a new record: every field empty. */
  function Blank(schema: Schema): (r: Form)
    ensures Conforms(r, schema)
    ensures forall i | 0 <= i < |schema| :: r[i].1 == BlankValue(schema[i].1)
  {
    seq(|schema|, i requires 0 <= i < |schema| => (schema[i].0, BlankValue(schema[i].1)))
  }

  /** The form holding `values` under the schema's keys, in the schema's order. */
  function Fill(schema: Schema, values: seq<FieldValue>): (r: Form)
    requires |values| == |schema|
    requires forall i | 0 <= i < |schema| :: HasKind(values[i], schema[i].1)
    ensures Conforms(r, schema)
    ensures forall i | 0 <= i < |schema| :: r[i].1 == values[i]
  {
    seq(|schema|, i requires 0 <= i < |schema| => (schema[i].0, values[i]))
  }

  /** When the schema names each key once, each key of a filled form reads back its own
      value. */
  lemma FillReads(schema: Schema, values: seq<FieldValue>, i: nat)
    requires |values| == |schema|
    requires forall k | 0 <= k < |schema| :: HasKind(values[k], schema[k].1)
    requires Seqs.NoDuplicates(SchemaKeys(schema))
    requires i < |schema|
    ensures Get(Fill(schema, values), schema[i].0) == Some(values[i])
  {
    forall j | 0 <= j < i ensures schema[j].0 != schema[i].0 {
      assert SchemaKeys(schema)[j] != SchemaKeys(schema)[i];
    }
    GetConforming(Fill(schema, values), schema, schema[i].0, i);
  }

  /** The kind of `name` in the schema, `None` when it is not a field. */
  function KindOf(schema: Schema, name: string): Option<Kind> {
    match IndexOf(SchemaKeys(schema), name)
    case Some(i) => Some(schema[i].1)
    case None => None
  }

  /** What a change event of an input reports. */
  datatype ChangeEvent = ChangeEvent(name: string, value: string, isCheckbox: bool, checked: bool)

  /** `handleChange`: a checkbox sets a flag, any other input a string. */
  function HandleChange(form: Form, e: ChangeEvent): (r: Form)
    ensures Get(r, e.name) == Some(if e.isCheckbox then FlagValue(e.checked) else TextValue(e.value))
    ensures forall k | k != e.name :: Get(r, k) == Get(form, k)
  {
    Set(form, e.name, if e.isCheckbox then FlagValue(e.checked) else TextValue(e.value))
  }

  /** The event comes from an input that fits its field: a checkbox for a flag, a text, date,
      URL or number input otherwise. */
  predicate Fits(schema: Schema, e: ChangeEvent) {
    match KindOf(schema, e.name)
    case Some(k) => k != ListKind && (e.isCheckbox <==> k == FlagKind)
    case None => false
  }

  /** Setting a field to a value of its kind keeps the form's shape. */
  lemma SetKeepsShape(form: Form, schema: Schema, key: string, v: FieldValue)
    requires Conforms(form, schema)
    requires KindOf(schema, key).Some? && HasKind(v, KindOf(schema, key).value)
    ensures Conforms(Set(form, key, v), schema)
  {
    assert Keys(form) == SchemaKeys(schema);
  }

  /** The inputs of a form keep its shape: every key stays, in its place, with a value of
      its kind. */
  lemma ChangeKeepsShape(form: Form, schema: Schema, e: ChangeEvent)
    requires Conforms(form, schema) && Fits(schema, e)
    ensures Conforms(HandleChange(form, e), schema)
  {
    SetKeepsShape(form, schema, e.name, if e.isCheckbox then FlagValue(e.checked) else TextValue(e.value));
  }

  /** The string a text field holds, `""` for anything else. */
  function TextAt(form: Form, key: string): string {
    match Get(form, key)
    case Some(TextValue(s)) => s
    case _ => ""
  }

  /** The entries of a list field, `[]` for anything else. */
  function ItemsAt(form: Form, key: string): seq<string> {
    match Get(form, key)
    case Some(ListValue(items)) => items
    case _ => []
  }

  /** A form together with the text typed into one of its list inputs. */
  datatype ListEdit = ListEdit(form: Form, input: string)

  /** A list editor's step on the list field `key`, applied to the form. */
  function EditList(form: Form, key: string, t: TagList.TagInput): (r: ListEdit)
    ensures ItemsAt(r.form, key) == t.items && r.input == t.input
    ensures forall k | k != key :: Get(r.form, k) == Get(form, k)
  {
    ListEdit(Set(form, key, ListValue(t.items)), t.input)
  }

  /** `addTechnology`, `addGalleryImage`, `addSkill`, `addTopic`. */
  function AddItem(form: Form, key: string, input: string): (r: ListEdit)
    ensures var t := TagList.AddUnique(TagList.TagInput(ItemsAt(form, key), input));
            ItemsAt(r.form, key) == t.items && r.input == t.input
    ensures forall k | k != key :: Get(r.form, k) == Get(form, k)
  {
    EditList(form, key, TagList.AddUnique(TagList.TagInput(ItemsAt(form, key), input)))
  }

  /** `removeTechnology`, `removeGalleryImage`, `removeSkill`, `removeTopic`. */
  function RemoveItem(form: Form, key: string, item: string): (r: Form)
    ensures ItemsAt(r, key) == TagList.Remove(TagList.TagInput(ItemsAt(form, key), ""), item).items
    ensures forall k | k != key :: Get(r, k) == Get(form, k)
  {
    EditList(form, key, TagList.Remove(TagList.TagInput(ItemsAt(form, key), ""), item)).form
  }

  /** `addAchievement`. */
  function AddAnyItem(form: Form, key: string, input: string): (r: ListEdit)
    ensures var t := TagList.AddAny(TagList.TagInput(ItemsAt(form, key), input));
            ItemsAt(r.form, key) == t.items && r.input == t.input
    ensures forall k | k != key :: Get(r.form, k) == Get(form, k)
  {
    EditList(form, key, TagList.AddAny(TagList.TagInput(ItemsAt(form, key), input)))
  }

  /** `removeAchievement`. */
  function RemoveItemAt(form: Form, key: string, index: int): (r: Form)
    ensures ItemsAt(r, key) == TagList.RemoveIndex(TagList.TagInput(ItemsAt(form, key), ""), index).items
    ensures forall k | k != key :: Get(r, k) == Get(form, k)
  {
    EditList(form, key, TagList.RemoveIndex(TagList.TagInput(ItemsAt(form, key), ""), index)).form
  }

  /** The list editors keep the form's shape when they edit a list field. */
  lemma ListEditKeepsShape(form: Form, schema: Schema, key: string, t: TagList.TagInput)
    requires Conforms(form, schema) && KindOf(schema, key) == Some(ListKind)
    ensures Conforms(EditList(form, key, t).form, schema)
  {
    SetKeepsShape(form, schema, key, ListValue(t.items));
  }

  /** The request `handleSubmit` sends. */
  datatype SaveRequest = Patch(url: string, body: Form) | Post(url: string, body: Form)

  /** Editing a record (`id` given) patches `base + id + "/"`; creating one posts to `base`.
      The body is the whole form either way. */
  function SaveRequestFor(base: string, id: Option<string>, form: Form): (r: SaveRequest)
    ensures r.body == form
    ensures r.Patch? <==> id.Some?
    ensures r.Post? ==> r.url == base
    ensures r.Patch? ==> base <= r.url && |r.url| > |base| && r.url[|r.url| - 1] == '/' && r.url[|base|..|r.url| - 1] == id.value
  {
    match id
    case Some(x) =>
      var url := base + x + "/";
      assert url[|base|..|url| - 1] == x;
      Patch(url, form)
    case None => Post(base, form)
  }

  /** Edits of different records go to different URLs, and never to the creation URL. */
  lemma SaveUrlsDistinct(base: string, id1: string, id2: string, form1: Form, form2: Form)
    ensures SaveRequestFor(base, Some(id1), form1).url != SaveRequestFor(base, None, form2).url
    ensures id1 != id2 ==> SaveRequestFor(base, Some(id1), form1).url != SaveRequestFor(base, Some(id2), form2).url
  {
    var u1 := SaveRequestFor(base, Some(id1), form1).url;
    var u2 := SaveRequestFor(base, Some(id2), form2).url;
    assert |u1| > |base|;
    if u1 == u2 {
      assert u1[|base|..|u1| - 1] == u2[|base|..|u2| - 1];
    }
  }

  /** How the back end answers the save. */
  datatype SaveOutcome = Saved | Rejected(body: Json<()>)

  /** After the request: a saved form closes (after notifying its parent); a rejected one
      stays open with the error message. */
  datatype SaveResult = Closed | Failed(message: string)

  function FinishSave(outcome: SaveOutcome, fallback: string): (r: SaveResult)
    ensures outcome.Saved? <==> r.Closed?
    ensures outcome.Rejected? ==> r == Failed(ServerError.SaveErrorMessage(outcome.body, fallback))
  {
    match outcome
    case Saved => Closed
    case Rejected(body) => Failed(ServerError.SaveErrorMessage(body, fallback))
  }

  /** A rejection whose body carries field errors shows all of them; one without a body
      shows the form's fallback sentence. */
  lemma RejectionMessages(fields: seq<(string, seq<string>)>, fallback: string)
    ensures FinishSave(Rejected(ServerError.FieldErrorsBody(fields)), fallback) ==
              Failed(Text.Join(ServerError.AllMessages(fields), ", "))
    ensures FinishSave(Rejected(Undefined), fallback) == Failed(fallback)
  {
    ServerError.FieldErrorsMessage<()>(fields, fallback);
  }
}
