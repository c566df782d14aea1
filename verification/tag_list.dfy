/**
 * The list editors of the dashboard forms: a text input whose trimmed content is appended to
 * a list (technologies, gallery images, skills, topics) unless it is blank or already there,
 * and whose entries are removed by value; and the achievements editor, which appends any
 * non-blank entry and removes by position.
 */
module TagList {
  import Text
  import Seqs

  /** A list together with the text typed into its input. */
  datatype TagInput = TagInput(items: seq<string>, input: string)

  /** The entries a list editor itself produces: trimmed and non-empty. */
  predicate IsEntry(s: string) {
    s != "" && Text.Trim(s) == s
  }

  /** `addTechnology` and its siblings: a non-blank trimmed input that is not yet listed is
      appended and the input cleared; otherwise nothing changes. */
  function AddUnique(t: TagInput): (r: TagInput)
    ensures var v := Text.Trim(t.input);
            (v != "" && v !in t.items) ==> r == TagInput(t.items + [v], "")
    ensures var v := Text.Trim(t.input);
            !(v != "" && v !in t.items) ==> r == t
    ensures |r.items| >= |t.items| && r.items[..|t.items|] == t.items
  {
    var v := Text.Trim(t.input);
    if v != "" && v !in t.items then TagInput(t.items + [v], "") else t
  }

  /** Whatever was added is an entry, and a list without duplicates keeps none. */
  lemma AddUniqueKeepsList(t: TagInput)
    ensures forall i | |t.items| <= i < |AddUnique(t).items| :: IsEntry(AddUnique(t).items[i])
    ensures Seqs.NoDuplicates(t.items) ==> Seqs.NoDuplicates(AddUnique(t).items)
    ensures AddUnique(t).items != t.items <==> Text.Trim(t.input) != "" && Text.Trim(t.input) !in t.items
  {
    var v := Text.Trim(t.input);
    if v != "" && v !in t.items {
      Text.TrimIdempotent(t.input);
      AppendEntry(t.items, v);
    }
  }

  /** Appending a new entry adds that one entry and no duplicate. */
  lemma AppendEntry(items: seq<string>, v: string)
    requires IsEntry(v) && v !in items
    ensures forall i | |items| <= i < |items + [v]| :: IsEntry((items + [v])[i])
    ensures Seqs.NoDuplicates(items) ==> Seqs.NoDuplicates(items + [v])
    ensures items + [v] != items
  {
    assert |items + [v]| != |items|;
    if Seqs.NoDuplicates(items) {
      Seqs.AppendFresh(items, v);
    }
  }

  /** Adding the same input twice adds it once. */
  lemma AddUniqueTwice(items: seq<string>, input: string)
    ensures AddUnique(TagInput(AddUnique(TagInput(items, input)).items, input)).items ==
            AddUnique(TagInput(items, input)).items
  {
  }

  /** `removeTechnology` and its siblings: every entry equal to `item` is dropped and the
      others keep their order. */
  function Remove(t: TagInput, item: string): (r: TagInput)
    ensures r.input == t.input
    ensures item !in r.items
    ensures forall i | 0 <= i < |t.items| :: t.items[i] != item ==> t.items[i] in r.items
    ensures forall x | x in r.items :: x in t.items
    ensures Seqs.IsSubsequence(r.items, t.items)
    ensures |r.items| == |t.items| - Seqs.Count(t.items, item)
  {
    var kept := Seqs.RemoveAll(t.items, item);
    Seqs.SubsequenceElements(kept, t.items);
    TagInput(kept, t.input)
  }

  /** Removing what was just added gives back the list. */
  lemma RemoveUndoesAdd(t: TagInput)
    requires Text.Trim(t.input) != "" && Text.Trim(t.input) !in t.items
    ensures Remove(AddUnique(t), Text.Trim(t.input)).items == t.items
  {
    RemoveAbsent(t.items, Text.Trim(t.input));
  }

  /** Dropping a value from a list ending in it, where it occurs nowhere else, drops the last
      entry. */
  lemma {:induction false} RemoveAbsent(xs: seq<string>, v: string)
    requires v !in xs
    ensures Seqs.RemoveAll(xs + [v], v) == xs
  {
    var r := Seqs.RemoveAll(xs + [v], v);
    Seqs.CountComplement(xs, v);
    Seqs.SubsequenceElements(r, xs + [v]);
    assert Seqs.Count(xs + [v], v) == 1 by {
      CountAppend(xs, v);
    }
    RemoveAllNone(xs, v);
    RemoveAllSnoc(xs, v);
  }

  /** A value counts once in a list ending in it, where it occurs nowhere else. */
  lemma {:induction false} CountAppend(xs: seq<string>, v: string)
    requires v !in xs
    ensures Seqs.Count(xs + [v], v) == 1
    decreases |xs|
  {
    if |xs| == 0 {
      assert xs + [v] == [v];
    } else {
      assert (xs + [v])[0] == xs[0];
      assert (xs + [v])[1..] == xs[1..] + [v];
      CountAppend(xs[1..], v);
    }
  }

  /** Dropping a value that is not there changes nothing. */
  lemma {:induction false} RemoveAllNone(xs: seq<string>, v: string)
    requires v !in xs
    ensures Seqs.RemoveAll(xs, v) == xs
  {
    assert forall i | 0 <= i < |xs| :: (x => x != v)(xs[i]);
  }

  /** Dropping a value from a list ending in it drops that last entry. */
  lemma {:induction false} RemoveAllSnoc(xs: seq<string>, v: string)
    ensures Seqs.RemoveAll(xs + [v], v) == Seqs.RemoveAll(xs, v)
    decreases |xs|
  {
    if |xs| == 0 {
      assert xs + [v] == [v];
    } else {
      assert (xs + [v])[0] == xs[0];
      assert (xs + [v])[1..] == xs[1..] + [v];
      RemoveAllSnoc(xs[1..], v);
    }
  }

  /** `addAchievement`: any non-blank input is appended, trimmed, and the input cleared. */
  function AddAny(t: TagInput): (r: TagInput)
    ensures Text.Trim(t.input) != "" ==> r == TagInput(t.items + [Text.Trim(t.input)], "")
    ensures Text.Trim(t.input) == "" ==> r == t
  {
    var v := Text.Trim(t.input);
    if v != "" then TagInput(t.items + [v], "") else t
  }

  /** `removeAchievement`: the entry at `index` is dropped; an index outside the list drops
      nothing. */
  function RemoveIndex(t: TagInput, index: int): (r: TagInput)
    ensures r.input == t.input
    ensures 0 <= index < |t.items| ==> r.items == t.items[..index] + t.items[index + 1..]
    ensures !(0 <= index < |t.items|) ==> r == t
  {
    var r := TagInput(Seqs.RemoveAt(t.items, index), t.input);
    assert 0 <= index < |t.items| ==> r.items == t.items[..index] + t.items[index + 1..];
    r
  }

  /** Removing the entry just appended gives back the list, duplicates and all. */
  lemma RemoveIndexUndoesAddAny(t: TagInput)
    requires Text.Trim(t.input) != ""
    ensures RemoveIndex(AddAny(t), |t.items|).items == t.items
  {
    assert (t.items + [Text.Trim(t.input)])[..|t.items|] == t.items;
  }

  /** The edits a list editor offers. */
  datatype Edit = Type(text: string) | Add | RemoveValue(item: string)

  function Apply(t: TagInput, e: Edit): TagInput {
    match e
    case Type(text) => t.(input := text)
    case Add => AddUnique(t)
    case RemoveValue(item) => Remove(t, item)
  }

  function ApplyAll(t: TagInput, edits: seq<Edit>): TagInput
    decreases |edits|
  {
    if |edits| == 0 then t else ApplyAll(Apply(t, edits[0]), edits[1..])
  }

  /** A list that starts without duplicates never gains one, whatever is typed, added and
      removed; and entries the editor did not start with are all trimmed and non-empty. */
  lemma {:induction false} EditsKeepList(t: TagInput, edits: seq<Edit>)
    requires Seqs.NoDuplicates(t.items)
    ensures Seqs.NoDuplicates(ApplyAll(t, edits).items)
    ensures forall x | x in ApplyAll(t, edits).items :: x in t.items || IsEntry(x)
    decreases |edits|
  {
    if |edits| > 0 {
      var next := Apply(t, edits[0]);
      assert Seqs.NoDuplicates(next.items) && forall x | x in next.items :: x in t.items || IsEntry(x) by {
        match edits[0]
        case Type(_) =>
        case Add =>
          AddUniqueKeepsList(t);
          forall x | x in next.items ensures x in t.items || IsEntry(x) {
            var i :| 0 <= i < |next.items| && next.items[i] == x;
            if i >= |t.items| {
              assert IsEntry(next.items[i]);
            } else {
              assert next.items[..|t.items|][i] == x;
            }
          }
        case RemoveValue(item) =>
          Seqs.SubsequenceNoDuplicates(Seqs.RemoveAll(t.items, item), t.items);
      }
      EditsKeepList(next, edits[1..]);
    }
  }
}
