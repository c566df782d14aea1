/**
 * The array operations the list views and forms use: `filter`, an element-wise rewrite
 * (`map` with a condition), and the subsequence relation that states "keeps the order".
 */
module Seqs {

  /** `a` is obtained from `b` by deleting elements, keeping the order of the rest. */
  ghost predicate IsSubsequence<T>(a: seq<T>, b: seq<T>)
    decreases |b|
  {
    |a| == 0 || (|b| > 0 && ((a[0] == b[0] && IsSubsequence(a[1..], b[1..])) || IsSubsequence(a, b[1..])))
  }

  /** Number of elements of `xs` that satisfy `keep`. */
  function CountWhere<T>(xs: seq<T>, keep: T -> bool): nat
  {
    if |xs| == 0 then 0 else (if keep(xs[0]) then 1 else 0) + CountWhere(xs[1..], keep)
  }

  /** Number of occurrences of `v` in `xs`. */
  function Count<T(==)>(xs: seq<T>, v: T): nat
  {
    if |xs| == 0 then 0 else (if xs[0] == v then 1 else 0) + Count(xs[1..], v)
  }

  /** `xs.filter(keep)`: the elements satisfying `keep`, in their original order. */
  function Filter<T>(xs: seq<T>, keep: T -> bool): (r: seq<T>)
    ensures IsSubsequence(r, xs)
    ensures forall i | 0 <= i < |r| :: keep(r[i])
    ensures forall i | 0 <= i < |xs| :: keep(xs[i]) ==> xs[i] in r
    ensures |r| == CountWhere(xs, keep)
    ensures (forall i | 0 <= i < |xs| :: keep(xs[i])) ==> r == xs
  {
    if |xs| == 0 then []
    else
      var rest := Filter(xs[1..], keep);
      if keep(xs[0]) then
        assert ([xs[0]] + rest)[1..] == rest;
        [xs[0]] + rest
      else
        rest
  }

  /** The elements of `xs` that are not `v`: `xs.filter(x => x !== v)`. */
  function RemoveAll<T(==)>(xs: seq<T>, v: T): (r: seq<T>)
    ensures IsSubsequence(r, xs)
    ensures v !in r
    ensures forall i | 0 <= i < |xs| :: xs[i] != v ==> xs[i] in r
    ensures |r| == |xs| - Count(xs, v)
  {
    CountComplement(xs, v);
    Filter(xs, x => x != v)
  }

  /** Every element is either `v` or not: the two counts add up to the length. */
  lemma {:induction false} CountComplement<T>(xs: seq<T>, v: T)
    ensures CountWhere(xs, x => x != v) + Count(xs, v) == |xs|
  {
    if |xs| > 0 {
      CountComplement(xs[1..], v);
    }
  }

  /** No value occurs twice. */
  predicate NoDuplicates<T(==)>(xs: seq<T>) {
    forall i, j | 0 <= i < j < |xs| :: xs[i] != xs[j]
  }

  /** Appending a value that is not there keeps a list free of duplicates. */
  lemma AppendFresh<T>(xs: seq<T>, v: T)
    requires NoDuplicates(xs) && v !in xs
    ensures NoDuplicates(xs + [v])
  {
    var r := xs + [v];
    forall i, j | 0 <= i < j < |r| ensures r[i] != r[j] {
      if j == |xs| {
        assert r[i] == xs[i];
      } else {
        assert r[i] == xs[i] && r[j] == xs[j];
      }
    }
  }

  /** A subsequence of a duplicate-free sequence is duplicate-free. */
  lemma {:induction false} SubsequenceNoDuplicates<T>(a: seq<T>, b: seq<T>)
    requires IsSubsequence(a, b)
    requires NoDuplicates(b)
    ensures NoDuplicates(a)
    decreases |b|
  {
    if |a| > 0 {
      if a[0] == b[0] && IsSubsequence(a[1..], b[1..]) {
        SubsequenceNoDuplicates(a[1..], b[1..]);
        SubsequenceElements(a[1..], b[1..]);
        forall j | 0 < j < |a|
          ensures a[0] != a[j]
        {
          assert a[j] == a[1..][j - 1];
          var k :| 0 <= k < |b[1..]| && b[1..][k] == a[j];
          assert b[k + 1] == a[j];
        }
      } else {
        SubsequenceNoDuplicates(a, b[1..]);
      }
    }
  }

  /** Appending the same element to both sides keeps a subsequence, and so does appending
      an element to the longer side only. */
  lemma {:induction false} SubsequenceSnoc<T>(a: seq<T>, b: seq<T>, x: T)
    requires IsSubsequence(a, b)
    ensures IsSubsequence(a + [x], b + [x])
    ensures IsSubsequence(a, b + [x])
    decreases |b|
  {
    if |a| == 0 {
      assert IsSubsequence([x], [x]) by { assert [x][1..] == []; }
      SubsequenceOfLonger([x], b);
      assert a + [x] == [x];
    } else {
      assert (b + [x])[0] == b[0] && (b + [x])[1..] == b[1..] + [x];
      assert (a + [x])[0] == a[0] && (a + [x])[1..] == a[1..] + [x];
      if a[0] == b[0] && IsSubsequence(a[1..], b[1..]) {
        SubsequenceSnoc(a[1..], b[1..], x);
      } else {
        SubsequenceSnoc(a, b[1..], x);
      }
    }
  }

  /** A subsequence of a sequence is one of the sequence with a prefix in front. */
  lemma {:induction false} SubsequenceOfLonger<T>(a: seq<T>, b: seq<T>)
    requires IsSubsequence(a, a)
    ensures IsSubsequence(a, b + a)
    decreases |b|
  {
    if |b| > 0 {
      assert (b + a)[1..] == b[1..] + a;
      SubsequenceOfLonger(a, b[1..]);
    } else {
      assert b + a == a;
    }
  }

  /** The first occurrence of each value, in the order the values first occur: the last
      element is kept exactly when it does not occur earlier. */
  function FirstOccurrences<T(==)>(xs: seq<T>): (r: seq<T>)
    ensures IsSubsequence(r, xs)
    ensures NoDuplicates(r)
    ensures forall i | 0 <= i < |xs| :: xs[i] in r
    decreases |xs|
  {
    if |xs| == 0 then []
    else
      var front := xs[..|xs| - 1];
      var last := xs[|xs| - 1];
      var r := FirstOccurrences(front);
      assert xs == front + [last];
      SubsequenceSnoc(r, front, last);
      if last in front then r
      else
        SubsequenceElements(r, front);
        AppendFresh(r, last);
        r + [last]
  }

  /** Every element of a subsequence is an element of the sequence. */
  lemma {:induction false} SubsequenceElements<T>(a: seq<T>, b: seq<T>)
    requires IsSubsequence(a, b)
    ensures forall i | 0 <= i < |a| :: a[i] in b
    decreases |b|
  {
    if |a| > 0 {
      if a[0] == b[0] && IsSubsequence(a[1..], b[1..]) {
        SubsequenceElements(a[1..], b[1..]);
        forall i | 1 <= i < |a|
          ensures a[i] in b
        {
          assert a[i] == a[1..][i - 1];
        }
      } else {
        SubsequenceElements(a, b[1..]);
      }
    }
  }

  /** `xs.filter((_, i) => i !== index)`: the sequence without position `index`; an index
      outside the sequence removes nothing. */
  function RemoveAt<T>(xs: seq<T>, index: int): (r: seq<T>)
    ensures 0 <= index < |xs| ==> |r| == |xs| - 1
    ensures 0 <= index < |xs| ==> forall i | 0 <= i < index :: r[i] == xs[i]
    ensures 0 <= index < |xs| ==> forall i | index < i < |xs| :: r[i - 1] == xs[i]
    ensures !(0 <= index < |xs|) ==> r == xs
  {
    if 0 <= index < |xs| then xs[..index] + xs[index + 1..] else xs
  }
}
