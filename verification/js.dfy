/**
 * JavaScript values as the front end reads them out of response bodies: JSON plus
 * `undefined`, with the language's truthiness, `||`, property access with and without
 * optional chaining, `Array.isArray`, and the `Object.values(v).flat().join(sep)` idiom
 * the error handlers use.
 */
module Js {
  import opened Wrappers
  import Text

  /** A value read from a response body. `Rec` is an object the page consumes as a typed
      record of type `T` (a project, a message, ...). Numbers are integers. */
  datatype Json<T> =
    | Undefined
    | Null
    | Bool(b: bool)
    | Num(n: int)
    | Str(s: string)
    | Arr(elems: seq<Json<T>>)
    | Obj(fields: seq<(string, Json<T>)>)
    | Rec(record: T)

  /** What reading a property of `null` or `undefined` throws. */
  datatype TypeError = TypeError

  predicate IsNullish<T>(v: Json<T>) {
    v.Undefined? || v.Null?
  }

  /** ECMAScript ToBoolean (section 7.1.2 of ECMA-262) on the values above. */
  predicate Truthy<T>(v: Json<T>) {
    match v
    case Undefined => false
    case Null => false
    case Bool(b) => b
    case Num(n) => n != 0
    case Str(s) => s != ""
    case _ => true
  }

  /** `a || b`. */
  function Or<T>(a: Json<T>, b: Json<T>): Json<T> {
    if Truthy(a) then a else b
  }

  /** The value stored under `k`; the last of duplicate keys wins, as with `JSON.parse`. */
  function Lookup<T>(fields: seq<(string, Json<T>)>, k: string): Json<T>
  {
    if |fields| == 0 then Undefined
    else if fields[|fields| - 1].0 == k then fields[|fields| - 1].1
    else Lookup(fields[..|fields| - 1], k)
  }

  /** Property `k` of a value that is neither `null` nor `undefined`. Strings and arrays
      have a `length`; a typed record's fields are read through its type, not by key. */
  function Property<T>(v: Json<T>, k: string): Json<T> {
    match v
    case Obj(fields) => Lookup(fields, k)
    case Str(s) => if k == "length" then Num(|s|) else Undefined
    case Arr(elems) => if k == "length" then Num(|elems|) else Undefined
    case _ => Undefined
  }

  /** `v?.k`: `undefined` when `v` is nullish. */
  function Get<T>(v: Json<T>, k: string): Json<T> {
    if IsNullish(v) then Undefined else Property(v, k)
  }

  /** `v.k` without optional chaining: throws a TypeError when `v` is nullish. */
  function Member<T>(v: Json<T>, k: string): Result<Json<T>, TypeError> {
    if IsNullish(v) then Failure(TypeError) else Success(Property(v, k))
  }

  /** `Object.values(v)`: an object's values, an array's elements, a string's characters;
      numbers and booleans have none. The callers only apply it to truthy values. */
  function Values<T>(v: Json<T>): seq<Json<T>>
    requires !IsNullish(v)
  {
    match v
    case Obj(fields) => seq(|fields|, i requires 0 <= i < |fields| => fields[i].1)
    case Arr(elems) => elems
    case Str(s) => seq(|s|, i requires 0 <= i < |s| => Str([s[i]]))
    case _ => []
  }

  /** `vs.flat()`: array elements are spliced in one level deep. */
  function Flat<T>(vs: seq<Json<T>>): seq<Json<T>> {
    if |vs| == 0 then [] else (if vs[0].Arr? then vs[0].elems else [vs[0]]) + Flat(vs[1..])
  }

  /** ECMAScript ToString (section 7.1.17 of ECMA-262) on the values above. */
  function ToStr<T>(v: Json<T>): string
    decreases v
  {
    match v
    case Undefined => "undefined"
    case Null => "null"
    case Bool(b) => if b then "true" else "false"
    case Num(n) => Text.IntToDecimal(n)
    case Str(s) => s
    case Arr(elems) =>
      Text.Join(seq(|elems|, i requires 0 <= i < |elems| =>
                      if IsNullish(elems[i]) then "" else ToStr(elems[i])), ",")
    case Obj(_) => "[object Object]"
    case Rec(_) => "[object Object]"
  }

  /** How `join` renders one element: nullish elements become empty. */
  function ElementString<T>(v: Json<T>): string {
    if IsNullish(v) then "" else ToStr(v)
  }

  /** `vs.join(sep)`. */
  function JoinValues<T>(vs: seq<Json<T>>, sep: string): string {
    Text.Join(seq(|vs|, i requires 0 <= i < |vs| => ElementString(vs[i])), sep)
  }

  /** Strings wrapped as values. */
  function Strs<T>(ss: seq<string>): (r: seq<Json<T>>)
    ensures |r| == |ss|
    ensures forall i | 0 <= i < |ss| :: r[i] == Str(ss[i])
  {
    seq(|ss|, i requires 0 <= i < |ss| => Str(ss[i]))
  }

  /** Joining wrapped strings joins the strings. */
  lemma JoinStrs<T>(ss: seq<string>, sep: string)
    ensures JoinValues(Strs<T>(ss), sep) == Text.Join(ss, sep)
  {
    var vs := Strs<T>(ss);
    assert seq(|vs|, i requires 0 <= i < |vs| => ElementString(vs[i])) == ss;
  }

  /** An array payload: `Array.isArray(v) ? v : []`, keeping the typed records. */
  function RecordsOf<T>(v: Json<T>): (r: seq<T>)
    ensures !v.Arr? ==> r == []
    ensures v.Arr? ==> |r| <= |v.elems|
    ensures v.Arr? && (forall i | 0 <= i < |v.elems| :: v.elems[i].Rec?) ==>
              |r| == |v.elems| && forall i | 0 <= i < |r| :: v.elems[i] == Rec(r[i])
  {
    if v.Arr? then Records(v.elems) else []
  }

  /** The typed records among `vs`, in order. */
  function Records<T>(vs: seq<Json<T>>): (r: seq<T>)
    ensures |r| <= |vs|
    ensures (forall i | 0 <= i < |vs| :: vs[i].Rec?) ==>
              |r| == |vs| && forall i | 0 <= i < |r| :: vs[i] == Rec(r[i])
  {
    if |vs| == 0 then []
    else (if vs[0].Rec? then [vs[0].record] else []) + Records(vs[1..])
  }

  /** An array of typed records, as a response body carries it. */
  function ArrayOf<T>(rs: seq<T>): (v: Json<T>)
    ensures v.Arr? && |v.elems| == |rs|
    ensures forall i | 0 <= i < |rs| :: v.elems[i] == Rec(rs[i])
  {
    Arr(seq(|rs|, i requires 0 <= i < |rs| => Rec(rs[i])))
  }

  /** Reading an array of records back gives the records. */
  lemma RecordsOfArray<T>(rs: seq<T>)
    ensures RecordsOf(ArrayOf(rs)) == rs
  {
  }
}
