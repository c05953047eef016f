/** Values an Eloquent model holds, and the model's attribute maps. */
module Values {

  /** The PHP values the model works with (floats, arrays and objects are not modelled). */
  datatype Value = Null | Bool(b: bool) | Int(i: int) | Str(s: string)

  datatype Option<+T> = None | Some(value: T)

  /** A model's raw attribute storage, or its `original` snapshot: name to value. */
  type Attributes = map<string, Value>

  /** Reading `$model->{$name}` as a plain map read: a missing key reads as null. */
  function Lookup(a: Attributes, name: string): Value
  {
    if name in a then a[name] else Null
  }

  /** No name occurs twice. */
  predicate Distinct(s: seq<string>)
  {
    forall i, j :: 0 <= i < j < |s| ==> s[i] != s[j]
  }
}
