/** The decoded YAML document as the workflow linter sees it after `yaml.parse`,
    together with the few JavaScript operations the linter applies to it:
    truthiness, property access and `typeof … === 'object'`. */
module YamlValue {

  datatype Option<+T> = None | Some(value: T)

  /** A decoded YAML node. Numbers keep only an integer value: the linter
      looks at nothing but their type and their truthiness. A `Map` is given
      by its entries in the order JavaScript iterates over them. */
  datatype Value =
    | Null
    | Bool(b: bool)
    | Num(n: int)
    | Str(s: string)
    | Seq(items: seq<Value>)
    | Map(entries: seq<(string, Value)>)

  /** What reading a property yields: `undefined` (Absent) when the key is missing. */
  datatype Field = Absent | Present(value: Value)

  /** JavaScript truthiness of a decoded value: null, false, 0 and "" are falsy,
      every array and every object is truthy. */
  predicate Truthy(v: Value)
    ensures Truthy(v) <==> v != Null && v != Bool(false) && v != Num(0) && v != Str("")
  {
    match v
    case Null => false
    case Bool(b) => b
    case Num(n) => n != 0
    case Str(s) => s != ""
    case Seq(_) => true
    case Map(_) => true
  }

  /** Truthiness of a property read; `undefined` is falsy. */
  predicate FieldTruthy(f: Field)
  {
    f.Present? && Truthy(f.value)
  }

  /** A YAML mapping never repeats a key. */
  predicate DistinctKeys(entries: seq<(string, Value)>)
  {
    forall i, j :: 0 <= i < j < |entries| ==> entries[i].0 != entries[j].0
  }

  /** The value stored under `key` among `entries`, or Absent. */
  function Lookup(entries: seq<(string, Value)>, key: string): (f: Field)
    ensures f.Absent? <==> forall i :: 0 <= i < |entries| ==> entries[i].0 != key
    ensures f.Present? ==> exists i :: 0 <= i < |entries| && entries[i] == (key, f.value)
  {
    if entries == [] then Absent
    else if entries[0].0 == key then Present(entries[0].1)
    else
      var f := Lookup(entries[1..], key);
      assert forall i :: 1 <= i < |entries| ==> entries[i] == entries[1..][i - 1];
      f
  }

  /** Property access `v[key]`: only a mapping has the properties the linter
      reads (`jobs`, `uses`, `name`, `timeout-minutes`); on a scalar or an
      array they are `undefined`. */
  function GetField(v: Value, key: string): (f: Field)
    ensures !v.Map? ==> f.Absent?
  {
    if v.Map? then Lookup(v.entries, key) else Absent
  }

  /** `typeof f === 'object'`: true of null, arrays and mappings. */
  predicate IsObject(f: Field)
    ensures IsObject(f) <==> f.Present? && !f.value.Bool? && !f.value.Num? && !f.value.Str?
  {
    f.Present? && (f.value.Null? || f.value.Seq? || f.value.Map?)
  }
}
