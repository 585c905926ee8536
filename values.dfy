/**
 * The schema-less values that configuration files, event payloads and the
 * release-data file are parsed into, and the Ruby exceptions the core can
 * raise while navigating them.
 */
module Values {

  /** A parsed YAML value. Ruby compares hashes without regard to key order,
      which is exactly the equality of a Dafny `map`. */
  datatype Value =
    | Null
    | Bool(b: bool)
    | Int(i: int)
    | Str(s: string)
    | List(items: seq<Value>)
    | Hash(entries: map<string, Value>)

  /** The exception classes the modelled code can raise. */
  datatype Error =
    | NoMethodError      // a method called on a value that does not define it
    | ArgumentError      // a wrong number of arguments, or two sort keys that do not compare
    | TypeError          // a value of the wrong class where a path, an index or an array is needed
    | NoSuchFile(path: string)

  datatype Option<+T> = None | Some(value: T)

  datatype Result<+T> = Ok(value: T) | Err(error: Error) {
    predicate IsFailure() { Err? }
    function PropagateFailure<U>(): Result<U> requires Err? { Err(error) }
    function Extract(): T requires Ok? { value }
  }

  /** Ruby truthiness: only `nil` and `false` are falsy. */
  predicate Truthy(v: Value) {
    v != Null && v != Bool(false)
  }

  /** `hash[key]` on a Ruby Hash: the stored value, or nil when absent. */
  function Lookup(m: map<string, Value>, key: string): (r: Value)
    ensures key !in m ==> r == Null
    ensures key in m ==> r == m[key]
  {
    if key in m then m[key] else Null
  }

  /** `t` occurs in `s` starting at position `i`. */
  predicate OccursAt(s: string, t: string, i: int) {
    0 <= i <= |s| - |t| && s[i..i + |t|] == t
  }

  /** `t` occurs in `s` as a contiguous piece. */
  predicate Contains(s: string, t: string) {
    exists i :: 0 <= i <= |s| && OccursAt(s, t, i)
  }

  /** Ruby's `v[key]` with a string key: a hash gives its value (nil when
      absent), a string gives `key` when `key` occurs in it and nil
      otherwise; arrays and integers want an integer index, and nil, true
      and false have no `[]` at all. */
  function Index(v: Value, key: string): (r: Result<Value>)
    ensures r.Ok? <==> v.Hash? || v.Str?
    ensures v.Hash? ==> r == Ok(Lookup(v.entries, key))
    ensures v.Str? ==> r == Ok(Null) || r == Ok(Str(key))
    ensures v.Str? ==> (r == Ok(Str(key)) <==> Contains(v.s, key))
  {
    match v
    case Hash(m) => Ok(Lookup(m, key))
    case Str(s) => Ok(if Contains(s, key) then Str(key) else Null)
    case List(_) => Err(TypeError)
    case Int(_) => Err(TypeError)
    case _ => Err(NoMethodError)
  }
}
