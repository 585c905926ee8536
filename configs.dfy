/**
 * `Commit::Config`: a wrapper over one settings value with two accessors
 * for every name. `name!` returns the raw value stored under the key (or
 * nil); the plain `name` never returns nil: hashes and absent values come
 * back wrapped in a Config, arrays come back element-wise wrapped, and any
 * other value comes back bare.
 */
module Configs {
  import opened Values

  datatype Config = Config(settings: Value)

  /** What the plain accessor can return. */
  datatype Wrapped =
    | Node(config: Config)
    | Items(items: seq<Wrapped>)
    | Bare(value: Value)

  /** What `method_missing` returns: the raw value for a `name!` call, the
      wrapped value otherwise. */
  datatype Reply = Raw(value: Value) | Wrapping(wrapped: Wrapped)

  /** The right-hand side of `==`: another Config or any plain value. */
  datatype Other = OtherConfig(config: Config) | OtherValue(value: Value)

  /** The value a wrapped result stands for. */
  function Unwrap(w: Wrapped): Value {
    match w
    case Node(c) => c.settings
    case Items(ws) => List(seq(|ws|, i requires 0 <= i < |ws| => Unwrap(ws[i])))
    case Bare(v) => v
  }

  /** `wrap(value)`. Never nil: nil itself comes back as `Config(nil)`. */
  function Wrap(v: Value): (w: Wrapped)
    ensures w != Bare(Null)
    ensures w.Node? <==> v.Hash? || v.Null?
    ensures w.Items? <==> v.List?
    ensures w.Items? ==> |w.items| == |v.items|
    ensures w.Bare? ==> w.value == v
  {
    match v
    case Hash(_) => Node(Config(v))
    case Null => Node(Config(v))
    case List(xs) => Items(seq(|xs|, i requires 0 <= i < |xs| => Wrap(xs[i])))
    case _ => Bare(v)
  }

  /** Wrapping loses nothing: unwrapping gives the value back, element by
      element and in order for arrays. */
  lemma {:induction false} UnwrapWrap(v: Value)
    ensures Unwrap(Wrap(v)) == v
  {
    match v
    case List(xs) =>
      var ws := Wrap(v).items;
      forall i | 0 <= i < |xs| ensures Unwrap(ws[i]) == xs[i] {
        UnwrapWrap(xs[i]);
      }
      assert Unwrap(Wrap(v)).items == xs;
    case _ =>
  }

  /** `@settings&.dig(key)`: the value under `key` of a hash, nil for nil
      settings or an absent key. An array's `dig` wants an integer index,
      and scalars have no `dig` at all. */
  function Dig(c: Config, key: string): (r: Result<Value>)
    ensures c.settings.Null? ==> r == Ok(Null)
    ensures c.settings.Hash? && key !in c.settings.entries ==> r == Ok(Null)
    ensures c.settings.Hash? && key in c.settings.entries ==> r == Ok(c.settings.entries[key])
    ensures c.settings.List? ==> r == Err(TypeError)
    ensures !(c.settings.Null? || c.settings.Hash? || c.settings.List?) ==> r == Err(NoMethodError)
  {
    match c.settings
    case Null => Ok(Null)
    case Hash(m) => Ok(Lookup(m, key))
    case List(_) => Err(TypeError)
    case _ => Err(NoMethodError)
  }

  /** The plain accessor `config.key`: never nil, and it stands for exactly
      the raw value the bang accessor returns. */
  function Get(c: Config, key: string): (r: Result<Wrapped>)
    ensures r.Ok? <==> Dig(c, key).Ok?
    ensures r.Ok? ==> r.value != Bare(Null) && Unwrap(r.value) == Dig(c, key).value
    ensures r.Ok? && Dig(c, key).value == Null ==> r.value == Node(Config(Null))
  {
    var v :- Dig(c, key);
    UnwrapWrap(v);
    Ok(Wrap(v))
  }

  /** `method_missing(name)`: a name ending in "!" reads the raw value under
      the name without its "!", any other name reads the wrapped value. */
  function MethodMissing(c: Config, name: string): (r: Result<Reply>)
    ensures name != [] && name[|name| - 1] == '!' ==>
      r == (var v :- Dig(c, name[..|name| - 1]); Ok(Raw(v)))
    ensures !(name != [] && name[|name| - 1] == '!') ==>
      (r.Ok? <==> Dig(c, name).Ok?)
    ensures !(name != [] && name[|name| - 1] == '!') && r.Ok? ==>
      r.value.Wrapping? && Unwrap(r.value.wrapped) == Dig(c, name).value
  {
    if name != [] && name[|name| - 1] == '!' then
      var v :- Dig(c, name[..|name| - 1]);
      Ok(Raw(v))
    else
      var w :- Get(c, name);
      Ok(Wrapping(w))
  }

  /** `respond_to_missing?`: a Config claims to answer every name. */
  function RespondToMissing(name: string): (r: bool)
    ensures r
  {
    true
  }

  /** The claim is kept for the configs the system builds, whose settings
      are a hash or nil: every name gets an answer, never an exception. */
  lemma RespondedNamesAreAnswered(c: Config, name: string)
    requires c.settings.Hash? || c.settings.Null?
    ensures RespondToMissing(name) ==> MethodMissing(c, name).Ok?
  {
  }

  /** `==`: equal to a Config with equal settings, to a Hash equal to the
      settings, and to nothing else (so `Config(nil)` is not equal to nil). */
  function Equals(c: Config, other: Other): (r: bool)
    ensures other.OtherConfig? ==> (r <==> other.config.settings == c.settings)
    ensures other.OtherValue? && other.value.Hash? ==> (r <==> other.value == c.settings)
    ensures other.OtherValue? && !other.value.Hash? ==> !r
  {
    match other
    case OtherConfig(o) => o.settings == c.settings
    case OtherValue(v) => v.Hash? && v == c.settings
  }

  /** `config.k1.k2...kn`: each name but the last has to produce a Config
      for the next one to be sent to it; an array or a scalar in the middle
      has no such method. */
  function GetPath(c: Config, keys: seq<string>): (r: Result<Wrapped>)
    ensures keys == [] ==> r == Ok(Node(c))
    ensures r.Ok? ==> r.value != Bare(Null)
    decreases |keys|
  {
    if keys == [] then Ok(Node(c))
    else
      var w :- Get(c, keys[0]);
      if |keys| == 1 then Ok(w)
      else if w.Node? then GetPath(w.config, keys[1..])
      else Err(NoMethodError)
  }

  /** `config.k1...kn.last!`: the raw value at the end of the path. */
  function RawPath(c: Config, keys: seq<string>, last: string): (r: Result<Value>)
    ensures keys == [] ==> r == Dig(c, last)
  {
    var w :- GetPath(c, keys);
    if w.Node? then Dig(w.config, last) else Err(NoMethodError)
  }

  /** A chain of plain accessors through missing keys never fails and keeps
      yielding `Config(nil)`; its raw end is nil. */
  lemma {:induction false} MissingChainsStayNil(keys: seq<string>, last: string)
    ensures GetPath(Config(Null), keys) == Ok(Node(Config(Null)))
    ensures RawPath(Config(Null), keys, last) == Ok(Null)
    decreases |keys|
  {
    if |keys| > 1 {
      MissingChainsStayNil(keys[1..], last);
    }
  }

  /** One step into nested hashes: the value under `key`, nil when the key
      is absent or when `v` is not a hash. */
  function Child(v: Value, key: string): Value {
    if v.Hash? then Lookup(v.entries, key) else Null
  }

  /** The value reached by looking `keys` up one after another. */
  function Follow(v: Value, keys: seq<string>): Value
    decreases |keys|
  {
    if keys == [] then v else Follow(Child(v, keys[0]), keys[1..])
  }

  /** Every value a lookup of `keys` is sent to is a hash or nil. */
  predicate Navigable(v: Value, keys: seq<string>)
    decreases |keys|
  {
    keys == [] || ((v.Hash? || v.Null?) && Navigable(Child(v, keys[0]), keys[1..]))
  }

  /** Extending a path by one key: it stays navigable iff the value reached
      so far is a hash or nil, and it then reaches that value's child. */
  lemma {:induction false} FollowAppend(v: Value, keys: seq<string>, last: string)
    ensures Navigable(v, keys + [last]) <==>
      Navigable(v, keys) && (Follow(v, keys).Hash? || Follow(v, keys).Null?)
    ensures Follow(v, keys + [last]) == Child(Follow(v, keys), last)
    decreases |keys|
  {
    if keys != [] {
      assert (keys + [last])[0] == keys[0];
      assert (keys + [last])[1..] == keys[1..] + [last];
      FollowAppend(Child(v, keys[0]), keys[1..], last);
    }
  }

  /** A chain of plain accessors on a Config over a hash or nil succeeds iff
      every value it steps through is a hash or nil, and yields the wrapped
      value found under the nested keys (nil where a key is missing). */
  lemma {:induction false} GetPathFollows(v: Value, keys: seq<string>)
    requires v.Hash? || v.Null?
    ensures GetPath(Config(v), keys).Ok? <==> Navigable(v, keys)
    ensures GetPath(Config(v), keys).Ok? ==> GetPath(Config(v), keys).value == Wrap(Follow(v, keys))
    decreases |keys|
  {
    if keys != [] {
      var child := Child(v, keys[0]);
      assert Dig(Config(v), keys[0]) == Ok(child);
      if |keys| == 1 {
        assert keys[1..] == [];
      } else if child.Hash? || child.Null? {
        GetPathFollows(child, keys[1..]);
      } else {
        assert !Navigable(child, keys[1..]);
      }
    }
  }

  /** `config.k1...kn.last!` on a Config over a hash or nil succeeds iff
      every value the lookups of `k1...kn, last` are sent to is a hash or
      nil, and yields the raw nested value, nil where a key is missing. */
  lemma RawPathFollows(v: Value, keys: seq<string>, last: string)
    requires v.Hash? || v.Null?
    ensures RawPath(Config(v), keys, last).Ok? <==> Navigable(v, keys + [last])
    ensures RawPath(Config(v), keys, last).Ok? ==> RawPath(Config(v), keys, last).value == Follow(v, keys + [last])
  {
    GetPathFollows(v, keys);
    FollowAppend(v, keys, last);
  }
}
