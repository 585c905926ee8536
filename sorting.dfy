/**
 * Searching and sorting as Ruby's Enumerable#find, Array#index and
 * Array#sort with a comparison block do them, and the byte-wise order of
 * Ruby's `String#<=>`.
 */
module Sorting {
  import opened Values

  /** The index of the first element of `s` that satisfies `p`
      (`Enumerable#find`, `Array#index`). */
  function FindFirst<T>(s: seq<T>, p: T -> bool): (r: Option<nat>)
    ensures r.Some? ==> r.value < |s| && p(s[r.value])
    ensures r.Some? ==> forall j :: 0 <= j < r.value ==> !p(s[j])
    ensures r.None? ==> forall j :: 0 <= j < |s| ==> !p(s[j])
  {
    if s == [] then None
    else if p(s[0]) then Some(0)
    else
      match FindFirst(s[1..], p)
      case None => None
      case Some(i) => Some(i + 1)
  }

  /** `le` is total and transitive: a comparison block that `Array#sort`
      can order by. */
  ghost predicate TotalPreorder<T(!new)>(le: (T, T) -> bool) {
    && (forall a, b :: le(a, b) || le(b, a))
    && (forall a, b, c :: le(a, b) && le(b, c) ==> le(a, c))
  }

  ghost predicate SortedBy<T>(s: seq<T>, le: (T, T) -> bool) {
    forall i, j :: 0 <= i < j < |s| ==> le(s[i], s[j])
  }

  /** `x` placed into the sorted sequence `s`. */
  function Insert<T(==, !new)>(x: T, s: seq<T>, le: (T, T) -> bool): (r: seq<T>)
    requires TotalPreorder(le) && SortedBy(s, le)
    ensures SortedBy(r, le)
    ensures multiset(r) == multiset(s) + multiset{x}
  {
    if s == [] || le(x, s[0]) then
      var r := [x] + s;
      assert forall j :: 0 < j < |r| ==> le(s[0], r[j]);
      r
    else
      var tail := Insert(x, s[1..], le);
      assert s == [s[0]] + s[1..];
      forall e | e in tail ensures le(s[0], e) {
        assert e in multiset(tail);
        if e != x {
          assert e in multiset(s[1..]);
          var k :| 0 <= k < |s[1..]| && s[1..][k] == e;
          assert s[k + 1] == e;
        }
      }
      var r := [s[0]] + tail;
      assert forall j :: 0 < j < |r| ==> r[j] in tail;
      r
  }

  /** One ordering `Array#sort` may return: sorted by `le` and a
      permutation of `s`. Ruby's sort is not stable, so nothing is promised
      about the relative order of elements `le` ranks equal. */
  function Sort<T(==, !new)>(s: seq<T>, le: (T, T) -> bool): (r: seq<T>)
    requires TotalPreorder(le)
    ensures SortedBy(r, le)
    ensures multiset(r) == multiset(s)
  {
    if s == [] then []
    else
      assert s == [s[0]] + s[1..];
      Insert(s[0], Sort(s[1..], le), le)
  }

  /** Comparing by an integer key is a total preorder. */
  lemma KeyOrderIsTotalPreorder<T(!new)>(key: T -> int)
    ensures TotalPreorder((a: T, b: T) => key(a) <= key(b))
  {
  }

  /** `a <=> b` is not positive: `a` is a prefix of `b`, or the first
      character where they differ is smaller in `a`. */
  predicate StrLe(a: string, b: string) {
    if a == [] then true
    else if b == [] then false
    else if a[0] != b[0] then a[0] < b[0]
    else StrLe(a[1..], b[1..])
  }

  lemma {:induction false} StrLeTotal(a: string, b: string)
    ensures StrLe(a, b) || StrLe(b, a)
  {
    if a != [] && b != [] && a[0] == b[0] {
      StrLeTotal(a[1..], b[1..]);
    }
  }

  lemma {:induction false} StrLeTransitive(a: string, b: string, c: string)
    requires StrLe(a, b) && StrLe(b, c)
    ensures StrLe(a, c)
  {
    if a != [] && b != [] && c != [] && a[0] == b[0] && b[0] == c[0] {
      StrLeTransitive(a[1..], b[1..], c[1..]);
    }
  }

  /** Two strings each at most the other are the same string. */
  lemma {:induction false} StrLeAntisymmetric(a: string, b: string)
    requires StrLe(a, b) && StrLe(b, a)
    ensures a == b
  {
    if a != [] && b != [] {
      StrLeAntisymmetric(a[1..], b[1..]);
      assert a == [a[0]] + a[1..] && b == [b[0]] + b[1..];
    }
  }

  /** Descending order of a string key, as `sort { |a, b| key(b) <=> key(a) }`
      arranges it, is a total preorder. */
  lemma DescendingStrOrderIsTotalPreorder<T(!new)>(key: T -> string)
    ensures TotalPreorder((a: T, b: T) => StrLe(key(b), key(a)))
  {
    forall a: T, b: T ensures StrLe(key(b), key(a)) || StrLe(key(a), key(b)) {
      StrLeTotal(key(a), key(b));
    }
    forall a: T, b: T, c: T | StrLe(key(b), key(a)) && StrLe(key(c), key(b))
      ensures StrLe(key(c), key(a))
    {
      StrLeTransitive(key(c), key(b), key(a));
    }
  }
}
