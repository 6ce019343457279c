/** Small helpers shared by the front end and the back end models:
    an Option type and the two list comprehensions the source uses over
    records keyed by a string field (keep the matching ones, drop the matching ones). */
module Common {

  datatype Option<T> = None | Some(value: T)

  /** Python's `dict.get(key, default)` once the lookup is done: the value if present. */
  function GetOr<T>(o: Option<T>, default: T): (r: T)
    ensures o.Some? ==> r == o.value
    ensures o.None? ==> r == default
  {
    match o
    case Some(v) => v
    case None => default
  }

  /** `[x for x in s if key(x) == v]`: the elements whose key equals v, in order. */
  function Matching<T(!new)>(s: seq<T>, key: T -> string, v: string): (r: seq<T>)
    ensures |r| <= |s|
    ensures forall x :: x in r <==> x in s && key(x) == v
  {
    if s == [] then []
    else (if key(s[0]) == v then [s[0]] else []) + Matching(s[1..], key, v)
  }

  /** `[x for x in s if key(x) != v]`: the elements whose key differs from v, in order. */
  function Without<T(!new)>(s: seq<T>, key: T -> string, v: string): (r: seq<T>)
    ensures |r| <= |s|
    ensures forall x :: x in r <==> x in s && key(x) != v
  {
    if s == [] then []
    else (if key(s[0]) != v then [s[0]] else []) + Without(s[1..], key, v)
  }

  /** Both comprehensions walk the list front to back: filtering a
      concatenation is concatenating the filtered parts (order is kept). */
  lemma {:induction false} MatchingConcat<T(!new)>(a: seq<T>, b: seq<T>, key: T -> string, v: string)
    ensures Matching(a + b, key, v) == Matching(a, key, v) + Matching(b, key, v)
  {
    if a == [] {
      assert a + b == b;
    } else {
      assert (a + b)[1..] == a[1..] + b;
      MatchingConcat(a[1..], b, key, v);
    }
  }

  lemma {:induction false} WithoutConcat<T(!new)>(a: seq<T>, b: seq<T>, key: T -> string, v: string)
    ensures Without(a + b, key, v) == Without(a, key, v) + Without(b, key, v)
  {
    if a == [] {
      assert a + b == b;
    } else {
      assert (a + b)[1..] == a[1..] + b;
      WithoutConcat(a[1..], b, key, v);
    }
  }

  /** Removing by key twice is removing once. */
  lemma {:induction false} WithoutIdempotent<T(!new)>(s: seq<T>, key: T -> string, v: string)
    ensures Without(Without(s, key, v), key, v) == Without(s, key, v)
  {
    if s != [] {
      var head := if key(s[0]) != v then [s[0]] else [];
      WithoutConcat(head, Without(s[1..], key, v), key, v);
      WithoutIdempotent(s[1..], key, v);
      assert Without(head, key, v) == head by {
        if head != [] {
          assert head[1..] == [];
        }
      }
    }
  }

  /** Removing a key no element carries changes nothing. */
  lemma {:induction false} WithoutAbsent<T(!new)>(s: seq<T>, key: T -> string, v: string)
    requires forall x :: x in s ==> key(x) != v
    ensures Without(s, key, v) == s
  {
    if s != [] {
      assert s[0] in s;
      assert forall x :: x in s[1..] ==> x in s;
      WithoutAbsent(s[1..], key, v);
      assert [s[0]] + s[1..] == s;
    }
  }

  /** The kept and the dropped parts together account for every element. */
  lemma {:induction false} MatchingWithoutPartition<T(!new)>(s: seq<T>, key: T -> string, v: string)
    ensures |Matching(s, key, v)| + |Without(s, key, v)| == |s|
  {
    if s != [] {
      MatchingWithoutPartition(s[1..], key, v);
    }
  }
}
