/** Kotlin's `sortedByDescending { key }`: a stable sort into non-increasing key order.
    The key comparison is passed as `le(a, b)`, "the key of `a` is at most the key of `b`",
    which must be a total preorder. Equal keys keep their input order. */
module Sorting {

  ghost predicate TotalPreorder<T(!new)>(le: (T, T) -> bool) {
    && (forall a, b :: le(a, b) || le(b, a))
    && (forall a, b, c :: le(a, b) && le(b, c) ==> le(a, c))
  }

  /** Non-increasing: every element is at least every later one. */
  predicate SortedDesc<T>(s: seq<T>, le: (T, T) -> bool) {
    forall i, j :: 0 <= i < j < |s| ==> le(s[j], s[i])
  }

  /** `a` and `b` have equal keys. */
  predicate Tied<T>(le: (T, T) -> bool, a: T, b: T) {
    le(a, b) && le(b, a)
  }

  /** The elements of `s` whose key equals that of `x`, in their order in `s`. */
  function Ties<T>(s: seq<T>, le: (T, T) -> bool, x: T): seq<T> {
    if s == [] then []
    else (if Tied(le, x, s[0]) then [s[0]] else []) + Ties(s[1..], le, x)
  }

  /** Puts `x` in front of the first element of `t` whose key is at most that of `x`. */
  function Insert<T>(x: T, t: seq<T>, le: (T, T) -> bool): (r: seq<T>)
    ensures multiset(r) == multiset(t) + multiset{x}
    ensures |r| == |t| + 1
  {
    if t == [] || le(t[0], x) then [x] + t
    else
      assert t == [t[0]] + t[1..];
      [t[0]] + Insert(x, t[1..], le)
  }

  /** `sortedByDescending`, written as an insertion sort. */
  function SortDesc<T>(s: seq<T>, le: (T, T) -> bool): (r: seq<T>)
    ensures multiset(r) == multiset(s)
    ensures |r| == |s|
  {
    if s == [] then []
    else
      assert s == [s[0]] + s[1..];
      Insert(s[0], SortDesc(s[1..], le), le)
  }

  lemma {:induction false} InsertSorted<T(!new)>(x: T, t: seq<T>, le: (T, T) -> bool)
    requires TotalPreorder(le)
    requires SortedDesc(t, le)
    ensures SortedDesc(Insert(x, t, le), le)
  {
    if t != [] && !le(t[0], x) {
      InsertSorted(x, t[1..], le);
      var r := Insert(x, t, le);
      var u := Insert(x, t[1..], le);
      assert r == [t[0]] + u;
      forall j | 1 <= j < |r| ensures le(r[j], t[0]) {
        assert r[j] in multiset(u);
        assert r[j] == x || r[j] in t[1..];
      }
    }
  }

  /** The result of `SortDesc` is a non-increasing permutation of its input. */
  lemma {:induction false} SortDescSorted<T(!new)>(s: seq<T>, le: (T, T) -> bool)
    requires TotalPreorder(le)
    ensures SortedDesc(SortDesc(s, le), le)
    ensures multiset(SortDesc(s, le)) == multiset(s)
  {
    if s != [] {
      SortDescSorted(s[1..], le);
      InsertSorted(s[0], SortDesc(s[1..], le), le);
    }
  }

  lemma {:induction false} TiesConcat<T>(a: seq<T>, b: seq<T>, le: (T, T) -> bool, x: T)
    ensures Ties(a + b, le, x) == Ties(a, le, x) + Ties(b, le, x)
  {
    if a == [] {
      assert a + b == b;
    } else {
      var h := if Tied(le, x, a[0]) then [a[0]] else [];
      assert (a + b)[0] == a[0];
      assert (a + b)[1..] == a[1..] + b;
      TiesConcat(a[1..], b, le, x);
      assert Ties(a + b, le, x) == h + Ties(a[1..] + b, le, x);
      assert Ties(a, le, x) == h + Ties(a[1..], le, x);
    }
  }

  /** An element whose key is above that of `y` is not tied with anything `y` is tied with. */
  lemma NotBothTied<T(!new)>(le: (T, T) -> bool, x: T, a: T, y: T)
    requires TotalPreorder(le)
    requires !le(a, y)
    ensures !(Tied(le, x, a) && Tied(le, x, y))
  {
  }

  lemma {:induction false} InsertTies<T(!new)>(y: T, t: seq<T>, le: (T, T) -> bool, x: T)
    requires TotalPreorder(le)
    ensures Ties(Insert(y, t, le), le, x) == (if Tied(le, x, y) then [y] else []) + Ties(t, le, x)
  {
    var hy := if Tied(le, x, y) then [y] else [];
    if t == [] || le(t[0], y) {
      assert Insert(y, t, le) == [y] + t;
      assert ([y] + t)[1..] == t;
    } else {
      var u := Insert(y, t[1..], le);
      var h := if Tied(le, x, t[0]) then [t[0]] else [];
      InsertTies(y, t[1..], le, x);
      assert Insert(y, t, le) == [t[0]] + u;
      assert ([t[0]] + u)[1..] == u;
      assert Ties([t[0]] + u, le, x) == h + Ties(u, le, x);
      assert Ties(t, le, x) == h + Ties(t[1..], le, x);
      NotBothTied(le, x, t[0], y);
      assert h + hy == hy + h;
    }
  }

  /** Stability: among elements with equal keys, `SortDesc` keeps the input order. */
  lemma {:induction false} SortDescStable<T(!new)>(s: seq<T>, le: (T, T) -> bool, x: T)
    requires TotalPreorder(le)
    ensures Ties(SortDesc(s, le), le, x) == Ties(s, le, x)
  {
    if s != [] {
      SortDescStable(s[1..], le, x);
      SortDescSorted(s[1..], le);
      InsertTies(s[0], SortDesc(s[1..], le), le, x);
    }
  }

  /** Sorting a list that is already non-increasing changes nothing. */
  lemma {:induction false} SortDescOfSorted<T>(s: seq<T>, le: (T, T) -> bool)
    requires SortedDesc(s, le)
    ensures SortDesc(s, le) == s
  {
    if s != [] {
      assert SortedDesc(s[1..], le);
      SortDescOfSorted(s[1..], le);
      assert s == [s[0]] + s[1..];
    }
  }

  /** No two elements of `s` share a key. */
  ghost predicate KeysDistinct<T, K>(s: seq<T>, key: T -> K) {
    forall i, j :: 0 <= i < j < |s| ==> key(s[i]) != key(s[j])
  }

  lemma RemoveAtMultiset<T>(a: seq<T>, k: nat)
    requires k < |a|
    ensures multiset(a[..k] + a[k + 1..]) == multiset(a) - multiset{a[k]}
  {
    assert a == a[..k] + [a[k]] + a[k + 1..];
  }

  /** Removing one element keeps the keys distinct, and no other element has its key. */
  lemma RemoveAtKeysDistinct<T, K>(a: seq<T>, k: nat, key: T -> K)
    requires k < |a| && KeysDistinct(a, key)
    ensures KeysDistinct(a[..k] + a[k + 1..], key)
    ensures forall y :: y in a[..k] + a[k + 1..] ==> key(y) != key(a[k])
  {
    var a' := a[..k] + a[k + 1..];
    forall p | 0 <= p < |a'| ensures a'[p] == a[if p < k then p else p + 1] {
    }
  }

  /** A permutation of a list with distinct keys has distinct keys. */
  lemma {:induction false} PermutationKeysDistinct<T, K>(a: seq<T>, b: seq<T>, key: T -> K)
    requires multiset(a) == multiset(b)
    requires KeysDistinct(a, key)
    ensures KeysDistinct(b, key)
    decreases |b|
  {
    if b != [] {
      var x := b[0];
      var t := b[1..];
      assert b == [x] + t;
      assert x in multiset(a);
      var k :| 0 <= k < |a| && a[k] == x;
      var a' := a[..k] + a[k + 1..];
      RemoveAtMultiset(a, k);
      assert multiset(t) == multiset(b) - multiset{x};
      RemoveAtKeysDistinct(a, k, key);
      PermutationKeysDistinct(a', t, key);
      forall y | y in t ensures key(y) != key(x) {
        assert y in multiset(a');
      }
      ConsKeysDistinct(x, t, key);
    }
  }

  /** Putting an element with a fresh key in front keeps the keys distinct. */
  lemma ConsKeysDistinct<T, K>(x: T, t: seq<T>, key: T -> K)
    requires KeysDistinct(t, key)
    requires forall y :: y in t ==> key(y) != key(x)
    ensures KeysDistinct([x] + t, key)
  {
    var s := [x] + t;
    forall i, j | 0 <= i < j < |s| ensures key(s[i]) != key(s[j]) {
      assert s[j] == t[j - 1];
      if i == 0 {
        assert t[j - 1] in t;
      } else {
        assert s[i] == t[i - 1];
      }
    }
  }

  /** The first `n` elements, or all of them when there are fewer (`take(n)`). */
  function Take<T>(s: seq<T>, n: nat): (r: seq<T>)
    ensures |r| == if |s| < n then |s| else n
    ensures r == s[..|r|]
  {
    if |s| <= n then s else s[..n]
  }

  /** The first `n` of a non-increasing list: non-increasing, drawn from the list, and every
      element left out is at most every element kept, with `n` kept. */
  lemma TakeOfSorted<T>(t: seq<T>, n: nat, le: (T, T) -> bool)
    requires SortedDesc(t, le)
    ensures SortedDesc(Take(t, n), le)
    ensures multiset(Take(t, n)) <= multiset(t)
    ensures forall x :: x in multiset(t) - multiset(Take(t, n)) ==>
      |Take(t, n)| == n && forall y :: y in Take(t, n) ==> le(x, y)
  {
    var r := Take(t, n);
    var rest := t[|r|..];
    assert t == r + rest;
    assert multiset(t) == multiset(r) + multiset(rest);
    forall x | x in multiset(t) - multiset(r)
      ensures |r| == n && forall y :: y in r ==> le(x, y)
    {
      assert x in rest;
      var j :| 0 <= j < |rest| && rest[j] == x;
      assert t[|r| + j] == x;
      forall y | y in r ensures le(x, y) {
        var i :| 0 <= i < |r| && r[i] == y;
        assert t[i] == y;
      }
    }
  }
}
