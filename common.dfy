/** Option, Result and Outcome: the error paths of the modelled code (a Kotlin `null`,
    a thrown exception) become values of these types. */
module Wrappers {

  datatype Option<+T> = None | Some(value: T) {
    function GetOr(default: T): T {
      match this
      case Some(v) => v
      case None => default
    }
  }

  datatype Result<+T, +E> = Success(value: T) | Failure(error: E) {
    predicate IsFailure() {
      Failure?
    }

    function PropagateFailure<U>(): Result<U, E>
      requires Failure?
    {
      Failure(error)
    }

    function Extract(): T
      requires Success?
    {
      value
    }
  }

  datatype Outcome<+E> = Pass | Fail(error: E)
}

/** Numeric conversions that Kotlin/JVM performs implicitly. */
module Numerics {

  const LONG_MIN: int := -0x8000_0000_0000_0000
  const LONG_MAX: int := 0x7FFF_FFFF_FFFF_FFFF
  const TWO_64: int := 0x1_0000_0000_0000_0000

  predicate IsLong(v: int) {
    LONG_MIN <= v <= LONG_MAX
  }

  /** Two's-complement wrap-around of a JVM `Long` operation. */
  function WrapLong(v: int): (r: int)
    ensures IsLong(r)
    ensures (r - v) % TWO_64 == 0
    ensures IsLong(v) ==> r == v
  {
    (v - LONG_MIN) % TWO_64 + LONG_MIN
  }

  /** A Long congruent to v modulo 2^64 is v's wrap-around. */
  lemma {:induction false} WrapUnique(v: int, a: int)
    requires IsLong(a) && (a - v) % TWO_64 == 0
    ensures WrapLong(v) == a
  {
    var r := WrapLong(v);
    var p := (r - v) / TWO_64;
    var q := (a - v) / TWO_64;
    assert r - v == p * TWO_64;
    assert a - v == q * TWO_64;
    assert r - a == (p - q) * TWO_64;
  }

  /** `Double.toInt()` / `toLong()` for values in range: rounds toward zero. */
  function TruncateToInt(r: real): (i: int)
    ensures r >= 0.0 ==> 0 <= i && i as real <= r < i as real + 1.0
    ensures r < 0.0 ==> i <= 0 && i as real - 1.0 < r <= i as real
  {
    if r >= 0.0 then r.Floor else -((-r).Floor)
  }

  function Abs(r: real): (a: real)
    ensures a >= 0.0
    ensures a == r || a == -r
  {
    if r < 0.0 then -r else r
  }
}

/** Sequence and set helpers shared by the models of list-processing code. */
module Collections {

  /** The elements of `s` that satisfy `p`, in order (Kotlin `filter`, `removeIf` on a copy). */
  function Filter<T(==, !new)>(s: seq<T>, p: T -> bool): (r: seq<T>)
    ensures |r| <= |s|
    ensures forall x :: x in r <==> x in s && p(x)
  {
    if s == [] then [] else (if p(s[0]) then [s[0]] else []) + Filter(s[1..], p)
  }

  /** Filtering twice keeps what both predicates keep. */
  lemma {:induction false} FilterTwice<T(!new)>(s: seq<T>, p: T -> bool, q: T -> bool, pq: T -> bool)
    requires forall i | 0 <= i < |s| :: pq(s[i]) == (p(s[i]) && q(s[i]))
    ensures Filter(Filter(s, p), q) == Filter(s, pq)
  {
    if s != [] {
      var h, t := s[0], s[1..];
      assert forall i | 0 <= i < |t| :: t[i] == s[i + 1];
      FilterTwice(t, p, q, pq);
      if p(h) {
        var ft := Filter(t, p);
        assert Filter(s, p) == [h] + ft;
        assert ([h] + ft)[0] == h && ([h] + ft)[1..] == ft;
        assert Filter([h] + ft, q) == (if q(h) then [h] else []) + Filter(ft, q);
      } else {
        assert Filter(s, p) == Filter(t, p);
      }
    }
  }

  /** Filtering by predicates that agree on the elements gives the same result. */
  lemma {:induction false} FilterAgree<T(!new)>(s: seq<T>, p: T -> bool, q: T -> bool)
    requires forall i | 0 <= i < |s| :: p(s[i]) == q(s[i])
    ensures Filter(s, p) == Filter(s, q)
  {
    if s != [] {
      assert forall i | 0 <= i < |s[1..]| :: s[1..][i] == s[i + 1];
      FilterAgree(s[1..], p, q);
    }
  }

  /** Filtering by a predicate that holds everywhere keeps everything. */
  lemma {:induction false} FilterAll<T(!new)>(s: seq<T>, p: T -> bool)
    requires forall i | 0 <= i < |s| :: p(s[i])
    ensures Filter(s, p) == s
  {
    if s != [] {
      assert forall i | 0 <= i < |s[1..]| :: s[1..][i] == s[i + 1];
      FilterAll(s[1..], p);
    }
  }

  predicate NoDuplicates<T(==)>(s: seq<T>) {
    forall i, j | 0 <= i < j < |s| :: s[i] != s[j]
  }

  /** The first occurrence of each element, in order (a list that skips what it contains). */
  function Dedup<T(==, !new)>(s: seq<T>): (r: seq<T>)
    ensures NoDuplicates(r)
    ensures forall x :: x in r <==> x in s
  {
    if s == [] then []
    else
      var n := |s| - 1;
      var d := Dedup(s[..n]);
      assert forall x | x in s :: x in s[..n] || x == s[n] by {
        assert s == s[..n] + [s[n]];
      }
      if s[n] in d then d else d + [s[n]]
  }

  /** A non-empty set has an element: the witness that lets a loop pick one. */
  lemma Element<T>(s: set<T>) returns (x: T)
    requires s != {}
    ensures x in s
  {
    assert exists y :: y in s by {
      if forall y :: y !in s {
        assert false;
      }
    }
    x :| x in s;
  }
}
