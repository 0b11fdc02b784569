/** Datatypes and notions shared by the modules. */
module Prelude {

  datatype Option<+T> = None | Some(value: T)

  datatype Result<+T, +E> = Ok(value: T) | Err(error: E)

  /** No repetitions. */
  predicate Distinct<T(==)>(s: seq<T>) { forall i, j | 0 <= i < j < |s| :: s[i] != s[j] }

  function Elements<T(==)>(s: seq<T>): set<T> { set x | x in s }

  lemma {:induction false} ElementsSize<T>(s: seq<T>)
    ensures |Elements(s)| <= |s|
    ensures Distinct(s) <==> |Elements(s)| == |s|
  {
    if s != [] {
      var front, x := s[..|s| - 1], s[|s| - 1];
      ElementsSize(front);
      assert s == front + [x];
      assert Elements(s) == Elements(front) + {x};
      if Distinct(s) {
        assert x !in front;
      } else if x !in front {
        assert !Distinct(front);
      }
    }
  }

  lemma {:induction false} SubsetSize<T>(a: set<T>, b: set<T>)
    requires a <= b
    ensures |a| <= |b|
  {
    if a != {} {
      var x :| x in a;
      SubsetSize(a - {x}, b - {x});
    }
  }

  /** `s[:n]`, whatever the length of `s`. */
  function Take<T>(s: seq<T>, n: nat): seq<T> { if n < |s| then s[..n] else s }

  /** How often `x` occurs. */
  function Times<T(==)>(s: seq<T>, x: T): nat {
    if s == [] then 0 else Times(s[..|s| - 1], x) + if s[|s| - 1] == x then 1 else 0
  }

  function Positions<T(==)>(s: seq<T>, x: T): set<nat> { set i: nat | i < |s| && s[i] == x }

  lemma {:induction false} TimesIsCount<T>(s: seq<T>, x: T)
    ensures Times(s, x) == |Positions(s, x)|
  {
    if s == [] {
      assert Positions(s, x) == {};
    } else {
      var front := s[..|s| - 1];
      TimesIsCount(front, x);
      assert Positions(s, x) == Positions(front, x) + if s[|s| - 1] == x then {|s| - 1} else {};
    }
  }

  /** `weights or [1.0] * n`. */
  function Weights(weights: seq<real>, n: nat): seq<real> {
    if weights == [] then seq(n, i => 1.0) else weights
  }

  /** Each item with its weight. */
  function Zip<T>(weights: seq<real>, items: seq<T>): (pairs: seq<(real, T)>)
    requires |weights| == |items|
    ensures |pairs| == |items|
  {
    seq(|items|, i requires 0 <= i < |items| => (weights[i], items[i]))
  }

  /** Weights and items of different number. */
  datatype FuseError = LengthMismatch

  lemma ProductSign(x: real, y: real)
    requires x >= 0.0 && y >= 0.0
    ensures x * y >= 0.0 && (x > 0.0 && y > 0.0 ==> x * y > 0.0)
  {
  }

  lemma QuotientRises(x: real, y: real, d: real)
    requires x < y && d > 0.0
    ensures x / d < y / d
  {
    assert (x / d) * d == x && (y / d) * d == y;
  }

  /** Some number is above all of a finite set. */
  lemma {:induction false} SomethingAbove(used: set<nat>) returns (n: nat)
    ensures forall m | m in used :: m < n
  {
    n := 0;
    if used != {} {
      var x :| x in used;
      var m := SomethingAbove(used - {x});
      n := if m <= x then x + 1 else m;
      forall y | y in used ensures y < n {
        if y != x { assert y in used - {x}; }
      }
    }
  }
}
