/** `ndcg_at_k` of `bench_embeddings.py`. The discount `1 / log2(i + 2)` is a parameter of
    which only positivity and strict decrease are used. */
module Ndcg {
  import opened Prelude

  type Id = nat

  ghost predicate IsDiscount(d: nat -> real) {
    (forall i :: d(i) > 0.0) && forall i, j | i < j :: d(i) > d(j)
  }

  /** Discounts of the gold items among the first `n` ranks. */
  function Gained(ranked: seq<Id>, gold: set<Id>, d: nat -> real, n: nat): real
    requires n <= |ranked|
  {
    if n == 0 then 0.0
    else Gained(ranked, gold, d, n - 1) + if ranked[n - 1] in gold then d(n - 1) else 0.0
  }

  /** The sum of the first `n` discounts. */
  function Ideal(d: nat -> real, n: nat): real {
    if n == 0 then 0.0 else Ideal(d, n - 1) + d(n - 1)
  }

  function Min(a: nat, b: nat): nat { if a < b then a else b }

  /** No score without gold; 0 when nothing may be looked at. */
  function NdcgAtK(ranked: seq<Id>, gold: seq<Id>, k: nat, d: nat -> real): Option<real> {
    if gold == [] then None
    else
      var dcg := Gained(ranked, Elements(gold), d, Min(k, |ranked|));
      var ideal := Ideal(d, Min(k, |Elements(gold)|));
      Some(if ideal != 0.0 then dcg / ideal else 0.0)
  }

  /** How many of the first `n` ranks are gold. */
  function Hits(ranked: seq<Id>, gold: set<Id>, n: nat): nat
    requires n <= |ranked|
  {
    if n == 0 then 0 else Hits(ranked, gold, n - 1) + if ranked[n - 1] in gold then 1 else 0
  }

  /** The first `m` ranks are all gold. */
  predicate GoldFirst(ranked: seq<Id>, gold: set<Id>, m: nat) {
    m <= |ranked| && forall i | 0 <= i < m :: ranked[i] in gold
  }

  lemma {:induction false} IdealGrows(d: nat -> real, m: nat, n: nat)
    requires IsDiscount(d) && m <= n
    ensures 0.0 <= Ideal(d, m) <= Ideal(d, n) && (m < n ==> Ideal(d, m) < Ideal(d, n))
  {
    if n > 0 { IdealGrows(d, if m == n then m - 1 else m, n - 1); }
  }

  /** Hits gain at most what as many hits at the top would, and that much only at the top. */
  lemma {:induction false} GainedAtMostIdeal(ranked: seq<Id>, gold: set<Id>, d: nat -> real, n: nat)
    requires IsDiscount(d) && n <= |ranked|
    ensures Hits(ranked, gold, n) <= n
    ensures 0.0 <= Gained(ranked, gold, d, n) <= Ideal(d, Hits(ranked, gold, n))
    ensures Gained(ranked, gold, d, n) == Ideal(d, Hits(ranked, gold, n)) <==>
            GoldFirst(ranked, gold, Hits(ranked, gold, n))
  {
    if n > 0 {
      GainedAtMostIdeal(ranked, gold, d, n - 1);
      var h := Hits(ranked, gold, n - 1);
      if ranked[n - 1] in gold {
        assert h < n - 1 ==> d(h) > d(n - 1);
        if GoldFirst(ranked, gold, h + 1) && h < n - 1 {
          HitsOfGoldFirst(ranked, gold, h + 1, n - 1);
        }
        if h == n - 1 { AllHits(ranked, gold, h); }
      }
    }
  }

  lemma {:induction false} AllHits(ranked: seq<Id>, gold: set<Id>, n: nat)
    requires n <= |ranked|
    ensures Hits(ranked, gold, n) <= n
    ensures Hits(ranked, gold, n) == n <==> GoldFirst(ranked, gold, n)
  {
    if n > 0 { AllHits(ranked, gold, n - 1); }
  }

  lemma {:induction false} HitsOfGoldFirst(ranked: seq<Id>, gold: set<Id>, m: nat, n: nat)
    requires GoldFirst(ranked, gold, m) && m <= n <= |ranked|
    ensures Hits(ranked, gold, n) >= m
  {
    if m == n { AllHits(ranked, gold, n); } else { HitsOfGoldFirst(ranked, gold, m, n - 1); }
  }

  function Members(ranked: seq<Id>, gold: set<Id>, n: nat): set<Id>
    requires n <= |ranked|
  {
    set i | 0 <= i < n && ranked[i] in gold :: ranked[i]
  }

  /** Without repetitions there are at most as many hits as gold items. */
  lemma {:induction false} HitsAreMembers(ranked: seq<Id>, gold: set<Id>, n: nat)
    requires n <= |ranked| && Distinct(ranked[..n])
    ensures Hits(ranked, gold, n) == |Members(ranked, gold, n)| <= |gold|
  {
    if n > 0 {
      assert ranked[..n - 1] == ranked[..n][..n - 1];
      HitsAreMembers(ranked, gold, n - 1);
      var x := ranked[n - 1];
      assert forall i | 0 <= i < n - 1 :: ranked[i] == ranked[..n][i] != ranked[..n][n - 1] == x;
      assert x !in Members(ranked, gold, n - 1);
      assert Members(ranked, gold, n) == Members(ranked, gold, n - 1) + if x in gold then {x} else {};
    }
    SubsetSize(Members(ranked, gold, n), gold);
  }

  lemma QuotientBounds(x: real, y: real)
    requires 0.0 <= x <= y && y > 0.0
    ensures 0.0 <= x / y <= 1.0 && (x / y == 1.0 <==> x == y)
  {
    assert (x / y) * y == x;
  }

  /** Without repetitions inside the cut-off nDCG@k lies between 0 and 1, and is 1 exactly when
      there is something to look at and the first `min(k, |gold|)` ranks are all gold. */
  lemma NdcgRange(ranked: seq<Id>, gold: seq<Id>, k: nat, d: nat -> real)
    requires IsDiscount(d) && Distinct(ranked[..Min(k, |ranked|)]) && gold != []
    ensures NdcgAtK(ranked, gold, k, d).Some?
    ensures 0.0 <= NdcgAtK(ranked, gold, k, d).value <= 1.0
    ensures NdcgAtK(ranked, gold, k, d).value == 1.0 <==>
            k > 0 && GoldFirst(ranked, Elements(gold), Min(k, |Elements(gold)|))
  {
    var g := Elements(gold);
    var n, m := Min(k, |ranked|), Min(k, |g|);
    var h := Hits(ranked, g, n);
    assert gold[0] in g;
    GainedAtMostIdeal(ranked, g, d, n);
    HitsAreMembers(ranked, g, n);
    IdealGrows(d, h, m);
    IdealGrows(d, 0, m);
    if m > 0 {
      QuotientBounds(Gained(ranked, g, d, n), Ideal(d, m));
      if GoldFirst(ranked, g, m) { HitsOfGoldFirst(ranked, g, m, n); }
    }
  }

  /** Exchanges ranks `i` and `i + 1`. */
  function Exchange(ranked: seq<Id>, i: nat): seq<Id>
    requires i + 1 < |ranked|
  {
    ranked[i := ranked[i + 1]][i + 1 := ranked[i]]
  }

  lemma {:induction false} ExchangeGains(ranked: seq<Id>, gold: set<Id>, d: nat -> real, i: nat, n: nat)
    requires IsDiscount(d) && i + 1 < n <= |ranked|
    requires ranked[i] !in gold && ranked[i + 1] in gold
    ensures Gained(Exchange(ranked, i), gold, d, n) == Gained(ranked, gold, d, n) + d(i) - d(i + 1)
  {
    if n == i + 2 {
      SameBefore(ranked, Exchange(ranked, i), gold, d, i);
    } else {
      ExchangeGains(ranked, gold, d, i, n - 1);
    }
  }

  lemma {:induction false} SameBefore(a: seq<Id>, b: seq<Id>, gold: set<Id>, d: nat -> real, n: nat)
    requires n <= |a| && n <= |b| && a[..n] == b[..n]
    ensures Gained(a, gold, d, n) == Gained(b, gold, d, n)
  {
    if n > 0 {
      assert a[..n - 1] == a[..n][..n - 1] == b[..n][..n - 1] == b[..n - 1];
      assert a[n - 1] == a[..n][n - 1] == b[..n][n - 1] == b[n - 1];
      SameBefore(a, b, gold, d, n - 1);
    }
  }

  /** Exchanging a gold item inside the cut-off with a non-gold item just above it raises
      nDCG@k strictly. */
  lemma ExchangeRaisesNdcg(ranked: seq<Id>, gold: seq<Id>, k: nat, d: nat -> real, i: nat)
    requires IsDiscount(d) && i + 1 < Min(k, |ranked|)
    requires ranked[i] !in gold && ranked[i + 1] in gold
    ensures NdcgAtK(ranked, gold, k, d).Some? && NdcgAtK(Exchange(ranked, i), gold, k, d).Some?
    ensures NdcgAtK(Exchange(ranked, i), gold, k, d).value > NdcgAtK(ranked, gold, k, d).value
  {
    var g := Elements(gold);
    assert ranked[i + 1] in g;
    ExchangeGains(ranked, g, d, i, Min(k, |ranked|));
    IdealGrows(d, 0, Min(k, |g|));
    assert d(i) > d(i + 1);
    QuotientRises(Gained(ranked, g, d, Min(k, |ranked|)),
                  Gained(Exchange(ranked, i), g, d, Min(k, |ranked|)), Ideal(d, Min(k, |g|)));
  }

  lemma {:induction false} TwoHitsGain(ranked: seq<Id>, gold: set<Id>, d: nat -> real, i: nat, j: nat, n: nat)
    requires IsDiscount(d) && i < j < n <= |ranked| && ranked[i] in gold && ranked[j] in gold
    ensures Gained(ranked, gold, d, n) >= d(i) + d(j)
  {
    if j < n - 1 {
      TwoHitsGain(ranked, gold, d, i, j, n - 1);
    } else {
      OneHitGains(ranked, gold, d, i, n - 1);
    }
  }

  lemma {:induction false} OneHitGains(ranked: seq<Id>, gold: set<Id>, d: nat -> real, i: nat, n: nat)
    requires IsDiscount(d) && i < n <= |ranked| && ranked[i] in gold
    ensures Gained(ranked, gold, d, n) >= d(i)
  {
    if i < n - 1 {
      OneHitGains(ranked, gold, d, i, n - 1);
    } else {
      GainedAtMostIdeal(ranked, gold, d, n - 1);
    }
  }

  /** Under every discount a gold item on both of the first two ranks gives more than 1. */
  lemma RepetitionOnTopExceedsOne(ranked: seq<Id>, k: nat, d: nat -> real)
    requires IsDiscount(d) && 1 < Min(k, |ranked|) && ranked[0] == ranked[1]
    ensures NdcgAtK(ranked, [ranked[0]], k, d).value > 1.0
  {
    TwoHitsGain(ranked, {ranked[0]}, d, 0, 1, Min(k, |ranked|));
    assert d(1) > 0.0;
    LoneGold(ranked, ranked[0], k, d);
  }

  /** With one gold item the score is what it gains against the first rank. */
  lemma LoneGold(ranked: seq<Id>, x: Id, k: nat, d: nat -> real)
    requires IsDiscount(d) && k > 0
    ensures Gained(ranked, {x}, d, Min(k, |ranked|)) > d(0) ==> NdcgAtK(ranked, [x], k, d).value > 1.0
  {
    assert Elements([x]) == {x};
    assert Ideal(d, 0) == 0.0 && Ideal(d, 1) == d(0);
    var gain := Gained(ranked, {x}, d, Min(k, |ranked|));
    hide Gained, Ideal, IsDiscount;
    assert d(0) > 0.0 by { FirstIsPositive(d); }
    if gain > d(0) { QuotientRises(d(0), gain, d(0)); }
    QuotientBounds(d(0), d(0));
  }

  lemma {:induction false} GainOfOne(ranked: seq<Id>, r: nat, d: nat -> real, n: nat)
    requires r < n <= |ranked| && forall i | 0 <= i < n && i != r :: ranked[i] != ranked[r]
    ensures Gained(ranked, {ranked[r]}, d, n) == d(r)
  {
    if n - 1 == r { NoGain(ranked, {ranked[r]}, d, r); } else { GainOfOne(ranked, r, d, n - 1); }
  }

  lemma {:induction false} NoGain(ranked: seq<Id>, gold: set<Id>, d: nat -> real, n: nat)
    requires n <= |ranked| && forall i | 0 <= i < n :: ranked[i] !in gold
    ensures Gained(ranked, gold, d, n) == 0.0
  {
    if n > 0 { NoGain(ranked, gold, d, n - 1); }
  }

  /** A single gold item that stands once inside the cut-off, at index `r`, scores its discount against
      the first one; outside the cut-off it scores nothing. */
  lemma LoneGoldScores(ranked: seq<Id>, x: Id, k: nat, d: nat -> real)
    requires IsDiscount(d) && k > 0
    ensures x !in ranked[..Min(k, |ranked|)] ==> NdcgAtK(ranked, [x], k, d) == Some(0.0)
    ensures forall r: nat | r < Min(k, |ranked|) && ranked[r] == x && Distinct(ranked[..Min(k, |ranked|)]) ::
              NdcgAtK(ranked, [x], k, d) == Some(d(r) / d(0))
  {
    var n := Min(k, |ranked|);
    assert Elements([x]) == {x};
    assert Ideal(d, 0) == 0.0 && Ideal(d, 1) == d(0);
    FirstIsPositive(d);
    if x !in ranked[..n] {
      forall i | 0 <= i < n ensures ranked[i] !in {x} { assert ranked[..n][i] == ranked[i]; }
      NoGain(ranked, {x}, d, n);
    }
    forall r: nat | r < n && ranked[r] == x && Distinct(ranked[..n]) ensures Gained(ranked, {x}, d, n) == d(r) {
      assert forall i | 0 <= i < n :: ranked[..n][i] == ranked[i];
      GainOfOne(ranked, r, d, n);
    }
  }

  /** Gains of disjoint gold sets add up. */
  lemma {:induction false} GainsAddUp(ranked: seq<Id>, g: set<Id>, h: set<Id>, d: nat -> real, n: nat)
    requires n <= |ranked| && g !! h
    ensures Gained(ranked, g + h, d, n) == Gained(ranked, g, d, n) + Gained(ranked, h, d, n)
  {
    if n > 0 { GainsAddUp(ranked, g, h, d, n - 1); }
  }

  lemma FirstIsPositive(d: nat -> real)
    requires IsDiscount(d)
    ensures d(0) > 0.0
  {
  }

  lemma {:induction false} AllGold(ranked: seq<Id>, gold: set<Id>, d: nat -> real, n: nat)
    requires n <= |ranked| && forall i | 0 <= i < n :: ranked[i] in gold
    ensures Gained(ranked, gold, d, n) == Ideal(d, n)
  {
    if n > 0 { AllGold(ranked, gold, d, n - 1); }
  }

  /** With everything inside the cut-off as gold, a repetition gains more than there is to gain. */
  lemma RepetitionExceedsOne(ranked: seq<Id>, k: nat, d: nat -> real)
    requires IsDiscount(d) && !Distinct(ranked[..Min(k, |ranked|)])
    ensures var gold := ranked[..Min(k, |ranked|)]; gold != [] && NdcgAtK(ranked, gold, k, d).value > 1.0
  {
    var n := Min(k, |ranked|);
    var gold := ranked[..n];
    var m := |Elements(gold)|;
    assert gold[0] in Elements(gold);
    forall i | 0 <= i < n ensures ranked[i] in Elements(gold) {
      assert gold[i] == ranked[i];
    }
    ElementsSize(gold);
    AllGold(ranked, Elements(gold), d, n);
    IdealGrows(d, m, n);
    IdealGrows(d, 0, m);
    QuotientRises(Ideal(d, m), Ideal(d, n), Ideal(d, m));
    QuotientBounds(Ideal(d, m), Ideal(d, m));
  }

  /** For every discount: nDCG@k is at most 1 for all gold lists exactly when no item is repeated
      inside the cut-off. */
  lemma AtMostOneExactlyWhenDistinct(ranked: seq<Id>, k: nat, d: nat -> real)
    requires IsDiscount(d)
    ensures (forall gold: seq<Id> | gold != [] :: NdcgAtK(ranked, gold, k, d).value <= 1.0) <==>
            Distinct(ranked[..Min(k, |ranked|)])
  {
    if Distinct(ranked[..Min(k, |ranked|)]) {
      forall gold: seq<Id> | gold != [] ensures NdcgAtK(ranked, gold, k, d).value <= 1.0 {
        NdcgRange(ranked, gold, k, d);
      }
    } else {
      RepetitionExceedsOne(ranked, k, d);
    }
  }
}
