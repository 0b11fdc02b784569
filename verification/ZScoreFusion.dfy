/** `zscore_fuse` of `research_rank.py`, and what `propagate` makes of it when `make_system` mixes
    in the person scores. A score map is a list of entries in insertion order. */
module ZScoreFusion {
  import opened Prelude
  import opened RealSums
  import opened PersonGraph

  type Entries = seq<(Employee, real)>

  function ValueSum(m: Entries): real {
    if m == [] then 0.0 else ValueSum(m[..|m| - 1]) + m[|m| - 1].1
  }

  function Mean(m: Entries): real
    requires m != []
  {
    ValueSum(m) / |m| as real
  }

  /** `float(vals.std()) or 1.0`; the standard deviation is a parameter. */
  function Spread(std: Entries -> real, m: Entries): (sd: real)
    ensures sd != 0.0
  {
    if std(m) == 0.0 then 1.0 else std(m)
  }

  function ZScore(w: real, v: real, mu: real, sd: real): real
    requires sd != 0.0
  {
    w * (v - mu) / sd
  }

  /** What the entries of `e` in one map add, given the map's mean and spread. */
  function Added(m: Entries, e: Employee, w: real, mu: real, sd: real): real
    requires sd != 0.0
  {
    if m == [] then 0.0
    else
      Added(m[..|m| - 1], e, w, mu, sd) + if m[|m| - 1].0 == e then ZScore(w, m[|m| - 1].1, mu, sd) else 0.0
  }

  /** One weighted map; an empty one adds nothing. */
  function AddedBy(v: (real, Entries), e: Employee, std: Entries -> real): real {
    if v.1 == [] then 0.0 else Added(v.1, e, v.0, Mean(v.1), Spread(std, v.1))
  }

  function Fused(maps: seq<(real, Entries)>, e: Employee, std: Entries -> real): real {
    if maps == [] then 0.0
    else Fused(maps[..|maps| - 1], e, std) + AddedBy(maps[|maps| - 1], e, std)
  }

  function Keys(m: Entries): set<Employee> { set p | p in m :: p.0 }

  function AllKeys(maps: seq<(real, Entries)>): set<Employee> { set v, p | v in maps && p in v.1 :: p.0 }

  function FusedScores(maps: seq<(real, Entries)>, std: Entries -> real): map<Employee, real> {
    map e | e in AllKeys(maps) :: Fused(maps, e, std)
  }

  // ---------------------------------------------------------------- the loops

  function ScoreOf(total: map<Employee, real>, e: Employee): real { if e in total then total[e] else 0.0 }

  method ZScoreFuse(scoreMaps: seq<Entries>, weights: seq<real>, std: Entries -> real)
    returns (r: Result<map<Employee, real>, FuseError>)
    ensures r.Err? <==> weights != [] && |weights| != |scoreMaps|
    ensures weights == [] ==>
              r == Ok(FusedScores(seq(|scoreMaps|, i requires 0 <= i < |scoreMaps| => (1.0, scoreMaps[i])), std))
    ensures weights != [] && |weights| == |scoreMaps| ==>
              r == Ok(FusedScores(seq(|scoreMaps|, i requires 0 <= i < |scoreMaps| => (weights[i], scoreMaps[i])), std))
  {
    var ws := Weights(weights, |scoreMaps|);
    if |ws| != |scoreMaps| {
      return Err(LengthMismatch);
    }
    ghost var maps := Zip(ws, scoreMaps);
    var total: map<Employee, real> := map[];
    for p := 0 to |scoreMaps|
      invariant total == FusedScores(maps[..p], std)
    {
      ghost var before := total;
      var w, sm := ws[p], scoreMaps[p];
      if sm != [] {
        total := AddMap(total, w, sm, Mean(sm), Spread(std, sm));
      }
      OneMoreMap(maps, p, std, before, total);
    }
    assert maps[..|scoreMaps|] == maps;
    assert weights == [] ==> maps == seq(|scoreMaps|, i requires 0 <= i < |scoreMaps| => (1.0, scoreMaps[i]));
    r := Ok(total);
  }

  /** `total[key] += w * (v - mu) / sd` over one map. */
  method AddMap(before: map<Employee, real>, w: real, sm: Entries, mu: real, sd: real)
    returns (total: map<Employee, real>)
    requires sd != 0.0
    ensures total.Keys == before.Keys + Keys(sm)
    ensures forall e | e in total :: total[e] == ScoreOf(before, e) + Added(sm, e, w, mu, sd)
  {
    total := before;
    for i := 0 to |sm|
      invariant total.Keys == before.Keys + Keys(sm[..i])
      invariant forall e | e in total :: total[e] == ScoreOf(before, e) + Added(sm[..i], e, w, mu, sd)
    {
      ghost var previous := total;
      var (key, v) := sm[i];
      total := total[key := ScoreOf(total, key) + ZScore(w, v, mu, sd)];
      assert sm[..i + 1] == sm[..i] + [sm[i]];
      assert sm[..i + 1][..i] == sm[..i];
      hide ZScore;
      forall e | e in total ensures total[e] == ScoreOf(before, e) + Added(sm[..i + 1], e, w, mu, sd) {
        if e !in previous { AddedToNobodyElse(sm[..i], e, w, mu, sd); }
      }
    }
    assert sm[..|sm|] == sm;
  }

  lemma {:induction false} AddedToNobodyElse(m: Entries, e: Employee, w: real, mu: real, sd: real)
    requires sd != 0.0 && e !in Keys(m)
    ensures Added(m, e, w, mu, sd) == 0.0
  {
    if m != [] {
      var front, last := m[..|m| - 1], m[|m| - 1];
      assert last in m && forall p | p in front :: p in m;
      AddedToNobodyElse(front, e, w, mu, sd);
    }
  }

  lemma {:induction false} FusedForNobodyElse(maps: seq<(real, Entries)>, e: Employee, std: Entries -> real)
    requires e !in AllKeys(maps)
    ensures Fused(maps, e, std) == 0.0
  {
    if maps != [] {
      var front, v := maps[..|maps| - 1], maps[|maps| - 1];
      assert v in maps && forall u | u in front :: u in maps;
      FusedForNobodyElse(front, e, std);
      if v.1 != [] { AddedToNobodyElse(v.1, e, v.0, Mean(v.1), Spread(std, v.1)); }
    }
  }

  lemma OneMoreMap(maps: seq<(real, Entries)>, p: nat, std: Entries -> real, before: map<Employee, real>,
                   total: map<Employee, real>)
    requires p < |maps| && before == FusedScores(maps[..p], std)
    requires total.Keys == before.Keys + Keys(maps[p].1)
    requires forall e | e in total :: total[e] == ScoreOf(before, e) + AddedBy(maps[p], e, std)
    ensures total == FusedScores(maps[..p + 1], std)
  {
    assert maps[..p + 1] == maps[..p] + [maps[p]];
    assert maps[..p + 1][..p] == maps[..p];
    forall e | e in total ensures total[e] == Fused(maps[..p + 1], e, std) {
      if e !in before { FusedForNobodyElse(maps[..p], e, std); }
    }
  }

  // ----------------------------------------------------------- what a score is

  /** Maps add up. */
  lemma {:induction false} FusedIsAdditive(a: seq<(real, Entries)>, b: seq<(real, Entries)>, e: Employee,
                                           std: Entries -> real)
    ensures Fused(a + b, e, std) == Fused(a, e, std) + Fused(b, e, std)
  {
    hide AddedBy;
    if b == [] {
      assert a + b == a;
    } else {
      FusedIsAdditive(a, b[..|b| - 1], e, std);
      assert (a + b)[..|a + b| - 1] == a + b[..|b| - 1];
    }
  }

  lemma {:induction false} AddedOnce(m: Entries, i: nat, w: real, mu: real, sd: real)
    requires sd != 0.0 && i < |m| && forall j | 0 <= j < |m| && j != i :: m[j].0 != m[i].0
    ensures Added(m, m[i].0, w, mu, sd) == w * (m[i].1 - mu) / sd
  {
    var front := m[..|m| - 1];
    if i == |m| - 1 {
      AddedToNobodyElse(front, m[i].0, w, mu, sd);
    } else {
      AddedOnce(front, i, w, mu, sd);
    }
  }

  /** One map alone: the weighted distance of an entry from the mean of all entries, in units of their
      standard deviation, or in units of 1 when that is zero. */
  lemma ScoreOfEntry(m: Entries, i: nat, w: real, std: Entries -> real, mu: real, sd: real)
    requires i < |m| && forall j | 0 <= j < |m| && j != i :: m[j].0 != m[i].0
    requires mu * |m| as real == ValueSum(m) && sd == if std(m) == 0.0 then 1.0 else std(m)
    ensures Fused([(w, m)], m[i].0, std) == w * (m[i].1 - mu) / sd
  {
    assert [(w, m)][..0] == [];
    MeanIs(m, mu);
    AddedOnce(m, i, w, mu, sd);
  }

  lemma MeanIs(m: Entries, mu: real)
    requires m != [] && mu * |m| as real == ValueSum(m)
    ensures Mean(m) == mu
  {
    assert Mean(m) * |m| as real == ValueSum(m);
  }

  /** A higher value in a map of positive weight scores higher. */
  lemma HigherValueScoresHigher(m: Entries, i: nat, j: nat, w: real, std: Entries -> real)
    requires i < |m| && j < |m| && m[i].1 > m[j].1 && w > 0.0 && std(m) >= 0.0
    requires forall k, l | 0 <= k < l < |m| :: m[k].0 != m[l].0
    ensures Fused([(w, m)], m[i].0, std) > Fused([(w, m)], m[j].0, std)
  {
    var mu, sd := Mean(m), Spread(std, m);
    assert mu * |m| as real == ValueSum(m);
    ScoreOfEntry(m, i, w, std, mu, sd);
    ScoreOfEntry(m, j, w, std, mu, sd);
    hide *;
    ZScoreRises(w, m[j].1 - mu, m[i].1 - mu, sd);
  }

  lemma ZScoreRises(w: real, x: real, y: real, sd: real)
    requires w > 0.0 && sd > 0.0 && x < y
    ensures w * x / sd < w * y / sd
  {
    var p, q := w * x / sd, w * y / sd;
    assert p * sd == w * x && q * sd == w * y;
    assert w * (y - x) > 0.0;
    if p >= q { ProductSign(p - q, sd); }
  }

  // ------------------------------------------------------------- it sums to zero

  function AddedTo(m: Entries, ids: seq<Employee>, w: real, mu: real, sd: real): nat -> real
    requires sd != 0.0
  {
    (i: nat) => if i < |ids| then Added(m, ids[i], w, mu, sd) else 0.0
  }

  function FusedTo(maps: seq<(real, Entries)>, ids: seq<Employee>, std: Entries -> real): nat -> real {
    (i: nat) => if i < |ids| then Fused(maps, ids[i], std) else 0.0
  }

  function AddedByTo(v: (real, Entries), ids: seq<Employee>, std: Entries -> real): nat -> real {
    (i: nat) => if i < |ids| then AddedBy(v, ids[i], std) else 0.0
  }

  function Spike(at: nat, x: real): nat -> real { (i: nat) => if i == at then x else 0.0 }

  lemma {:induction false} SumOfSpike(at: nat, x: real, n: nat)
    ensures Sum(Spike(at, x), n) == if at < n then x else 0.0
  {
    if n > 0 { SumOfSpike(at, x, n - 1); }
  }

  function ZSum(m: Entries, w: real, mu: real, sd: real): real
    requires sd != 0.0
  {
    if m == [] then 0.0 else ZSum(m[..|m| - 1], w, mu, sd) + ZScore(w, m[|m| - 1].1, mu, sd)
  }

  /** Added up over people, each entry counts once. */
  lemma {:induction false} SumOverPeople(m: Entries, ids: seq<Employee>, w: real, mu: real, sd: real)
    requires sd != 0.0 && Distinct(ids) && forall p | p in m :: p.0 in ids
    ensures Sum(AddedTo(m, ids, w, mu, sd), |ids|) == ZSum(m, w, mu, sd)
  {
    var f := AddedTo(m, ids, w, mu, sd);
    if m == [] {
      SumZero(f, |ids|);
    } else {
      var front, last := m[..|m| - 1], m[|m| - 1];
      assert last in m && forall p | p in front :: p in m;
      SumOverPeople(front, ids, w, mu, sd);
      var at, z := Position(ids, last.0), ZScore(w, last.1, mu, sd);
      SumOfSpike(at, z, |ids|);
      hide Sum, ZScore;
      SumPlus(f, AddedTo(front, ids, w, mu, sd), Spike(at, z), |ids|);
    }
  }

  lemma ZScoreSplits(w: real, v: real, mu: real, sd: real)
    requires sd != 0.0
    ensures ZScore(w, v, mu, sd) == Scale(w / sd, v - mu)
  {
  }

  lemma {:induction false} ZSumIsScaled(m: Entries, w: real, mu: real, sd: real)
    requires sd != 0.0
    ensures ZSum(m, w, mu, sd) == Scale(w / sd, ValueSum(m) - |m| as real * mu)
  {
    if m == [] {
      ScaleUnits(w / sd, 0.0);
    } else {
      var front, last := m[..|m| - 1], m[|m| - 1];
      ZSumIsScaled(front, w, mu, sd);
      ZScoreSplits(w, last.1, mu, sd);
      OneLess(|m| as real, mu);
      hide Scale, ZScore;
      ScaleDistributes(w / sd, ValueSum(front) - |front| as real * mu, last.1 - mu);
    }
  }

  lemma OneLess(n: real, mu: real)
    ensures (n - 1.0) * mu == n * mu - mu
  {
  }

  /** The z-scores of one map sum to zero, whatever spread they are divided by. */
  lemma ZScoresSumToZero(m: Entries, w: real, sd: real)
    requires m != [] && sd != 0.0
    ensures ZSum(m, w, Mean(m), sd) == 0.0
  {
    ZSumIsScaled(m, w, Mean(m), sd);
    assert |m| as real * Mean(m) == ValueSum(m);
    ScaleUnits(w / sd, 0.0);
  }

  lemma {:induction false} FusedSumsToZero(maps: seq<(real, Entries)>, ids: seq<Employee>, std: Entries -> real)
    requires Distinct(ids) && forall v | v in maps :: forall p | p in v.1 :: p.0 in ids
    ensures Sum(FusedTo(maps, ids, std), |ids|) == 0.0
  {
    var f := FusedTo(maps, ids, std);
    if maps == [] {
      SumZero(f, |ids|);
    } else {
      var front, v := maps[..|maps| - 1], maps[|maps| - 1];
      assert v in maps && forall u | u in front :: u in maps;
      FusedSumsToZero(front, ids, std);
      var g := AddedByTo(v, ids, std);
      if v.1 == [] {
        SumZero(g, |ids|);
      } else {
        var mu, sd := Mean(v.1), Spread(std, v.1);
        SumOverPeople(v.1, ids, v.0, mu, sd);
        ZScoresSumToZero(v.1, v.0, sd);
        SumEqual(g, AddedTo(v.1, ids, v.0, mu, sd), |ids|);
      }
      hide Sum, AddedBy, Mean, Spread;
      SumPlus(f, FusedTo(front, ids, std), g, |ids|);
    }
  }

  /** As real numbers, the fused z-scores of people in the index add up to zero. */
  lemma FusedTotalIsZero(maps: seq<(real, Entries)>, std: Entries -> real, ids: seq<Employee>)
    requires Distinct(ids) && forall v | v in maps :: forall p | p in v.1 :: p.0 in ids
    ensures Total(Initial(FusedScores(maps, std), ids)) == 0.0
  {
    var scores := FusedScores(maps, std);
    var z := Initial(scores, ids);
    FusedSumsToZero(maps, ids, std);
    forall i: nat | i < |ids| ensures Components(z)(i) == FusedTo(maps, ids, std)(i) {
      if ids[i] !in scores { FusedForNobodyElse(maps, ids[i], std); }
    }
    hide Sum, Fused, AllKeys;
    SumEqual(Components(z), FusedTo(maps, ids, std), |ids|);
  }

  /** So for mixed scores the test of `propagate` for a zero total asks about rounding only. Its
      two outcomes differ: the total stays zero if it holds, and becomes that of smoothing if not. */
  lemma MixedScoresByTest(zero: bool, maps: seq<(real, Entries)>, std: Entries -> real, projects: seq<seq<Employee>>,
                          ids: seq<Employee>, alpha: real, steps: nat)
    requires Distinct(ids) && steps >= 1 && forall v | v in maps :: forall p | p in v.1 :: p.0 in ids
    ensures var a := Adjacency(projects, ids);
            var scores := FusedScores(maps, std);
            Total(Initial(PropagatedBy(zero, scores, Normalised(a), ids, alpha, steps), ids))
            == if zero then 0.0 else 0.0 - (1.0 - alpha) * IsolatedMass(a, Initial(scores, ids))
  {
    hide *;
    FusedTotalIsZero(maps, std, ids);
    TotalByTest(zero, FusedScores(maps, std), projects, ids, alpha, steps);
  }
}
