/** `rrf_fuse` of `research_rank.py` and its use in the hybrid setting of `research_ablation.py`.
    Items stand for their place in the order of `str(item)`. */
module RankFusion {
  import opened Prelude
  import opened Ranking

  /** One ranked list and its weight. */
  type Voter = (real, seq<Id>)

  const RRF_K: nat := 60

  // ------------------------------------------------------------------- fusion

  /** What the occurrences of `item` in a ranking earn: `w / (k + rank + 1)` each. */
  function Earned(v: Voter, k: nat, item: Id): real
    decreases |v.1|
  {
    if v.1 == [] then 0.0
    else
      var n := |v.1| - 1;
      Earned((v.0, v.1[..n]), k, item) + if v.1[n] == item then v.0 / (k + n + 1) as real else 0.0
  }

  function Fused(voters: seq<Voter>, k: nat, item: Id): real {
    if voters == [] then 0.0
    else Fused(voters[..|voters| - 1], k, item) + Earned(voters[|voters| - 1], k, item)
  }

  function Items(voters: seq<Voter>): set<Id> {
    set v, x | v in voters && x in v.1 :: x
  }

  function FusedScores(voters: seq<Voter>, k: nat): Scores {
    map x | x in Items(voters) :: Fused(voters, k, x)
  }

  function FusedRanking(voters: seq<Voter>, k: nat): seq<Id> {
    ToRanking(FusedScores(voters, k))
  }

  lemma EarnedSnoc(w: real, ranking: seq<Id>, r: nat, k: nat, item: Id)
    requires r < |ranking|
    ensures Earned((w, ranking[..r + 1]), k, item)
         == Earned((w, ranking[..r]), k, item) + if ranking[r] == item then w / (k + r + 1) as real else 0.0
  {
    assert ranking[..r + 1][..r] == ranking[..r];
  }

  method RrfFuse(rankings: seq<seq<Id>>, k: nat, weights: seq<real>) returns (r: Result<seq<Id>, FuseError>)
    ensures r.Err? <==> weights != [] && |weights| != |rankings|
    ensures weights == [] ==>
              r == Ok(FusedRanking(seq(|rankings|, i requires 0 <= i < |rankings| => (1.0, rankings[i])), k))
    ensures weights != [] && |weights| == |rankings| ==>
              r == Ok(FusedRanking(seq(|rankings|, i requires 0 <= i < |rankings| => (weights[i], rankings[i])), k))
  {
    var ws := Weights(weights, |rankings|);
    if |ws| != |rankings| {
      return Err(LengthMismatch);
    }
    ghost var voters := Zip(ws, rankings);
    var score: Scores := map[];
    for p := 0 to |rankings|
      invariant score == FusedScores(voters[..p], k)
    {
      ghost var before := score;
      score := AddRanking(score, ws[p], rankings[p], k);
      OneMoreVoter(voters, p, k, before, score);
    }
    assert voters[..|rankings|] == voters;
    assert weights == [] ==> voters == seq(|rankings|, i requires 0 <= i < |rankings| => (1.0, rankings[i]));
    r := Ok(ToRanking(score));
  }

  function ScoreOf(score: Scores, x: Id): real { if x in score then score[x] else 0.0 }

  /** The inner loop: `score[item] += w / (k + rank + 1)` over one ranking. */
  method AddRanking(before: Scores, w: real, ranking: seq<Id>, k: nat) returns (score: Scores)
    ensures score.Keys == before.Keys + Elements(ranking)
    ensures forall x | x in score :: score[x] == ScoreOf(before, x) + Earned((w, ranking), k, x)
  {
    score := before;
    forall x ensures Earned((w, ranking[..0]), k, x) == 0.0 { UnseenEarnsNothing((w, ranking[..0]), k, x); }
    for rank := 0 to |ranking|
      invariant score.Keys == before.Keys + Elements(ranking[..rank])
      invariant forall x | x in score :: score[x] == ScoreOf(before, x) + Earned((w, ranking[..rank]), k, x)
    {
      var item := ranking[rank];
      ghost var previous := score;
      score := score[item := ScoreOf(score, item) + w / (k + rank + 1) as real];
      assert ranking[..rank + 1] == ranking[..rank] + [item];
      forall x | x in score
        ensures score[x] == ScoreOf(before, x) + Earned((w, ranking[..rank + 1]), k, x)
      {
        EarnedSnoc(w, ranking, rank, k, x);
        if x !in previous { UnseenEarnsNothing((w, ranking[..rank]), k, x); }
      }
    }
    assert ranking[..|ranking|] == ranking;
  }

  lemma OneMoreVoter(voters: seq<Voter>, p: nat, k: nat, before: Scores, score: Scores)
    requires p < |voters| && before == FusedScores(voters[..p], k)
    requires score.Keys == before.Keys + Elements(voters[p].1)
    requires forall x | x in score :: score[x] == ScoreOf(before, x) + Earned(voters[p], k, x)
    ensures score == FusedScores(voters[..p + 1], k)
  {
    assert voters[..p + 1] == voters[..p] + [voters[p]];
    assert voters[..p + 1][..p] == voters[..p];
    forall x | x in score ensures score[x] == Fused(voters[..p + 1], k, x) {
      if x !in before { UnseenScoresNothing(voters[..p], k, x); }
    }
  }

  lemma {:induction false} UnseenEarnsNothing(v: Voter, k: nat, item: Id)
    requires item !in v.1
    ensures Earned(v, k, item) == 0.0
    decreases |v.1|
  {
    if v.1 != [] { UnseenEarnsNothing((v.0, v.1[..|v.1| - 1]), k, item); }
  }

  lemma {:induction false} UnseenScoresNothing(voters: seq<Voter>, k: nat, item: Id)
    requires item !in Items(voters)
    ensures Fused(voters, k, item) == 0.0
  {
    if voters != [] {
      var front, v := voters[..|voters| - 1], voters[|voters| - 1];
      assert v in voters && forall u | u in front :: u in voters;
      UnseenScoresNothing(front, k, item);
      UnseenEarnsNothing(v, k, item);
    }
  }

  /** The fused list holds every item of some ranking once and nothing else. */
  lemma FusedIsDistinctUnion(voters: seq<Voter>, k: nat)
    ensures Distinct(FusedRanking(voters, k)) && Elements(FusedRanking(voters, k)) == Items(voters)
  {
    RankingIsDistinct(FusedRanking(voters, k), FusedScores(voters, k));
  }

  /** Voters add up, and one voter alone gives what it lets an item earn. */
  lemma {:induction false} FusedIsAdditive(a: seq<Voter>, b: seq<Voter>, k: nat, item: Id)
    ensures Fused(a + b, k, item) == Fused(a, k, item) + Fused(b, k, item)
    ensures forall v: Voter :: Fused([v], k, item) == Earned(v, k, item)
  {
    hide Earned;
    if b == [] {
      assert a + b == a;
    } else {
      FusedIsAdditive(a, b[..|b| - 1], k, item);
      assert (a + b)[..|a + b| - 1] == a + b[..|b| - 1];
    }
    forall v: Voter ensures Fused([v], k, item) == Earned(v, k, item) {
      assert [v][..0] == [];
    }
  }

  // --------------------------------------------------- order of the voters

  lemma {:induction false} FusedWithout(voters: seq<Voter>, j: nat, k: nat, item: Id)
    requires j < |voters|
    ensures Fused(voters, k, item) == Fused(voters[..j] + voters[j + 1..], k, item) + Earned(voters[j], k, item)
  {
    var n := |voters| - 1;
    var rest := voters[..j] + voters[j + 1..];
    if j == n {
      assert rest == voters[..n];
    } else {
      FusedWithout(voters[..n], j, k, item);
      assert rest[..n - 1] == voters[..n][..j] + voters[..n][j + 1..];
      assert rest[n - 1] == voters[n];
    }
  }

  lemma {:induction false} FusedIgnoresOrder(a: seq<Voter>, b: seq<Voter>, k: nat, item: Id)
    requires multiset(a) == multiset(b)
    ensures Fused(a, k, item) == Fused(b, k, item)
    decreases |a|
  {
    hide *;
    if a == [] {
      assert |multiset(b)| == 0;
      assert b == a;
    } else {
      var j := WithoutLast(a, b);
      FusedIgnoresOrder(a[..|a| - 1], b[..j] + b[j + 1..], k, item);
      FusedWithout(b, j, k, item);
      FusedWithout(a, |a| - 1, k, item);
      assert a[..|a| - 1] + a[|a|..] == a[..|a| - 1];
    }
  }

  /** Taking the last voter of `a` out of both lists leaves the same voters. */
  lemma WithoutLast(a: seq<Voter>, b: seq<Voter>) returns (j: nat)
    requires multiset(a) == multiset(b) && a != []
    ensures j < |b| && b[j] == a[|a| - 1]
    ensures multiset(a[..|a| - 1]) == multiset(b[..j] + b[j + 1..])
  {
    var v := a[|a| - 1];
    assert a == a[..|a| - 1] + [v];
    assert v in multiset(b);
    j :| 0 <= j < |b| && b[j] == v;
    assert b == b[..j] + [v] + b[j + 1..];
    assert multiset(b[..j] + b[j + 1..]) == multiset(b) - multiset{v} == multiset(a[..|a| - 1]);
  }

  /** The result does not depend on the order of the (ranking, weight) pairs. */
  lemma FusionIgnoresOrder(a: seq<Voter>, b: seq<Voter>, k: nat)
    requires multiset(a) == multiset(b)
    ensures FusedRanking(a, k) == FusedRanking(b, k)
  {
    forall v ensures v in a <==> v in b {
      assert v in a <==> v in multiset(a);
      assert v in b <==> v in multiset(b);
    }
    SameItems(a, b);
    forall x ensures Fused(a, k, x) == Fused(b, k, x) {
      FusedIgnoresOrder(a, b, k, x);
    }
    hide Fused, Items;
    assert FusedScores(a, k) == FusedScores(b, k);
  }

  lemma SameItems(a: seq<Voter>, b: seq<Voter>)
    requires forall v :: v in a <==> v in b
    ensures Items(a) == Items(b)
  {
  }

  // ------------------------------------------------------ who comes first

  /** In a ranking without repetitions an item earns by its one position. */
  lemma {:induction false} EarnedAt(v: Voter, k: nat, item: Id, rank: nat)
    requires Distinct(v.1) && rank < |v.1| && v.1[rank] == item
    ensures Earned(v, k, item) == v.0 / (k + rank + 1) as real
    decreases |v.1|
  {
    var n := |v.1| - 1;
    if rank == n {
      assert item !in v.1[..n];
      UnseenEarnsNothing((v.0, v.1[..n]), k, item);
    } else {
      EarnedAt((v.0, v.1[..n]), k, item, rank);
    }
  }

  /** `a` does at least as well as `b` in ranking `v`, or better when it counts. */
  ghost predicate NotWorse(v: Voter, a: Id, b: Id) { v.0 == 0.0 || b !in v.1 || Precedes(v.1, a, b) }

  ghost predicate Better(v: Voter, a: Id, b: Id) {
    v.0 > 0.0 && a in v.1 && (b !in v.1 || Precedes(v.1, a, b))
  }

  lemma Reciprocal(w: real, m: nat, n: nat)
    requires w >= 0.0 && 0 < m <= n
    ensures w / m as real >= w / n as real >= 0.0
    ensures w > 0.0 ==> w / n as real > 0.0
    ensures w > 0.0 && m < n ==> w / m as real > w / n as real
  {
    var x, y := w / m as real, w / n as real;
    assert x * m as real == w && y * n as real == w;
  }

  lemma EarnedInOrder(v: Voter, k: nat, a: Id, b: Id)
    requires v.0 >= 0.0 && Distinct(v.1) && a != b
    ensures Earned(v, k, a) >= 0.0
    ensures NotWorse(v, a, b) ==> Earned(v, k, a) >= Earned(v, k, b)
    ensures Better(v, a, b) ==> Earned(v, k, a) > Earned(v, k, b)
  {
    EarnedSign(v, k, a);
    EarnedSign(v, k, b);
    if a in v.1 && b in v.1 {
      var i :| 0 <= i < |v.1| && v.1[i] == a;
      var j :| 0 <= j < |v.1| && v.1[j] == b;
      EarnedAt(v, k, a, i);
      EarnedAt(v, k, b, j);
      PositionsInOrder(v.1, a, b, i, j);
      if i < j { Reciprocal(v.0, k + i + 1, k + j + 1); }
    }
  }

  lemma PositionsInOrder(r: seq<Id>, a: Id, b: Id, i: nat, j: nat)
    requires Distinct(r) && i < |r| && j < |r| && r[i] == a && r[j] == b
    ensures Precedes(r, a, b) <==> i < j
  {
  }

  lemma EarnedSign(v: Voter, k: nat, item: Id)
    requires v.0 >= 0.0 && Distinct(v.1)
    ensures Earned(v, k, item) >= 0.0
    ensures item !in v.1 || v.0 == 0.0 ==> Earned(v, k, item) == 0.0
    ensures item in v.1 && v.0 > 0.0 ==> Earned(v, k, item) > 0.0
  {
    if item in v.1 {
      var i :| 0 <= i < |v.1| && v.1[i] == item;
      EarnedAt(v, k, item, i);
      Reciprocal(v.0, k + i + 1, k + i + 1);
    } else {
      UnseenEarnsNothing(v, k, item);
    }
  }

  lemma {:induction false} FusedInOrder(voters: seq<Voter>, k: nat, a: Id, b: Id)
    requires forall v | v in voters :: v.0 >= 0.0 && Distinct(v.1) && NotWorse(v, a, b)
    requires a != b
    ensures Fused(voters, k, a) >= Fused(voters, k, b)
    ensures (exists v | v in voters :: Better(v, a, b)) ==> Fused(voters, k, a) > Fused(voters, k, b)
  {
    if voters != [] {
      var front, v := voters[..|voters| - 1], voters[|voters| - 1];
      assert v in voters && forall u | u in front :: u in voters;
      FusedInOrder(front, k, a, b);
      EarnedInOrder(v, k, a, b);
      if exists u | u in voters :: Better(u, a, b) {
        var u :| u in voters && Better(u, a, b);
        if u != v { assert u in front; }
      }
    }
  }

  /** If `a` is ahead of `b` in every ranking that counts and strictly so in one of them,
      `a` is ahead of `b` in the fused list. */
  lemma ParetoOrder(voters: seq<Voter>, k: nat, a: Id, b: Id)
    requires forall v | v in voters :: v.0 >= 0.0 && Distinct(v.1) && NotWorse(v, a, b)
    requires exists v | v in voters :: Better(v, a, b)
    requires a != b && b in Items(voters)
    ensures Precedes(FusedRanking(voters, k), a, b)
  {
    FusedInOrder(voters, k, a, b);
    var v :| v in voters && Better(v, a, b);
    assert a in Items(voters);
    BeforeMeansPrecedes(FusedRanking(voters, k), FusedScores(voters, k), a, b);
  }

  // ----------------------------------------------------------------- hybrid

  /** `rrf_fuse([d, b], weights=[1.0, w])`. */
  function Hybrid(dense: seq<Id>, bm25: seq<Id>, w: real): seq<Voter> { [(1.0, dense), (w, bm25)] }

  lemma HybridScore(dense: seq<Id>, bm25: seq<Id>, w: real, k: nat, item: Id)
    ensures Fused(Hybrid(dense, bm25, w), k, item) == Earned((1.0, dense), k, item) + Earned((w, bm25), k, item)
    ensures Items(Hybrid(dense, bm25, w)) == Elements(dense) + Elements(bm25)
  {
    var voters := Hybrid(dense, bm25, w);
    assert voters[..1] == [(1.0, dense)] && voters[..0] == [];
    assert Fused(voters[..1], k, item) == Earned((1.0, dense), k, item);
    forall x ensures x in Items(voters) <==> x in dense || x in bm25 {
      assert (1.0, dense) in voters && (w, bm25) in voters;
    }
  }

  lemma CrossMultiply(w: real, m: nat, n: nat)
    requires m > 0 && n > 0
    ensures w * m as real < n as real <==> 1.0 / m as real > w / n as real
    ensures w * m as real == n as real <==> 1.0 / m as real == w / n as real
  {
    var x, y := 1.0 / m as real, w / n as real;
    assert x * m as real == 1.0 && y * n as real == w;
    assert w * m as real == y * n as real * m as real;
    var q := (m * n) as real;
    assert q > 0.0 && q == m as real * n as real;
    assert x * q == n as real && y * q == w * m as real;
    if x > y { assert x * q > y * q; }
    if x < y { assert x * q < y * q; }
  }

  /** A dense item within the first `n` scores at least `1 / (k + n)`, an item only BM25 found at most `w / (k + 1)`. */
  lemma HybridBounds(dense: seq<Id>, bm25: seq<Id>, w: real, k: nat, n: nat, rank: nat, x: Id)
    requires Distinct(dense) && Distinct(bm25) && w >= 0.0
    requires rank < n <= |dense| && x in bm25 && x !in dense
    ensures Fused(Hybrid(dense, bm25, w), k, dense[rank]) >= 1.0 / (k + rank + 1) as real >= 1.0 / (k + n) as real
    ensures Fused(Hybrid(dense, bm25, w), k, x) <= w / (k + 1) as real
    ensures bm25[0] == x ==> Fused(Hybrid(dense, bm25, w), k, x) == w / (k + 1) as real
  {
    HybridScore(dense, bm25, w, k, dense[rank]);
    EarnedAt((1.0, dense), k, dense[rank], rank);
    EarnedInOrder((w, bm25), k, dense[rank], x);
    Reciprocal(1.0, k + rank + 1, k + n);
    HybridScore(dense, bm25, w, k, x);
    UnseenEarnsNothing((1.0, dense), k, x);
    var j :| 0 <= j < |bm25| && bm25[j] == x;
    EarnedAt((w, bm25), k, x, j);
    Reciprocal(w, k + 1, k + j + 1);
    if bm25[0] == x { EarnedAt((w, bm25), k, x, 0); }
  }

  /** The first `n` places of the fused list go to dense items only. */
  ghost predicate TopIsDense(dense: seq<Id>, bm25: seq<Id>, w: real, k: nat, n: nat) {
    var fused := FusedRanking(Hybrid(dense, bm25, w), k);
    n <= |fused| && forall i | 0 <= i < n :: fused[i] in dense
  }

  /** An item behind `n` different others is not among the first `n`. */
  lemma {:induction false} BehindMany(r: seq<Id>, ahead: seq<Id>, x: Id, i: nat)
    requires i < |r| && r[i] == x && Distinct(r) && Distinct(ahead)
    requires forall j | 0 <= j < |ahead| :: Precedes(r, ahead[j], x)
    ensures i >= |ahead|
  {
    forall j | 0 <= j < |ahead| ensures ahead[j] in Elements(r[..i]) {
      var p, q :| 0 <= p < q < |r| && r[p] == ahead[j] && r[q] == x;
      assert q == i && r[..i][p] == ahead[j];
    }
    ElementsSize(ahead);
    ElementsSize(r[..i]);
    SubsetSize(Elements(ahead), Elements(r[..i]));
  }

  lemma FusedIsLongEnough(dense: seq<Id>, bm25: seq<Id>, w: real, k: nat)
    requires Distinct(dense)
    ensures |FusedRanking(Hybrid(dense, bm25, w), k)| >= |dense|
  {
    var voters := Hybrid(dense, bm25, w);
    FusedIsDistinctUnion(voters, k);
    HybridScore(dense, bm25, w, k, 0);
    ElementsSize(dense);
    ElementsSize(FusedRanking(voters, k));
    SubsetSize(Elements(dense), Elements(FusedRanking(voters, k)));
  }

  /** `a` scores higher than `b`, or the same with the smaller id. */
  predicate Beats(voters: seq<Voter>, k: nat, a: Id, b: Id) {
    Fused(voters, k, a) > Fused(voters, k, b) || (Fused(voters, k, a) == Fused(voters, k, b) && a < b)
  }

  lemma BeatsMeansPrecedes(voters: seq<Voter>, k: nat, a: Id, b: Id)
    requires a in Items(voters) && b in Items(voters)
    ensures Precedes(FusedRanking(voters, k), a, b) <==> Beats(voters, k, a, b)
  {
    BeforeMeansPrecedes(FusedRanking(voters, k), FusedScores(voters, k), a, b);
  }

  lemma BeatsMeansAhead(voters: seq<Voter>, k: nat, i: nat, j: nat)
    requires i < |FusedRanking(voters, k)| && j < |FusedRanking(voters, k)|
    requires Beats(voters, k, FusedRanking(voters, k)[i], FusedRanking(voters, k)[j])
    ensures i < j
  {
    var fused := FusedRanking(voters, k);
    FusedIsDistinctUnion(voters, k);
    assert fused[i] in Elements(fused) && fused[j] in Elements(fused);
    BeatsMeansPrecedes(voters, k, fused[i], fused[j]);
    var p, q :| 0 <= p < q < |fused| && fused[p] == fused[i] && fused[q] == fused[j];
  }

  /** When each of the first `n` dense items beats every item only BM25 found, only dense
      items are among the first `n`. */
  lemma DenseFillsTheTop(dense: seq<Id>, bm25: seq<Id>, w: real, k: nat, n: nat)
    requires Distinct(dense) && Distinct(bm25) && n <= |dense|
    requires forall x, rank | x in bm25 && x !in dense && 0 <= rank < n ::
               Beats(Hybrid(dense, bm25, w), k, dense[rank], x)
    ensures TopIsDense(dense, bm25, w, k, n)
  {
    var voters := Hybrid(dense, bm25, w);
    var fused := FusedRanking(voters, k);
    FusedIsDistinctUnion(voters, k);
    FusedIsLongEnough(dense, bm25, w, k);
    HybridScore(dense, bm25, w, k, 0);
    hide FusedRanking, Beats, Items, Hybrid;
    forall i | 0 <= i < n ensures fused[i] in dense {
      var x := fused[i];
      assert x in Elements(fused);
      if x !in dense {
        forall rank | 0 <= rank < n ensures Precedes(fused, dense[..n][rank], x) {
          assert dense[rank] in Elements(dense);
          BeatsMeansPrecedes(voters, k, dense[rank], x);
        }
        BehindMany(fused, dense[..n], x, i);
      }
    }
  }

  /** An intruder that beats the `n`-th dense item and everything behind it gets into the first `n`. */
  lemma IntruderGetsIn(dense: seq<Id>, x: Id, w: real, k: nat, n: nat)
    requires Distinct(dense) && x !in dense && 1 <= n <= |dense|
    requires forall rank | n - 1 <= rank < |dense| :: Beats(Hybrid(dense, [x], w), k, x, dense[rank])
    ensures !TopIsDense(dense, [x], w, k, n)
  {
    var voters := Hybrid(dense, [x], w);
    var fused := FusedRanking(voters, k);
    FusedIsDistinctUnion(voters, k);
    HybridScore(dense, [x], w, k, 0);
    assert x in [x];
    hide FusedRanking, Beats, Items, Hybrid;
    if TopIsDense(dense, [x], w, k, n) {
      assert x in Elements(fused);
      var at :| 0 <= at < |fused| && fused[at] == x;
      assert at >= n;
      forall j, rank | 0 <= j < |fused| && n - 1 <= rank < |dense| && fused[j] == dense[rank] ensures at < j {
        BeatsMeansAhead(voters, k, at, j);
      }
      forall i | 0 <= i < n ensures fused[i] in Elements(dense[..n - 1]) {
        var rank :| 0 <= rank < |dense| && dense[rank] == fused[i];
        assert rank < n - 1;
        assert dense[..n - 1][rank] == fused[i];
      }
      ElementsSize(fused[..n]);
      ElementsSize(dense[..n - 1]);
      forall y | y in Elements(fused[..n]) ensures y in Elements(dense[..n - 1]) {
        var i :| 0 <= i < n && fused[..n][i] == y;
        assert fused[i] == y;
      }
      SubsetSize(Elements(fused[..n]), Elements(dense[..n - 1]));
      assert false;
    }
  }

  lemma LoneBm25Beats(dense: seq<Id>, x: Id, w: real, k: nat, n: nat)
    requires Distinct(dense) && x !in dense && 1 <= n <= |dense| && w >= 0.0
    requires 1.0 / (k + n) as real < w / (k + 1) as real
             || (1.0 / (k + n) as real == w / (k + 1) as real && x < dense[n - 1])
    ensures forall rank | n - 1 <= rank < |dense| :: Beats(Hybrid(dense, [x], w), k, x, dense[rank])
  {
    forall rank | n - 1 <= rank < |dense| ensures Beats(Hybrid(dense, [x], w), k, x, dense[rank]) {
      HybridBounds(dense, [x], w, k, rank + 1, rank, x);
      HybridScore(dense, [x], w, k, dense[rank]);
      EarnedAt((1.0, dense), k, dense[rank], rank);
      assert dense[rank] in dense;
      UnseenEarnsNothing((w, [x]), k, dense[rank]);
      Reciprocal(1.0, k + n, k + rank + 1);
    }
  }

  lemma DenseBeatsBm25Only(dense: seq<Id>, bm25: seq<Id>, w: real, k: nat, n: nat, rank: nat, x: Id)
    requires Distinct(dense) && Distinct(bm25) && w >= 0.0 && rank < n <= |dense|
    requires x in bm25 && x !in dense
    requires 1.0 / (k + n) as real > w / (k + 1) as real
             || (1.0 / (k + n) as real == w / (k + 1) as real && dense[n - 1] < x)
    ensures Beats(Hybrid(dense, bm25, w), k, dense[rank], x)
  {
    HybridBounds(dense, bm25, w, k, n, rank, x);
    if rank < n - 1 {
      Reciprocal(1.0, k + rank + 1, k + n);
    }
  }

  /** No place among the first `n` is lost to chunk `x`: its weighted first rank earns less than the
      `n`-th rank of the dense list, or the same with a larger id. */
  predicate StaysBelow(dense: seq<Id>, w: real, k: nat, n: nat, x: Id)
    requires 1 <= n <= |dense|
  {
    w * (k + n) as real < (k + 1) as real || (w * (k + n) as real == (k + 1) as real && dense[n - 1] < x)
  }

  /** The first `n` places of the fused list are safe from chunks that only BM25 found, whatever
      BM25 returns from the corpus, exactly when every chunk that the dense list lacks stays below. */
  lemma HybridTopExactly(corpus: set<Id>, dense: seq<Id>, w: real, k: nat, n: nat)
    requires Distinct(dense) && 1 <= n <= |dense| && w >= 0.0
    ensures (forall bm25: seq<Id> | Distinct(bm25) && Elements(bm25) <= corpus :: TopIsDense(dense, bm25, w, k, n)) <==>
            forall x | x in corpus && x !in dense :: StaysBelow(dense, w, k, n, x)
  {
    CrossMultiply(w, k + n, k + 1);
    if forall x | x in corpus && x !in dense :: StaysBelow(dense, w, k, n, x) {
      forall bm25: seq<Id> | Distinct(bm25) && Elements(bm25) <= corpus ensures TopIsDense(dense, bm25, w, k, n) {
        BelowFillsTheTop(dense, bm25, w, k, n);
      }
    } else {
      var x :| x in corpus && x !in dense && !StaysBelow(dense, w, k, n, x);
      assert dense[n - 1] in dense;
      LoneBm25Beats(dense, x, w, k, n);
      hide TopIsDense, Beats, Hybrid, StaysBelow;
      IntruderGetsIn(dense, x, w, k, n);
      assert Distinct([x]) && Elements([x]) <= corpus;
    }
  }

  lemma BelowFillsTheTop(dense: seq<Id>, bm25: seq<Id>, w: real, k: nat, n: nat)
    requires Distinct(dense) && Distinct(bm25) && 1 <= n <= |dense| && w >= 0.0
    requires forall x | x in Elements(bm25) && x !in dense :: StaysBelow(dense, w, k, n, x)
    ensures TopIsDense(dense, bm25, w, k, n)
  {
    CrossMultiply(w, k + n, k + 1);
    hide TopIsDense, Beats, Hybrid;
    forall x, rank | x in bm25 && x !in dense && 0 <= rank < n
      ensures Beats(Hybrid(dense, bm25, w), k, dense[rank], x)
    {
      assert x in Elements(bm25);
      DenseBeatsBm25Only(dense, bm25, w, k, n, rank, x);
    }
    DenseFillsTheTop(dense, bm25, w, k, n);
  }

  lemma LightBm25StaysOut(dense: seq<Id>, bm25: seq<Id>, w: real, k: nat, n: nat)
    requires Distinct(dense) && Distinct(bm25) && 1 <= n <= |dense| && w >= 0.0
    requires w * (k + n) as real < (k + 1) as real
    ensures TopIsDense(dense, bm25, w, k, n)
  {
    hide TopIsDense;
    BelowFillsTheTop(dense, bm25, w, k, n);
  }

  /** Every chunk of the BM25 list outside the dense one stays below the first `n` dense chunks. */
  predicate AllStayBelow(dense: seq<Id>, bm25: seq<Id>, w: real, k: nat, n: nat) {
    1 <= n <= |dense| && forall x | x in bm25 && x !in dense :: StaysBelow(dense, w, k, n, x)
  }

  /** The hybrid setting of `make_system`: the fused list of the dense and the BM25 ranking, whose first
      `n` places are dense whenever every other chunk of the BM25 list stays below. */
  method HybridRank(dense: seq<Id>, bm25: seq<Id>, w: real) returns (ranked: seq<Id>)
    requires Distinct(dense) && Distinct(bm25) && w >= 0.0
    ensures ranked == FusedRanking(Hybrid(dense, bm25, w), RRF_K)
    ensures forall n: nat | AllStayBelow(dense, bm25, w, RRF_K, n) :: TopIsDense(dense, bm25, w, RRF_K, n)
  {
    var r := RrfFuse([dense, bm25], RRF_K, [1.0, w]);
    assert seq(2, i requires 0 <= i < 2 => ([1.0, w][i], [dense, bm25][i])) == Hybrid(dense, bm25, w);
    ranked := r.value;
    hide StaysBelow, FusedRanking, Hybrid;
    forall n: nat | AllStayBelow(dense, bm25, w, RRF_K, n)
      ensures TopIsDense(dense, bm25, w, RRF_K, n)
    {
      BelowFillsTheTop(dense, bm25, w, RRF_K, n);
    }
  }

  /** When the condition holds for the whole dense list, every dense item precedes every
      item that only BM25 found. */
  lemma DenseBeforeBm25Only(dense: seq<Id>, bm25: seq<Id>, w: real, k: nat, a: Id, x: Id)
    requires Distinct(dense) && Distinct(bm25) && w >= 0.0
    requires w * (k + |dense|) as real < (k + 1) as real
    requires a in dense && x in bm25 && x !in dense
    ensures Precedes(FusedRanking(Hybrid(dense, bm25, w), k), a, x)
  {
    var rank :| 0 <= rank < |dense| && dense[rank] == a;
    CrossMultiply(w, k + |dense|, k + 1);
    DenseBeatsBm25Only(dense, bm25, w, k, |dense|, rank, x);
    HybridScore(dense, bm25, w, k, a);
    BeatsMeansPrecedes(Hybrid(dense, bm25, w), k, a, x);
  }

  const DEPTH: nat := 64
  const TOP_N: nat := 20

  /** The shipped weights: 0.1 and 0.2 meet the condition for all 64 dense items, 0.5 only for
      the 20 places that are aggregated, 1.0 not even for those. */
  lemma ShippedWeights()
    ensures 0.1 * (RRF_K + DEPTH) as real < (RRF_K + 1) as real && 0.2 * (RRF_K + DEPTH) as real < (RRF_K + 1) as real
    ensures !(0.5 * (RRF_K + DEPTH) as real < (RRF_K + 1) as real)
    ensures 0.5 * (RRF_K + TOP_N) as real < (RRF_K + 1) as real
    ensures 1.0 * (RRF_K + TOP_N) as real > (RRF_K + 1) as real
  {
  }
}
