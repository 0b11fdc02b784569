/** `to_ranking` of `research_rank.py`: keys by descending score, ties by ascending id.
    Ids are numbers in the order in which the source compares them. */
module Ranking {
  import opened Prelude

  type Id = nat
  type Scores = map<Id, real>

  /** `a` sorts before `b`: the key is `(-score, id)`. */
  predicate Before(scores: Scores, a: Id, b: Id)
    requires a in scores && b in scores
  {
    scores[a] > scores[b] || (scores[a] == scores[b] && a < b)
  }

  ghost predicate IsRanking(r: seq<Id>, scores: Scores) {
    && Elements(r) == scores.Keys
    && forall i, j | 0 <= i < j < |r| :: (assert r[i] in Elements(r) && r[j] in Elements(r); Before(scores, r[i], r[j]))
  }

  predicate IsFirst(scores: Scores, x: Id) {
    x in scores && forall y | y in scores && y != x :: Before(scores, x, y)
  }

  lemma {:induction false} FirstExists(scores: Scores) returns (x: Id)
    requires scores != map[]
    ensures IsFirst(scores, x)
    decreases |scores|
  {
    var y :| y in scores;
    var rest := scores - {y};
    if rest == map[] {
      x := y;
      assert forall z | z in scores && z != y :: z in rest;
    } else {
      var m := FirstExists(rest);
      assert forall z | z in scores && z != y :: z in rest;
      x := if Before(scores, y, m) then y else m;
    }
  }

  lemma Prepend(x: Id, tail: seq<Id>, scores: Scores)
    requires IsFirst(scores, x) && IsRanking(tail, scores - {x})
    ensures IsRanking([x] + tail, scores)
  {
    var r := [x] + tail;
    forall y ensures y in Elements(r) <==> y in scores {
      assert y in Elements(r) <==> y == x || y in Elements(tail);
    }
    forall i, j | 0 <= i < j < |r| ensures r[i] in scores && r[j] in scores && Before(scores, r[i], r[j]) {
      assert r[j] == tail[j - 1] && tail[j - 1] in Elements(tail);
      if i > 0 { assert r[i] == tail[i - 1] && tail[i - 1] in Elements(tail); }
    }
  }

  /** `sorted(scores.items(), key=lambda x: (-x[1], x[0]))`, ids only. */
  function ToRanking(scores: Scores): (r: seq<Id>)
    ensures IsRanking(r, scores)
    decreases |scores|
  {
    if scores == map[] then []
    else
      assert exists x :: IsFirst(scores, x) by { var x := FirstExists(scores); }
      var x :| IsFirst(scores, x);
      var tail := ToRanking(scores - {x});
      Prepend(x, tail, scores);
      [x] + tail
  }

  lemma RankingIsDistinct(r: seq<Id>, scores: Scores)
    requires IsRanking(r, scores)
    ensures Distinct(r)
  {
    forall i, j | 0 <= i < j < |r| ensures r[i] != r[j] {
      assert r[i] in Elements(r) && r[j] in Elements(r);
      assert Before(scores, r[i], r[j]);
    }
  }

  /** Keys, order and ties determine the result: there is only one ranking. */
  lemma {:induction false} RankingIsUnique(r: seq<Id>, q: seq<Id>, scores: Scores)
    requires IsRanking(r, scores) && IsRanking(q, scores)
    ensures r == q
    decreases |r|
  {
    assert q != [] ==> q[0] in Elements(q);
    if r != [] {
      assert r[0] in Elements(r) && r[0] in q;
      assert q[0] in Elements(q) && q[0] in r;
      var rest := scores - {r[0]};
      RankingIsDistinct(r, scores);
      RankingIsDistinct(q, scores);
      DropFirst(r, scores);
      DropFirst(q, scores);
      RankingIsUnique(r[1..], q[1..], rest);
    }
  }

  lemma DropFirst(r: seq<Id>, scores: Scores)
    requires IsRanking(r, scores) && r != []
    ensures IsRanking(r[1..], scores - {r[0]})
  {
    RankingIsDistinct(r, scores);
    DropFirstElement(r);
    forall i, j | 0 <= i < j < |r| - 1
      ensures r[1..][i] in scores && r[1..][j] in scores && Before(scores, r[1..][i], r[1..][j])
    {
      assert r[1..][i] == r[i + 1] && r[1..][j] == r[j + 1];
      assert r[i + 1] in Elements(r) && r[j + 1] in Elements(r);
    }
  }

  lemma DropFirstElement(r: seq<Id>)
    requires r != [] && Distinct(r)
    ensures Elements(r[1..]) == Elements(r) - {r[0]}
  {
    assert r == [r[0]] + r[1..];
    forall x | x in r[1..] ensures x != r[0] {
      var i :| 0 <= i < |r| - 1 && r[1..][i] == x;
      assert r[i + 1] == x;
    }
  }

  /** `a` stands before `b` in `r`. */
  ghost predicate Precedes(r: seq<Id>, a: Id, b: Id) {
    exists i, j | 0 <= i < j < |r| :: r[i] == a && r[j] == b
  }

  lemma BeforeMeansPrecedes(r: seq<Id>, scores: Scores, a: Id, b: Id)
    requires IsRanking(r, scores) && a in scores && b in scores
    ensures Precedes(r, a, b) <==> Before(scores, a, b)
  {
    assert a in Elements(r) && b in Elements(r);
    var i :| 0 <= i < |r| && r[i] == a;
    var j :| 0 <= j < |r| && r[j] == b;
    RankingIsDistinct(r, scores);
    if j < i { assert Before(scores, r[j], r[i]); }
    if i < j { assert Before(scores, r[i], r[j]); }
  }
}
