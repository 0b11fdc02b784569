/** The three round-robin merges: `rank_experts_for_topics` (mode `round_robin`) of
    `research_topic.py`, `_round_robin` and `facet_top3` of `research_c6_retrieval_recall.py`. */
module RoundRobin {
  import opened Prelude
  import opened Ranking

  type Lists = seq<seq<Id>>

  // ------------------------------------------------------------ specification

  /** The entries at rank `r`, list by list, where a list is long enough (among the first `m`). */
  function Row(lists: Lists, r: nat, m: nat): seq<Id>
    requires m <= |lists|
  {
    if m == 0 then []
    else Row(lists, r, m - 1) + if r < |lists[m - 1]| then [lists[m - 1][r]] else []
  }

  /** Rank 0 of every list, then rank 1, and so on, `n` rows. */
  function Rows(lists: Lists, n: nat): seq<Id> {
    if n == 0 then [] else Rows(lists, n - 1) + Row(lists, n - 1, |lists|)
  }

  /** Keeps first occurrences. */
  function Dedup(s: seq<Id>): seq<Id> {
    if s == [] then []
    else
      var front, x := Dedup(s[..|s| - 1]), s[|s| - 1];
      if x in front then front else front + [x]
  }

  function Longest(lists: Lists): nat {
    if lists == [] then 0
    else
      var n := Longest(lists[..|lists| - 1]);
      if n < |lists[|lists| - 1]| then |lists[|lists| - 1]| else n
  }

  lemma {:induction false} LongestIsMax(lists: Lists)
    ensures forall i | 0 <= i < |lists| :: |lists[i]| <= Longest(lists)
  {
    if lists != [] {
      LongestIsMax(lists[..|lists| - 1]);
      assert forall i | 0 <= i < |lists| - 1 :: lists[..|lists| - 1][i] == lists[i];
    }
  }

  function Merged(lists: Lists): seq<Id> { Dedup(Rows(lists, Longest(lists))) }

  lemma DedupSnoc(s: seq<Id>, x: Id)
    ensures Dedup(s + [x]) == if x in Dedup(s) then Dedup(s) else Dedup(s) + [x]
  {
    assert (s + [x])[..|s|] == s;
  }

  /** The merged list when rank `r` has been visited in the first `i` lists. */
  function SoFar(lists: Lists, r: nat, i: nat): seq<Id>
    requires i <= |lists|
  {
    Dedup(Rows(lists, r) + Row(lists, r, i))
  }

  lemma SoFarStep(lists: Lists, r: nat, i: nat)
    requires i < |lists|
    ensures SoFar(lists, r, i + 1) ==
            if r < |lists[i]| && lists[i][r] !in SoFar(lists, r, i) then SoFar(lists, r, i) + [lists[i][r]]
            else SoFar(lists, r, i)
  {
    RowSnoc(lists, r, i);
    hide Dedup, Rows, Row;
    if r < |lists[i]| {
      var x := lists[i][r];
      DedupSnoc(Rows(lists, r) + Row(lists, r, i), x);
      assert Rows(lists, r) + Row(lists, r, i) + [x] == Rows(lists, r) + (Row(lists, r, i) + [x]);
    }
  }

  lemma RowSnoc(lists: Lists, r: nat, i: nat)
    requires i < |lists|
    ensures Row(lists, r, i + 1) == if r < |lists[i]| then Row(lists, r, i) + [lists[i][r]] else Row(lists, r, i)
  {
    assert Row(lists, r, i) + [] == Row(lists, r, i);
  }

  lemma SoFarEnds(lists: Lists, r: nat)
    ensures SoFar(lists, r + 1, 0) == SoFar(lists, r, |lists|)
    ensures SoFar(lists, 0, 0) == []
    ensures SoFar(lists, Longest(lists), 0) == Merged(lists)
  {
    RowsSnoc(lists, r);
    RowsSnoc(lists, Longest(lists));
    hide Rows, Row, Longest;
    assert Rows(lists, r + 1) + [] == Rows(lists, r + 1);
    assert Rows(lists, Longest(lists)) + [] == Rows(lists, Longest(lists));
  }

  lemma RowsSnoc(lists: Lists, r: nat)
    ensures Rows(lists, r + 1) == Rows(lists, r) + Row(lists, r, |lists|) && Rows(lists, 0) == []
    ensures Row(lists, r, 0) == Row(lists, r + 1, 0) == Row(lists, 0, 0) == []
  {
  }

  // -------------------------------------------------------- the three loops

  /** Two index loops, as in `research_topic.py`. */
  method MergeByIndex(lists: Lists) returns (out: seq<Id>)
    ensures out == Merged(lists)
  {
    hide SoFar, Merged;
    out := [];
    var seen: set<Id> := {};
    SoFarEnds(lists, 0);
    for rank := 0 to Longest(lists)
      invariant out == SoFar(lists, rank, 0) && seen == Elements(out)
    {
      for i := 0 to |lists|
        invariant out == SoFar(lists, rank, i) && seen == Elements(out)
      {
        SoFarStep(lists, rank, i);
        if rank < |lists[i]| && lists[i][rank] !in seen {
          seen := seen + {lists[i][rank]};
          out := out + [lists[i][rank]];
        }
      }
      SoFarEnds(lists, rank);
    }
  }

  /** The ranking of several topics: each topic's `to_ranking`, merged. */
  method RankExpertsForTopics(perTopic: seq<Scores>) returns (out: seq<Id>)
    ensures perTopic == [] ==> out == []
    ensures out == Merged(seq(|perTopic|, i requires 0 <= i < |perTopic| => ToRanking(perTopic[i])))
  {
    if perTopic == [] {
      return [];
    }
    out := MergeByIndex(seq(|perTopic|, i requires 0 <= i < |perTopic| => ToRanking(perTopic[i])));
  }

  /** `zip_longest`: tuple `r` holds entry `r` of every list, `None` where a list has ended. */
  function ZipLongest(lists: Lists): (tuples: seq<seq<Option<Id>>>)
    ensures |tuples| == Longest(lists)
    ensures forall r | 0 <= r < |tuples| :: |tuples[r]| == |lists|
  {
    seq(Longest(lists), r requires 0 <= r < Longest(lists) =>
      seq(|lists|, i requires 0 <= i < |lists| =>
        if r < |lists[i]| then Some(lists[i][r]) else None))
  }

  method MergeByTuples(lists: Lists) returns (out: seq<Id>)
    ensures out == Merged(lists)
  {
    hide SoFar, Merged;
    out := [];
    var seen: set<Id> := {};
    var tuples := ZipLongest(lists);
    SoFarEnds(lists, 0);
    for r := 0 to |tuples|
      invariant out == SoFar(lists, r, 0) && seen == Elements(out)
    {
      for i := 0 to |tuples[r]|
        invariant out == SoFar(lists, r, i) && seen == Elements(out)
      {
        SoFarStep(lists, r, i);
        var x: Option<Id> := tuples[r][i];
        if x.Some? && x.value !in seen {
          seen := seen + {x.value};
          out := out + [x.value];
        }
      }
      SoFarEnds(lists, r);
    }
  }

  lemma {:induction false} DedupExtends(a: seq<Id>, b: seq<Id>)
    ensures Dedup(a) <= Dedup(a + b)
  {
    if b == [] {
      assert a + b == a;
    } else {
      DedupExtends(a, b[..|b| - 1]);
      assert (a + b)[..|a + b| - 1] == a + b[..|b| - 1];
    }
  }

  lemma {:induction false} RowsExtend(lists: Lists, r: nat, i: nat, n: nat)
    requires r < n && i <= |lists|
    ensures Rows(lists, r) + Row(lists, r, i) <= Rows(lists, n)
  {
    hide *;
    RowsStep(lists, n);
    if r + 1 < n {
      RowsExtend(lists, r, i, n - 1);
    } else {
      RowExtends(lists, r, i, |lists|);
    }
  }

  lemma {:induction false} RowExtends(lists: Lists, r: nat, i: nat, m: nat)
    requires i <= m <= |lists|
    ensures Row(lists, r, i) <= Row(lists, r, m) && |Row(lists, r, m)| <= m
  {
    if i < m {
      RowExtends(lists, r, i, m - 1);
    } else if m > 0 {
      RowExtends(lists, r, m - 1, m - 1);
    }
  }

  /** What the early return leaves out only comes later in the merged list. */
  lemma PickedIsPrefix(lists: Lists, r: nat, i: nat)
    requires r < Longest(lists) && i <= |lists|
    ensures SoFar(lists, r, i) <= Merged(lists)
  {
    hide *;
    RowsExtend(lists, r, i, Longest(lists));
    DedupOfPrefix(Rows(lists, r) + Row(lists, r, i), Rows(lists, Longest(lists)));
    SoFarUnfolds(lists, r, i);
  }

  lemma SoFarUnfolds(lists: Lists, r: nat, i: nat)
    requires i <= |lists|
    ensures SoFar(lists, r, i) == Dedup(Rows(lists, r) + Row(lists, r, i))
    ensures Merged(lists) == Dedup(Rows(lists, Longest(lists)))
  {
    hide Dedup, Rows, Row, Longest;
  }

  lemma DedupOfPrefix(a: seq<Id>, all: seq<Id>)
    requires a <= all
    ensures Dedup(a) <= Dedup(all)
  {
    hide *;
    DedupExtends(a, all[|a|..]);
    assert a + all[|a|..] == all;
  }

  /** `facet_top3`: with one topic or none the first three of the aggregate ranking, otherwise
      the round robin over the single-topic rankings, left as soon as three are picked. */
  method FacetTop3(perTopic: Lists, aggregate: seq<Id>) returns (picked: seq<Id>)
    ensures |perTopic| <= 1 ==> picked == Take(aggregate, 3)
    ensures |perTopic| >= 2 ==> picked == Take(Merged(perTopic), 3)
  {
    if |perTopic| <= 1 {
      return Take(aggregate, 3);
    }
    picked := PickThree(perTopic);
  }

  /** The loop of `facet_top3` with its early return. */
  method PickThree(perTopic: Lists) returns (picked: seq<Id>)
    ensures picked == Take(Merged(perTopic), 3)
  {
    hide SoFar, Merged, Take, Longest;
    picked := [];
    var seen: set<Id> := {};
    var tuples := ZipLongest(perTopic);
    SoFarEnds(perTopic, 0);
    for r := 0 to |tuples|
      invariant picked == SoFar(perTopic, r, 0) && seen == Elements(picked) && |picked| < 3
    {
      for i := 0 to |tuples[r]|
        invariant picked == SoFar(perTopic, r, i) && seen == Elements(picked) && |picked| < 3
      {
        SoFarStep(perTopic, r, i);
        var pid: Option<Id> := tuples[r][i];
        if pid.Some? && pid.value !in seen {
          seen := seen + {pid.value};
          picked := picked + [pid.value];
          if |picked| >= 3 {
            ThreePicked(perTopic, r, i + 1);
            return;
          }
        }
      }
      SoFarEnds(perTopic, r);
    }
    FewerPicked(perTopic);
  }

  lemma ThreePicked(lists: Lists, r: nat, i: nat)
    requires r < Longest(lists) && i <= |lists| && |SoFar(lists, r, i)| == 3
    ensures SoFar(lists, r, i) == Take(Merged(lists), 3)
  {
    PickedIsPrefix(lists, r, i);
    hide Merged, SoFar;
  }

  lemma FewerPicked(lists: Lists)
    ensures |Merged(lists)| < 3 ==> Take(Merged(lists), 3) == Merged(lists)
  {
    hide Merged;
  }

  // ------------------------------------------------------------- properties

  lemma {:induction false} DedupIsDistinct(s: seq<Id>)
    ensures Distinct(Dedup(s)) && Elements(Dedup(s)) == Elements(s) && |Dedup(s)| <= |s|
  {
    if s != [] {
      var front, x := s[..|s| - 1], s[|s| - 1];
      DedupIsDistinct(front);
      assert s == front + [x];
      assert Elements(s) == Elements(front) + {x};
      assert x in Dedup(front) <==> x in Elements(Dedup(front));
      assert Elements(Dedup(front) + [x]) == Elements(Dedup(front)) + {x};
    }
  }

  /** An element at position `at` of `s` is at position `at` or earlier after removing repetitions. */
  lemma {:induction false} DedupMovesForward(s: seq<Id>, at: nat) returns (p: nat)
    requires at < |s|
    ensures p <= at && p < |Dedup(s)| && Dedup(s)[p] == s[at]
  {
    var front, x := s[..|s| - 1], s[|s| - 1];
    if at < |front| {
      p := DedupMovesForward(front, at);
    } else {
      DedupIsDistinct(front);
      if x in Dedup(front) {
        p :| 0 <= p < |Dedup(front)| && Dedup(front)[p] == x;
      } else {
        p := |Dedup(front)|;
      }
    }
  }

  lemma {:induction false} RowsLength(lists: Lists, n: nat)
    ensures |Rows(lists, n)| <= n * |lists|
  {
    if n > 0 {
      RowsLength(lists, n - 1);
      RowExtends(lists, n - 1, |lists|, |lists|);
      OneMoreTime(n, |lists|);
      hide Row;
    }
  }

  lemma OneMoreTime(n: nat, m: nat)
    requires n > 0
    ensures n * m == (n - 1) * m + m
  {
  }

  /** The entry at rank `r` of list `i` among `m` lists comes out at place `r * m + i` or before. */
  lemma PlaceInMerged(lists: Lists, i: nat, r: nat) returns (p: nat)
    requires i < |lists| && r < |lists[i]|
    ensures p <= r * |lists| + i && p < |Merged(lists)| && Merged(lists)[p] == lists[i][r]
  {
    LongestIsMax(lists);
    var before := Rows(lists, r) + Row(lists, r, i);
    var all := Rows(lists, Longest(lists));
    RowsExtend(lists, r, i + 1, Longest(lists));
    assert before + [lists[i][r]] == Rows(lists, r) + Row(lists, r, i + 1);
    RowsLength(lists, r);
    RowExtends(lists, r, i, i);
    assert all[|before|] == (before + [lists[i][r]])[|before|];
    p := DedupMovesForward(all, |before|);
  }

  lemma {:induction false} RowFromLists(lists: Lists, r: nat, m: nat, x: Id)
    requires m <= |lists| && x in Row(lists, r, m)
    ensures exists i | 0 <= i < |lists| :: x in lists[i]
  {
    if x in Row(lists, r, m - 1) {
      RowFromLists(lists, r, m - 1, x);
    } else {
      assert x in lists[m - 1];
    }
  }

  lemma RowsStep(lists: Lists, n: nat)
    ensures Rows(lists, n) == if n == 0 then [] else Rows(lists, n - 1) + Row(lists, n - 1, |lists|)
  {
  }

  lemma {:induction false} RowsFromLists(lists: Lists, n: nat, x: Id)
    requires x in Rows(lists, n)
    ensures exists i | 0 <= i < |lists| :: x in lists[i]
  {
    hide *;
    RowsStep(lists, n);
    if x in Rows(lists, n - 1) {
      RowsFromLists(lists, n - 1, x);
    } else {
      RowFromLists(lists, n - 1, |lists|, x);
    }
  }

  /** The merged list holds everything in some list, once. */
  lemma MergedIsDistinctUnion(lists: Lists)
    ensures Distinct(Merged(lists))
    ensures forall x :: x in Merged(lists) <==> exists i | 0 <= i < |lists| :: x in lists[i]
  {
    var all := Rows(lists, Longest(lists));
    DedupIsDistinct(all);
    forall x ensures x in Merged(lists) <==> exists i | 0 <= i < |lists| :: x in lists[i] {
      assert x in Merged(lists) <==> x in Elements(Dedup(all));
      if x in all { RowsFromLists(lists, Longest(lists), x); }
      if exists i | 0 <= i < |lists| :: x in lists[i] {
        var i :| 0 <= i < |lists| && x in lists[i];
        var r :| 0 <= r < |lists[i]| && lists[i][r] == x;
        var p := PlaceInMerged(lists, i, r);
      }
    }
  }

  /** The different first choices of the topics come first. */
  lemma FirstChoicesLead(perTopic: Lists)
    ensures var d := SoFar(perTopic, 0, |perTopic|);
            && d <= Merged(perTopic) && Distinct(d)
            && |d| == |Elements(Row(perTopic, 0, |perTopic|))| && Elements(d) == Elements(Row(perTopic, 0, |perTopic|))
  {
    var row, m := Row(perTopic, 0, |perTopic|), |perTopic|;
    assert SoFar(perTopic, 0, m) == Dedup(row) by {
      SoFarUnfolds(perTopic, 0, m);
      assert Rows(perTopic, 0) + row == row;
    }
    hide *;
    DedupIsDistinct(row);
    ElementsSize(Dedup(row));
    if Longest(perTopic) > 0 {
      PickedIsPrefix(perTopic, 0, m);
    } else {
      SoFarEnds(perTopic, 0);
      NoFirstChoice(perTopic, m);
    }
  }

  lemma {:induction false} NoFirstChoice(lists: Lists, m: nat)
    requires m <= |lists| && Longest(lists) == 0
    ensures Row(lists, 0, m) == [] && SoFar(lists, 0, m) == []
  {
    LongestIsMax(lists);
    if m > 0 { NoFirstChoice(lists, m - 1); }
    assert Rows(lists, 0) + [] == [];
  }

  /** The first row holds exactly the first choices. */
  lemma {:induction false} FirstRow(lists: Lists, m: nat, x: Id)
    requires m <= |lists|
    ensures x in Row(lists, 0, m) <==> exists i | 0 <= i < m :: lists[i] != [] && lists[i][0] == x
  {
    if m > 0 { FirstRow(lists, m - 1, x); }
  }

  /** Every topic that ranks anybody has its first choice among the three exactly when the topics
      have at most three different first choices. */
  lemma FacetsServedExactly(perTopic: Lists)
    ensures (forall i | 0 <= i < |perTopic| && perTopic[i] != [] :: perTopic[i][0] in Take(Merged(perTopic), 3)) <==>
            |Elements(Row(perTopic, 0, |perTopic|))| <= 3
  {
    var d, row, top := SoFar(perTopic, 0, |perTopic|), Row(perTopic, 0, |perTopic|), Take(Merged(perTopic), 3);
    FirstChoicesLead(perTopic);
    hide Merged, SoFar, Row;
    if |d| <= 3 {
      forall i | 0 <= i < |perTopic| && perTopic[i] != [] ensures perTopic[i][0] in top {
        FirstRow(perTopic, |perTopic|, perTopic[i][0]);
        assert perTopic[i][0] in Elements(d);
        var k :| 0 <= k < |d| && d[k] == perTopic[i][0];
        assert top[k] == d[k];
      }
    } else {
      var x := d[3];
      assert x in Elements(row) && x !in d[..3] && top == d[..3];
      FirstRow(perTopic, |perTopic|, x);
      var i :| 0 <= i < |perTopic| && perTopic[i] != [] && perTopic[i][0] == x;
    }
  }

  /** With two or three topics every topic that ranks anybody has its first choice among the
      three: no topic takes all places. */
  lemma EveryFacetIsServed(perTopic: Lists, i: nat)
    requires 2 <= |perTopic| <= 3 && i < |perTopic| && perTopic[i] != []
    ensures perTopic[i][0] in Take(Merged(perTopic), 3)
  {
    hide *;
    RowExtends(perTopic, 0, 0, |perTopic|);
    ElementsSize(Row(perTopic, 0, |perTopic|));
    FacetsServedExactly(perTopic);
  }

  /** With four or more topics of different first choices the first three topics fill all places. */
  lemma FourthFacetIsDropped(perTopic: Lists)
    requires |perTopic| >= 4 && forall i | 0 <= i < |perTopic| :: perTopic[i] != []
    requires forall i, j | 0 <= i < j < |perTopic| :: perTopic[i][0] != perTopic[j][0]
    ensures Take(Merged(perTopic), 3) == [perTopic[0][0], perTopic[1][0], perTopic[2][0]]
    ensures perTopic[3][0] !in Take(Merged(perTopic), 3)
  {
    LongestIsMax(perTopic);
    FirstChoices(perTopic, 3);
    PickedIsPrefix(perTopic, 0, 3);
    assert Merged(perTopic)[..3] == SoFar(perTopic, 0, 3);
  }

  lemma {:induction false} FirstChoices(lists: Lists, m: nat)
    requires m <= |lists| && forall i | 0 <= i < |lists| :: lists[i] != []
    requires forall i, j | 0 <= i < j < |lists| :: lists[i][0] != lists[j][0]
    ensures |SoFar(lists, 0, m)| == m && forall i | 0 <= i < m :: SoFar(lists, 0, m)[i] == lists[i][0]
  {
    if m == 0 {
      SoFarEnds(lists, 0);
    } else {
      FirstChoices(lists, m - 1);
      SoFarStep(lists, 0, m - 1);
      hide SoFar;
      assert lists[m - 1][0] !in SoFar(lists, 0, m - 1);
    }
  }
}
