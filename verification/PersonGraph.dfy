/** `build_person_graph` and `propagate` of `research_rank.py`: the co-project graph and the
    personalised-PageRank smoothing of scores on it. */
module PersonGraph {
  import opened Prelude
  import opened RealSums

  type Employee = nat
  type Vector = seq<real>
  type Matrix = seq<seq<real>>

  function Position(ids: seq<Employee>, e: Employee): (i: nat)
    requires e in ids
    ensures i < |ids| && ids[i] == e
  {
    if ids[0] == e then 0 else 1 + Position(ids[1..], e)
  }

  predicate Square(a: Matrix, n: nat) { |a| == n && forall i | 0 <= i < n :: |a[i]| == n }

  function Entry(a: Matrix, i: nat, j: nat): real {
    if i < |a| && j < |a[i]| then a[i][j] else 0.0
  }

  function At(z: Vector, i: nat): real { if i < |z| then z[i] else 0.0 }

  function Components(z: Vector): nat -> real { (i: nat) => At(z, i) }

  function Total(z: Vector): real { Sum(Components(z), |z|) }

  // -------------------------------------------------------------------- graph

  /** How often two different employees were in the same project, over all of `projects`. */
  function Together(projects: seq<seq<Employee>>, a: Employee, b: Employee): nat {
    if projects == [] || a == b then 0
    else
      var p := projects[|projects| - 1];
      Together(projects[..|projects| - 1], a, b) + Times(p, a) * Times(p, b)
  }

  lemma {:induction false} TogetherSymmetric(projects: seq<seq<Employee>>, a: Employee, b: Employee)
    ensures Together(projects, a, b) == Together(projects, b, a)
  {
    if projects != [] && a != b {
      var p := projects[|projects| - 1];
      TogetherSymmetric(projects[..|projects| - 1], a, b);
      assert Times(p, a) * Times(p, b) == Times(p, b) * Times(p, a);
    }
  }

  /** Projects add up, and one project counts every pair of appearances of two different employees. */
  lemma {:induction false} TogetherCountsPairs(p: seq<seq<Employee>>, q: seq<seq<Employee>>, a: Employee, b: Employee)
    ensures Together(p + q, a, b) == Together(p, a, b) + Together(q, a, b)
    ensures forall m: seq<Employee> ::
              Together([m], a, b) == if a == b then 0 else |Positions(m, a)| * |Positions(m, b)|
  {
    hide Times;
    if q == [] {
      assert p + q == p;
    } else {
      TogetherCountsPairs(p, q[..|q| - 1], a, b);
      assert (p + q)[..|p + q| - 1] == p + q[..|q| - 1];
    }
    forall m: seq<Employee>
      ensures Together([m], a, b) == if a == b then 0 else |Positions(m, a)| * |Positions(m, b)|
    {
      assert [m][..0] == [];
      TimesIsCount(m, a);
      TimesIsCount(m, b);
    }
  }

  function Adjacency(projects: seq<seq<Employee>>, ids: seq<Employee>): (a: Matrix)
    ensures Square(a, |ids|)
  {
    seq(|ids|, i requires 0 <= i < |ids| =>
      seq(|ids|, j requires 0 <= j < |ids| => Together(projects, ids[i], ids[j]) as real))
  }

  function RowOf(a: Matrix, i: nat): nat -> real { (j: nat) => Entry(a, i, j) }

  /** Row sum: for the adjacency matrix, the degree of person `i`. */
  function Degree(a: Matrix, i: nat): real { Sum(RowOf(a, i), |a|) }

  /** Each row divided by its sum, rows of sum zero by 1. */
  function Normalised(a: Matrix): (t: Matrix)
    ensures Square(t, |a|)
  {
    seq(|a|, i requires 0 <= i < |a| =>
      seq(|a|, j requires 0 <= j < |a| => Entry(a, i, j) / (if Degree(a, i) == 0.0 then 1.0 else Degree(a, i))))
  }

  ghost function Rows(m: array2<real>): (a: Matrix)
    reads m
    ensures |a| == m.Length0 && forall i | 0 <= i < |a| :: |a[i]| == m.Length1
  {
    seq(m.Length0, i requires 0 <= i < m.Length0 reads m =>
      seq(m.Length1, j requires 0 <= j < m.Length1 reads m => m[i, j]))
  }

  lemma {:induction false} TimesSnoc(members: seq<Employee>, k: nat, e: Employee)
    requires k < |members|
    ensures Times(members[..k + 1], e) == Times(members[..k], e) + if members[k] == e then 1 else 0
  {
    assert members[..k + 1][..k] == members[..k];
  }

  /** The members of a project that are among `ids`, in order. */
  function Known(members: seq<Employee>, ids: seq<Employee>): seq<Employee> {
    if members == [] then []
    else
      var front, e := Known(members[..|members| - 1], ids), members[|members| - 1];
      if e in ids then front + [e] else front
  }

  lemma {:induction false} KnownCountsTheSame(members: seq<Employee>, ids: seq<Employee>, e: Employee)
    ensures e in ids ==> Times(Known(members, ids), e) == Times(members, e)
    ensures forall x | x in Known(members, ids) :: x in ids
  {
    if members != [] {
      var front := members[..|members| - 1];
      KnownCountsTheSame(front, ids, e);
      var x := members[|members| - 1];
      assert (Known(front, ids) + [x])[..|Known(front, ids)|] == Known(front, ids);
    }
  }

  lemma OneMore(p: nat, q: nat)
    ensures (p + 1) * q == p * q + q && p * 0 == 0 && 0 * q == 0
  {
  }

  /** Adds the pairs of one project to the matrix, in place. */
  method AddProject(adj: array2<real>, members: seq<Employee>, ids: seq<Employee>)
    requires adj.Length0 == adj.Length1 == |ids| && Distinct(ids)
    modifies adj
    ensures forall i, j | 0 <= i < |ids| && 0 <= j < |ids| ::
              adj[i, j] == old(adj[i, j])
                + (if i == j then 0 else Times(members, ids[i]) * Times(members, ids[j])) as real
  {
    var known := Known(members, ids);
    forall e ensures e in ids ==> Times(known, e) == Times(members, e) {
      KnownCountsTheSame(members, ids, e);
    }
    KnownCountsTheSame(members, ids, 0);
    for p := 0 to |known|
      invariant forall i, j | 0 <= i < |ids| && 0 <= j < |ids| ::
                  adj[i, j] == old(adj[i, j])
                    + (if i == j then 0 else Times(known[..p], ids[i]) * Times(known, ids[j])) as real
    {
      assert known[p] in known;
      AddRow(adj, known, ids, p);
      forall i, j | 0 <= i < |ids| && 0 <= j < |ids|
        ensures Times(known[..p + 1], ids[i]) * Times(known, ids[j])
             == Times(known[..p], ids[i]) * Times(known, ids[j])
                + if known[p] == ids[i] then Times(known, ids[j]) else 0
      {
        TimesSnoc(known, p, ids[i]);
        OneMore(Times(known[..p], ids[i]), Times(known, ids[j]));
      }
    }
    assert known[..|known|] == known;
  }

  /** The inner loop: one member `a` against every other one. */
  method AddRow(adj: array2<real>, known: seq<Employee>, ids: seq<Employee>, p: nat)
    requires adj.Length0 == adj.Length1 == |ids| && Distinct(ids)
    requires p < |known| && forall x | x in known :: x in ids
    modifies adj
    ensures forall i, j | 0 <= i < |ids| && 0 <= j < |ids| ::
              adj[i, j] == old(adj[i, j])
                + (if i != j && known[p] == ids[i] then Times(known, ids[j]) else 0) as real
  {
    var a := known[p];
    for q := 0 to |known|
      invariant forall i, j | 0 <= i < |ids| && 0 <= j < |ids| ::
                  adj[i, j] == old(adj[i, j])
                    + (if i != j && a == ids[i] then Times(known[..q], ids[j]) else 0) as real
    {
      var b := known[q];
      assert b in known;
      forall j | 0 <= j < |ids|
        ensures Times(known[..q + 1], ids[j]) == Times(known[..q], ids[j]) + if b == ids[j] then 1 else 0
      {
        TimesSnoc(known, q, ids[j]);
      }
      if a != b {
        var i, j := Position(ids, a), Position(ids, b);
        adj[i, j] := adj[i, j] + 1.0;
      }
    }
    assert known[..|known|] == known;
  }

  /** The row-normalised transition matrix of the co-project graph. */
  method BuildPersonGraph(projects: seq<seq<Employee>>, ids: seq<Employee>) returns (trans: array2<real>)
    requires Distinct(ids)
    ensures fresh(trans) && trans.Length0 == trans.Length1 == |ids|
    ensures Rows(trans) == Normalised(Adjacency(projects, ids))
  {
    var n := |ids|;
    var adj := new real[n, n]((i, j) => 0.0);
    for p := 0 to |projects|
      invariant forall i, j | 0 <= i < n && 0 <= j < n ::
                  adj[i, j] == Together(projects[..p], ids[i], ids[j]) as real
    {
      assert projects[..p + 1][..p] == projects[..p];
      AddProject(adj, projects[p], ids);
    }
    assert projects[..|projects|] == projects;
    RowsAre(adj, Adjacency(projects, ids));
    trans := Normalise(adj);
  }

  /** `adj / row`, where rows of sum zero are divided by 1. */
  method Normalise(adj: array2<real>) returns (trans: array2<real>)
    requires adj.Length0 == adj.Length1
    ensures fresh(trans) && trans.Length0 == trans.Length1 == adj.Length0
    ensures Rows(trans) == Normalised(Rows(adj))
  {
    var n := adj.Length0;
    ghost var a := Rows(adj);
    trans := new real[n, n]((i, j) => 0.0);
    for i := 0 to n
      invariant Rows(adj) == a
      invariant forall x, j | 0 <= x < i && 0 <= j < n :: trans[x, j] == Normalised(a)[x][j]
    {
      var row := RowSum(adj, i);
      if row == 0.0 {
        row := 1.0;
      }
      for j := 0 to n
        invariant Rows(adj) == a
        invariant forall x, y | 0 <= x < i && 0 <= y < n :: trans[x, y] == Normalised(a)[x][y]
        invariant forall y | 0 <= y < j :: trans[i, y] == Normalised(a)[i][y]
      {
        assert adj[i, j] == Rows(adj)[i][j];
        trans[i, j] := adj[i, j] / row;
      }
    }
    RowsAre(trans, Normalised(a));
  }

  lemma RowsAre(m: array2<real>, a: Matrix)
    requires m.Length0 == m.Length1 == |a| && Square(a, |a|)
    requires forall i, j | 0 <= i < |a| && 0 <= j < |a| :: m[i, j] == a[i][j]
    ensures Rows(m) == a
  {
    forall i | 0 <= i < |a| ensures Rows(m)[i] == a[i] {
      assert forall j | 0 <= j < |a| :: Rows(m)[i][j] == a[i][j];
    }
  }

  method RowSum(m: array2<real>, i: nat) returns (row: real)
    requires i < m.Length0 == m.Length1
    ensures row == Degree(Rows(m), i)
  {
    row := 0.0;
    ghost var rows := Rows(m);
    ghost var f := RowOf(rows, i);
    for j := 0 to m.Length1
      invariant row == Sum(f, j)
    {
      assert f(j) == m[i, j];
      row := row + m[i, j];
    }
  }

  // -------------------------------------------------------------- propagation

  /** What person `i` hands on to person `j`. */
  function Share(t: Matrix, z: Vector, i: nat, j: nat): real { Scale(At(z, i), Entry(t, i, j)) }

  function SharesTo(t: Matrix, z: Vector, j: nat): nat -> real { (i: nat) => Share(t, z, i, j) }

  /** What person `j` receives in one step: column `j` of the transition matrix against `z`. */
  function Received(t: Matrix, z: Vector, j: nat): real { Sum(SharesTo(t, z, j), |z|) }

  /** One step `alpha * z0 + (1 - alpha) * (trans.T @ z)`. */
  function Smooth(t: Matrix, z0: Vector, alpha: real, z: Vector): (r: Vector)
    ensures |r| == |z0|
  {
    seq(|z0|, j requires 0 <= j < |z0| => Scale(alpha, z0[j]) + Scale(1.0 - alpha, Received(t, z, j)))
  }

  function Smoothed(t: Matrix, z0: Vector, alpha: real, steps: nat): (r: Vector)
    ensures |r| == |z0|
  {
    if steps == 0 then z0 else Smooth(t, z0, alpha, Smoothed(t, z0, alpha, steps - 1))
  }

  function Initial(scores: map<Employee, real>, ids: seq<Employee>): (z: Vector)
    ensures |z| == |ids|
  {
    seq(|ids|, i requires 0 <= i < |ids| => if ids[i] in scores then scores[ids[i]] else 0.0)
  }

  /** The two results of `propagate`: the score map itself where the test for a zero total holds,
      otherwise the smoothed vector by person. */
  function PropagatedBy(zero: bool, scores: map<Employee, real>, t: Matrix, ids: seq<Employee>,
                        alpha: real, steps: nat)
    : map<Employee, real>
  {
    if zero then scores
    else
      var z := Smoothed(t, Initial(scores, ids), alpha, steps);
      map e | e in ids :: z[Position(ids, e)]
  }

  /** `propagate` with an exact test. */
  function Propagated(scores: map<Employee, real>, t: Matrix, ids: seq<Employee>, alpha: real, steps: nat)
    : map<Employee, real>
  {
    PropagatedBy(Total(Initial(scores, ids)) == 0.0, scores, t, ids, alpha, steps)
  }

  method Propagate(scores: map<Employee, real>, t: Matrix, ids: seq<Employee>, alpha: real, steps: nat)
    returns (r: map<Employee, real>)
    requires Distinct(ids) && Square(t, |ids|)
    ensures r == Propagated(scores, t, ids, alpha, steps)
  {
    var z0 := seq(|ids|, i => 0.0);
    var todo := scores;
    while todo != map[]
      invariant |z0| == |ids|
      invariant todo.Keys <= scores.Keys && forall e | e in todo :: todo[e] == scores[e]
      invariant forall i | 0 <= i < |ids| ::
                  z0[i] == if ids[i] in scores && ids[i] !in todo then scores[ids[i]] else 0.0
      decreases |todo|
    {
      var eid :| eid in todo;
      if eid in ids {
        z0 := z0[Position(ids, eid) := todo[eid]];
      }
      todo := todo - {eid};
    }
    assert z0 == Initial(scores, ids);
    if Total(z0) == 0.0 {
      return scores;
    }
    var z := z0;
    for k := 0 to steps
      invariant z == Smoothed(t, z0, alpha, k)
    {
      z := Smooth(t, z0, alpha, z);
    }
    r := map e | e in ids :: z[Position(ids, e)];
  }

  // --------------------------------------------------------- what smoothing does

  /** With alpha 1 nothing is propagated: everybody in the index gets their own score, or 0. */
  lemma {:induction false} AlphaOneChangesNothing(zero: bool, scores: map<Employee, real>, t: Matrix,
                                                  ids: seq<Employee>, steps: nat)
    requires Distinct(ids)
    ensures var r := PropagatedBy(zero, scores, t, ids, 1.0, steps);
            forall e | e in ids :: (if e in r then r[e] else 0.0) == (if e in scores then scores[e] else 0.0)
  {
    SmoothedAtOne(t, Initial(scores, ids), steps);
    hide Smoothed;
  }

  lemma {:induction false} SmoothedAtOne(t: Matrix, z0: Vector, steps: nat)
    ensures Smoothed(t, z0, 1.0, steps) == z0
  {
    if steps > 0 {
      SmoothedAtOne(t, z0, steps - 1);
      forall j | 0 <= j < |z0| ensures Smooth(t, z0, 1.0, z0)[j] == z0[j] {
        ScaleUnits(z0[j], Received(t, z0, j));
        ScaleUnits(1.0, z0[j]);
      }
    }
  }

  /** A graph: a symmetric matrix without negative entries. */
  ghost predicate IsGraph(a: Matrix) {
    && Square(a, |a|)
    && (forall i, j | 0 <= i < |a| && 0 <= j < |a| :: a[i][j] >= 0.0)
    && (forall i, j | 0 <= i < |a| && 0 <= j < |a| :: a[i][j] == a[j][i])
  }

  lemma AdjacencyIsGraph(projects: seq<seq<Employee>>, ids: seq<Employee>)
    ensures IsGraph(Adjacency(projects, ids))
  {
    forall i, j | 0 <= i < |ids| && 0 <= j < |ids|
      ensures Together(projects, ids[i], ids[j]) == Together(projects, ids[j], ids[i])
    {
      TogetherSymmetric(projects, ids[i], ids[j]);
    }
  }

  /** Nobody else was in a project with person `i`. */
  ghost predicate Isolated(a: Matrix, i: nat) { Degree(a, i) == 0.0 }

  lemma IsolatedHasNoEdges(a: Matrix, i: nat)
    requires IsGraph(a) && i < |a|
    ensures Degree(a, i) >= 0.0
    ensures Isolated(a, i) ==> forall j | 0 <= j < |a| :: Entry(a, i, j) == 0.0 && Entry(a, j, i) == 0.0
  {
    var f := RowOf(a, i);
    assert forall j: nat | j < |a| :: f(j) == a[i][j];
    SumNonNegative(f, |a|);
    if Isolated(a, i) {
      forall j | 0 <= j < |a| ensures Entry(a, i, j) == 0.0 && Entry(a, j, i) == 0.0 {
        assert f(j) == 0.0;
      }
    }
  }

  lemma NormalisedEntry(a: Matrix, i: nat, j: nat)
    requires IsGraph(a) && i < |a| && j < |a|
    ensures Entry(Normalised(a), i, j) >= 0.0
    ensures Isolated(a, i) || Isolated(a, j) ==> Entry(Normalised(a), i, j) == 0.0
    ensures !Isolated(a, i) ==> Scale(Degree(a, i), Entry(Normalised(a), i, j)) == Entry(a, i, j)
  {
    IsolatedHasNoEdges(a, i);
    IsolatedHasNoEdges(a, j);
    var d, x := if Degree(a, i) == 0.0 then 1.0 else Degree(a, i), Entry(a, i, j);
    assert Entry(Normalised(a), i, j) == x / d;
    assert x >= 0.0;
    hide *;
    DivisionLaws(x, d);
  }

  lemma DivisionLaws(x: real, d: real)
    requires x >= 0.0 && d > 0.0
    ensures x / d >= 0.0 && d * (x / d) == x && (x == 0.0 ==> x / d == 0.0)
  {
  }

  /** Each row of the transition matrix adds up to 1, or to 0 for an isolated person. */
  lemma RowsAddToOne(a: Matrix, i: nat)
    requires IsGraph(a) && i < |a|
    ensures Degree(Normalised(a), i) == if Isolated(a, i) then 0.0 else 1.0
  {
    var f, g, d := RowOf(Normalised(a), i), RowOf(a, i), Degree(a, i);
    forall j: nat | j < |a|
      ensures Isolated(a, i) ==> f(j) == 0.0
      ensures !Isolated(a, i) ==> g(j) == Scale(d, f(j))
    {
      NormalisedEntry(a, i, j);
    }
    hide Scale;
    if Isolated(a, i) {
      SumZero(f, |a|);
    } else {
      SumScale(g, d, f, |a|);
      ScaleCancels(d, Sum(f, |a|));
    }
  }

  function OnIsolated(a: Matrix, z: Vector): nat -> real { (i: nat) => if Degree(a, i) == 0.0 then At(z, i) else 0.0 }

  /** The part of `z` that sits on isolated people. */
  function IsolatedMass(a: Matrix, z: Vector): real { Sum(OnIsolated(a, z), |z|) }

  function AllReceived(t: Matrix, z: Vector): nat -> real { (j: nat) => Received(t, z, j) }

  /** What everybody together receives in one step. */
  function ReceivedByAll(t: Matrix, z: Vector): real { Sum(AllReceived(t, z), |z|) }

  /** A person with a neighbour hands on everything, an isolated one nothing. */
  lemma HandedOn(a: Matrix, z: Vector, i: nat)
    requires IsGraph(a) && i < |a|
    ensures Sum((j: nat) => Share(Normalised(a), z, i, j), |a|) == Components(z)(i) - OnIsolated(a, z)(i)
  {
    var t := Normalised(a);
    var shares := (j: nat) => Share(t, z, i, j);
    RowsAddToOne(a, i);
    ScaleLaws(At(z, i), Degree(t, i), 0.0);
    ScaleOne(At(z, i));
    SumScale(shares, At(z, i), RowOf(t, i), |a|);
    SumEqual(shares, (j: nat) => Share(Normalised(a), z, i, j), |a|);
  }

  lemma ScaleOne(x: real)
    ensures Scale(x, 1.0) == x && Scale(x, 0.0) == 0.0
  {
  }

  /** A step hands on exactly the mass of people who have a neighbour. */
  lemma ReceivedTotal(a: Matrix, z: Vector)
    requires IsGraph(a) && |z| == |a|
    ensures ReceivedByAll(Normalised(a), z) == Total(z) - IsolatedMass(a, z)
  {
    var n, t := |a|, Normalised(a);
    var f := (j: nat, i: nat) => Share(t, z, i, j);
    forall i: nat | i < n ensures ColumnSums(f, n)(i) == Components(z)(i) - OnIsolated(a, z)(i) {
      HandedOn(a, z, i);
      SumEqual((j: nat) => f(j, i), (j: nat) => Share(Normalised(a), z, i, j), n);
    }
    hide Share, IsGraph, Normalised, Components, OnIsolated;
    SumSwap(f, n, n);
    SumMinus(ColumnSums(f, n), Components(z), OnIsolated(a, z), n);
    forall j: nat | j < n ensures AllReceived(t, z)(j) == RowSums(f, n)(j) {
      SumEqual(SharesTo(t, z, j), (i: nat) => f(j, i), n);
    }
    SumEqual(AllReceived(t, z), RowSums(f, n), n);
  }

  lemma ReceivedSign(a: Matrix, z: Vector, j: nat)
    requires IsGraph(a) && |z| == |a| && j < |a|
    ensures (forall i | 0 <= i < |z| :: z[i] >= 0.0) ==> Received(Normalised(a), z, j) >= 0.0
    ensures Isolated(a, j) ==> Received(Normalised(a), z, j) == 0.0
  {
    var f := SharesTo(Normalised(a), z, j);
    forall i: nat | i < |z|
      ensures At(z, i) >= 0.0 ==> f(i) >= 0.0
      ensures Isolated(a, j) ==> f(i) == 0.0
    {
      NormalisedEntry(a, i, j);
      ScaleLaws(At(z, i), Entry(Normalised(a), i, j), 0.0);
    }
    hide Normalised, IsGraph, Share, Isolated;
    if forall i | 0 <= i < |z| :: z[i] >= 0.0 { SumNonNegative(f, |z|); }
    if Isolated(a, j) { SumZero(f, |z|); }
  }

  lemma {:induction false} SmoothedNonNegative(a: Matrix, z0: Vector, alpha: real, steps: nat)
    requires IsGraph(a) && |z0| == |a| && 0.0 <= alpha <= 1.0
    requires forall i | 0 <= i < |z0| :: z0[i] >= 0.0
    ensures forall i | 0 <= i < |z0| :: Smoothed(Normalised(a), z0, alpha, steps)[i] >= 0.0
  {
    if steps > 0 {
      SmoothedNonNegative(a, z0, alpha, steps - 1);
      var t, z := Normalised(a), Smoothed(Normalised(a), z0, alpha, steps - 1);
      hide Normalised, IsGraph, Received, Scale;
      forall j | 0 <= j < |z0| ensures Smooth(t, z0, alpha, z)[j] >= 0.0 {
        ReceivedSign(a, z, j);
        ScaleLaws(alpha, z0[j], 0.0);
        ScaleLaws(1.0 - alpha, Received(t, z, j), 0.0);
      }
    }
  }

  lemma SmoothTotal(a: Matrix, z0: Vector, alpha: real, z: Vector)
    requires IsGraph(a) && |z0| == |z| == |a|
    ensures Total(Smooth(Normalised(a), z0, alpha, z))
         == Scale(alpha, Total(z0)) + Scale(1.0 - alpha, Total(z) - IsolatedMass(a, z))
  {
    var t := Normalised(a);
    var kept := (i: nat) => Scale(alpha, At(z0, i));
    var got := (j: nat) => Scale(1.0 - alpha, Received(t, z, j));
    ReceivedTotal(a, z);
    hide Scale, Normalised, IsGraph, Received, IsolatedMass;
    SumScale(kept, alpha, Components(z0), |z0|);
    SumScale(got, 1.0 - alpha, AllReceived(t, z), |z0|);
    SumPlus(Components(Smooth(t, z0, alpha, z)), kept, got, |z0|);
  }

  /** An isolated person receives nothing. */
  lemma IsolatedMassShrinks(a: Matrix, z0: Vector, alpha: real, z: Vector)
    requires IsGraph(a) && |z0| == |z| == |a|
    ensures IsolatedMass(a, Smooth(Normalised(a), z0, alpha, z)) == Scale(alpha, IsolatedMass(a, z0))
  {
    var next := Smooth(Normalised(a), z0, alpha, z);
    hide Normalised, IsGraph, Received, Scale;
    forall j: nat | j < |z0| ensures OnIsolated(a, next)(j) == Scale(alpha, OnIsolated(a, z0)(j)) {
      ReceivedSign(a, z, j);
      ScaleLaws(1.0 - alpha, 0.0, 0.0);
      ScaleLaws(alpha, 0.0, 0.0);
    }
    SumScale(OnIsolated(a, next), alpha, OnIsolated(a, z0), |z0|);
  }

  /** Smoothing loses exactly the share that isolated people would have handed on, once. */
  lemma {:induction false} SmoothedTotal(a: Matrix, z0: Vector, alpha: real, steps: nat)
    requires IsGraph(a) && |z0| == |a| && steps >= 1
    ensures Total(Smoothed(Normalised(a), z0, alpha, steps)) == Total(z0) - (1.0 - alpha) * IsolatedMass(a, z0)
  {
    hide IsGraph, Normalised, Total, IsolatedMass, Smooth;
    var t, z := Normalised(a), Smoothed(Normalised(a), z0, alpha, steps - 1);
    SmoothTotal(a, z0, alpha, z);
    if steps == 1 {
      OneStepTotal(alpha, Total(z0), IsolatedMass(a, z0));
    } else {
      SmoothedTotal(a, z0, alpha, steps - 1);
      IsolatedMassShrinks(a, z0, alpha, Smoothed(t, z0, alpha, steps - 2));
      NextStepTotal(alpha, Total(z0), IsolatedMass(a, z0), Total(z), IsolatedMass(a, z));
    }
  }

  lemma OneStepTotal(alpha: real, s0: real, m: real)
    ensures Scale(alpha, s0) + Scale(1.0 - alpha, s0 - m) == s0 - (1.0 - alpha) * m
  {
    assert (1.0 - alpha) * (s0 - m) == s0 - m - alpha * s0 + alpha * m;
  }

  lemma NextStepTotal(alpha: real, s0: real, m: real, total: real, isolated: real)
    requires total == s0 - (1.0 - alpha) * m && isolated == Scale(alpha, m)
    ensures Scale(alpha, s0) + Scale(1.0 - alpha, total - isolated) == s0 - (1.0 - alpha) * m
  {
    assert total - isolated == s0 - m;
    OneStepTotal(alpha, s0, m);
  }

  function Gap(z: Vector, w: Vector): (gap: Vector)
    requires |z| == |w|
    ensures |gap| == |z|
  {
    seq(|z|, i requires 0 <= i < |z| => Abs(z[i] - w[i]))
  }

  /** Distance in the sum norm. */
  function Distance(z: Vector, w: Vector): real
    requires |z| == |w|
  {
    Total(Gap(z, w))
  }

  /** One step brings any two vectors closer by the factor `1 - alpha`. */
  lemma SmoothContracts(a: Matrix, z0: Vector, alpha: real, z: Vector, w: Vector)
    requires IsGraph(a) && |z0| == |z| == |w| == |a| && 0.0 <= alpha <= 1.0
    ensures Distance(Smooth(Normalised(a), z0, alpha, z), Smooth(Normalised(a), z0, alpha, w))
         <= (1.0 - alpha) * Distance(z, w)
  {
    hide Normalised, IsGraph, Smooth, Received, Total, Gap, IsolatedMass;
    var t, gap := Normalised(a), Gap(z, w);
    var z', w' := Smooth(t, z0, alpha, z), Smooth(t, z0, alpha, w);
    forall j | 0 <= j < |a| ensures At(Gap(z', w'), j) <= Scale(1.0 - alpha, Received(t, gap, j)) {
      SmoothGap(a, z0, alpha, z, w, j);
    }
    TotalBound(Gap(z', w'), t, gap, 1.0 - alpha);
    ReceivedTotal(a, gap);
    GapSign(a, z, w);
    ScaleLaws(1.0 - alpha, ReceivedByAll(t, gap), Distance(z, w));
  }

  lemma TotalBound(x: Vector, t: Matrix, gap: Vector, c: real)
    requires |x| == |gap|
    requires forall j | 0 <= j < |x| :: At(x, j) <= Scale(c, Received(t, gap, j))
    ensures Total(x) <= Scale(c, ReceivedByAll(t, gap))
  {
    hide Scale, Received;
    var bound := (j: nat) => Scale(c, Received(t, gap, j));
    SumMonotone(Components(x), bound, |x|);
    SumScale(bound, c, AllReceived(t, gap), |x|);
  }

  lemma GapSign(a: Matrix, z: Vector, w: Vector)
    requires |z| == |w|
    ensures IsolatedMass(a, Gap(z, w)) >= 0.0
  {
    SumNonNegative(OnIsolated(a, Gap(z, w)), |z|);
  }

  lemma SmoothGap(a: Matrix, z0: Vector, alpha: real, z: Vector, w: Vector, j: nat)
    requires IsGraph(a) && |z0| == |z| == |w| == |a| && 0.0 <= alpha <= 1.0 && j < |a|
    ensures var t := Normalised(a);
            At(Gap(Smooth(t, z0, alpha, z), Smooth(t, z0, alpha, w)), j)
            <= Scale(1.0 - alpha, Received(t, Gap(z, w), j))
  {
    var t := Normalised(a);
    GapIsSpread(a, z, w, j);
    var x, y, c := Received(t, z, j), Received(t, w, j), 1.0 - alpha;
    hide Scale, Normalised, IsGraph, Received;
    ScaleLaws(c, x, y);
    ScaleLaws(c, x - y, 0.0);
    ScaleLaws(c, Abs(x - y), Received(t, Gap(z, w), j));
  }

  lemma GapIsSpread(a: Matrix, z: Vector, w: Vector, j: nat)
    requires IsGraph(a) && |z| == |w| == |a| && j < |a|
    ensures Abs(Received(Normalised(a), z, j) - Received(Normalised(a), w, j)) <= Received(Normalised(a), Gap(z, w), j)
  {
    var n, t, gap := |a|, Normalised(a), Gap(z, w);
    var h := (i: nat) => Share(t, z, i, j) - Share(t, w, i, j);
    forall i: nat | i < n ensures Abs(h(i)) == SharesTo(t, gap, j)(i) {
      NormalisedEntry(a, i, j);
      var e := Entry(t, i, j);
      ScaleSwap(At(z, i), e);
      ScaleSwap(At(w, i), e);
      ScaleSwap(At(gap, i), e);
      ScaleLaws(e, At(z, i), At(w, i));
      ScaleLaws(e, At(z, i) - At(w, i), 0.0);
    }
    hide Normalised, IsGraph, Share, Gap;
    SumMinus(h, SharesTo(t, z, j), SharesTo(t, w, j), n);
    SumAbs(h, SharesTo(t, gap, j), n);
  }

  lemma ScaleSwap(x: real, y: real)
    ensures Scale(x, y) == Scale(y, x)
  {
  }

  function Power(x: real, n: nat): real { if n == 0 then 1.0 else x * Power(x, n - 1) }

  /** Successive iterates come closer by `1 - alpha` per step. */
  lemma {:induction false} IteratesShrink(a: Matrix, z0: Vector, alpha: real, steps: nat)
    requires IsGraph(a) && |z0| == |a| && 0.0 <= alpha <= 1.0
    ensures var t := Normalised(a);
            Distance(Smoothed(t, z0, alpha, steps + 1), Smoothed(t, z0, alpha, steps))
            <= Power(1.0 - alpha, steps) * Distance(Smoothed(t, z0, alpha, 1), z0)
  {
    hide *;
    var t := Normalised(a);
    if steps == 0 {
      FirstStep(t, z0, alpha, 1.0 - alpha);
    } else {
      var z, w := Smoothed(t, z0, alpha, steps), Smoothed(t, z0, alpha, steps - 1);
      NextStep(t, z0, alpha, steps, 1.0 - alpha);
      NextStep(t, z0, alpha, steps - 1, 1.0 - alpha);
      IteratesShrink(a, z0, alpha, steps - 1);
      SmoothContracts(a, z0, alpha, z, w);
      ChainBound(1.0 - alpha, Distance(z, w), Power(1.0 - alpha, steps - 1), Distance(Smoothed(t, z0, alpha, 1), z0),
                 Power(1.0 - alpha, steps), Distance(Smoothed(t, z0, alpha, steps + 1), z));
    }
  }

  lemma FirstStep(t: Matrix, z0: Vector, alpha: real, c: real)
    ensures Smoothed(t, z0, alpha, 0) == z0 && Power(c, 0) == 1.0
  {
  }

  lemma NextStep(t: Matrix, z0: Vector, alpha: real, k: nat, c: real)
    ensures Smoothed(t, z0, alpha, k + 1) == Smooth(t, z0, alpha, Smoothed(t, z0, alpha, k))
    ensures Power(c, k + 1) == c * Power(c, k)
  {
  }

  lemma ChainBound(c: real, x: real, p: real, d: real, q: real, y: real)
    requires c >= 0.0 && x <= p * d && y <= c * x && q == c * p
    ensures y <= q * d
  {
    assert c * x <= c * (p * d) == (c * p) * d;
  }

  /** Whatever vector a step leaves alone, the iterates approach it geometrically. */
  lemma {:induction false} IteratesApproachFixedPoint(a: Matrix, z0: Vector, alpha: real, fixedPoint: Vector,
                                                      steps: nat)
    requires IsGraph(a) && |z0| == |fixedPoint| == |a| && 0.0 <= alpha <= 1.0
    requires Smooth(Normalised(a), z0, alpha, fixedPoint) == fixedPoint
    ensures Distance(Smoothed(Normalised(a), z0, alpha, steps), fixedPoint)
         <= Power(1.0 - alpha, steps) * Distance(z0, fixedPoint)
  {
    hide *;
    var t := Normalised(a);
    if steps == 0 {
      FirstStep(t, z0, alpha, 1.0 - alpha);
    } else {
      var z := Smoothed(t, z0, alpha, steps - 1);
      NextStep(t, z0, alpha, steps - 1, 1.0 - alpha);
      IteratesApproachFixedPoint(a, z0, alpha, fixedPoint, steps - 1);
      SmoothContracts(a, z0, alpha, z, fixedPoint);
      ChainBound(1.0 - alpha, Distance(z, fixedPoint), Power(1.0 - alpha, steps - 1), Distance(z0, fixedPoint),
                 Power(1.0 - alpha, steps), Distance(Smoothed(t, z0, alpha, steps), fixedPoint));
    }
  }

  function Degrees(a: Matrix): (d: Vector)
    ensures |d| == |a|
  {
    seq(|a|, i requires 0 <= i < |a| => Degree(a, i))
  }

  /** The degrees are unchanged by smoothing, for every alpha and number of steps. */
  lemma {:induction false} DegreesAreFixed(a: Matrix, alpha: real, steps: nat)
    requires IsGraph(a)
    ensures Smoothed(Normalised(a), Degrees(a), alpha, steps) == Degrees(a)
  {
    if steps > 0 {
      DegreesAreFixed(a, alpha, steps - 1);
      var t, d := Normalised(a), Degrees(a);
      forall j | 0 <= j < |a| ensures Smooth(t, d, alpha, d)[j] == d[j] {
        DegreeReceived(a, j);
        assert Scale(alpha, d[j]) + Scale(1.0 - alpha, d[j]) == d[j];
      }
    }
  }

  lemma DegreeReceived(a: Matrix, j: nat)
    requires IsGraph(a) && j < |a|
    ensures Received(Normalised(a), Degrees(a), j) == Degree(a, j)
  {
    var t, d := Normalised(a), Degrees(a);
    forall i: nat | i < |a| ensures SharesTo(t, d, j)(i) == RowOf(a, j)(i) {
      NormalisedEntry(a, i, j);
      IsolatedHasNoEdges(a, i);
      ScaleLaws(0.0, Entry(t, i, j), 0.0);
    }
    SumEqual(SharesTo(t, d, j), RowOf(a, j), |a|);
  }

  /** Reading the smoothed result back by person gives the smoothed vector. */
  lemma SmoothedVector(scores: map<Employee, real>, t: Matrix, ids: seq<Employee>, alpha: real, steps: nat)
    requires Distinct(ids)
    ensures Initial(PropagatedBy(false, scores, t, ids, alpha, steps), ids)
         == Smoothed(t, Initial(scores, ids), alpha, steps)
  {
    var r, z := PropagatedBy(false, scores, t, ids, alpha, steps), Smoothed(t, Initial(scores, ids), alpha, steps);
    hide Smoothed, Total;
    forall i | 0 <= i < |ids| ensures Initial(r, ids)[i] == z[i] {
      assert Position(ids, ids[i]) == i;
    }
  }

  lemma ZeroTotalMeansZeroScores(a: Matrix, z0: Vector)
    requires forall i | 0 <= i < |z0| :: z0[i] >= 0.0
    requires Total(z0) == 0.0
    ensures IsolatedMass(a, z0) == 0.0
  {
    var f, g := Components(z0), OnIsolated(a, z0);
    SumNonNegative(f, |z0|);
    forall i: nat | i < |z0| ensures g(i) == 0.0 { assert f(i) == 0.0; }
    SumZero(g, |z0|);
  }

  lemma AdjacencySize(projects: seq<seq<Employee>>, ids: seq<Employee>)
    ensures |Adjacency(projects, ids)| == |ids|
  {
  }

  /** However the test for a zero total comes out, and whatever the scores and alpha: after at least
      one step on the co-project graph the total is the initial one, less `1 - alpha` times the score
      of people who share no project with anybody if smoothing was done. So the two results of
      `propagate` differ in total by exactly that. */
  lemma TotalByTest(zero: bool, scores: map<Employee, real>, projects: seq<seq<Employee>>, ids: seq<Employee>,
                    alpha: real, steps: nat)
    requires Distinct(ids) && steps >= 1
    ensures var a := Adjacency(projects, ids);
            var z0 := Initial(scores, ids);
            Total(Initial(PropagatedBy(zero, scores, Normalised(a), ids, alpha, steps), ids))
            == Total(z0) - if zero then 0.0 else (1.0 - alpha) * IsolatedMass(a, z0)
  {
    hide *;
    var a, z0 := Adjacency(projects, ids), Initial(scores, ids);
    if zero {
      ShortcutReturnsScores(scores, Normalised(a), ids, alpha, steps);
    } else {
      AdjacencySize(projects, ids);
      AdjacencyIsGraph(projects, ids);
      SmoothedTotal(a, z0, alpha, steps);
      SmoothedVector(scores, Normalised(a), ids, alpha, steps);
    }
  }

  lemma ShortcutReturnsScores(scores: map<Employee, real>, t: Matrix, ids: seq<Employee>, alpha: real, steps: nat)
    ensures PropagatedBy(true, scores, t, ids, alpha, steps) == scores
  {
  }

  /** Any scores whose total is not zero are smoothed, and their total obeys the law. */
  lemma NonZeroTotalIsSmoothed(scores: map<Employee, real>, projects: seq<seq<Employee>>, ids: seq<Employee>,
                               alpha: real, steps: nat)
    requires Distinct(ids) && steps >= 1 && Total(Initial(scores, ids)) != 0.0
    ensures var a := Adjacency(projects, ids);
            var z0 := Initial(scores, ids);
            var r := Propagated(scores, Normalised(a), ids, alpha, steps);
            && Initial(r, ids) == Smoothed(Normalised(a), z0, alpha, steps)
            && Total(Initial(r, ids)) == Total(z0) - (1.0 - alpha) * IsolatedMass(a, z0)
  {
    var t := Normalised(Adjacency(projects, ids));
    PropagatedIsByTest(scores, t, ids, alpha, steps);
    hide *;
    SmoothedVector(scores, t, ids, alpha, steps);
    TotalByTest(false, scores, projects, ids, alpha, steps);
  }

  lemma PropagatedIsByTest(scores: map<Employee, real>, t: Matrix, ids: seq<Employee>, alpha: real, steps: nat)
    ensures Propagated(scores, t, ids, alpha, steps)
         == PropagatedBy(Total(Initial(scores, ids)) == 0.0, scores, t, ids, alpha, steps)
  {
  }

  /** With an exact test the law holds exactly when the initial total is not zero or the correction
      is zero anyway. */
  lemma PropagateConservesExactly(scores: map<Employee, real>, projects: seq<seq<Employee>>, ids: seq<Employee>,
                                  alpha: real, steps: nat)
    requires Distinct(ids) && steps >= 1
    ensures var a := Adjacency(projects, ids);
            var z0 := Initial(scores, ids);
            var r := Propagated(scores, Normalised(a), ids, alpha, steps);
            Total(Initial(r, ids)) == Total(z0) - (1.0 - alpha) * IsolatedMass(a, z0) <==>
            Total(z0) != 0.0 || alpha == 1.0 || IsolatedMass(a, z0) == 0.0
  {
    hide *;
    var a, z0 := Adjacency(projects, ids), Initial(scores, ids);
    PropagatedIsByTest(scores, Normalised(a), ids, alpha, steps);
    TotalByTest(Total(z0) == 0.0, scores, projects, ids, alpha, steps);
    ZeroProduct(1.0 - alpha, IsolatedMass(a, z0));
  }

  lemma ZeroProduct(x: real, y: real)
    ensures x * y == 0.0 <==> x == 0.0 || y == 0.0
  {
    if x != 0.0 && x * y == 0.0 { assert y == (x * y) / x; }
  }

  /** Scores without negative values stay so, and the shortcut for a zero total is harmless. */
  lemma PropagateConserves(scores: map<Employee, real>, projects: seq<seq<Employee>>, ids: seq<Employee>,
                           alpha: real, steps: nat)
    requires Distinct(ids) && 0.0 <= alpha <= 1.0 && steps >= 1
    requires forall e | e in scores :: scores[e] >= 0.0
    ensures var a := Adjacency(projects, ids);
            var z0 := Initial(scores, ids);
            var r := Propagated(scores, Normalised(a), ids, alpha, steps);
            && (forall e | e in r :: r[e] >= 0.0)
            && Total(Initial(r, ids)) == Total(z0) - (1.0 - alpha) * IsolatedMass(a, z0)
  {
    hide *;
    var a, z0 := Adjacency(projects, ids), Initial(scores, ids);
    AdjacencySize(projects, ids);
    AdjacencyIsGraph(projects, ids);
    InitialSign(scores, ids);
    PropagatedNonNegative(a, scores, ids, alpha, steps);
    PropagateConservesExactly(scores, projects, ids, alpha, steps);
    if Total(z0) == 0.0 { ZeroTotalMeansZeroScores(a, z0); }
  }

  lemma InitialSign(scores: map<Employee, real>, ids: seq<Employee>)
    requires forall e | e in scores :: scores[e] >= 0.0
    ensures forall i | 0 <= i < |Initial(scores, ids)| :: Initial(scores, ids)[i] >= 0.0
  {
  }

  lemma PropagatedNonNegative(a: Matrix, scores: map<Employee, real>, ids: seq<Employee>, alpha: real, steps: nat)
    requires IsGraph(a) && |a| == |ids| && 0.0 <= alpha <= 1.0
    requires forall e | e in scores :: scores[e] >= 0.0
    ensures var r := Propagated(scores, Normalised(a), ids, alpha, steps); forall e | e in r :: r[e] >= 0.0
  {
    InitialSign(scores, ids);
    hide Total, Smoothed, Normalised, IsGraph;
    SmoothedNonNegative(a, Initial(scores, ids), alpha, steps);
  }

  /** With scores of both signs the zero-total shortcut skips smoothing that would matter. */
  lemma ZeroTotalSkipsSmoothing()
    ensures var scores, ids, t := map[0 := 1.0, 1 := -1.0], [0, 1], [[0.0, 1.0], [1.0, 0.0]];
            && t == Normalised(Adjacency([[0, 1]], ids))
            && Propagated(scores, t, ids, 0.5, 1) == scores
            && Smoothed(t, Initial(scores, ids), 0.5, 1)[0] == 0.0 != Initial(scores, ids)[0]
  {
    var scores, ids, t := map[0 := 1.0, 1 := -1.0], [0, 1], [[0.0, 1.0], [1.0, 0.0]];
    TwoPeopleGraph();
    var z0 := Initial(scores, ids);
    assert z0 == [1.0, -1.0];
    SumOfTwo(Components(z0));
    SumOfTwo(SharesTo(t, z0, 0));
    assert Smoothed(t, z0, 0.5, 0) == z0;
  }

  lemma SumOfTwo(f: nat -> real)
    ensures Sum(f, 2) == f(0) + f(1)
  {
    assert Sum(f, 1) == Sum(f, 0) + f(0);
  }

  lemma TwoPeopleTogether()
    ensures Together([[0, 1]], 0, 1) == 1 == Together([[0, 1]], 1, 0)
  {
    var both: seq<Employee> := [0, 1];
    assert both[..1] == [0] && [0][..0] == [];
    assert Times([0], 0) == 1 && Times([0], 1) == 0;
    assert Times(both, 0) == 1 && Times(both, 1) == 1;
    assert [both][..0] == [] && [both][0] == both;
    hide Times;
    assert Together([], 0, 1) == 0 == Together([], 1, 0);
  }

  lemma TwoPeopleAdjacent()
    ensures Adjacency([[0, 1]], [0, 1]) == [[0.0, 1.0], [1.0, 0.0]]
  {
    TwoPeopleTogether();
    assert Together([[0, 1]], 0, 0) == 0 == Together([[0, 1]], 1, 1);
    hide Together;
    var a := Adjacency([[0, 1]], [0, 1]);
    assert a[0] == [0.0, 1.0] && a[1] == [1.0, 0.0];
  }

  lemma TwoPeopleGraph()
    ensures Normalised(Adjacency([[0, 1]], [0, 1])) == [[0.0, 1.0], [1.0, 0.0]]
  {
    var a := Adjacency([[0, 1]], [0, 1]);
    TwoPeopleAdjacent();
    hide Adjacency, Together, Sum;
    SumOfTwo(RowOf(a, 0));
    SumOfTwo(RowOf(a, 1));
    assert Degree(a, 0) == 1.0 && Degree(a, 1) == 1.0;
    hide Degree;
    assert Normalised(a)[0] == a[0] && Normalised(a)[1] == a[1];
  }
}
