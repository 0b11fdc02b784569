/** Folding ranked chunks into people: `aggregate_people` of `research_rank.py` and the
    reference scorer `score_people` of `bench_embeddings.py`. */
module Aggregation {
  import opened Prelude
  import opened Ranking
  import opened RankFusion

  type Source = string

  /** chunk -> the people it speaks for, each with the kind of evidence. */
  type Owners = map<Id, seq<(Id, Source)>>

  datatype Pooling = RankSum | Max | Top3Sum | ScoreSum(sims: map<Id, real>)

  /** One piece of evidence for a person. */
  type Evidence = (Id, real)

  function SourceWeight(weights: map<Source, real>, src: Source): real {
    if src in weights then weights[src] else 0.3
  }

  function OwnersOf(owners: Owners, chunk: Id): seq<(Id, Source)> {
    if chunk in owners then owners[chunk] else []
  }

  /** `score_sum` with similarities reads them; everything else goes by rank. */
  function Base(pooling: Pooling, chunk: Id, rank: nat): real {
    match pooling
    case ScoreSum(sims) => if chunk in sims then sims[chunk] else 0.0
    case _ => 1.0 / (RRF_K + rank + 1) as real
  }

  function Weighted(base: real, weight: real): real { base * weight }

  function FromChunk(people: seq<(Id, Source)>, weights: map<Source, real>, base: real): (ev: seq<Evidence>)
    ensures |ev| == |people|
  {
    seq(|people|, i requires 0 <= i < |people| => (people[i].0, Weighted(base, SourceWeight(weights, people[i].1))))
  }

  /** The evidence of the first `n` ranked chunks, in the order in which it is met. */
  function Collected(ranked: seq<Id>, owners: Owners, weights: map<Source, real>, pooling: Pooling, n: nat)
    : seq<Evidence>
    requires n <= |ranked|
  {
    if n == 0 then []
    else Collected(ranked, owners, weights, pooling, n - 1)
         + FromChunk(OwnersOf(owners, ranked[n - 1]), weights, Base(pooling, ranked[n - 1], n - 1))
  }

  function Cut(ranked: seq<Id>, topN: nat): nat { if topN < |ranked| then topN else |ranked| }

  function People(ev: seq<Evidence>): set<Id> { set e | e in ev :: e.0 }

  /** The values of one person, in order. */
  function Values(ev: seq<Evidence>, person: Id): seq<real> {
    if ev == [] then []
    else
      var front, e := Values(ev[..|ev| - 1], person), ev[|ev| - 1];
      if e.0 == person then front + [e.1] else front
  }

  function Total(vals: seq<real>): real {
    if vals == [] then 0.0 else Total(vals[..|vals| - 1]) + vals[|vals| - 1]
  }

  function Largest(vals: seq<real>): real
    requires vals != []
  {
    if |vals| == 1 then vals[0]
    else
      var m := Largest(vals[..|vals| - 1]);
      if m < vals[|vals| - 1] then vals[|vals| - 1] else m
  }

  lemma {:induction false} LargestIsMaximum(vals: seq<real>) returns (at: nat)
    requires vals != []
    ensures at < |vals| && vals[at] == Largest(vals) && forall i | 0 <= i < |vals| :: vals[i] <= Largest(vals)
  {
    var n := |vals| - 1;
    if n == 0 {
      at := 0;
    } else {
      at := LargestIsMaximum(vals[..n]);
      assert forall i | 0 <= i < n :: vals[i] == vals[..n][i];
      if vals[at] < vals[n] { at := n; }
    }
  }

  function Insert(x: real, s: seq<real>): seq<real> {
    if s == [] || x >= s[0] then [x] + s else [s[0]] + Insert(x, s[1..])
  }

  /** `sorted(vals, reverse=True)`. */
  function Descending(vals: seq<real>): seq<real> {
    if vals == [] then [] else Insert(vals[|vals| - 1], Descending(vals[..|vals| - 1]))
  }

  function Pool(pooling: Pooling, vals: seq<real>): real
    requires vals != []
  {
    match pooling
    case Max => Largest(vals)
    case Top3Sum => Total(Take(Descending(vals), 3))
    case _ => Total(vals)
  }

  function PersonScore(vals: seq<real>, pooling: Pooling, norm: nat -> real): real
    requires forall c: nat | c > 0 :: norm(c) > 0.0
  {
    if vals == [] then 0.0 else Pool(pooling, vals) / norm(|vals|)
  }

  /** One pooled score per person; `norm(c)` is `c ** count_norm`, which is 1 without normalisation. */
  function Pooled(ev: seq<Evidence>, pooling: Pooling, norm: nat -> real): Scores
    requires forall c: nat | c > 0 :: norm(c) > 0.0
  {
    map p | p in People(ev) :: PersonScore(Values(ev, p), pooling, norm)
  }

  lemma {:induction false} ValuesNonEmpty(ev: seq<Evidence>, person: Id)
    ensures Values(ev, person) != [] <==> person in People(ev)
  {
    if ev != [] {
      var front, e := ev[..|ev| - 1], ev[|ev| - 1];
      assert ev == front + [e];
      ValuesNonEmpty(front, person);
      assert e in ev && forall x | x in front :: x in ev;
      if person in People(ev) && e.0 != person {
        var x :| x in ev && x.0 == person;
        assert x in front;
      }
    }
  }

  lemma ValuesSnoc(ev: seq<Evidence>, e: Evidence, person: Id)
    ensures Values(ev + [e], person) == if e.0 == person then Values(ev, person) + [e.1] else Values(ev, person)
    ensures People(ev + [e]) == People(ev) + {e.0}
  {
    assert (ev + [e])[..|ev|] == ev;
    forall p ensures p in People(ev + [e]) <==> p in People(ev) || p == e.0 {
      assert e in ev + [e] && forall x | x in ev :: x in ev + [e];
    }
  }

  /** `per_person` after the evidence `ev`. */
  function Grouped(ev: seq<Evidence>): map<Id, seq<real>> {
    map p | p in People(ev) :: Values(ev, p)
  }

  function Appended(group: map<Id, seq<real>>, person: Id, x: real): map<Id, seq<real>> {
    group[person := (if person in group then group[person] else []) + [x]]
  }

  function Raised(score: Scores, person: Id, x: real): Scores {
    score[person := (if person in score then score[person] else 0.0) + x]
  }

  /** `per_person[eid].append(...)` for one more piece of evidence. */
  lemma GroupedSnoc(ev: seq<Evidence>, e: Evidence, group: map<Id, seq<real>>)
    requires group == Grouped(ev)
    ensures Appended(group, e.0, e.1) == Grouped(ev + [e])
  {
    forall p ensures Values(ev + [e], p) == if e.0 == p then Values(ev, p) + [e.1] else Values(ev, p) {
      ValuesSnoc(ev, e, p);
    }
    ValuesSnoc(ev, e, e.0);
    ValuesNonEmpty(ev, e.0);
  }

  lemma GroupedStep(ev: seq<Evidence>, people: seq<(Id, Source)>, weights: map<Source, real>, base: real,
                    i: nat, group: map<Id, seq<real>>)
    requires i < |people| && group == Grouped(ev + FromChunk(people, weights, base)[..i])
    ensures Appended(group, people[i].0, base * SourceWeight(weights, people[i].1))
            == Grouped(ev + FromChunk(people, weights, base)[..i + 1])
  {
    var chunk := FromChunk(people, weights, base);
    FromChunkAt(people, weights, base, i);
    GroupedSnoc(ev + chunk[..i], chunk[i], group);
    hide *;
    assert ev + chunk[..i] + [chunk[i]] == ev + chunk[..i + 1];
  }

  lemma FromChunkAt(people: seq<(Id, Source)>, weights: map<Source, real>, base: real, i: nat)
    requires i < |people|
    ensures FromChunk(people, weights, base)[i].0 == people[i].0
    ensures FromChunk(people, weights, base)[i].1 == Weighted(base, SourceWeight(weights, people[i].1))
  {
  }

  method AggregatePeople(ranked: seq<Id>, owners: Owners, weights: map<Source, real>, topN: nat,
                         pooling: Pooling, norm: nat -> real)
    returns (score: Scores)
    requires forall c: nat | c > 0 :: norm(c) > 0.0
    ensures score == Pooled(Collected(ranked, owners, weights, pooling, Cut(ranked, topN)), pooling, norm)
  {
    var perPerson: map<Id, seq<real>> := map[];
    ghost var ev: seq<Evidence> := [];
    for rank := 0 to Cut(ranked, topN)
      invariant ev == Collected(ranked, owners, weights, pooling, rank)
      invariant perPerson == Grouped(ev)
    {
      var base, people := Base(pooling, ranked[rank], rank), OwnersOf(owners, ranked[rank]);
      perPerson := GroupChunk(perPerson, ev, people, weights, base);
      ev := ev + FromChunk(people, weights, base);
    }
    score := PoolEach(perPerson, ev, pooling, norm);
  }

  /** Appends what one chunk says about its people. */
  method GroupChunk(before: map<Id, seq<real>>, ghost ev: seq<Evidence>, people: seq<(Id, Source)>,
                    weights: map<Source, real>, base: real)
    returns (perPerson: map<Id, seq<real>>)
    requires before == Grouped(ev)
    ensures perPerson == Grouped(ev + FromChunk(people, weights, base))
  {
    ghost var chunk := FromChunk(people, weights, base);
    perPerson := before;
    assert ev + chunk[..0] == ev;
    hide Grouped;
    for i := 0 to |people|
      invariant perPerson == Grouped(ev + chunk[..i])
    {
      GroupedStep(ev, people, weights, base, i, perPerson);
      perPerson := Appended(perPerson, people[i].0, base * SourceWeight(weights, people[i].1));
    }
    assert chunk[..|people|] == chunk;
  }

  method PoolEach(perPerson: map<Id, seq<real>>, ghost ev: seq<Evidence>, pooling: Pooling, norm: nat -> real)
    returns (score: Scores)
    requires perPerson == Grouped(ev) && forall c: nat | c > 0 :: norm(c) > 0.0
    ensures score == Pooled(ev, pooling, norm)
  {
    hide PersonScore, Grouped, Pooled, PooledBut;
    score := map[];
    var todo := perPerson;
    assert PooledBut(score, perPerson, todo, pooling, norm) by { NothingPooled(perPerson, pooling, norm); }
    while todo != map[]
      invariant PooledBut(score, perPerson, todo, pooling, norm)
      decreases |todo|
    {
      var eid :| eid in todo;
      OneMorePooled(score, perPerson, todo, pooling, norm, eid);
      score := score[eid := PersonScore(todo[eid], pooling, norm)];
      todo := todo - {eid};
    }
    EveryonePooled(score, perPerson, pooling, norm);
    AllPooled(perPerson, ev, pooling, norm, score);
  }

  /** Everybody but those of `todo` has their score. */
  ghost predicate PooledBut(score: Scores, perPerson: map<Id, seq<real>>, todo: map<Id, seq<real>>,
                            pooling: Pooling, norm: nat -> real)
    requires forall c: nat | c > 0 :: norm(c) > 0.0
  {
    && todo.Keys <= perPerson.Keys && (forall p | p in todo :: todo[p] == perPerson[p])
    && score.Keys == perPerson.Keys - todo.Keys
    && (forall p | p in score :: score[p] == PersonScore(perPerson[p], pooling, norm))
  }

  lemma NothingPooled(perPerson: map<Id, seq<real>>, pooling: Pooling, norm: nat -> real)
    requires forall c: nat | c > 0 :: norm(c) > 0.0
    ensures PooledBut(map[], perPerson, perPerson, pooling, norm)
  {
  }

  lemma OneMorePooled(score: Scores, perPerson: map<Id, seq<real>>, todo: map<Id, seq<real>>,
                      pooling: Pooling, norm: nat -> real, eid: Id)
    requires forall c: nat | c > 0 :: norm(c) > 0.0
    requires PooledBut(score, perPerson, todo, pooling, norm) && eid in todo
    ensures PooledBut(score[eid := PersonScore(todo[eid], pooling, norm)], perPerson, todo - {eid}, pooling, norm)
  {
    hide PersonScore;
  }

  lemma EveryonePooled(score: Scores, perPerson: map<Id, seq<real>>, pooling: Pooling, norm: nat -> real)
    requires forall c: nat | c > 0 :: norm(c) > 0.0
    requires PooledBut(score, perPerson, map[], pooling, norm)
    ensures score.Keys == perPerson.Keys
    ensures forall p | p in score :: score[p] == PersonScore(perPerson[p], pooling, norm)
  {
    hide PersonScore;
  }

  lemma AllPooled(perPerson: map<Id, seq<real>>, ev: seq<Evidence>, pooling: Pooling, norm: nat -> real, score: Scores)
    requires perPerson == Grouped(ev) && forall c: nat | c > 0 :: norm(c) > 0.0
    requires score.Keys == perPerson.Keys
    requires forall p | p in score :: score[p] == PersonScore(perPerson[p], pooling, norm)
    ensures score == Pooled(ev, pooling, norm)
  {
    hide PersonScore, Values, People;
  }

  // ------------------------------------------------- the reference scorer

  /** `score[eid] += rw * weight` over all evidence. */
  function Added(ev: seq<Evidence>, person: Id): real {
    if ev == [] then 0.0
    else Added(ev[..|ev| - 1], person) + if ev[|ev| - 1].0 == person then ev[|ev| - 1].1 else 0.0
  }

  function AddedScores(ev: seq<Evidence>): Scores { map p | p in People(ev) :: Added(ev, p) }

  lemma {:induction false} NothingAdded(ev: seq<Evidence>, person: Id)
    requires person !in People(ev)
    ensures Added(ev, person) == 0.0
  {
    if ev != [] {
      var front := ev[..|ev| - 1];
      assert ev[|ev| - 1] in ev && forall x | x in front :: x in ev;
      NothingAdded(front, person);
    }
  }

  lemma AddedSnoc(ev: seq<Evidence>, e: Evidence, score: Scores)
    requires score == AddedScores(ev)
    ensures Raised(score, e.0, e.1) == AddedScores(ev + [e])
  {
    assert (ev + [e])[..|ev|] == ev;
    ValuesSnoc(ev, e, e.0);
    if e.0 !in score { NothingAdded(ev, e.0); }
  }

  lemma AddedStep(ev: seq<Evidence>, people: seq<(Id, Source)>, weights: map<Source, real>, rw: real,
                  i: nat, score: Scores)
    requires i < |people| && score == AddedScores(ev + FromChunk(people, weights, rw)[..i])
    ensures Raised(score, people[i].0, rw * SourceWeight(weights, people[i].1))
            == AddedScores(ev + FromChunk(people, weights, rw)[..i + 1])
  {
    var chunk := FromChunk(people, weights, rw);
    FromChunkAt(people, weights, rw, i);
    AddedSnoc(ev + chunk[..i], chunk[i], score);
    hide *;
    assert ev + chunk[..i] + [chunk[i]] == ev + chunk[..i + 1];
  }

  method ScorePeople(ranked: seq<Id>, owners: Owners, weights: map<Source, real>, topN: nat) returns (r: seq<Id>)
    ensures r == ToRanking(AddedScores(Collected(ranked, owners, weights, RankSum, Cut(ranked, topN))))
  {
    var score: Scores := map[];
    ghost var ev: seq<Evidence> := [];
    for rank := 0 to Cut(ranked, topN)
      invariant ev == Collected(ranked, owners, weights, RankSum, rank)
      invariant score == AddedScores(ev)
    {
      var rw, people := 1.0 / (RRF_K + rank + 1) as real, OwnersOf(owners, ranked[rank]);
      score := AddChunk(score, ev, people, weights, rw);
      ev := ev + FromChunk(people, weights, rw);
    }
    r := ToRanking(score);
  }

  method AddChunk(before: Scores, ghost ev: seq<Evidence>, people: seq<(Id, Source)>,
                  weights: map<Source, real>, rw: real)
    returns (score: Scores)
    requires before == AddedScores(ev)
    ensures score == AddedScores(ev + FromChunk(people, weights, rw))
  {
    ghost var chunk := FromChunk(people, weights, rw);
    score := before;
    assert ev + chunk[..0] == ev;
    hide AddedScores;
    for i := 0 to |people|
      invariant score == AddedScores(ev + chunk[..i])
    {
      AddedStep(ev, people, weights, rw, i, score);
      score := Raised(score, people[i].0, rw * SourceWeight(weights, people[i].1));
    }
    assert chunk[..|people|] == chunk;
  }

  lemma {:induction false} AddedIsTotal(ev: seq<Evidence>, person: Id)
    ensures Added(ev, person) == Total(Values(ev, person))
  {
    if ev != [] {
      var front, e := ev[..|ev| - 1], ev[|ev| - 1];
      AddedIsTotal(front, person);
      if e.0 == person {
        assert Values(ev, person)[..|Values(front, person)|] == Values(front, person);
      }
    }
  }

  /** The reference scorer ranks people exactly as `to_ranking` of the `rank_sum` aggregation does. */
  lemma ScorersAgree(ranked: seq<Id>, owners: Owners, weights: map<Source, real>, topN: nat)
    ensures var ev := Collected(ranked, owners, weights, RankSum, Cut(ranked, topN));
            ToRanking(AddedScores(ev)) == ToRanking(Pooled(ev, RankSum, c => 1.0))
  {
    var ev := Collected(ranked, owners, weights, RankSum, Cut(ranked, topN));
    forall p | p in People(ev) ensures Added(ev, p) == Total(Values(ev, p)) / 1.0 {
      AddedIsTotal(ev, p);
    }
    assert AddedScores(ev) == Pooled(ev, RankSum, c => 1.0);
  }

  // ------------------------------------------------------- what a score is made of

  /** Owner `owner` of the chunk at rank `rank`, worth `base * weight`. */
  datatype Piece = Piece(rank: nat, owner: nat, base: real, weight: real)

  /** Owner `j` of the chunk at rank `r` is `person`. */
  predicate MetAt(ranked: seq<Id>, owners: Owners, n: nat, person: Id, r: nat, j: nat)
    requires n <= |ranked|
  {
    r < n && j < |OwnersOf(owners, ranked[r])| && OwnersOf(owners, ranked[r])[j].0 == person
  }

  predicate Earlier(a: Piece, b: Piece) { a.rank < b.rank || (a.rank == b.rank && a.owner < b.owner) }

  predicate Has(pieces: seq<Piece>, r: nat, j: nat) {
    exists k | 0 <= k < |pieces| :: pieces[k].rank == r && pieces[k].owner == j
  }

  /** The places at which `person` is met among the first `n` chunks, each once and in order. */
  ghost predicate AreMeetings(pieces: seq<Piece>, ranked: seq<Id>, owners: Owners, n: nat, person: Id)
    requires n <= |ranked|
  {
    && (forall k | 0 <= k < |pieces| :: MetAt(ranked, owners, n, person, pieces[k].rank, pieces[k].owner))
    && (forall k, l | 0 <= k < l < |pieces| :: Earlier(pieces[k], pieces[l]))
    && (forall r: nat, j: nat | MetAt(ranked, owners, n, person, r, j) :: Has(pieces, r, j))
  }

  /** Each piece is worth the base of its rank and the weight of its kind. */
  ghost predicate AreWorth(pieces: seq<Piece>, vals: seq<real>, ranked: seq<Id>, owners: Owners,
                           weights: map<Source, real>, pooling: Pooling)
  {
    && |vals| == |pieces|
    && forall k | 0 <= k < |pieces| ::
         && pieces[k].rank < |ranked| && pieces[k].owner < |OwnersOf(owners, ranked[pieces[k].rank])|
         && vals[k] == Weighted(pieces[k].base, pieces[k].weight)
         && pieces[k].base == Base(pooling, ranked[pieces[k].rank], pieces[k].rank)
         && pieces[k].weight == SourceWeight(weights, OwnersOf(owners, ranked[pieces[k].rank])[pieces[k].owner].1)
  }

  lemma {:induction false} ValuesAppend(a: seq<Evidence>, b: seq<Evidence>, person: Id)
    ensures Values(a + b, person) == Values(a, person) + Values(b, person)
  {
    if b == [] {
      assert a + b == a;
    } else {
      ValuesAppend(a, b[..|b| - 1], person);
      assert (a + b)[..|a + b| - 1] == a + b[..|b| - 1];
    }
  }

  /** The values of a person: one for each place, up to owner `i` of rank `n`. */
  lemma {:induction false} PiecesOf(ranked: seq<Id>, owners: Owners, weights: map<Source, real>, pooling: Pooling,
                                    n: nat, i: nat, person: Id)
    returns (pieces: seq<Piece>, vals: seq<real>)
    requires if n < |ranked| then i <= |OwnersOf(owners, ranked[n])| else n == |ranked| && i == 0
    ensures vals == Values(UpTo(ranked, owners, weights, pooling, n, i), person)
    ensures AreWorth(pieces, vals, ranked, owners, weights, pooling)
    ensures ArePlaces(pieces, ranked, owners, n, i, person)
    decreases n, i
  {
    hide *;
    if i > 0 {
      pieces, vals := PiecesOf(ranked, owners, weights, pooling, n, i - 1, person);
      pieces, vals := NextPiece(ranked, owners, weights, pooling, n, i - 1, person, pieces, vals);
    } else if n > 0 {
      pieces, vals := PiecesOf(ranked, owners, weights, pooling, n - 1, |OwnersOf(owners, ranked[n - 1])|, person);
      NextChunk(ranked, owners, weights, pooling, n);
      NextPlaces(pieces, ranked, owners, n, person);
    } else {
      pieces, vals := [], [];
      NoPieces(ranked, owners, weights, pooling, person);
    }
  }

  /** The evidence up to owner `i` of the chunk at rank `n`. */
  function UpTo(ranked: seq<Id>, owners: Owners, weights: map<Source, real>, pooling: Pooling, n: nat, i: nat)
    : seq<Evidence>
    requires if n < |ranked| then i <= |OwnersOf(owners, ranked[n])| else n == |ranked| && i == 0
  {
    Collected(ranked, owners, weights, pooling, n)
    + if n < |ranked| then FromChunk(OwnersOf(owners, ranked[n]), weights, Base(pooling, ranked[n], n))[..i] else []
  }

  predicate Reached(ranked: seq<Id>, owners: Owners, n: nat, i: nat, person: Id, r: nat, j: nat) {
    && (r < n || (r == n && j < i)) && r < |ranked| && j < |OwnersOf(owners, ranked[r])|
    && OwnersOf(owners, ranked[r])[j].0 == person
  }

  ghost predicate ArePlaces(pieces: seq<Piece>, ranked: seq<Id>, owners: Owners, n: nat, i: nat, person: Id) {
    && (forall k | 0 <= k < |pieces| :: Reached(ranked, owners, n, i, person, pieces[k].rank, pieces[k].owner))
    && (forall k, l | 0 <= k < l < |pieces| :: Earlier(pieces[k], pieces[l]))
    && (forall r: nat, j: nat | Reached(ranked, owners, n, i, person, r, j) :: Has(pieces, r, j))
  }

  lemma NoPieces(ranked: seq<Id>, owners: Owners, weights: map<Source, real>, pooling: Pooling, person: Id)
    ensures Values(UpTo(ranked, owners, weights, pooling, 0, 0), person) == []
    ensures AreWorth([], [], ranked, owners, weights, pooling) && ArePlaces([], ranked, owners, 0, 0, person)
  {
  }

  lemma NextChunk(ranked: seq<Id>, owners: Owners, weights: map<Source, real>, pooling: Pooling, n: nat)
    requires 0 < n <= |ranked|
    ensures UpTo(ranked, owners, weights, pooling, n, 0)
         == UpTo(ranked, owners, weights, pooling, n - 1, |OwnersOf(owners, ranked[n - 1])|)
  {
    var chunk := FromChunk(OwnersOf(owners, ranked[n - 1]), weights, Base(pooling, ranked[n - 1], n - 1));
    hide FromChunk, Base, OwnersOf;
    assert chunk[..|chunk|] == chunk;
  }

  lemma NextPlaces(pieces: seq<Piece>, ranked: seq<Id>, owners: Owners, n: nat, person: Id)
    requires 0 < n <= |ranked|
    requires ArePlaces(pieces, ranked, owners, n - 1, |OwnersOf(owners, ranked[n - 1])|, person)
    ensures ArePlaces(pieces, ranked, owners, n, 0, person)
  {
    hide OwnersOf, Has, Earlier;
    forall r: nat, j: nat
      ensures Reached(ranked, owners, n, 0, person, r, j) <==>
              Reached(ranked, owners, n - 1, |OwnersOf(owners, ranked[n - 1])|, person, r, j)
    {
    }
  }

  lemma NextPiece(ranked: seq<Id>, owners: Owners, weights: map<Source, real>, pooling: Pooling, n: nat, i: nat,
                  person: Id, front: seq<Piece>, before: seq<real>)
    returns (pieces: seq<Piece>, vals: seq<real>)
    requires n < |ranked| && i < |OwnersOf(owners, ranked[n])|
    requires before == Values(UpTo(ranked, owners, weights, pooling, n, i), person)
    requires AreWorth(front, before, ranked, owners, weights, pooling)
    requires ArePlaces(front, ranked, owners, n, i, person)
    ensures vals == Values(UpTo(ranked, owners, weights, pooling, n, i + 1), person)
    ensures AreWorth(pieces, vals, ranked, owners, weights, pooling)
    ensures ArePlaces(pieces, ranked, owners, n, i + 1, person)
  {
    hide *;
    var (who, src) := OwnersOf(owners, ranked[n])[i];
    var p := Piece(n, i, Base(pooling, ranked[n], n), SourceWeight(weights, src));
    NextEvidence(ranked, owners, weights, pooling, n, i);
    ValuesSnoc(UpTo(ranked, owners, weights, pooling, n, i), (who, Weighted(p.base, p.weight)), person);
    if who == person {
      pieces, vals := front + [p], before + [Weighted(p.base, p.weight)];
      WorthOf(ranked, owners, weights, pooling, p);
      OneMoreWorth(front, before, p, ranked, owners, weights, pooling);
    } else {
      pieces, vals := front, before;
    }
    OneMorePlace(front, p, ranked, owners, n, i, person);
  }

  lemma NextEvidence(ranked: seq<Id>, owners: Owners, weights: map<Source, real>, pooling: Pooling, n: nat, i: nat)
    requires n < |ranked| && i < |OwnersOf(owners, ranked[n])|
    ensures var (who, src) := OwnersOf(owners, ranked[n])[i];
            UpTo(ranked, owners, weights, pooling, n, i + 1) == UpTo(ranked, owners, weights, pooling, n, i)
              + [(who, Weighted(Base(pooling, ranked[n], n), SourceWeight(weights, src)))]
  {
    var people, base := OwnersOf(owners, ranked[n]), Base(pooling, ranked[n], n);
    FromChunkAt(people, weights, base, i);
    hide FromChunk, Base, OwnersOf, SourceWeight, Weighted;
    var chunk := FromChunk(people, weights, base);
    assert chunk[..i + 1] == chunk[..i] + [chunk[i]];
  }

  lemma WorthOf(ranked: seq<Id>, owners: Owners, weights: map<Source, real>, pooling: Pooling, p: Piece)
    requires p.rank < |ranked| && p.owner < |OwnersOf(owners, ranked[p.rank])|
    requires p.base == Base(pooling, ranked[p.rank], p.rank)
    requires p.weight == SourceWeight(weights, OwnersOf(owners, ranked[p.rank])[p.owner].1)
    ensures AreWorth([p], [Weighted(p.base, p.weight)], ranked, owners, weights, pooling)
  {
  }

  lemma OneMoreWorth(front: seq<Piece>, before: seq<real>, p: Piece, ranked: seq<Id>, owners: Owners,
                     weights: map<Source, real>, pooling: Pooling)
    requires AreWorth(front, before, ranked, owners, weights, pooling)
    requires AreWorth([p], [Weighted(p.base, p.weight)], ranked, owners, weights, pooling)
    ensures AreWorth(front + [p], before + [Weighted(p.base, p.weight)], ranked, owners, weights, pooling)
  {
    hide Weighted, Base, SourceWeight, OwnersOf;
  }

  lemma OneMorePlace(front: seq<Piece>, p: Piece, ranked: seq<Id>, owners: Owners, n: nat, i: nat, person: Id)
    requires n < |ranked| && i < |OwnersOf(owners, ranked[n])| && p.rank == n && p.owner == i
    requires ArePlaces(front, ranked, owners, n, i, person)
    ensures ArePlaces(if OwnersOf(owners, ranked[n])[i].0 == person then front + [p] else front,
                      ranked, owners, n, i + 1, person)
  {
    forall r: nat, j: nat { OneMoreReached(ranked, owners, n, i, person, r, j); }
    forall r: nat, j: nat { HasSnoc(front, p, r, j); }
    forall k | 0 <= k < |front| ensures Earlier(front[k], p) {
      assert Reached(ranked, owners, n, i, person, front[k].rank, front[k].owner);
    }
    hide OwnersOf, Reached, Has, Earlier;
  }

  lemma OneMoreReached(ranked: seq<Id>, owners: Owners, n: nat, i: nat, person: Id, r: nat, j: nat)
    requires n < |ranked| && i < |OwnersOf(owners, ranked[n])|
    ensures Reached(ranked, owners, n, i + 1, person, r, j) <==>
            Reached(ranked, owners, n, i, person, r, j)
            || (r == n && j == i && OwnersOf(owners, ranked[n])[i].0 == person)
  {
    hide OwnersOf;
  }

  lemma HasSnoc(front: seq<Piece>, p: Piece, r: nat, j: nat)
    ensures Has(front + [p], r, j) <==> Has(front, r, j) || (p.rank == r && p.owner == j)
  {
    var all := front + [p];
    assert all[|front|] == p;
    if Has(front, r, j) {
      var k :| 0 <= k < |front| && front[k].rank == r && front[k].owner == j;
      assert all[k] == front[k];
    }
  }

  lemma ScoredPieces(ranked: seq<Id>, owners: Owners, weights: map<Source, real>, topN: nat, pooling: Pooling,
                     norm: nat -> real, person: Id)
    returns (pieces: seq<Piece>, vals: seq<real>)
    requires forall c: nat | c > 0 :: norm(c) > 0.0
    ensures AreMeetings(pieces, ranked, owners, Cut(ranked, topN), person) && |vals| == |pieces|
    ensures AreWorth(pieces, vals, ranked, owners, weights, pooling)
    ensures var score := Pooled(Collected(ranked, owners, weights, pooling, Cut(ranked, topN)), pooling, norm);
            && (person in score <==> pieces != [])
            && (person in score ==> score[person] == Pool(pooling, vals) / norm(|pieces|))
  {
    var n := Cut(ranked, topN);
    var ev := Collected(ranked, owners, weights, pooling, n);
    pieces, vals := PiecesOf(ranked, owners, weights, pooling, n, 0, person);
    NoMoreOfChunk(ranked, owners, weights, pooling, n);
    PlacesAreMeetings(pieces, ranked, owners, n, person);
    ValuesNonEmpty(ev, person);
    PersonPooled(ev, pooling, norm, person);
    AsManyValues(pieces, vals, ranked, owners, weights, pooling);
    hide *;
    assert |vals| == 0 <==> vals == [];
  }

  lemma AsManyValues(pieces: seq<Piece>, vals: seq<real>, ranked: seq<Id>, owners: Owners,
                     weights: map<Source, real>, pooling: Pooling)
    requires AreWorth(pieces, vals, ranked, owners, weights, pooling)
    ensures |vals| == |pieces|
  {
    hide Weighted, Base, SourceWeight;
  }

  /** `aggregate_people`, read off the input: a person has a score exactly when some chunk of the cut speaks
      for them, and it is the pooled worth of every place they are met at, divided by the norm of the
      number of places. A place is worth the similarity of its chunk or the reciprocal of its
      rank, times the weight of its kind, 0.3 for kinds without one. */
  lemma ScoreFromPieces(ranked: seq<Id>, owners: Owners, weights: map<Source, real>, topN: nat, pooling: Pooling,
                        norm: nat -> real, person: Id)
    returns (pieces: seq<Piece>, vals: seq<real>)
    requires forall c: nat | c > 0 :: norm(c) > 0.0
    ensures AreMeetings(pieces, ranked, owners, if topN < |ranked| then topN else |ranked|, person)
    ensures |vals| == |pieces|
    ensures forall k | 0 <= k < |pieces| ::
              var p := pieces[k];
              var chunk, src := ranked[p.rank], OwnersOf(owners, ranked[p.rank])[p.owner].1;
              && vals[k] == p.base * p.weight
              && p.base == (if !pooling.ScoreSum? then 1.0 / (RRF_K + p.rank + 1) as real
                            else if chunk in pooling.sims then pooling.sims[chunk] else 0.0)
              && p.weight == (if src in weights then weights[src] else 0.3)
    ensures var score := Pooled(Collected(ranked, owners, weights, pooling, Cut(ranked, topN)), pooling, norm);
            && (person in score <==> pieces != [])
            && (person in score ==> score[person] == Pool(pooling, vals) / norm(|pieces|))
  {
    pieces, vals := ScoredPieces(ranked, owners, weights, topN, pooling, norm, person);
    assert Cut(ranked, topN) == if topN < |ranked| then topN else |ranked|;
    WorthWritten(pieces, vals, ranked, owners, weights, pooling);
    hide *;
  }

  lemma WorthWritten(pieces: seq<Piece>, vals: seq<real>, ranked: seq<Id>, owners: Owners,
                     weights: map<Source, real>, pooling: Pooling)
    requires AreWorth(pieces, vals, ranked, owners, weights, pooling)
    ensures |vals| == |pieces|
    ensures forall k | 0 <= k < |pieces| ::
              && pieces[k].rank < |ranked| && pieces[k].owner < |OwnersOf(owners, ranked[pieces[k].rank])|
              && var p := pieces[k];
                 var chunk, src := ranked[p.rank], OwnersOf(owners, ranked[p.rank])[p.owner].1;
                 && vals[k] == p.base * p.weight
                 && p.base == (if !pooling.ScoreSum? then 1.0 / (RRF_K + p.rank + 1) as real
                               else if chunk in pooling.sims then pooling.sims[chunk] else 0.0)
                 && p.weight == (if src in weights then weights[src] else 0.3)
  {
    hide OwnersOf;
  }

  lemma NoMoreOfChunk(ranked: seq<Id>, owners: Owners, weights: map<Source, real>, pooling: Pooling, n: nat)
    requires n <= |ranked|
    ensures UpTo(ranked, owners, weights, pooling, n, 0) == Collected(ranked, owners, weights, pooling, n)
  {
    hide Collected, FromChunk;
  }

  lemma PlacesAreMeetings(pieces: seq<Piece>, ranked: seq<Id>, owners: Owners, n: nat, person: Id)
    requires n <= |ranked| && ArePlaces(pieces, ranked, owners, n, 0, person)
    ensures AreMeetings(pieces, ranked, owners, n, person)
  {
    hide Has, Earlier;
    forall r: nat, j: nat
      ensures MetAt(ranked, owners, n, person, r, j) <==> Reached(ranked, owners, n, 0, person, r, j)
    {
    }
  }

  lemma PersonPooled(ev: seq<Evidence>, pooling: Pooling, norm: nat -> real, person: Id)
    requires forall c: nat | c > 0 :: norm(c) > 0.0
    ensures person in Pooled(ev, pooling, norm) <==> person in People(ev)
    ensures Values(ev, person) != [] && person in Pooled(ev, pooling, norm) ==>
              Pooled(ev, pooling, norm)[person] == Pool(pooling, Values(ev, person)) / norm(|Values(ev, person)|)
  {
    hide Values, People, Pool;
  }

  /** What the poolings make of the values: the largest of them, the sum of three that are not below
      any other, or the sum of all. */
  lemma PoolMeans(vals: seq<real>, sims: map<Id, real>) returns (top: seq<real>, rest: seq<real>)
    requires vals != []
    ensures Pool(Max, vals) in vals && forall v | v in vals :: v <= Pool(Max, vals)
    ensures multiset(vals) == multiset(top) + multiset(rest) && |top| == (if |vals| < 3 then |vals| else 3)
    ensures Pool(Top3Sum, vals) == Total(top) && forall x, y | x in top && y in rest :: x >= y
    ensures Pool(RankSum, vals) == Pool(ScoreSum(sims), vals) == Total(vals)
  {
    var i := LargestIsMaximum(vals);
    var d := Descending(vals);
    DescendingSorts(vals);
    top, rest := Take(d, 3), d[|Take(d, 3)|..];
    assert d == top + rest;
  }

  lemma {:induction false} TotalIsSum(a: seq<real>, b: seq<real>)
    ensures Total(a + b) == Total(a) + Total(b) && forall x: real :: Total([x]) == x
  {
    if b == [] {
      assert a + b == a;
    } else {
      TotalIsSum(a, b[..|b| - 1]);
      assert (a + b)[..|a + b| - 1] == a + b[..|b| - 1];
    }
    forall x: real ensures Total([x]) == x {
      assert [x][..0] == [];
    }
  }

  lemma PoolOfOne(pooling: Pooling, x: real)
    ensures Pool(pooling, [x]) == x
  {
    TotalIsSum([], [x]);
    assert [x][..0] == [];
    assert Descending([x]) == [x];
  }

  lemma LonePiece(pieces: seq<Piece>, ranked: seq<Id>, owners: Owners, n: nat, person: Id, r: nat, j: nat)
    requires n <= |ranked| && AreMeetings(pieces, ranked, owners, n, person) && MetAt(ranked, owners, n, person, r, j)
    requires forall q: nat, i: nat | MetAt(ranked, owners, n, person, q, i) :: q == r && i == j
    ensures |pieces| == 1 && pieces[0].rank == r && pieces[0].owner == j
  {
    assert Has(pieces, r, j);
    hide MetAt, Has;
    if |pieces| > 1 { FirstTwoDiffer(pieces); }
  }

  lemma FirstTwoDiffer(pieces: seq<Piece>)
    requires |pieces| > 1 && forall k, l | 0 <= k < l < |pieces| :: Earlier(pieces[k], pieces[l])
    ensures pieces[0].rank != pieces[1].rank || pieces[0].owner != pieces[1].owner
  {
    assert Earlier(pieces[0], pieces[1]);
  }

  /** Somebody met once, at rank `r`, scores the weight of that kind over `61 + r` by rank, or times the
      similarity of the chunk, whichever pooling is used. */
  lemma ScoreOfOnePiece(ranked: seq<Id>, owners: Owners, weights: map<Source, real>, topN: nat, pooling: Pooling,
                        norm: nat -> real, person: Id, r: nat, j: nat, weight: real, base: real, worth: real)
    requires forall c: nat | c > 0 :: norm(c) > 0.0
    requires MetAt(ranked, owners, Cut(ranked, topN), person, r, j)
    requires forall q: nat, i: nat | MetAt(ranked, owners, Cut(ranked, topN), person, q, i) :: q == r && i == j
    requires var src := OwnersOf(owners, ranked[r])[j].1; weight == if src in weights then weights[src] else 0.3
    requires base == if !pooling.ScoreSum? then 1.0 / (61 + r) as real
                     else if ranked[r] in pooling.sims then pooling.sims[ranked[r]] else 0.0
    requires worth == base * weight
    ensures var score := Pooled(Collected(ranked, owners, weights, pooling, Cut(ranked, topN)), pooling, norm);
            person in score && score[person] == worth / norm(1)
  {
    assert Cut(ranked, topN) <= |ranked|;
    hide *;
    var pieces, vals := ScoredPieces(ranked, owners, weights, topN, pooling, norm, person);
    LonePiece(pieces, ranked, owners, Cut(ranked, topN), person, r, j);
    InRange(ranked, owners, Cut(ranked, topN), person, r, j);
    LoneWorth(pieces, vals, ranked, owners, weights, pooling, r, j, weight, base, worth);
    PoolOfOne(pooling, worth);
  }

  lemma InRange(ranked: seq<Id>, owners: Owners, n: nat, person: Id, r: nat, j: nat)
    requires n <= |ranked| && MetAt(ranked, owners, n, person, r, j)
    ensures r < |ranked| && j < |OwnersOf(owners, ranked[r])|
  {
  }

  lemma LoneWorth(pieces: seq<Piece>, vals: seq<real>, ranked: seq<Id>, owners: Owners, weights: map<Source, real>,
                  pooling: Pooling, r: nat, j: nat, weight: real, base: real, worth: real)
    requires |pieces| == 1 && pieces[0].rank == r && pieces[0].owner == j
    requires AreWorth(pieces, vals, ranked, owners, weights, pooling)
    requires r < |ranked| && j < |OwnersOf(owners, ranked[r])|
    requires var src := OwnersOf(owners, ranked[r])[j].1; weight == if src in weights then weights[src] else 0.3
    requires base == if !pooling.ScoreSum? then 1.0 / (61 + r) as real
                     else if ranked[r] in pooling.sims then pooling.sims[ranked[r]] else 0.0
    requires worth == base * weight
    ensures vals == [worth]
  {
    hide Weighted, OwnersOf, Base;
    BaseIs(pooling, ranked[r], r, base);
    assert vals[0] == Weighted(base, weight);
    WeightedIs(base, weight, worth);
  }

  lemma BaseIs(pooling: Pooling, chunk: Id, r: nat, base: real)
    requires base == if !pooling.ScoreSum? then 1.0 / (61 + r) as real
                     else if chunk in pooling.sims then pooling.sims[chunk] else 0.0
    ensures Base(pooling, chunk, r) == base
  {
  }

  lemma WeightedIs(base: real, weight: real, worth: real)
    requires worth == base * weight
    ensures Weighted(base, weight) == worth
  {
  }

  /** Owner `j` of `chunk` becomes one of kind `src`. */
  function Rekinded(owners: Owners, chunk: Id, j: nat, src: Source): Owners
    requires chunk in owners && j < |owners[chunk]|
  {
    owners[chunk := owners[chunk][j := (owners[chunk][j].0, src)]]
  }

  /** The same people, `person` with nothing less. */
  ghost predicate NoLess(a: seq<Evidence>, b: seq<Evidence>, person: Id) {
    |a| == |b| && forall i | 0 <= i < |a| :: a[i].0 == b[i].0 && (a[i].0 == person ==> a[i].1 >= b[i].1)
  }

  ghost predicate More(a: seq<Evidence>, b: seq<Evidence>, person: Id) {
    exists i | 0 <= i < |a| && i < |b| :: a[i].0 == b[i].0 == person && a[i].1 > b[i].1
  }

  lemma {:induction false} AddedInOrder(a: seq<Evidence>, b: seq<Evidence>, person: Id)
    requires NoLess(a, b, person)
    ensures Added(a, person) >= Added(b, person) && (More(a, b, person) ==> Added(a, person) > Added(b, person))
  {
    if a != [] {
      var n := |a| - 1;
      assert NoLess(a[..n], b[..n], person);
      AddedInOrder(a[..n], b[..n], person);
      if More(a, b, person) {
        var i :| 0 <= i <= n && a[i].0 == b[i].0 == person && a[i].1 > b[i].1;
        if i < n { assert a[..n][i] == a[i] && b[..n][i] == b[i]; }
      }
    }
  }

  lemma {:induction false} SamePeople(a: seq<Evidence>, b: seq<Evidence>, person: Id)
    requires NoLess(a, b, person)
    ensures |Values(a, person)| == |Values(b, person)| && People(a) == People(b)
  {
    if a != [] {
      var n := |a| - 1;
      assert NoLess(a[..n], b[..n], person);
      SamePeople(a[..n], b[..n], person);
      assert a == a[..n] + [a[n]] && b == b[..n] + [b[n]];
      ValuesSnoc(a[..n], a[n], person);
      ValuesSnoc(b[..n], b[n], person);
      hide Values, People;
    }
  }

  lemma RekindedChunk(people: seq<(Id, Source)>, weights: map<Source, real>, base: real, j: nat, src: Source)
    requires j < |people| && base > 0.0 && SourceWeight(weights, src) > SourceWeight(weights, people[j].1)
    ensures var changed := FromChunk(people[j := (people[j].0, src)], weights, base);
            NoLess(changed, FromChunk(people, weights, base), people[j].0)
            && More(changed, FromChunk(people, weights, base), people[j].0)
  {
    hide SourceWeight;
    WeightedRises(base, SourceWeight(weights, people[j].1), SourceWeight(weights, src));
    var changed, chunk := FromChunk(people[j := (people[j].0, src)], weights, base), FromChunk(people, weights, base);
    assert changed[j].1 > chunk[j].1;
  }

  lemma WeightedRises(base: real, x: real, y: real)
    requires base > 0.0 && x < y
    ensures Weighted(base, x) < Weighted(base, y)
  {
    assert base * (y - x) > 0.0;
  }

  lemma NoLessJoins(a: seq<Evidence>, b: seq<Evidence>, c: seq<Evidence>, d: seq<Evidence>, person: Id)
    requires NoLess(a, b, person) && NoLess(c, d, person)
    ensures NoLess(a + c, b + d, person)
    ensures More(a, b, person) || More(c, d, person) ==> More(a + c, b + d, person)
  {
    if More(a, b, person) {
      var i :| 0 <= i < |a| && i < |b| && a[i].0 == b[i].0 == person && a[i].1 > b[i].1;
      assert (a + c)[i] == a[i] && (b + d)[i] == b[i];
    }
    if More(c, d, person) {
      var i :| 0 <= i < |c| && i < |d| && c[i].0 == d[i].0 == person && c[i].1 > d[i].1;
      assert (a + c)[|a| + i] == c[i] && (b + d)[|b| + i] == d[i];
    }
  }

  lemma {:induction false} CollectedRekinded(ranked: seq<Id>, owners: Owners, weights: map<Source, real>, n: nat,
                                             chunk: Id, j: nat, src: Source)
    requires n <= |ranked| && chunk in owners && j < |owners[chunk]|
    requires SourceWeight(weights, src) > SourceWeight(weights, owners[chunk][j].1)
    ensures var person := owners[chunk][j].0;
            var ev, changed := Collected(ranked, owners, weights, RankSum, n),
                               Collected(ranked, Rekinded(owners, chunk, j, src), weights, RankSum, n);
            NoLess(changed, ev, person) && (chunk in ranked[..n] ==> More(changed, ev, person))
  {
    hide *;
    var person, others := owners[chunk][j].0, Rekinded(owners, chunk, j, src);
    if n == 0 {
      NothingCollected(ranked, owners, weights);
      NothingCollected(ranked, others, weights);
      NothingLess(person);
    } else {
      var c, base := ranked[n - 1], Base(RankSum, ranked[n - 1], n - 1);
      CollectedRekinded(ranked, owners, weights, n - 1, chunk, j, src);
      BaseIsPositive(c, n - 1);
      ChunkRekinded(owners, weights, base, c, chunk, j, src);
      CollectedSnoc(ranked, owners, weights, n);
      CollectedSnoc(ranked, others, weights, n);
      assert ranked[..n] == ranked[..n - 1] + [c];
      var front := Collected(ranked, owners, weights, RankSum, n - 1);
      NoLessJoins(Collected(ranked, others, weights, RankSum, n - 1), front,
                  FromChunk(OwnersOf(others, c), weights, base), FromChunk(OwnersOf(owners, c), weights, base), person);
    }
  }

  lemma NothingCollected(ranked: seq<Id>, owners: Owners, weights: map<Source, real>)
    ensures Collected(ranked, owners, weights, RankSum, 0) == []
  {
  }

  lemma NothingLess(person: Id)
    ensures NoLess([], [], person)
  {
  }

  lemma BaseIsPositive(chunk: Id, rank: nat)
    ensures Base(RankSum, chunk, rank) > 0.0
  {
  }

  lemma CollectedSnoc(ranked: seq<Id>, owners: Owners, weights: map<Source, real>, n: nat)
    requires 0 < n <= |ranked|
    ensures Collected(ranked, owners, weights, RankSum, n) == Collected(ranked, owners, weights, RankSum, n - 1)
              + FromChunk(OwnersOf(owners, ranked[n - 1]), weights, Base(RankSum, ranked[n - 1], n - 1))
  {
    hide FromChunk, OwnersOf, Base;
  }

  lemma ChunkRekinded(owners: Owners, weights: map<Source, real>, base: real, c: Id, chunk: Id, j: nat, src: Source)
    requires chunk in owners && j < |owners[chunk]| && base > 0.0
    requires SourceWeight(weights, src) > SourceWeight(weights, owners[chunk][j].1)
    ensures var person := owners[chunk][j].0;
            var last := FromChunk(OwnersOf(owners, c), weights, base);
            var changed := FromChunk(OwnersOf(Rekinded(owners, chunk, j, src), c), weights, base);
            NoLess(changed, last, person) && (c == chunk ==> More(changed, last, person))
  {
    hide SourceWeight, FromChunk, More;
    if c == chunk { RekindedChunk(owners[chunk], weights, base, j, src); }
  }

  /** Evidence of a kind with a higher weight, at any place of the cut, raises the summed score strictly,
      whatever else speaks for the person. */
  lemma HigherWeightScoresHigher(ranked: seq<Id>, owners: Owners, weights: map<Source, real>, topN: nat,
                                 norm: nat -> real, r: nat, j: nat, src: Source)
    requires forall c: nat | c > 0 :: norm(c) > 0.0
    requires r < Cut(ranked, topN) && ranked[r] in owners && j < |owners[ranked[r]]|
    requires var kind := owners[ranked[r]][j].1;
             (if src in weights then weights[src] else 0.3) > (if kind in weights then weights[kind] else 0.3)
    ensures var person, n := owners[ranked[r]][j].0, Cut(ranked, topN);
            var others := Rekinded(owners, ranked[r], j, src);
            var score := Pooled(Collected(ranked, owners, weights, RankSum, n), RankSum, norm);
            var raised := Pooled(Collected(ranked, others, weights, RankSum, n), RankSum, norm);
            person in score && person in raised && raised[person] > score[person]
  {
    var person, n := owners[ranked[r]][j].0, Cut(ranked, topN);
    var ev := Collected(ranked, owners, weights, RankSum, n);
    var changed := Collected(ranked, Rekinded(owners, ranked[r], j, src), weights, RankSum, n);
    assert ranked[..n][r] == ranked[r];
    CollectedRekinded(ranked, owners, weights, n, ranked[r], j, src);
    hide *;
    HigherEvidenceScoresHigher(changed, ev, norm, person);
  }

  lemma HigherEvidenceScoresHigher(changed: seq<Evidence>, ev: seq<Evidence>, norm: nat -> real, person: Id)
    requires NoLess(changed, ev, person) && More(changed, ev, person) && forall c: nat | c > 0 :: norm(c) > 0.0
    ensures var score, raised := Pooled(ev, RankSum, norm), Pooled(changed, RankSum, norm);
            person in score && person in raised && raised[person] > score[person]
  {
    AddedInOrder(changed, ev, person);
    SamePeople(changed, ev, person);
    AddedIsTotal(ev, person);
    AddedIsTotal(changed, person);
    var i :| 0 <= i < |ev| && i < |changed| && changed[i].0 == ev[i].0 == person;
    assert ev[i] in ev;
    ValuesNonEmpty(ev, person);
    PersonPooled(ev, RankSum, norm, person);
    PersonPooled(changed, RankSum, norm, person);
    hide Pooled, Values, Added, Total, NoLess, More;
    QuotientRises(Total(Values(ev, person)), Total(Values(changed, person)), norm(|Values(ev, person)|));
  }

  // --------------------------------------------------------- pooling variants

  lemma {:induction false} TotalPrepend(x: real, s: seq<real>)
    ensures Total([x] + s) == x + Total(s)
  {
    if s == [] {
      assert [x] + s == [x] && [x][..0] == [];
    } else {
      TotalPrepend(x, s[..|s| - 1]);
      assert ([x] + s)[..|s|] == [x] + s[..|s| - 1];
    }
  }

  predicate IsDescending(s: seq<real>) { forall i, j | 0 <= i < j < |s| :: s[i] >= s[j] }

  predicate NonNegative(s: seq<real>) { forall i | 0 <= i < |s| :: s[i] >= 0.0 }

  lemma {:induction false} InsertKeepsTotal(x: real, s: seq<real>)
    ensures |Insert(x, s)| == |s| + 1 && Total(Insert(x, s)) == x + Total(s)
  {
    TotalPrepend(x, s);
    if s != [] && !(x >= s[0]) {
      InsertKeepsTotal(x, s[1..]);
      TotalPrepend(s[0], s[1..]);
      TotalPrepend(s[0], Insert(x, s[1..]));
      assert s == [s[0]] + s[1..];
    }
  }

  lemma {:induction false} InsertAdds(x: real, s: seq<real>)
    ensures multiset(Insert(x, s)) == multiset(s) + multiset{x}
  {
    if s != [] && !(x >= s[0]) {
      InsertAdds(x, s[1..]);
      assert s == [s[0]] + s[1..];
    }
  }

  lemma {:induction false} InsertKeepsOrder(x: real, s: seq<real>)
    requires IsDescending(s)
    ensures IsDescending(Insert(x, s))
    ensures Insert(x, s) != [] && Insert(x, s)[0] == if s == [] || x >= s[0] then x else s[0]
  {
    if s != [] && !(x >= s[0]) {
      var t := Insert(x, s[1..]);
      InsertKeepsOrder(x, s[1..]);
      assert t[0] <= s[0];
    }
  }

  /** `sorted(..., reverse=True)` sorts, permutes and keeps the sum. */
  lemma {:induction false} DescendingSorts(vals: seq<real>)
    ensures var d := Descending(vals);
            |d| == |vals| && IsDescending(d) && multiset(d) == multiset(vals) && Total(d) == Total(vals)
  {
    if vals != [] {
      var front, x := vals[..|vals| - 1], vals[|vals| - 1];
      DescendingSorts(front);
      InsertKeepsTotal(x, Descending(front));
      InsertAdds(x, Descending(front));
      InsertKeepsOrder(x, Descending(front));
      assert vals == front + [x];
    }
  }

  lemma {:induction false} TotalOfPrefix(s: seq<real>, n: nat)
    requires n <= |s| && NonNegative(s)
    ensures 0.0 <= Total(s[..n]) <= Total(s)
    decreases |s| + n
  {
    if n < |s| {
      var front := s[..|s| - 1];
      TotalOfPrefix(front, n);
      assert front[..n] == s[..n];
    } else if n > 0 {
      assert s[..n] == s;
      TotalOfPrefix(s, n - 1);
      assert s[..n - 1] == s[..|s| - 1];
    } else {
      assert s == [];
    }
  }

  lemma SameMembers(d: seq<real>, vals: seq<real>, i: nat) returns (j: nat)
    requires multiset(d) == multiset(vals) && i < |d|
    ensures j < |vals| && vals[j] == d[i]
  {
    assert d[i] in multiset(d);
    assert d[i] in vals;
    j :| 0 <= j < |vals| && vals[j] == d[i];
  }

  /** Without negative evidence the three rank poolings are ordered, and the middle one is
      the sum for anybody with at most three pieces of evidence. */
  lemma PoolingsAreOrdered(vals: seq<real>)
    requires vals != [] && NonNegative(vals)
    ensures Pool(Max, vals) <= Pool(Top3Sum, vals) <= Pool(RankSum, vals)
    ensures |vals| <= 3 ==> Pool(Top3Sum, vals) == Pool(RankSum, vals)
  {
    var d := Descending(vals);
    DescendingSorts(vals);
    forall i | 0 <= i < |d| ensures d[i] >= 0.0 { var j := SameMembers(d, vals, i); }
    var at := LargestIsMaximum(vals);
    var i := SameMembers(vals, d, at);
    assert Largest(vals) <= d[0];
    TopIsBounded(d);
  }

  lemma TopIsBounded(d: seq<real>)
    requires d != [] && NonNegative(d)
    ensures d[0] <= Total(Take(d, 3)) <= Total(d)
  {
    var top := Take(d, 3);
    TotalOfPrefix(d, |top|);
    assert top == d[..|top|];
    TotalOfPrefix(top, 1);
    assert top[..1] == [d[0]] && [d[0]][..0] == [];
    assert Total([d[0]]) == d[0];
  }

  // --------------------------------------------------------------- hybrid

  lemma {:induction false} EvidenceComesFromChunks(ranked: seq<Id>, owners: Owners, weights: map<Source, real>,
                                                   pooling: Pooling, n: nat, person: Id)
    requires n <= |ranked| && person in People(Collected(ranked, owners, weights, pooling, n))
    ensures exists i | 0 <= i < n :: Owns(owners, ranked[i], person)
  {
    var front := Collected(ranked, owners, weights, pooling, n - 1);
    var people := OwnersOf(owners, ranked[n - 1]);
    var chunk := FromChunk(people, weights, Base(pooling, ranked[n - 1], n - 1));
    var e: Evidence :| e in front + chunk && e.0 == person;
    if e in front {
      EvidenceComesFromChunks(ranked, owners, weights, pooling, n - 1, person);
    } else {
      var j :| 0 <= j < |chunk| && chunk[j] == e;
      assert people[j].0 == person;
      assert Owns(owners, ranked[n - 1], person);
    }
  }

  predicate Owns(owners: Owners, chunk: Id, person: Id) {
    exists j | 0 <= j < |OwnersOf(owners, chunk)| :: OwnersOf(owners, chunk)[j].0 == person
  }

  /** In the hybrid setting with a full dense list and a weight below the threshold for
      `topN`, everyone who gets a score owns a dense chunk: BM25 alone brings nobody in. */
  lemma HybridScoresOnlyDenseOwners(dense: seq<Id>, bm25: seq<Id>, w: real, topN: nat,
                                    owners: Owners, weights: map<Source, real>, pooling: Pooling, person: Id)
    requires Distinct(dense) && Distinct(bm25) && w >= 0.0 && 1 <= topN <= |dense|
    requires w * (RRF_K + topN) as real < (RRF_K + 1) as real
    requires var ranked := FusedRanking(Hybrid(dense, bm25, w), RRF_K);
             person in People(Collected(ranked, owners, weights, pooling, Cut(ranked, topN)))
    ensures exists c | c in dense :: Owns(owners, c, person)
  {
    var ranked := FusedRanking(Hybrid(dense, bm25, w), RRF_K);
    LightBm25StaysOut(dense, bm25, w, RRF_K, topN);
    EvidenceComesFromChunks(ranked, owners, weights, pooling, Cut(ranked, topN), person);
    var i :| 0 <= i < Cut(ranked, topN) && Owns(owners, ranked[i], person);
    assert ranked[i] in dense;
  }
}
