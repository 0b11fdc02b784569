/** The route-repair loop of `build_eval.py`: a `document` label on a topic no document covers
    is exchanged with a `person` label on a covered topic. */
module RouteRepair {

  datatype Route = Person | PriorAnswer | Document

  type Topic = string

  /** Label `r` sits at position `i`, on a documented topic exactly when `documented`. */
  predicate Sits(routes: seq<Route>, slots: seq<Topic>, docTopics: set<Topic>, i: nat, r: Route, documented: bool)
    requires |routes| == |slots| && i < |routes|
  {
    routes[i] == r && ((slots[i] in docTopics) <==> documented)
  }

  /** How many positions hold label `r` on a topic that is documented, or not. */
  function Count(routes: seq<Route>, slots: seq<Topic>, docTopics: set<Topic>, r: Route, documented: bool): nat
    requires |routes| == |slots|
  {
    if routes == [] then 0
    else
      var n := |routes| - 1;
      Count(routes[..n], slots[..n], docTopics, r, documented)
      + if Sits(routes, slots, docTopics, n, r, documented) then 1 else 0
  }

  /** Misplaced document labels. */
  function Bad(routes: seq<Route>, slots: seq<Topic>, docTopics: set<Topic>): nat
    requires |routes| == |slots|
  {
    Count(routes, slots, docTopics, Document, false)
  }

  /** Person labels on documented topics: the places a misplaced label can move to. */
  function Available(routes: seq<Route>, slots: seq<Topic>, docTopics: set<Topic>): nat
    requires |routes| == |slots|
  {
    Count(routes, slots, docTopics, Person, true)
  }

  lemma {:induction false} CountZero(routes: seq<Route>, slots: seq<Topic>, docTopics: set<Topic>,
                                     r: Route, documented: bool)
    requires |routes| == |slots|
    ensures Count(routes, slots, docTopics, r, documented) == 0 <==>
            forall i | 0 <= i < |routes| :: !Sits(routes, slots, docTopics, i, r, documented)
  {
    if routes != [] {
      var n := |routes| - 1;
      CountZero(routes[..n], slots[..n], docTopics, r, documented);
      forall i | 0 <= i < n
        ensures Sits(routes, slots, docTopics, i, r, documented)
           <==> Sits(routes[..n], slots[..n], docTopics, i, r, documented)
      {
      }
    }
  }

  lemma {:induction false} CountUpdate(routes: seq<Route>, slots: seq<Topic>, docTopics: set<Topic>,
                                       i: nat, x: Route, r: Route, documented: bool)
    requires |routes| == |slots| && i < |routes|
    ensures Count(routes[i := x], slots, docTopics, r, documented)
         == Count(routes, slots, docTopics, r, documented)
            - (if Sits(routes, slots, docTopics, i, r, documented) then 1 else 0)
            + (if x == r && ((slots[i] in docTopics) <==> documented) then 1 else 0)
  {
    var n := |routes| - 1;
    if i < n {
      CountUpdate(routes[..n], slots[..n], docTopics, i, x, r, documented);
      assert routes[i := x][..n] == routes[..n][i := x];
    } else {
      assert routes[i := x][..n] == routes[..n];
    }
  }

  /** Exchanging a misplaced document label with an available person label. */
  lemma SwapRepairsOne(routes: seq<Route>, slots: seq<Topic>, docTopics: set<Topic>, i: nat, j: nat)
    requires |routes| == |slots| && i < |routes| && j < |routes|
    requires Sits(routes, slots, docTopics, i, Document, false)
    requires Sits(routes, slots, docTopics, j, Person, true)
    ensures var swapped := routes[i := Person][j := Document];
            && Bad(swapped, slots, docTopics) == Bad(routes, slots, docTopics) - 1
            && Available(swapped, slots, docTopics) == Available(routes, slots, docTopics) - 1
            && multiset(swapped) == multiset(routes)
  {
    CountUpdate(routes, slots, docTopics, i, Person, Document, false);
    CountUpdate(routes, slots, docTopics, i, Person, Person, true);
    CountUpdate(routes[i := Person], slots, docTopics, j, Document, Document, false);
    CountUpdate(routes[i := Person], slots, docTopics, j, Document, Person, true);
  }

  /** `now` is reached from `was` by exchanges of misplaced with available labels: the labels
      are permuted, `prior_answer` and well-placed labels stay, and as many places are used
      as labels are repaired. */
  ghost predicate Repairing(was: seq<Route>, now: seq<Route>, slots: seq<Topic>, docTopics: set<Topic>)
    requires |was| == |slots|
  {
    && |now| == |was|
    && multiset(now) == multiset(was)
    && (forall p | 0 <= p < |was| :: now[p] == PriorAnswer <==> was[p] == PriorAnswer)
    && (forall p | 0 <= p < |was| && Sits(was, slots, docTopics, p, Document, true) :: now[p] == Document)
    && (forall p | 0 <= p < |was| && Sits(was, slots, docTopics, p, Person, false) :: now[p] == Person)
    && Bad(was, slots, docTopics) - Bad(now, slots, docTopics)
       == Available(was, slots, docTopics) - Available(now, slots, docTopics) >= 0
  }

  /** Every misplaced label before position `i` stayed for want of a place. */
  ghost predicate DoneBefore(now: seq<Route>, slots: seq<Topic>, docTopics: set<Topic>, i: nat)
    requires |now| == |slots| && i <= |now|
  {
    Available(now, slots, docTopics) > 0 ==>
      forall p | 0 <= p < i :: !Sits(now, slots, docTopics, p, Document, false)
  }

  lemma SwapKeepsRepairing(was: seq<Route>, now: seq<Route>, slots: seq<Topic>, docTopics: set<Topic>, i: nat, j: nat)
    requires |was| == |slots| && Repairing(was, now, slots, docTopics)
    requires i < |now| && j < |now| && DoneBefore(now, slots, docTopics, i)
    requires Sits(now, slots, docTopics, i, Document, false) && Sits(now, slots, docTopics, j, Person, true)
    ensures var next := now[i := Person][j := Document];
            Repairing(was, next, slots, docTopics) && DoneBefore(next, slots, docTopics, i + 1)
  {
    SwapRepairsOne(now, slots, docTopics, i, j);
    var next := now[i := Person][j := Document];
    assert Available(now, slots, docTopics) > 0;
    forall p | 0 <= p < i + 1 ensures !Sits(next, slots, docTopics, p, Document, false) {
      if p != i && p != j { assert !Sits(now, slots, docTopics, p, Document, false); }
    }
  }

  /** The loop leaves exactly the misplaced labels for which no place was available, and the
      script's own check passes exactly when there were enough. */
  method RepairRoutes(routes: array<Route>, slots: seq<Topic>, docTopics: set<Topic>)
    requires routes.Length == |slots|
    modifies routes
    ensures Repairing(old(routes[..]), routes[..], slots, docTopics)
    ensures var bad, available := Bad(old(routes[..]), slots, docTopics), Available(old(routes[..]), slots, docTopics);
            Bad(routes[..], slots, docTopics) == if bad > available then bad - available else 0
  {
    hide Count, Repairing, DoneBefore;
    ghost var was := routes[..];
    NothingRepaired(was, slots, docTopics);
    for i := 0 to routes.Length
      invariant Repairing(was, routes[..], slots, docTopics)
      invariant DoneBefore(routes[..], slots, docTopics, i)
    {
      ghost var now := routes[..];
      if routes[i] == Document && slots[i] !in docTopics {
        assert Sits(now, slots, docTopics, i, Document, false);
        var j, found := 0, false;
        while j < routes.Length
          invariant 0 <= j <= routes.Length && routes[..] == now
          invariant forall p | 0 <= p < j :: !Sits(now, slots, docTopics, p, Person, true)
        {
          if routes[j] == Person && slots[j] in docTopics {
            SwapKeepsRepairing(was, now, slots, docTopics, i, j);
            routes[i], routes[j] := routes[j], routes[i];
            assert routes[..] == now[i := Person][j := Document];
            found := true;
            break;
          }
          j := j + 1;
        }
        if !found {
          CountZero(now, slots, docTopics, Person, true);
          NoPlaceLeft(now, slots, docTopics, i);
        }
      } else {
        WellPlaced(now, slots, docTopics, i);
      }
    }
    AllDone(was, routes[..], slots, docTopics);
  }

  lemma NothingRepaired(was: seq<Route>, slots: seq<Topic>, docTopics: set<Topic>)
    requires |was| == |slots|
    ensures Repairing(was, was, slots, docTopics) && DoneBefore(was, slots, docTopics, 0)
  {
  }

  lemma NoPlaceLeft(now: seq<Route>, slots: seq<Topic>, docTopics: set<Topic>, i: nat)
    requires |now| == |slots| && i < |now| && Available(now, slots, docTopics) == 0
    ensures DoneBefore(now, slots, docTopics, i + 1)
  {
  }

  lemma WellPlaced(now: seq<Route>, slots: seq<Topic>, docTopics: set<Topic>, i: nat)
    requires |now| == |slots| && i < |now| && DoneBefore(now, slots, docTopics, i)
    requires !Sits(now, slots, docTopics, i, Document, false)
    ensures DoneBefore(now, slots, docTopics, i + 1)
  {
  }

  lemma AllDone(was: seq<Route>, now: seq<Route>, slots: seq<Topic>, docTopics: set<Topic>)
    requires |was| == |slots| && Repairing(was, now, slots, docTopics) && DoneBefore(now, slots, docTopics, |now|)
    ensures var bad, available := Bad(was, slots, docTopics), Available(was, slots, docTopics);
            Bad(now, slots, docTopics) == if bad > available then bad - available else 0
  {
    CountZero(now, slots, docTopics, Document, false);
    hide Count;
  }
}
