/** `within_query_auc` and the resampling of `within_query_auc_ci` in `research_confidence.py`. */
module WithinQueryAuc {
  import opened Prelude

  /** Slots are compared within a question, or within one draw of a question. */
  datatype Group = OfQuestion(q: nat) | OfDraw(q: nat, draw: nat)

  /** A slot: the group it is compared in, its feature value and whether it hit. */
  datatype Slot = Slot(group: Group, value: real, hit: bool)

  // --------------------------------------------------------------- pair sums

  function RowSum<A, B>(x: A, b: seq<B>, w: (A, B) -> real): real {
    if b == [] then 0.0 else RowSum(x, b[..|b| - 1], w) + w(x, b[|b| - 1])
  }

  /** The sum of `w` over all pairs of one entry of `a` and one of `b`. */
  function PairSum<A, B>(a: seq<A>, b: seq<B>, w: (A, B) -> real): real {
    if a == [] then 0.0 else PairSum(a[..|a| - 1], b, w) + RowSum(a[|a| - 1], b, w)
  }

  lemma {:induction false} RowSumSplit<A, B>(x: A, b: seq<B>, c: seq<B>, w: (A, B) -> real)
    ensures RowSum(x, b + c, w) == RowSum(x, b, w) + RowSum(x, c, w)
  {
    if c == [] {
      assert b + c == b;
    } else {
      RowSumSplit(x, b, c[..|c| - 1], w);
      assert (b + c)[..|b + c| - 1] == b + c[..|c| - 1];
    }
  }

  lemma {:induction false} PairSumSplitRows<A, B>(a: seq<A>, b: seq<A>, c: seq<B>, w: (A, B) -> real)
    ensures PairSum(a + b, c, w) == PairSum(a, c, w) + PairSum(b, c, w)
  {
    if b == [] {
      assert a + b == a;
    } else {
      PairSumSplitRows(a, b[..|b| - 1], c, w);
      assert (a + b)[..|a + b| - 1] == a + b[..|b| - 1];
    }
  }

  lemma {:induction false} PairSumSplitColumns<A, B>(a: seq<A>, b: seq<B>, c: seq<B>, w: (A, B) -> real)
    ensures PairSum(a, b + c, w) == PairSum(a, b, w) + PairSum(a, c, w)
  {
    if a != [] {
      PairSumSplitColumns(a[..|a| - 1], b, c, w);
      RowSumSplit(a[|a| - 1], b, c, w);
    }
  }

  /** `w` is `u + v` at every pair. */
  lemma {:induction false} PairSumPlus<A, B>(a: seq<A>, b: seq<B>, w: (A, B) -> real,
                                             u: (A, B) -> real, v: (A, B) -> real)
    requires forall i, j | 0 <= i < |a| && 0 <= j < |b| :: w(a[i], b[j]) == u(a[i], b[j]) + v(a[i], b[j])
    ensures PairSum(a, b, w) == PairSum(a, b, u) + PairSum(a, b, v)
  {
    if a != [] {
      PairSumPlus(a[..|a| - 1], b, w, u, v);
      RowSumPlus(a[|a| - 1], b, w, u, v);
    }
  }

  lemma {:induction false} RowSumPlus<A, B>(x: A, b: seq<B>, w: (A, B) -> real, u: (A, B) -> real, v: (A, B) -> real)
    requires forall j | 0 <= j < |b| :: w(x, b[j]) == u(x, b[j]) + v(x, b[j])
    ensures RowSum(x, b, w) == RowSum(x, b, u) + RowSum(x, b, v)
  {
    if b != [] { RowSumPlus(x, b[..|b| - 1], w, u, v); }
  }

  lemma {:induction false} RowSumOrder<A, B>(x: A, b: seq<B>, u: (A, B) -> real, v: (A, B) -> real)
    requires forall j | 0 <= j < |b| :: u(x, b[j]) <= v(x, b[j])
    ensures RowSum(x, b, u) <= RowSum(x, b, v)
  {
    if b != [] { RowSumOrder(x, b[..|b| - 1], u, v); }
  }

  lemma {:induction false} PairSumOrder<A, B>(a: seq<A>, b: seq<B>, u: (A, B) -> real, v: (A, B) -> real)
    requires forall i, j | 0 <= i < |a| && 0 <= j < |b| :: u(a[i], b[j]) <= v(a[i], b[j])
    ensures PairSum(a, b, u) <= PairSum(a, b, v)
  {
    if a != [] {
      PairSumOrder(a[..|a| - 1], b, u, v);
      RowSumOrder(a[|a| - 1], b, u, v);
    }
  }

  lemma {:induction false} PairSumOfNothing<A, B>(a: seq<A>, b: seq<B>, w: (A, B) -> real)
    requires forall i, j | 0 <= i < |a| && 0 <= j < |b| :: w(a[i], b[j]) == 0.0
    ensures PairSum(a, b, w) == 0.0
  {
    if a != [] {
      PairSumOfNothing(a[..|a| - 1], b, w);
      RowSumOfNothing(a[|a| - 1], b, w);
    }
  }

  lemma {:induction false} RowSumOfNothing<A, B>(x: A, b: seq<B>, w: (A, B) -> real)
    requires forall j | 0 <= j < |b| :: w(x, b[j]) == 0.0
    ensures RowSum(x, b, w) == 0.0
  {
    if b != [] { RowSumOfNothing(x, b[..|b| - 1], w); }
  }

  // ------------------------------------------------------------ specification

  /** A pair counts one half when the values are equal. */
  function Win(a: real, b: real): real { if a > b then 1.0 else if a == b then 0.5 else 0.0 }

  /** Does this pair count: a hit and a miss of the same group? */
  predicate Counts(x: Slot, y: Slot) { x.group == y.group && x.hit && !y.hit }

  function WinWeight(x: Slot, y: Slot): real { if Counts(x, y) then Win(x.value, y.value) else 0.0 }

  function CountWeight(x: Slot, y: Slot): real { if Counts(x, y) then 1.0 else 0.0 }

  const WINS: (Slot, Slot) -> real := (x: Slot, y: Slot) => WinWeight(x, y)
  const PAIRS: (Slot, Slot) -> real := (x: Slot, y: Slot) => CountWeight(x, y)

  /** Won and counted pairs, read directly off all pairs of slots. */
  function Won(slots: seq<Slot>): real {
    PairSum(slots, slots, WINS)
  }

  function Counted(slots: seq<Slot>): real {
    PairSum(slots, slots, PAIRS)
  }

  /** No value (nan) when no pair counts. */
  function Auc(slots: seq<Slot>): Option<real> {
    if Counted(slots) == 0.0 then None else Some(Won(slots) / Counted(slots))
  }

  function Oriented(sign: real, x: real): real { sign * x }

  /** `sign * s[key]` at every slot. */
  function Signed(slots: seq<Slot>, sign: real): (r: seq<Slot>)
    ensures |r| == |slots|
  {
    seq(|slots|, i requires 0 <= i < |slots| => slots[i].(value := Oriented(sign, slots[i].value)))
  }

  // ------------------------------------------------------------- the method

  function OfGroup(slots: seq<Slot>, g: Group): seq<Slot> {
    if slots == [] then []
    else
      var front, s := OfGroup(slots[..|slots| - 1], g), slots[|slots| - 1];
      if s.group == g then front + [s] else front
  }

  /** Values of the hits (or of the misses) in order. */
  function ValuesOf(slots: seq<Slot>, hit: bool): seq<real> {
    if slots == [] then []
    else
      var front, s := ValuesOf(slots[..|slots| - 1], hit), slots[|slots| - 1];
      if s.hit == hit then front + [s.value] else front
  }

  function Groups(slots: seq<Slot>): map<Group, seq<Slot>> {
    map s | s in slots :: s.group := OfGroup(slots, s.group)
  }

  lemma GroupsSnoc(slots: seq<Slot>, s: Slot, byGroup: map<Group, seq<Slot>>)
    requires byGroup == Groups(slots)
    ensures byGroup[s.group := (if s.group in byGroup then byGroup[s.group] else []) + [s]] == Groups(slots + [s])
  {
    var all := slots + [s];
    assert all[..|slots|] == slots;
    assert forall x :: x in all <==> x in slots || x == s;
    if s.group !in byGroup { NoneOfGroup(slots, s.group); }
  }

  lemma {:induction false} NoneOfGroup(slots: seq<Slot>, g: Group)
    requires forall s | s in slots :: s.group != g
    ensures OfGroup(slots, g) == []
  {
    if slots != [] {
      assert slots[|slots| - 1] in slots;
      NoneOfGroup(slots[..|slots| - 1], g);
    }
  }

  method GroupSlots(slots: seq<Slot>) returns (byGroup: map<Group, seq<Slot>>)
    ensures byGroup == Groups(slots)
  {
    byGroup := map[];
    for i := 0 to |slots|
      invariant byGroup == Groups(slots[..i])
    {
      GroupsSnoc(slots[..i], slots[i], byGroup);
      assert slots[..i + 1] == slots[..i] + [slots[i]];
      var g := slots[i].group;
      byGroup := byGroup[g := (if g in byGroup then byGroup[g] else []) + [slots[i]]];
    }
    assert slots[..|slots|] == slots;
  }

  /** The two inner loops over one group. */
  method ComparePairs(pos: seq<real>, neg: seq<real>) returns (num: real, den: real)
    ensures num == PairSum(pos, neg, (a: real, b: real) => if a > b then 1.0 else if a == b then 0.5 else 0.0)
    ensures den == PairSum(pos, neg, (a: real, b: real) => 1.0)
  {
    num, den := 0.0, 0.0;
    ghost var win := (a: real, b: real) => if a > b then 1.0 else if a == b then 0.5 else 0.0;
    ghost var one := (a: real, b: real) => 1.0;
    for i := 0 to |pos|
      invariant num == PairSum(pos[..i], neg, win) && den == PairSum(pos[..i], neg, one)
    {
      for j := 0 to |neg|
        invariant num == PairSum(pos[..i], neg, win) + RowSum(pos[i], neg[..j], win)
        invariant den == PairSum(pos[..i], neg, one) + RowSum(pos[i], neg[..j], one)
      {
        assert neg[..j + 1][..j] == neg[..j];
        num := num + (if pos[i] > neg[j] then 1.0 else if pos[i] == neg[j] then 0.5 else 0.0);
        den := den + 1.0;
      }
      assert neg[..|neg|] == neg && pos[..i + 1][..i] == pos[..i];
    }
    assert pos[..|pos|] == pos;
  }

  /** Comparing the hits with the misses of one group is summing over all pairs of it. */
  lemma {:induction false} RowOfGroup(x: Slot, b: seq<Slot>, weight: (Slot, Slot) -> real, w: (real, real) -> real)
    requires forall y | y in b :: y.group == x.group
    requires forall y: Slot :: weight(x, y) == if Counts(x, y) then w(x.value, y.value) else 0.0
    ensures RowSum(x, b, weight) == if x.hit then RowSum(x.value, ValuesOf(b, false), w) else 0.0
  {
    if b != [] {
      var front, y := b[..|b| - 1], b[|b| - 1];
      assert b == front + [y];
      RowOfGroup(x, front, weight, w);
      var misses := ValuesOf(front, false);
      assert (misses + [y.value])[..|misses|] == misses;
    }
  }

  lemma PairSumSnoc<A, B>(a: seq<A>, x: A, b: seq<B>, w: (A, B) -> real)
    ensures PairSum(a + [x], b, w) == PairSum(a, b, w) + RowSum(x, b, w)
  {
    hide RowSum;
    assert (a + [x])[..|a|] == a;
  }

  lemma ValuesSnoc(slots: seq<Slot>, x: Slot, hit: bool)
    ensures ValuesOf(slots + [x], hit)
         == if x.hit == hit then ValuesOf(slots, hit) + [x.value] else ValuesOf(slots, hit)
  {
    assert (slots + [x])[..|slots|] == slots;
  }

  lemma {:induction false} PairsOfGroup(a: seq<Slot>, b: seq<Slot>, g: Group,
                                        weight: (Slot, Slot) -> real, w: (real, real) -> real)
    requires (forall s | s in a :: s.group == g) && (forall s | s in b :: s.group == g)
    requires forall x: Slot, y: Slot :: weight(x, y) == if Counts(x, y) then w(x.value, y.value) else 0.0
    ensures PairSum(a, b, weight) == PairSum(ValuesOf(a, true), ValuesOf(b, false), w)
  {
    hide ValuesOf, RowSum, Counts;
    if a == [] {
      NoValues(true);
    } else {
      var front, x := a[..|a| - 1], a[|a| - 1];
      assert a == front + [x];
      assert x in a && forall s | s in front :: s in a;
      PairsOfGroup(front, b, g, weight, w);
      RowOfGroup(x, b, weight, w);
      hide PairSum;
      PairSumSnoc(front, x, b, weight);
      ValuesSnoc(front, x, true);
      if x.hit { PairSumSnoc(ValuesOf(front, true), x.value, ValuesOf(b, false), w); }
    }
  }

  lemma NoValues(hit: bool)
    ensures ValuesOf([], hit) == []
  {
  }

  lemma {:induction false} PairSumSame<A, B>(a: seq<A>, b: seq<B>, u: (A, B) -> real, v: (A, B) -> real)
    requires forall i, j | 0 <= i < |a| && 0 <= j < |b| :: u(a[i], b[j]) == v(a[i], b[j])
    ensures PairSum(a, b, u) == PairSum(a, b, v)
  {
    PairSumOrder(a, b, u, v);
    PairSumOrder(a, b, v, u);
  }

  /** `weight`, counted only where the first slot is in one of `groups`. */
  function Within(groups: set<Group>, weight: (Slot, Slot) -> real): (Slot, Slot) -> real {
    (x: Slot, y: Slot) => if x.group in groups then weight(x, y) else 0.0
  }

  ghost predicate SameGroupOnly(weight: (Slot, Slot) -> real) {
    forall x: Slot, y: Slot | x.group != y.group :: weight(x, y) == 0.0
  }

  lemma {:induction false} RowWithinGroup(x: Slot, b: seq<Slot>, weight: (Slot, Slot) -> real)
    requires SameGroupOnly(weight)
    ensures RowSum(x, b, weight) == RowSum(x, OfGroup(b, x.group), weight)
  {
    if b != [] {
      var front, y := b[..|b| - 1], b[|b| - 1];
      RowWithinGroup(x, front, weight);
      var same := OfGroup(front, x.group);
      assert (same + [y])[..|same|] == same;
    }
  }

  lemma {:induction false} PairsWithinGroup(a: seq<Slot>, b: seq<Slot>, g: Group, weight: (Slot, Slot) -> real)
    requires SameGroupOnly(weight)
    ensures PairSum(a, b, Within({g}, weight)) == PairSum(OfGroup(a, g), OfGroup(b, g), weight)
  {
    if a != [] {
      var front, x := a[..|a| - 1], a[|a| - 1];
      PairsWithinGroup(front, b, g, weight);
      RowOfOneGroup(x, b, g, weight);
      if x.group == g {
        RowWithinGroup(x, b, weight);
        var same := OfGroup(front, g);
        assert (same + [x])[..|same|] == same;
      }
    }
  }

  lemma {:induction false} RowOfOneGroup(x: Slot, b: seq<Slot>, g: Group, weight: (Slot, Slot) -> real)
    ensures RowSum(x, b, Within({g}, weight)) == if x.group == g then RowSum(x, b, weight) else 0.0
  {
    if b != [] { RowOfOneGroup(x, b[..|b| - 1], g, weight); }
  }

  lemma {:induction false} OfGroupBelongs(slots: seq<Slot>, g: Group)
    ensures forall s | s in OfGroup(slots, g) :: s.group == g
  {
    if slots != [] { OfGroupBelongs(slots[..|slots| - 1], g); }
  }

  /** One more group: its hits against its misses. */
  lemma AddGroup(slots: seq<Slot>, done: set<Group>, g: Group, weight: (Slot, Slot) -> real, w: (real, real) -> real)
    requires g !in done
    requires forall x: Slot, y: Slot :: weight(x, y) == if Counts(x, y) then w(x.value, y.value) else 0.0
    ensures var group := OfGroup(slots, g);
            PairSum(slots, slots, Within(done + {g}, weight))
            == PairSum(slots, slots, Within(done, weight)) + PairSum(ValuesOf(group, true), ValuesOf(group, false), w)
  {
    var group := OfGroup(slots, g);
    PairSumPlus(slots, slots, Within(done + {g}, weight), Within(done, weight), Within({g}, weight));
    PairsWithinGroup(slots, slots, g, weight);
    OfGroupBelongs(slots, g);
    PairsOfGroup(group, group, g, weight, w);
  }

  lemma SumOverAllGroups(slots: seq<Slot>, groups: set<Group>, weight: (Slot, Slot) -> real)
    requires forall s | s in slots :: s.group in groups
    ensures PairSum(slots, slots, Within(groups, weight)) == PairSum(slots, slots, weight)
    ensures PairSum(slots, slots, Within({}, weight)) == 0.0
  {
    PairSumSame(slots, slots, Within(groups, weight), weight);
    PairSumOfNothing(slots, slots, Within({}, weight));
  }

  lemma {:induction false} SignedGroup(slots: seq<Slot>, sign: real, g: Group)
    ensures OfGroup(Signed(slots, sign), g) == Signed(OfGroup(slots, g), sign)
  {
    if slots != [] {
      var front := slots[..|slots| - 1];
      SignedGroup(front, sign, g);
      assert Signed(slots, sign)[..|front|] == Signed(front, sign);
    }
  }

  /** `[sign * s[key] for s in group if s["hit"]]` and its counterpart for the misses. */
  method SplitGroup(group: seq<Slot>, sign: real) returns (pos: seq<real>, neg: seq<real>)
    ensures pos == ValuesOf(Signed(group, sign), true) && neg == ValuesOf(Signed(group, sign), false)
  {
    pos, neg := [], [];
    ghost var all := Signed(group, sign);
    for i := 0 to |group|
      invariant pos == ValuesOf(all[..i], true) && neg == ValuesOf(all[..i], false)
    {
      assert all[..i + 1][..i] == all[..i];
      if group[i].hit {
        pos := pos + [Oriented(sign, group[i].value)];
      } else {
        neg := neg + [Oriented(sign, group[i].value)];
      }
    }
    assert all[..|group|] == all;
  }

  method WithinQuery(slots: seq<Slot>, sign: real) returns (auc: Option<real>, pairs: real)
    ensures auc == Auc(Signed(slots, sign)) && pairs == Counted(Signed(slots, sign))
  {
    var byGroup := GroupSlots(slots);
    ghost var data := Signed(slots, sign);
    var num, den := 0.0, 0.0;
    var todo := byGroup.Keys;
    forall s | s in data ensures s.group in byGroup.Keys {
      var i :| 0 <= i < |data| && data[i] == s;
      assert slots[i] in slots;
    }
    SumOverAllGroups(data, byGroup.Keys, WINS);
    SumOverAllGroups(data, byGroup.Keys, PAIRS);
    assert byGroup.Keys - todo == {};
    while todo != {}
      invariant todo <= byGroup.Keys
      invariant num == PairSum(data, data, Within(byGroup.Keys - todo, WINS))
      invariant den == PairSum(data, data, Within(byGroup.Keys - todo, PAIRS))
      decreases todo
    {
      var g :| g in todo;
      ghost var done := byGroup.Keys - todo;
      SignedGroup(slots, sign, g);
      var pos, neg := SplitGroup(byGroup[g], sign);
      AddGroup(data, done, g, WINS, (a: real, b: real) => if a > b then 1.0 else if a == b then 0.5 else 0.0);
      AddGroup(data, done, g, PAIRS, (a: real, b: real) => 1.0);
      var n, d := ComparePairs(pos, neg);
      num, den := num + n, den + d;
      todo := todo - {g};
      assert byGroup.Keys - todo == done + {g};
    }
    assert byGroup.Keys - todo == byGroup.Keys;
    auc := if den == 0.0 then None else Some(num / den);
    pairs := den;
  }

  // -------------------------------------------------------------- properties

  lemma Fraction(x: real, y: real)
    requires 0.0 <= x <= y && y > 0.0
    ensures 0.0 <= x / y <= 1.0
  {
    var q := x / y;
    assert q * y == x;
  }

  /** Between 0 and 1 whenever a pair counts. */
  lemma AucRange(slots: seq<Slot>)
    ensures 0.0 <= Won(slots) <= Counted(slots)
    ensures Auc(slots).Some? ==> 0.0 <= Auc(slots).value <= 1.0
  {
    var zero := (x: Slot, y: Slot) => 0.0;
    PairSumOrder(slots, slots, WINS, PAIRS);
    PairSumOrder(slots, slots, zero, WINS);
    PairSumOfNothing(slots, slots, zero);
    if Counted(slots) != 0.0 { Fraction(Won(slots), Counted(slots)); }
  }

  lemma {:induction false} PairSumMapped(a: seq<Slot>, b: seq<Slot>, a': seq<Slot>, b': seq<Slot>,
                                         u: (Slot, Slot) -> real, v: (Slot, Slot) -> real)
    requires |a| == |a'| && |b| == |b'|
    requires forall i, j | 0 <= i < |a| && 0 <= j < |b| :: u(a[i], b[j]) == v(a'[i], b'[j])
    ensures PairSum(a, b, u) == PairSum(a', b', v)
  {
    if a != [] {
      PairSumMapped(a[..|a| - 1], b, a'[..|a| - 1], b', u, v);
      RowSumMapped(a[|a| - 1], b, a'[|a| - 1], b', u, v);
    }
  }

  lemma {:induction false} RowSumMapped(x: Slot, b: seq<Slot>, x': Slot, b': seq<Slot>,
                                        u: (Slot, Slot) -> real, v: (Slot, Slot) -> real)
    requires |b| == |b'| && forall j | 0 <= j < |b| :: u(x, b[j]) == v(x', b'[j])
    ensures RowSum(x, b, u) == RowSum(x', b', v)
  {
    if b != [] { RowSumMapped(x, b[..|b| - 1], x', b'[..|b| - 1], u, v); }
  }

  lemma Complement(w: real, c: real)
    requires c != 0.0
    ensures (c - w) / c == 1.0 - w / c
  {
    assert (c - w) / c == c / c - w / c;
  }

  // ------------------------------------------------- what won and counted mean

  /** A pair of positions at which a hit and a miss of one group stand. */
  predicate IsPair(slots: seq<Slot>, i: nat, j: nat) {
    i < |slots| && j < |slots| && slots[i].hit && !slots[j].hit && slots[i].group == slots[j].group
  }

  predicate Above(x: Slot, y: Slot) { x.hit && !y.hit && x.group == y.group && x.value > y.value }

  predicate Level(x: Slot, y: Slot) { x.hit && !y.hit && x.group == y.group && x.value == y.value }

  predicate Below(x: Slot, y: Slot) { x.hit && !y.hit && x.group == y.group && x.value < y.value }

  /** The pairs of positions that satisfy `p`. */
  function Pairs(a: seq<Slot>, b: seq<Slot>, p: (Slot, Slot) -> bool): set<(nat, nat)> {
    set i: nat, j: nat | i < |a| && j < |b| && p(a[i], b[j]) :: (i, j)
  }

  function PairsAt(i: nat, x: Slot, b: seq<Slot>, p: (Slot, Slot) -> bool): set<(nat, nat)> {
    set j: nat | j < |b| && p(x, b[j]) :: (i, j)
  }

  function One(p: (Slot, Slot) -> bool): (Slot, Slot) -> real { (x: Slot, y: Slot) => if p(x, y) then 1.0 else 0.0 }

  function Half(p: (Slot, Slot) -> bool): (Slot, Slot) -> real { (x: Slot, y: Slot) => if p(x, y) then 0.5 else 0.0 }

  lemma {:induction false} RowSumCounts(i: nat, x: Slot, b: seq<Slot>, p: (Slot, Slot) -> bool)
    ensures RowSum(x, b, One(p)) == |PairsAt(i, x, b, p)| as real
  {
    if b == [] {
      assert PairsAt(i, x, b, p) == {};
    } else {
      var front, y := b[..|b| - 1], b[|b| - 1];
      RowSumCounts(i, x, front, p);
      assert PairsAt(i, x, b, p) == PairsAt(i, x, front, p) + if p(x, y) then {(i, |front|)} else {};
    }
  }

  /** The sum of ones is the number of pairs. */
  lemma {:induction false} PairSumCounts(a: seq<Slot>, b: seq<Slot>, p: (Slot, Slot) -> bool)
    ensures PairSum(a, b, One(p)) == |Pairs(a, b, p)| as real
  {
    if a == [] {
      assert Pairs(a, b, p) == {};
    } else {
      var front, x := a[..|a| - 1], a[|a| - 1];
      PairSumCounts(front, b, p);
      RowSumCounts(|front|, x, b, p);
      PairsSnoc(front, x, b, p);
      assert a == front + [x];
    }
  }

  lemma PairsSnoc(a: seq<Slot>, x: Slot, b: seq<Slot>, p: (Slot, Slot) -> bool)
    ensures |Pairs(a + [x], b, p)| == |Pairs(a, b, p)| + |PairsAt(|a|, x, b, p)|
  {
    assert Pairs(a + [x], b, p) == Pairs(a, b, p) + PairsAt(|a|, x, b, p);
    assert Pairs(a, b, p) !! PairsAt(|a|, x, b, p);
  }

  /** Won pairs are those whose hit stands above its miss, and half of the ties; counted are these,
      the ties and those whose hit stands below. */
  lemma WonIsAboveAndHalfTheTies(slots: seq<Slot>)
    ensures var above, level, below :=
              |Pairs(slots, slots, Above)|, |Pairs(slots, slots, Level)|, |Pairs(slots, slots, Below)|;
            Won(slots) == above as real + level as real / 2.0 && Counted(slots) == (above + level + below) as real
  {
    PairWeights();
    PairSumCounts(slots, slots, Above);
    PairSumCounts(slots, slots, Level);
    PairSumCounts(slots, slots, Below);
    hide One, Half, Unwon, PairSum, Pairs;
    PairSumPlus(slots, slots, Unwon(), One(Level), One(Below));
    PairSumPlus(slots, slots, PAIRS, One(Above), Unwon());
    PairSumPlus(slots, slots, One(Level), Half(Level), Half(Level));
    PairSumPlus(slots, slots, WINS, One(Above), Half(Level));
  }

  /** Pairs that are no clear win. */
  function Unwon(): (Slot, Slot) -> real { (x: Slot, y: Slot) => if Level(x, y) || Below(x, y) then 1.0 else 0.0 }

  lemma PairWeights()
    ensures forall x: Slot, y: Slot :: WINS(x, y) == One(Above)(x, y) + Half(Level)(x, y)
    ensures forall x: Slot, y: Slot :: PAIRS(x, y) == One(Above)(x, y) + Unwon()(x, y)
    ensures forall x: Slot, y: Slot :: Unwon()(x, y) == One(Level)(x, y) + One(Below)(x, y)
    ensures forall x: Slot, y: Slot :: One(Level)(x, y) == Half(Level)(x, y) + Half(Level)(x, y)
  {
    forall x: Slot, y: Slot
      ensures && WINS(x, y) == One(Above)(x, y) + Half(Level)(x, y) && PAIRS(x, y) == One(Above)(x, y) + Unwon()(x, y)
              && Unwon()(x, y) == One(Level)(x, y) + One(Below)(x, y)
              && One(Level)(x, y) == Half(Level)(x, y) + Half(Level)(x, y)
    {
      assert One(Above)(x, y) == if Above(x, y) then 1.0 else 0.0;
      assert One(Level)(x, y) == if Level(x, y) then 1.0 else 0.0;
      assert One(Below)(x, y) == if Below(x, y) then 1.0 else 0.0;
      assert Half(Level)(x, y) == if Level(x, y) then 0.5 else 0.0;
    }
  }

  lemma NoSuchPair(slots: seq<Slot>, p: (Slot, Slot) -> bool)
    ensures |Pairs(slots, slots, p)| == 0 <==>
            forall i: nat, j: nat | i < |slots| && j < |slots| :: !p(slots[i], slots[j])
  {
    var pairs := Pairs(slots, slots, p);
    if |pairs| == 0 {
      forall i: nat, j: nat | i < |slots| && j < |slots| ensures !p(slots[i], slots[j]) {
        assert (i, j) !in pairs;
      }
    } else {
      assert pairs != {};
      var at :| at in pairs;
      assert p(slots[at.0], slots[at.1]);
    }
  }

  lemma Shares(x: real, y: real)
    requires y > 0.0
    ensures (x / y == 1.0 <==> x == y) && (x / y == 0.0 <==> x == 0.0)
  {
    assert (x / y) * y == x;
  }

  /** The AUC is 1 exactly when there are pairs and every hit stands above every miss of its group,
      and 0 exactly when it stands below. */
  lemma AucExtremes(slots: seq<Slot>)
    ensures Auc(slots).Some? <==> exists i: nat, j: nat :: IsPair(slots, i, j)
    ensures Auc(slots) == Some(1.0) <==>
            && Auc(slots).Some?
            && forall i: nat, j: nat | IsPair(slots, i, j) :: slots[i].value > slots[j].value
    ensures Auc(slots) == Some(0.0) <==>
            && Auc(slots).Some?
            && forall i: nat, j: nat | IsPair(slots, i, j) :: slots[i].value < slots[j].value
  {
    WonIsAboveAndHalfTheTies(slots);
    NoneAbove(slots);
    NoneLevel(slots);
    NoneBelow(slots);
    hide Won, Counted, Pairs, IsPair, Above, Level, Below;
    if Counted(slots) == 0.0 {
      assert forall i: nat, j: nat :: !IsPair(slots, i, j);
    } else {
      Shares(Won(slots), Counted(slots));
    }
  }

  lemma NoneAbove(slots: seq<Slot>)
    ensures |Pairs(slots, slots, Above)| == 0 <==>
            forall i: nat, j: nat | IsPair(slots, i, j) :: slots[i].value <= slots[j].value
  {
    NoSuchPair(slots, Above);
    hide Pairs;
  }

  lemma NoneLevel(slots: seq<Slot>)
    ensures |Pairs(slots, slots, Level)| == 0 <==>
            forall i: nat, j: nat | IsPair(slots, i, j) :: slots[i].value != slots[j].value
  {
    NoSuchPair(slots, Level);
    hide Pairs;
  }

  lemma NoneBelow(slots: seq<Slot>)
    ensures |Pairs(slots, slots, Below)| == 0 <==>
            forall i: nat, j: nat | IsPair(slots, i, j) :: slots[i].value >= slots[j].value
  {
    NoSuchPair(slots, Below);
    hide Pairs;
  }

  /** A positive factor changes nothing. */
  lemma PositiveFactor(slots: seq<Slot>, sign: real)
    requires sign > 0.0
    ensures Auc(Signed(slots, sign)) == Auc(slots) && Counted(Signed(slots, sign)) == Counted(slots)
  {
    var f := (g: Group, x: real) => Oriented(sign, x);
    forall g: Group, a: real, b: real | a < b ensures f(g, a) < f(g, b) {
      OrientedOrder(sign, a, b);
    }
    hide Oriented;
    assert Signed(slots, sign) == Transformed(slots, f);
    TransformInvariant(slots, f);
  }

  lemma OrientedOrder(sign: real, a: real, b: real)
    requires sign > 0.0 && a < b
    ensures Oriented(sign, a) < Oriented(sign, b)
  {
    assert sign * (b - a) > 0.0;
  }

  function Lost(): (Slot, Slot) -> real { (x: Slot, y: Slot) => CountWeight(x, y) - WinWeight(x, y) }

  lemma TurnedPairs(slots: seq<Slot>)
    ensures var turned := Signed(slots, -1.0);
            forall i, j | 0 <= i < |slots| && 0 <= j < |slots| ::
              PAIRS(turned[i], turned[j]) == PAIRS(slots[i], slots[j])
              && WINS(turned[i], turned[j]) == Lost()(slots[i], slots[j])
    ensures forall x: Slot, y: Slot :: PAIRS(x, y) == Lost()(x, y) + WINS(x, y)
  {
  }

  /** Reversing the sign of the feature turns the AUC into 1 minus itself. */
  lemma SignReversal(slots: seq<Slot>)
    ensures Counted(Signed(slots, -1.0)) == Counted(slots)
    ensures Won(Signed(slots, -1.0)) == Counted(slots) - Won(slots)
    ensures Auc(slots).Some? ==> Auc(Signed(slots, -1.0)) == Some(1.0 - Auc(slots).value)
  {
    var turned := Signed(slots, -1.0);
    TurnedPairs(slots);
    SumsOfPairs(slots);
    SumsOfPairs(turned);
    hide PairSum, Won, Counted, Signed;
    PairSumMapped(turned, turned, slots, slots, PAIRS, PAIRS);
    PairSumMapped(turned, turned, slots, slots, WINS, Lost());
    PairSumPlus(slots, slots, PAIRS, Lost(), WINS);
    if Counted(slots) != 0.0 { Complement(Won(slots), Counted(slots)); }
  }

  /** `f` may differ from group to group but keeps the order of values in each. */
  ghost predicate Increasing(f: (Group, real) -> real) {
    forall g: Group, a: real, b: real | a < b :: f(g, a) < f(g, b)
  }

  function Transformed(slots: seq<Slot>, f: (Group, real) -> real): (r: seq<Slot>)
    ensures |r| == |slots|
  {
    seq(|slots|, i requires 0 <= i < |slots| => slots[i].(value := f(slots[i].group, slots[i].value)))
  }

  /** A strictly increasing transform, chosen for each question on its own, changes nothing. */
  lemma TransformInvariant(slots: seq<Slot>, f: (Group, real) -> real)
    requires Increasing(f)
    ensures Auc(Transformed(slots, f)) == Auc(slots) && Counted(Transformed(slots, f)) == Counted(slots)
  {
    var moved := Transformed(slots, f);
    PairSumMapped(moved, moved, slots, slots, PAIRS, PAIRS);
    forall i, j | 0 <= i < |slots| && 0 <= j < |slots| ensures WINS(moved[i], moved[j]) == WINS(slots[i], slots[j]) {
      var a, b := slots[i].value, slots[j].value;
      if slots[i].group == slots[j].group {
        var g := slots[i].group;
        assert a < b ==> f(g, a) < f(g, b);
        assert b < a ==> f(g, b) < f(g, a);
      }
    }
    PairSumMapped(moved, moved, slots, slots, WINS, WINS);
  }

  // --------------------------------------------------------------- resampling

  /** A slot of one question before it is tagged with a group. */
  datatype Raw = Raw(value: real, hit: bool)

  function Tagged(block: seq<Raw>, g: Group): (r: seq<Slot>)
    ensures |r| == |block|
  {
    seq(|block|, i requires 0 <= i < |block| => Slot(g, block[i].value, block[i].hit))
  }

  /** The resampled slots: the block of every drawn question, one draw a group (`_draw=(q, i)`)
      or, if they were simply concatenated, one question a group. */
  function Resampled(byQ: nat -> seq<Raw>, pick: seq<nat>, perDraw: bool): seq<Slot> {
    if pick == [] then []
    else
      var i, q := |pick| - 1, pick[|pick| - 1];
      Resampled(byQ, pick[..i], perDraw) + Tagged(byQ(q), if perDraw then OfDraw(q, i) else OfQuestion(q))
  }

  /** One bootstrap replicate. */
  method Replicate(byQ: nat -> seq<Raw>, pick: seq<nat>, sign: real) returns (auc: Option<real>)
    ensures auc == Auc(Signed(Resampled(byQ, pick, true), sign))
  {
    var data: seq<Slot> := [];
    for i := 0 to |pick|
      invariant data == Resampled(byQ, pick[..i], true)
    {
      assert pick[..i + 1][..i] == pick[..i];
      data := data + Tagged(byQ(pick[i]), OfDraw(pick[i], i));
    }
    assert pick[..|pick|] == pick;
    var pairs;
    auc, pairs := WithinQuery(data, sign);
  }

  /** Drawing one question once gives the slots of that question. */
  lemma OneDraw(slots: seq<Slot>, q: nat)
    requires forall s | s in slots :: s.group == OfDraw(q, 0)
    ensures var block := seq(|slots|, i requires 0 <= i < |slots| => Raw(slots[i].value, slots[i].hit));
            Resampled((p: nat) => block, [q], true) == slots
  {
    var block := seq(|slots|, i requires 0 <= i < |slots| => Raw(slots[i].value, slots[i].hit));
    forall i | 0 <= i < |slots| ensures Tagged(block, OfDraw(q, 0))[i] == slots[i] {
      assert slots[i] in slots;
    }
    assert Resampled((p: nat) => block, [], true) == [];
    assert [q][..0] == [];
    assert Tagged(block, OfDraw(q, 0)) == slots;
  }

  /** Pairs of one question's own slots. */
  function Own(block: seq<Raw>, weight: (Slot, Slot) -> real): real {
    PairSum(Tagged(block, OfQuestion(0)), Tagged(block, OfQuestion(0)), weight)
  }

  function OwnPairs(byQ: nat -> seq<Raw>, weight: (Slot, Slot) -> real): nat -> real {
    (q: nat) => Own(byQ(q), weight)
  }

  function Scaled(m: nat, x: real): real { m as real * x }

  lemma ScaledPlus(a: nat, b: nat, x: real)
    ensures Scaled(a + b, x) == Scaled(a, x) + Scaled(b, x) && Scaled(1, x) == x && Scaled(0, x) == 0.0
  {
  }

  /** `weight` depends on the groups only through their being the same. */
  ghost predicate GroupBlind(weight: (Slot, Slot) -> real) {
    && SameGroupOnly(weight)
    && forall g: Group, h: Group, a: real, b: real, p: bool, q: bool ::
         weight(Slot(g, a, p), Slot(g, b, q)) == weight(Slot(h, a, p), Slot(h, b, q))
  }

  lemma SameBlock(block: seq<Raw>, g: Group, weight: (Slot, Slot) -> real)
    requires GroupBlind(weight)
    ensures PairSum(Tagged(block, g), Tagged(block, g), weight) == Own(block, weight)
  {
    var a, b := Tagged(block, g), Tagged(block, OfQuestion(0));
    PairSumMapped(a, a, b, b, weight, weight);
  }

  lemma {:induction false} ResampledGroups(byQ: nat -> seq<Raw>, pick: seq<nat>)
    ensures forall k | 0 <= k < |Resampled(byQ, pick, true)| ::
              Resampled(byQ, pick, true)[k].group.OfDraw? && Resampled(byQ, pick, true)[k].group.draw < |pick|
  {
    if pick != [] { ResampledGroups(byQ, pick[..|pick| - 1]); }
  }

  /** A draw's own pairs, added up over all draws. */
  function OverDraws(pick: seq<nat>, h: nat -> real): real {
    if pick == [] then 0.0 else OverDraws(pick[..|pick| - 1], h) + h(pick[|pick| - 1])
  }

  /** Tagging by draw, every draw brings exactly its question's own pairs. */
  lemma {:induction false} PerDrawPairs(byQ: nat -> seq<Raw>, pick: seq<nat>, weight: (Slot, Slot) -> real)
    requires GroupBlind(weight)
    ensures var data := Resampled(byQ, pick, true);
            PairSum(data, data, weight) == OverDraws(pick, OwnPairs(byQ, weight))
  {
    if pick != [] {
      var i, q := |pick| - 1, pick[|pick| - 1];
      var front, block := Resampled(byQ, pick[..i], true), Tagged(byQ(q), OfDraw(q, i));
      PerDrawPairs(byQ, pick[..i], weight);
      ResampledGroups(byQ, pick[..i]);
      SplitSquare(front, block, weight);
      PairSumOfNothing(front, block, weight);
      PairSumOfNothing(block, front, weight);
      SameBlock(byQ(q), OfDraw(q, i), weight);
    }
  }

  lemma SplitSquare(a: seq<Slot>, b: seq<Slot>, weight: (Slot, Slot) -> real)
    ensures PairSum(a + b, a + b, weight)
         == PairSum(a, a, weight) + PairSum(a, b, weight) + PairSum(b, a, weight) + PairSum(b, b, weight)
  {
    PairSumSplitRows(a, b, a + b, weight);
    PairSumSplitColumns(a, a, b, weight);
    PairSumSplitColumns(b, a, b, weight);
  }

  /** The pairs between two tagged blocks. */
  lemma BetweenBlocks(byQ: nat -> seq<Raw>, p: nat, q: nat, weight: (Slot, Slot) -> real)
    requires GroupBlind(weight)
    ensures PairSum(Tagged(byQ(p), OfQuestion(p)), Tagged(byQ(q), OfQuestion(q)), weight)
         == if p == q then Own(byQ(q), weight) else 0.0
  {
    if p == q {
      SameBlock(byQ(q), OfQuestion(q), weight);
    } else {
      PairSumOfNothing(Tagged(byQ(p), OfQuestion(p)), Tagged(byQ(q), OfQuestion(q)), weight);
    }
  }

  /** Blocks of the same question pair up with each other when tagged by question. */
  lemma {:induction false} AcrossBlocks(byQ: nat -> seq<Raw>, pick: seq<nat>, q: nat, weight: (Slot, Slot) -> real)
    requires GroupBlind(weight)
    ensures var front, block := Resampled(byQ, pick, false), Tagged(byQ(q), OfQuestion(q));
            && PairSum(front, block, weight) == Scaled(Times(pick, q), Own(byQ(q), weight))
            && PairSum(block, front, weight) == Scaled(Times(pick, q), Own(byQ(q), weight))
  {
    hide PairSum, Own, Scaled, Tagged, GroupBlind;
    var block, own := Tagged(byQ(q), OfQuestion(q)), Own(byQ(q), weight);
    ScaledPlus(0, 0, own);
    if pick == [] {
      PairSumOfNothing(block, [], weight);
      PairSumOfNothing([], block, weight);
    } else {
      var i, p := |pick| - 1, pick[|pick| - 1];
      var front, last := Resampled(byQ, pick[..i], false), Tagged(byQ(p), OfQuestion(p));
      AcrossBlocks(byQ, pick[..i], q, weight);
      BetweenBlocks(byQ, p, q, weight);
      BetweenBlocks(byQ, q, p, weight);
      ScaledPlus(Times(pick[..i], q), 1, own);
      PairSumSplitRows(front, last, block, weight);
      PairSumSplitColumns(block, front, last, weight);
    }
  }

  /** Each further draw of a question pairs with itself and twice with every earlier draw of it. */
  function OverDrawsSquared(pick: seq<nat>, h: nat -> real): real {
    if pick == [] then 0.0
    else
      var front, q := pick[..|pick| - 1], pick[|pick| - 1];
      OverDrawsSquared(front, h) + Scaled(2 * Times(front, q) + 1, h(q))
  }

  lemma OwnPairsOf(byQ: nat -> seq<Raw>, q: nat, weight: (Slot, Slot) -> real)
    ensures OwnPairs(byQ, weight)(q) == Own(byQ(q), weight)
  {
  }

  lemma LastDraw(byQ: nat -> seq<Raw>, pick: seq<nat>, h: nat -> real)
    requires pick != []
    ensures var front, q := pick[..|pick| - 1], pick[|pick| - 1];
            && Resampled(byQ, pick, false) == Resampled(byQ, front, false) + Tagged(byQ(q), OfQuestion(q))
            && OverDrawsSquared(pick, h) == OverDrawsSquared(front, h) + Scaled(2 * Times(front, q) + 1, h(q))
  {
    hide Tagged, Times, Scaled;
  }

  lemma NoDraws(byQ: nat -> seq<Raw>, weight: (Slot, Slot) -> real, h: nat -> real)
    ensures Resampled(byQ, [], false) == [] && OverDrawsSquared([], h) == 0.0
    ensures PairSum<Slot, Slot>([], [], weight) == 0.0
  {
  }

  /** Tagging by question, a question drawn `m` times brings `m * m` times its own pairs. */
  lemma {:induction false} PerQuestionPairs(byQ: nat -> seq<Raw>, pick: seq<nat>, weight: (Slot, Slot) -> real)
    requires GroupBlind(weight)
    ensures var data := Resampled(byQ, pick, false);
            PairSum(data, data, weight) == OverDrawsSquared(pick, OwnPairs(byQ, weight))
  {
    hide *;
    var h := OwnPairs(byQ, weight);
    if pick == [] {
      NoDraws(byQ, weight, h);
    } else {
      var front, q := pick[..|pick| - 1], pick[|pick| - 1];
      OwnPairsOf(byQ, q, weight);
      LastDraw(byQ, pick, h);
      PerQuestionPairs(byQ, front, weight);
      OneMoreBlock(byQ, front, q, weight);
    }
  }

  /** A further draw of `q` behind `front`: its own pairs, and those with each earlier draw, both ways. */
  lemma OneMoreBlock(byQ: nat -> seq<Raw>, front: seq<nat>, q: nat, weight: (Slot, Slot) -> real)
    requires GroupBlind(weight)
    ensures var data, block := Resampled(byQ, front, false), Tagged(byQ(q), OfQuestion(q));
            PairSum(data + block, data + block, weight)
            == PairSum(data, data, weight) + Scaled(2 * Times(front, q) + 1, Own(byQ(q), weight))
  {
    hide *;
    SplitSquare(Resampled(byQ, front, false), Tagged(byQ(q), OfQuestion(q)), weight);
    AcrossBlocks(byQ, front, q, weight);
    SameBlock(byQ(q), OfQuestion(q), weight);
    OddMultiple(Times(front, q), Own(byQ(q), weight));
  }

  lemma OddMultiple(m: nat, x: real)
    ensures Scaled(2 * m + 1, x) == Scaled(m, x) + Scaled(m, x) + x
  {
    ScaledPlus(m, m, x);
    ScaledPlus(2 * m, 1, x);
  }

  /** The same sums question by question: `m * h(q)` and `m * m * h(q)`. */
  function ByMultiplicity(qs: seq<nat>, pick: seq<nat>, h: nat -> real, squared: bool): real {
    if qs == [] then 0.0
    else
      var q := qs[|qs| - 1];
      var m := Times(pick, q);
      ByMultiplicity(qs[..|qs| - 1], pick, h, squared) + Scaled(if squared then m * m else m, h(q))
  }

  lemma NextMultiple(m: nat, x: real, squared: bool)
    ensures Scaled(if squared then (m + 1) * (m + 1) else m + 1, x)
         == Scaled(if squared then m * m else m, x) + Scaled(if squared then 2 * m + 1 else 1, x)
  {
    if squared {
      assert (m + 1) * (m + 1) == m * m + (2 * m + 1);
      ScaledPlus(m * m, 2 * m + 1, x);
    } else {
      ScaledPlus(m, 1, x);
    }
  }

  lemma TimesSnoc(pick: seq<nat>, q: nat, p: nat)
    ensures Times(pick + [q], p) == Times(pick, p) + if p == q then 1 else 0
  {
    assert (pick + [q])[..|pick|] == pick;
  }

  lemma {:induction false} OneMoreDraw(qs: seq<nat>, pick: seq<nat>, q: nat, h: nat -> real, squared: bool)
    requires Distinct(qs)
    ensures ByMultiplicity(qs, pick + [q], h, squared)
         == ByMultiplicity(qs, pick, h, squared)
            + (if q in qs then Scaled(if squared then 2 * Times(pick, q) + 1 else 1, h(q)) else 0.0)
  {
    hide Scaled, Times;
    if qs != [] {
      var front, p := qs[..|qs| - 1], qs[|qs| - 1];
      OneMoreDraw(front, pick, q, h, squared);
      TimesSnoc(pick, q, p);
      assert qs == front + [p];
      if p == q { NextMultiple(Times(pick, p), h(q), squared); }
    }
  }

  lemma {:induction false} RegroupDraws(qs: seq<nat>, pick: seq<nat>, h: nat -> real)
    requires Distinct(qs) && forall i | 0 <= i < |pick| :: pick[i] in qs
    ensures OverDraws(pick, h) == ByMultiplicity(qs, pick, h, false)
    ensures OverDrawsSquared(pick, h) == ByMultiplicity(qs, pick, h, true)
  {
    if pick == [] {
      NothingDrawn(qs, h, false);
      NothingDrawn(qs, h, true);
    } else {
      var front, q := pick[..|pick| - 1], pick[|pick| - 1];
      RegroupDraws(qs, front, h);
      assert front + [q] == pick;
      OneMoreDraw(qs, front, q, h, false);
      OneMoreDraw(qs, front, q, h, true);
    }
  }

  lemma {:induction false} NothingDrawn(qs: seq<nat>, h: nat -> real, squared: bool)
    ensures ByMultiplicity(qs, [], h, squared) == 0.0
  {
    if qs != [] { NothingDrawn(qs[..|qs| - 1], h, squared); }
  }

  /** Over any draws from `qs`: tagged by draw, each question's won and counted pairs enter
      with its multiplicity; tagged by question they would enter with its square. */
  lemma MultiplicityOfDraws(byQ: nat -> seq<Raw>, qs: seq<nat>, pick: seq<nat>)
    requires Distinct(qs) && forall i | 0 <= i < |pick| :: pick[i] in qs
    ensures Won(Resampled(byQ, pick, true)) == ByMultiplicity(qs, pick, OwnPairs(byQ, WINS), false)
    ensures Counted(Resampled(byQ, pick, true)) == ByMultiplicity(qs, pick, OwnPairs(byQ, PAIRS), false)
    ensures Won(Resampled(byQ, pick, false)) == ByMultiplicity(qs, pick, OwnPairs(byQ, WINS), true)
    ensures Counted(Resampled(byQ, pick, false)) == ByMultiplicity(qs, pick, OwnPairs(byQ, PAIRS), true)
  {
    WinsAreGroupBlind();
    PairsAreGroupBlind();
    SumsOfPairs(Resampled(byQ, pick, true));
    SumsOfPairs(Resampled(byQ, pick, false));
    hide *;
    WeighDraws(byQ, qs, pick, WINS);
    WeighDraws(byQ, qs, pick, PAIRS);
  }

  lemma WinsAreGroupBlind()
    ensures GroupBlind(WINS)
  {
  }

  lemma PairsAreGroupBlind()
    ensures GroupBlind(PAIRS)
  {
  }

  lemma SumsOfPairs(slots: seq<Slot>)
    ensures Won(slots) == PairSum(slots, slots, WINS) && Counted(slots) == PairSum(slots, slots, PAIRS)
  {
  }

  lemma WeighDraws(byQ: nat -> seq<Raw>, qs: seq<nat>, pick: seq<nat>, weight: (Slot, Slot) -> real)
    requires Distinct(qs) && GroupBlind(weight) && forall i | 0 <= i < |pick| :: pick[i] in qs
    ensures PairSum(Resampled(byQ, pick, true), Resampled(byQ, pick, true), weight)
         == ByMultiplicity(qs, pick, OwnPairs(byQ, weight), false)
    ensures PairSum(Resampled(byQ, pick, false), Resampled(byQ, pick, false), weight)
         == ByMultiplicity(qs, pick, OwnPairs(byQ, weight), true)
  {
    hide *;
    PerDrawPairs(byQ, pick, weight);
    PerQuestionPairs(byQ, pick, weight);
    RegroupDraws(qs, pick, OwnPairs(byQ, weight));
  }
}
