/** `pick_members` of `build_fixtures.py`: chosen project members are partly replaced by
    people of supporting departments. Random choices are nondeterministic. */
module PickMembers {
  import opened Prelude

  type Employee = nat
  type Dept = string
  type Topic = string

  /** The pool of replacements: members of supporting departments other than the lead's. */
  function SupportPool(topics: seq<Topic>, supportDepts: map<Topic, seq<Dept>>,
                       deptMembers: map<Dept, seq<Employee>>, leadDept: Option<Dept>): set<Employee>
  {
    set t, d, m | t in topics && t in supportDepts && d in supportDepts[t] && Some(d) != leadDept
                  && d in deptMembers && m in deptMembers[d] :: m
  }

  /** `sorted(set(support))`, as the set it sorts. */
  method SupportOf(topics: seq<Topic>, supportDepts: map<Topic, seq<Dept>>, deptMembers: map<Dept, seq<Employee>>,
                   leadDept: Option<Dept>)
    returns (support: set<Employee>)
    ensures support == SupportPool(topics, supportDepts, deptMembers, leadDept)
  {
    support := {};
    for i := 0 to |topics|
      invariant support == SupportPool(topics[..i], supportDepts, deptMembers, leadDept)
    {
      var depts := if topics[i] in supportDepts then supportDepts[topics[i]] else [];
      ghost var before := support;
      for j := 0 to |depts|
        invariant support == before + FromDepts(depts[..j], deptMembers, leadDept)
      {
        if Some(depts[j]) != leadDept {
          support := support + Elements(if depts[j] in deptMembers then deptMembers[depts[j]] else []);
        }
        assert depts[..j + 1] == depts[..j] + [depts[j]];
      }
      assert depts[..|depts|] == depts;
      OneMoreTopic(topics, i, supportDepts, deptMembers, leadDept);
    }
    assert topics[..|topics|] == topics;
  }

  function FromDepts(depts: seq<Dept>, deptMembers: map<Dept, seq<Employee>>, leadDept: Option<Dept>): set<Employee> {
    set d, m | d in depts && Some(d) != leadDept && d in deptMembers && m in deptMembers[d] :: m
  }

  lemma OneMoreTopic(topics: seq<Topic>, i: nat, supportDepts: map<Topic, seq<Dept>>,
                     deptMembers: map<Dept, seq<Employee>>, leadDept: Option<Dept>)
    requires i < |topics|
    ensures SupportPool(topics[..i + 1], supportDepts, deptMembers, leadDept)
         == SupportPool(topics[..i], supportDepts, deptMembers, leadDept)
            + FromDepts(if topics[i] in supportDepts then supportDepts[topics[i]] else [], deptMembers, leadDept)
  {
    assert topics[..i + 1] == topics[..i] + [topics[i]];
  }

  /** What the loop has kept after its first `k` rounds, when round `i` came up with `picks[i]`. */
  function Kept(chosen: seq<Employee>, picks: seq<Employee>, lead: Employee, k: nat): seq<Employee>
    requires k <= |chosen| == |picks|
  {
    if k == 0 then []
    else
      var out := Kept(chosen, picks, lead, k - 1);
      var taken := Elements(out) + {lead};
      var pick := if picks[k - 1] in taken then chosen[k - 1] else picks[k - 1];
      if pick in taken then out else out + [pick]
  }

  /** `picks` can come from the generator: each round keeps the chosen member or draws one
      of the candidates not taken yet. */
  ghost predicate Possible(chosen: seq<Employee>, support: set<Employee>, lead: Employee, picks: seq<Employee>) {
    && |picks| == |chosen|
    && forall k | 0 <= k < |chosen| ::
         picks[k] == chosen[k]
         || (picks[k] in support && picks[k] !in Elements(Kept(chosen, picks, lead, k)) + {lead})
  }

  lemma {:induction false} KeptDependsOnPrefix(chosen: seq<Employee>, p: seq<Employee>, q: seq<Employee>,
                                               lead: Employee, k: nat)
    requires k <= |chosen| == |p| == |q|
    requires p[..k] == q[..k]
    ensures Kept(chosen, p, lead, k) == Kept(chosen, q, lead, k)
  {
    if k > 0 {
      assert p[..k - 1] == p[..k][..k - 1] == q[..k][..k - 1] == q[..k - 1];
      KeptDependsOnPrefix(chosen, p, q, lead, k - 1);
      assert p[k - 1] == p[..k][k - 1] == q[..k][k - 1] == q[k - 1];
    }
  }

  /** Whatever is drawn, the result has no repetitions, leaves the lead out, and holds nobody
      but chosen members and supporters. */
  lemma {:induction false} KeptIsSound(chosen: seq<Employee>, support: set<Employee>, lead: Employee,
                                      picks: seq<Employee>, k: nat)
    requires Possible(chosen, support, lead, picks) && k <= |chosen|
    ensures var out := Kept(chosen, picks, lead, k);
            Distinct(out) && lead !in out && |out| <= k && Elements(out) <= Elements(chosen[..k]) + support
  {
    if k > 0 {
      KeptIsSound(chosen, support, lead, picks, k - 1);
      assert chosen[..k] == chosen[..k - 1] + [chosen[k - 1]];
      assert chosen[..k][k - 1] == chosen[k - 1];
      forall x | x in Kept(chosen, picks, lead, k) ensures x in Elements(chosen[..k]) + support {
        if x in Kept(chosen, picks, lead, k - 1) {
          assert x in Elements(chosen[..k - 1]) + support;
          assert chosen[..k - 1] == chosen[..k][..k - 1];
        } else {
          assert x == chosen[k - 1] || x == picks[k - 1];
        }
      }
    }
  }

  /** The condition a caller can check: chosen members are distinct, none is the lead, and
      none but possibly the first is a candidate replacement. */
  predicate SafeToReplace(chosen: seq<Employee>, support: set<Employee>, lead: Employee) {
    Distinct(chosen) && lead !in chosen && forall i | 1 <= i < |chosen| :: chosen[i] !in support
  }

  lemma {:induction false} SafeKeepsEveryone(chosen: seq<Employee>, support: set<Employee>, lead: Employee,
                                            picks: seq<Employee>, k: nat)
    requires SafeToReplace(chosen, support, lead) && Possible(chosen, support, lead, picks) && k <= |chosen|
    ensures |Kept(chosen, picks, lead, k)| == k
  {
    if k > 0 {
      SafeKeepsEveryone(chosen, support, lead, picks, k - 1);
      KeptIsSound(chosen, support, lead, picks, k - 1);
      var out := Kept(chosen, picks, lead, k - 1);
      assert forall i | 0 <= i < k - 1 :: chosen[..k - 1][i] == chosen[i] != chosen[k - 1];
      assert chosen[k - 1] !in Elements(chosen[..k - 1]);
      if k == 1 { assert out == []; }
    }
  }

  method PickMembers(chosen: seq<Employee>, support: set<Employee>, lead: Employee)
    returns (out: seq<Employee>, ghost picks: seq<Employee>)
    ensures Possible(chosen, support, lead, picks)
    ensures out == Kept(chosen, picks, lead, |chosen|)
    ensures Distinct(out) && lead !in out && Elements(out) <= Elements(chosen) + support && |out| <= |chosen|
    ensures SafeToReplace(chosen, support, lead) ==> |out| == |chosen|
  {
    out := [];
    picks := chosen;
    var taken := {lead};
    for k := 0 to |chosen|
      invariant |picks| == |chosen|
      invariant picks[k..] == chosen[k..]
      invariant out == Kept(chosen, picks, lead, k)
      invariant taken == Elements(out) + {lead}
      invariant forall i | 0 <= i < k ::
                  picks[i] == chosen[i]
                  || (picks[i] in support && picks[i] !in Elements(Kept(chosen, picks, lead, i)) + {lead})
    {
      ghost var before := picks;
      var pick := chosen[k];
      var cands := support - taken;
      var replace: bool := *;
      if cands != {} && replace {
        pick :| pick in cands;
      }
      picks := picks[k := pick];
      forall i | 0 <= i <= k ensures Kept(chosen, picks, lead, i) == Kept(chosen, before, lead, i) {
        assert picks[..i] == before[..i];
        KeptDependsOnPrefix(chosen, picks, before, lead, i);
      }
      if pick in taken {
        pick := chosen[k];
      }
      if pick !in taken {
        taken := taken + {pick};
        out := out + [pick];
      }
    }
    KeptIsSound(chosen, support, lead, picks, |chosen|);
    assert chosen[..|chosen|] == chosen;
    if SafeToReplace(chosen, support, lead) {
      SafeKeepsEveryone(chosen, support, lead, picks, |chosen|);
    }
  }

  lemma {:induction false} KeptCountsUp(chosen: seq<Employee>, picks: seq<Employee>, lead: Employee, j: nat, k: nat)
    requires j <= k <= |chosen| == |picks|
    ensures |Kept(chosen, picks, lead, k)| <= |Kept(chosen, picks, lead, j)| + (k - j)
    ensures forall x | x in Kept(chosen, picks, lead, j) :: x in Kept(chosen, picks, lead, k)
  {
    if j < k { KeptCountsUp(chosen, picks, lead, j, k - 1); }
  }

  /** A run that repeats an employee at round `j` ends up one member short. */
  lemma RepeatLosesOne(chosen: seq<Employee>, picks: seq<Employee>, lead: Employee, j: nat)
    requires j < |chosen| == |picks| && picks[j] == chosen[j]
    requires chosen[j] == lead || chosen[j] in Kept(chosen, picks, lead, j)
    ensures |Kept(chosen, picks, lead, |chosen|)| < |chosen|
  {
    KeptCountsUp(chosen, picks, lead, 0, j);
    KeptCountsUp(chosen, picks, lead, j + 1, |chosen|);
  }

  lemma {:induction false} KeepingIsPossible(chosen: seq<Employee>, support: set<Employee>, lead: Employee, k: nat)
    requires k <= |chosen|
    ensures Possible(chosen, support, lead, chosen)
    ensures forall i | 0 <= i < k && chosen[i] != lead :: chosen[i] in Kept(chosen, chosen, lead, k)
  {
    if k > 0 { KeepingIsPossible(chosen, support, lead, k - 1); }
  }

  /** The number of members is kept on every run exactly under the checkable condition. */
  lemma CountKeptExactlyWhenSafe(chosen: seq<Employee>, support: set<Employee>, lead: Employee)
    ensures SafeToReplace(chosen, support, lead) <==>
            forall picks | Possible(chosen, support, lead, picks) :: |Kept(chosen, picks, lead, |chosen|)| == |chosen|
  {
    if SafeToReplace(chosen, support, lead) {
      forall picks | Possible(chosen, support, lead, picks)
        ensures |Kept(chosen, picks, lead, |chosen|)| == |chosen|
      {
        SafeKeepsEveryone(chosen, support, lead, picks, |chosen|);
      }
    } else {
      var picks := LosingRun(chosen, support, lead);
    }
  }

  lemma LosingRun(chosen: seq<Employee>, support: set<Employee>, lead: Employee) returns (picks: seq<Employee>)
    requires !SafeToReplace(chosen, support, lead)
    ensures Possible(chosen, support, lead, picks) && |Kept(chosen, picks, lead, |chosen|)| < |chosen|
  {
    picks := chosen;
    KeepingIsPossible(chosen, support, lead, |chosen|);
    if lead in chosen {
      var j :| 0 <= j < |chosen| && chosen[j] == lead;
      RepeatLosesOne(chosen, picks, lead, j);
    } else if !Distinct(chosen) {
      var i, j :| 0 <= i < j < |chosen| && chosen[i] == chosen[j];
      KeepingIsPossible(chosen, support, lead, j);
      RepeatLosesOne(chosen, picks, lead, j);
    } else {
      var j :| 1 <= j < |chosen| && chosen[j] in support;
      picks := chosen[0 := chosen[j]];
      assert Kept(chosen, picks, lead, 1) == [chosen[j]];
      KeptCountsUp(chosen, picks, lead, 1, j);
      RepeatLosesOne(chosen, picks, lead, j);
    }
  }

  /** The way `main` calls it: members come from the lead's own department, so none of them
      is a candidate and the number of members never changes. */
  lemma OwnDepartmentKeepsCount(chosen: seq<Employee>, topics: seq<Topic>, supportDepts: map<Topic, seq<Dept>>,
                                deptMembers: map<Dept, seq<Employee>>, deptOf: map<Employee, Dept>,
                                lead: Employee, picks: seq<Employee>)
    requires forall d, m | d in deptMembers && m in deptMembers[d] :: m in deptOf && deptOf[m] == d
    requires lead in deptOf && Distinct(chosen) && lead !in chosen
    requires forall i | 0 <= i < |chosen| :: chosen[i] in deptOf && deptOf[chosen[i]] == deptOf[lead]
    requires Possible(chosen, SupportPool(topics, supportDepts, deptMembers, Some(deptOf[lead])), lead, picks)
    ensures var out := Kept(chosen, picks, lead, |chosen|);
            |out| == |chosen| && Distinct(out) && lead !in out
  {
    var support := SupportPool(topics, supportDepts, deptMembers, Some(deptOf[lead]));
    KeptIsSound(chosen, support, lead, picks, |chosen|);
    SafeKeepsEveryone(chosen, support, lead, picks, |chosen|);
  }
}
