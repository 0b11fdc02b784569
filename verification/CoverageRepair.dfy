/** Questions and answers of `build_fixtures.py` (sections 7 and 7b of `main`): generation of
    the pairs, then the repair that makes every employee answer at least once.
    Ids are the numbers behind `q_0001`, `ans_0001`; texts, dates and reuse counts are left out.
    Random choices are nondeterministic. */
module CoverageRepair {
  import opened Prelude

  type Employee = nat
  type Topic = string

  datatype Question = Question(id: nat, asker: Employee, topics: seq<Topic>)

  datatype Answer = Answer(id: nat, questionId: nat, responder: Employee, topic: Topic)

  /** How many answers `e` gave (`responder_counts`). */
  function Count(answers: seq<Answer>, e: Employee): nat {
    if answers == [] then 0
    else Count(answers[..|answers| - 1], e) + if answers[|answers| - 1].responder == e then 1 else 0
  }

  function AnswersOf(answers: seq<Answer>, e: Employee): set<nat> {
    set i: nat | i < |answers| && answers[i].responder == e
  }

  lemma {:induction false} CountIsNumber(answers: seq<Answer>, e: Employee)
    ensures Count(answers, e) == |AnswersOf(answers, e)|
  {
    if answers == [] {
      assert AnswersOf(answers, e) == {};
    } else {
      var front := answers[..|answers| - 1];
      CountIsNumber(front, e);
      assert AnswersOf(answers, e)
          == AnswersOf(front, e) + if answers[|answers| - 1].responder == e then {|answers| - 1} else {};
    }
  }

  lemma {:induction false} CountUpdate(answers: seq<Answer>, i: nat, x: Answer, e: Employee)
    requires i < |answers|
    ensures Count(answers[i := x], e)
         == Count(answers, e) - (if answers[i].responder == e then 1 else 0) + (if x.responder == e then 1 else 0)
  {
    var n := |answers| - 1;
    if i < n {
      CountUpdate(answers[..n], i, x, e);
      assert answers[i := x][..n] == answers[..n][i := x];
    } else {
      assert answers[i := x][..n] == answers[..n];
    }
  }

  lemma CountSnoc(answers: seq<Answer>, x: Answer, e: Employee)
    ensures Count(answers + [x], e) == Count(answers, e) + if x.responder == e then 1 else 0
  {
    assert (answers + [x])[..|answers|] == answers;
  }

  lemma {:induction false} CountPositive(answers: seq<Answer>, i: nat)
    requires i < |answers|
    ensures Count(answers, answers[i].responder) >= 1
  {
    var n := |answers| - 1;
    if i < n {
      CountPositive(answers[..n], i);
      assert answers[..n][i] == answers[i];
    }
  }

  /** Question `q` and answer `a` carry number `i + 1` and belong together, the question's first
      topic is the answer's, both people are employees, and nobody answers their own question. */
  predicate IsPair(q: Question, a: Answer, i: nat, people: set<Employee>) {
    && q.id == a.id == a.questionId == i + 1
    && q.topics != [] && q.topics[0] == a.topic
    && q.asker in people && a.responder in people && q.asker != a.responder
  }

  ghost predicate Paired(questions: seq<Question>, answers: seq<Answer>, people: set<Employee>) {
    && |questions| == |answers|
    && forall i | 0 <= i < |answers| :: IsPair(questions[i], answers[i], i, people)
  }

  /** Employees who answered nothing. */
  function Uncovered(answers: seq<Answer>, people: set<Employee>): set<Employee> {
    set e | e in people && Count(answers, e) == 0
  }

  /** Positions of `was` whose responder is another one in `now`. */
  function Swapped(was: seq<Answer>, now: seq<Answer>): set<nat>
    requires |was| <= |now|
  {
    set i | 0 <= i < |was| && now[i].responder != was[i].responder
  }

  /** Those repaired so far have exactly one answer, the other uncovered employees none,
      and whoever had answers still has some. */
  ghost predicate Covers(was: seq<Answer>, now: seq<Answer>, people: set<Employee>, fixed: set<Employee>) {
    && fixed <= Uncovered(was, people)
    && (forall e | e in people && Count(was, e) > 0 :: 1 <= Count(now, e) <= Count(was, e))
    && (forall e | e in people && Count(was, e) == 0 :: Count(now, e) == if e in fixed then 1 else 0)
  }

  /** Answer `i` is new, or went to another responder. */
  predicate Moved(was: seq<Answer>, now: seq<Answer>, i: nat)
    requires i < |now|
  {
    i >= |was| || now[i].responder != was[i].responder
  }

  /** Topics stay, and every moved answer went to a repaired employee in a topic of theirs. */
  ghost predicate MovesFit(was: seq<Answer>, now: seq<Answer>, fixed: set<Employee>, prefsOf: Employee -> seq<Topic>) {
    && |was| <= |now|
    && (forall i | 0 <= i < |was| :: now[i].topic == was[i].topic)
    && (forall i | 0 <= i < |now| && Moved(was, now, i) ::
          now[i].responder in fixed && now[i].topic in prefsOf(now[i].responder))
  }

  /** `now` is `was` after repairing the employees of `fixed`, each by one swap or one append. */
  ghost predicate Repaired(was: seq<Answer>, now: seq<Answer>, people: set<Employee>, fixed: set<Employee>,
                           prefsOf: Employee -> seq<Topic>)
  {
    && Covers(was, now, people, fixed)
    && MovesFit(was, now, fixed, prefsOf)
    && |Swapped(was, now)| + (|now| - |was|) == |fixed|
  }

  /** Old questions keep id and topics; an asker is replaced only where the answer's new
      responder had asked the question. */
  ghost predicate QuestionsKept(was: seq<Question>, now: seq<Question>, answers: seq<Answer>) {
    && |was| <= |now| == |answers|
    && forall i | 0 <= i < |was| ::
         && now[i].id == was[i].id && now[i].topics == was[i].topics
         && (now[i].asker != was[i].asker ==> was[i].asker == answers[i].responder)
  }

  lemma SwapRepairs(was: seq<Answer>, now: seq<Answer>, people: set<Employee>, fixed: set<Employee>,
                    prefsOf: Employee -> seq<Topic>, i: nat, e: Employee)
    requires Repaired(was, now, people, fixed, prefsOf)
    requires e in people && Count(now, e) == 0
    requires i < |now| && Count(now, now[i].responder) > 1 && now[i].responder in people
    requires now[i].topic in prefsOf(e)
    ensures Repaired(was, now[i := now[i].(responder := e)], people, fixed + {e}, prefsOf)
    ensures !Moved(was, now, i)
  {
    var r, next := now[i].responder, now[i := now[i].(responder := e)];
    assert r !in fixed;
    assert !Moved(was, now, i);
    CountPositive(was, i);
    forall d ensures Count(next, d) == Count(now, d) - (if r == d then 1 else 0) + (if e == d then 1 else 0) {
      CountUpdate(now, i, now[i].(responder := e), d);
    }
    assert Count(was, e) == 0 && r != e;
    assert Covers(was, next, people, fixed + {e});
    SwapFits(was, now, fixed, prefsOf, i, e);
  }

  lemma SwapFits(was: seq<Answer>, now: seq<Answer>, fixed: set<Employee>,
                 prefsOf: Employee -> seq<Topic>, i: nat, e: Employee)
    requires MovesFit(was, now, fixed, prefsOf)
    requires i < |was| && !Moved(was, now, i) && e != now[i].responder
    requires now[i].topic in prefsOf(e)
    ensures var next := now[i := now[i].(responder := e)];
            MovesFit(was, next, fixed + {e}, prefsOf) && |Swapped(was, next)| == |Swapped(was, now)| + 1
  {
    var next := now[i := now[i].(responder := e)];
    forall j | 0 <= j < |next| && Moved(was, next, j)
      ensures next[j].responder in fixed + {e} && next[j].topic in prefsOf(next[j].responder)
    {
      if j != i { assert Moved(was, now, j); }
    }
    assert Swapped(was, next) == Swapped(was, now) + {i};
  }

  lemma AppendRepairs(was: seq<Answer>, now: seq<Answer>, people: set<Employee>, fixed: set<Employee>,
                      prefsOf: Employee -> seq<Topic>, x: Answer)
    requires Repaired(was, now, people, fixed, prefsOf)
    requires x.responder in people && Count(now, x.responder) == 0
    requires x.topic in prefsOf(x.responder)
    ensures Repaired(was, now + [x], people, fixed + {x.responder}, prefsOf)
  {
    hide Count;
    AppendCovers(was, now, people, fixed, x);
    hide Covers;
    AppendFits(was, now, fixed, prefsOf, x);
  }

  lemma AppendCovers(was: seq<Answer>, now: seq<Answer>, people: set<Employee>, fixed: set<Employee>, x: Answer)
    requires Covers(was, now, people, fixed) && x.responder in people && Count(now, x.responder) == 0
    ensures Covers(was, now + [x], people, fixed + {x.responder}) && x.responder !in fixed
  {
    hide Count;
    forall d ensures Count(now + [x], d) == Count(now, d) + if x.responder == d then 1 else 0 {
      CountSnoc(now, x, d);
    }
  }

  lemma AppendFits(was: seq<Answer>, now: seq<Answer>, fixed: set<Employee>, prefsOf: Employee -> seq<Topic>, x: Answer)
    requires MovesFit(was, now, fixed, prefsOf) && x.topic in prefsOf(x.responder)
    ensures MovesFit(was, now + [x], fixed + {x.responder}, prefsOf) && Swapped(was, now + [x]) == Swapped(was, now)
  {
    var next := now + [x];
    forall j | 0 <= j < |next| && Moved(was, next, j)
      ensures next[j].responder in fixed + {x.responder} && next[j].topic in prefsOf(next[j].responder)
    {
      if j < |now| { assert Moved(was, now, j); }
    }
  }

  lemma AppendInRepair(wasQuestions: seq<Question>, was: seq<Answer>,
                       questions: seq<Question>, answers: seq<Answer>,
                       people: set<Employee>, fixed: set<Employee>, prefsOf: Employee -> seq<Topic>,
                       q: Question, a: Answer)
    requires InRepair(wasQuestions, was, questions, answers, people, fixed, prefsOf)
    requires IsPair(q, a, |answers|, people) && Count(answers, a.responder) == 0 && a.topic in prefsOf(a.responder)
    ensures InRepair(wasQuestions, was, questions + [q], answers + [a], people, fixed + {a.responder}, prefsOf)
  {
    hide Repaired, Count, Paired, QuestionsKept;
    AppendRepairs(was, answers, people, fixed, prefsOf, a);
    PairedSnoc(questions, answers, people, q, a);
    QuestionsKeptSnoc(wasQuestions, questions, answers, q, a);
  }

  lemma PairedSnoc(questions: seq<Question>, answers: seq<Answer>, people: set<Employee>, q: Question, a: Answer)
    requires Paired(questions, answers, people) && IsPair(q, a, |answers|, people)
    ensures Paired(questions + [q], answers + [a], people)
  {
    hide IsPair;
  }

  lemma QuestionsKeptSnoc(was: seq<Question>, questions: seq<Question>, answers: seq<Answer>, q: Question, a: Answer)
    requires QuestionsKept(was, questions, answers)
    ensures QuestionsKept(was, questions + [q], answers + [a])
  {
  }

  /** Someone other than `e` (`random.choice` fails when there is nobody). */
  lemma SomeoneElse(people: set<Employee>, e: Employee)
    requires |people| >= 2
    ensures exists x :: x in people && x != e
  {
    if forall x | x in people :: x == e {
      assert people <= {e};
      assert |people| <= |{e}| by { SubsetSize(people, {e}); }
    }
  }

  /** The repair has come from the first two lists to the second two by handling `fixed`. */
  ghost predicate InRepair(wasQuestions: seq<Question>, was: seq<Answer>,
                           questions: seq<Question>, answers: seq<Answer>,
                           people: set<Employee>, fixed: set<Employee>, prefsOf: Employee -> seq<Topic>)
  {
    && Paired(wasQuestions, was, people)
    && Paired(questions, answers, people)
    && QuestionsKept(wasQuestions, questions, answers)
    && Repaired(was, answers, people, fixed, prefsOf)
  }

  lemma NothingRepairedYet(questions: seq<Question>, was: seq<Answer>, people: set<Employee>,
                           prefsOf: Employee -> seq<Topic>)
    requires Paired(questions, was, people)
    ensures InRepair(questions, was, questions, was, people, {}, prefsOf)
  {
    assert Swapped(was, was) == {};
  }

  lemma EveryoneFixed(was: seq<Answer>, now: seq<Answer>, people: set<Employee>, fixed: set<Employee>,
                      prefsOf: Employee -> seq<Topic>, sorted: seq<Employee>)
    requires Repaired(was, now, people, fixed, prefsOf)
    requires people == set e | e in sorted
    requires forall j | 0 <= j < |sorted| :: Count(now, sorted[j]) > 0
    ensures fixed == Uncovered(was, people) && Uncovered(now, people) == {}
  {
    forall e | e in people ensures Count(now, e) > 0 {
      var j :| 0 <= j < |sorted| && sorted[j] == e;
    }
  }

  lemma CoverStays(wasQuestions: seq<Question>, was: seq<Answer>, q: seq<Question>, before: seq<Answer>,
                   q': seq<Question>, after: seq<Answer>, people: set<Employee>, fixed: set<Employee>,
                   eid: Employee, prefsOf: Employee -> seq<Topic>)
    requires InRepair(wasQuestions, was, q, before, people, fixed, prefsOf)
    requires InRepair(wasQuestions, was, q', after, people, fixed + {eid}, prefsOf)
    ensures forall e | e in people && Count(before, e) > 0 :: Count(after, e) > 0
    ensures eid in people ==> Count(after, eid) > 0
  {
  }

  lemma AskerStays(wasQuestions: seq<Question>, was: seq<Answer>, questions: seq<Question>, answers: seq<Answer>,
                   i: nat, people: set<Employee>)
    requires Paired(wasQuestions, was, people) && QuestionsKept(wasQuestions, questions, answers)
    requires i < |was| && !Moved(was, answers, i)
    ensures questions[i].asker == wasQuestions[i].asker
  {
    assert IsPair(wasQuestions[i], was[i], i, people);
  }

  lemma SwapKeepsPairs(wasQuestions: seq<Question>, questions: seq<Question>, answers: seq<Answer>,
                       i: nat, eid: Employee, asker: Employee, people: set<Employee>)
    requires Paired(questions, answers, people) && QuestionsKept(wasQuestions, questions, answers)
    requires i < |wasQuestions| && questions[i].asker == wasQuestions[i].asker
    requires eid in people && asker in people && asker != eid
    requires asker != questions[i].asker ==> questions[i].asker == eid
    ensures Paired(questions[i := questions[i].(asker := asker)], answers[i := answers[i].(responder := eid)], people)
    ensures QuestionsKept(wasQuestions, questions[i := questions[i].(asker := asker)],
                          answers[i := answers[i].(responder := eid)])
  {
    assert IsPair(questions[i], answers[i], i, people);
  }

  /** `[t for t in topics if t != topic]`. */
  function Others(topics: seq<Topic>, topic: Topic): (r: seq<Topic>)
    ensures forall t :: t in r <==> t in topics && t != topic
  {
    if topics == [] then []
    else
      var front, t := Others(topics[..|topics| - 1], topic), topics[|topics| - 1];
      if t != topic then front + [t] else front
  }

  /** Position `k` holds the first topic other than `topic`. */
  predicate IsFirstOther(topics: seq<Topic>, topic: Topic, k: nat) {
    k < |topics| && topics[k] != topic && forall j | 0 <= j < k :: topics[j] == topic
  }

  lemma {:induction false} OthersStart(topics: seq<Topic>, topic: Topic) returns (k: nat)
    requires Others(topics, topic) != []
    ensures IsFirstOther(topics, topic, k) && topics[k] == Others(topics, topic)[0]
  {
    var front := topics[..|topics| - 1];
    if Others(front, topic) != [] {
      k := OthersStart(front, topic);
      assert forall j | 0 <= j <= k :: front[j] == topics[j];
    } else {
      k := |front|;
      forall j | 0 <= j < k ensures topics[j] == topic {
        assert front[j] in front && front[j] !in Others(front, topic);
      }
    }
  }

  /** Pair `i` is on the topic whose turn it is, answered by one of its first three experts, and its question
      names besides at most the first other topic of that expert. */
  predicate IsGenerated(q: Question, a: Answer, i: nat, weighted: seq<Topic>, expertsOf: Topic -> seq<Employee>,
                        topTopics: Employee -> seq<Topic>)
    requires weighted != []
  {
    && a.topic == weighted[i % |weighted|]
    && (exists k | 0 <= k < |expertsOf(a.topic)| && k < 3 :: expertsOf(a.topic)[k] == a.responder)
    && var tops := topTopics(a.responder);
       q.topics == [a.topic]
       || exists k | 0 <= k < |tops| :: IsFirstOther(tops, a.topic, k) && q.topics == [a.topic, tops[k]]
  }

  class QaStore {
    var questions: seq<Question>
    var answers: seq<Answer>

    constructor ()
      ensures questions == [] && answers == []
    {
      questions, answers := [], [];
    }

    /** Section 7: `n` pairs over the weighted topics, in turn. */
    method Generate(n: nat, weighted: seq<Topic>, expertsOf: Topic -> seq<Employee>,
                    topTopics: Employee -> seq<Topic>, people: set<Employee>)
      requires questions == [] && answers == []
      requires weighted != [] && |people| >= 2
      requires forall t | t in weighted :: expertsOf(t) != [] && forall e | e in expertsOf(t) :: e in people
      modifies this
      ensures |answers| == n && Paired(questions, answers, people)
      ensures forall i | 0 <= i < n :: IsGenerated(questions[i], answers[i], i, weighted, expertsOf, topTopics)
    {
      for i := 0 to n
        invariant |answers| == i && Paired(questions, answers, people)
        invariant forall j | 0 <= j < i :: IsGenerated(questions[j], answers[j], j, weighted, expertsOf, topTopics)
      {
        var topic := weighted[i % |weighted|];
        var pool := Take(expertsOf(topic), 3);
        assert pool[0] in pool;
        var responder :| responder in pool;
        assert responder in expertsOf(topic) && forall k | 0 <= k < |pool| :: pool[k] == expertsOf(topic)[k];
        SomeoneElse(people, responder);
        var asker :| asker in people && asker != responder;
        var extra := Others(topTopics(responder), topic);
        var more: bool := *;
        var topics := [topic] + if extra != [] && more then extra[..1] else [];
        if extra != [] { ghost var k := OthersStart(topTopics(responder), topic); }
        var q, a := Question(i + 1, asker, topics), Answer(i + 1, i + 1, responder, topic);
        assert IsPair(q, a, i, people) && IsGenerated(q, a, i, weighted, expertsOf, topTopics);
        questions := questions + [q];
        answers := answers + [a];
      }
    }

    /** Section 7b. `sorted` lists the employees; `prefsOf` gives the topics an employee is
        repaired in, best first, and is never empty. Afterwards everybody answers something,
        nobody lost their last answer, and one swap or append was made for each employee who
        had answered nothing. */
    method RepairCoverage(sorted: seq<Employee>, people: set<Employee>, prefsOf: Employee -> seq<Topic>)
      requires Paired(questions, answers, people)
      requires people == (set e | e in sorted) && |people| >= 2
      requires forall e | e in people :: prefsOf(e) != []
      modifies this
      ensures Paired(questions, answers, people)
      ensures QuestionsKept(old(questions), questions, answers)
      ensures Repaired(old(answers), answers, people, Uncovered(old(answers), people), prefsOf)
      ensures Uncovered(answers, people) == {}
    {
      ghost var wasQuestions, was := questions, answers;
      NothingRepairedYet(questions, answers, people, prefsOf);
      ghost var fixed := RepairEach(sorted, people, prefsOf, wasQuestions, was);
      EveryoneFixed(was, answers, people, fixed, prefsOf, sorted);
    }

    method RepairEach(sorted: seq<Employee>, people: set<Employee>, prefsOf: Employee -> seq<Topic>,
                      ghost wasQuestions: seq<Question>, ghost was: seq<Answer>)
      returns (ghost fixed: set<Employee>)
      requires InRepair(wasQuestions, was, questions, answers, people, {}, prefsOf)
      requires people == (set e | e in sorted) && |people| >= 2
      requires forall e | e in people :: prefsOf(e) != []
      modifies this
      ensures InRepair(wasQuestions, was, questions, answers, people, fixed, prefsOf)
      ensures forall j | 0 <= j < |sorted| :: Count(answers, sorted[j]) > 0
    {
      hide InRepair, Count;
      fixed := {};
      for k := 0 to |sorted|
        invariant InRepair(wasQuestions, was, questions, answers, people, fixed, prefsOf)
        invariant forall j | 0 <= j < k :: Count(answers, sorted[j]) > 0
      {
        var eid := sorted[k];
        assert forall j | 0 <= j < |sorted| :: sorted[j] in people;
        if Count(answers, eid) == 0 {
          ghost var beforeQuestions, before := questions, answers;
          RepairOne(eid, people, prefsOf(eid), was, wasQuestions, fixed, prefsOf);
          CoverStays(wasQuestions, was, beforeQuestions, before, questions, answers, people, fixed, eid, prefsOf);
          fixed := fixed + {eid};
        }
      }
    }

    /** One round of the repair for an employee without answers: take over an answer of
        someone who has others, in the first topic that offers one, or append a new pair. */
    method RepairOne(eid: Employee, people: set<Employee>, prefs: seq<Topic>,
                     ghost was: seq<Answer>, ghost wasQuestions: seq<Question>,
                     ghost fixed: set<Employee>, ghost prefsOf: Employee -> seq<Topic>)
      requires InRepair(wasQuestions, was, questions, answers, people, fixed, prefsOf)
      requires eid in people && Count(answers, eid) == 0 && prefs == prefsOf(eid) != []
      requires |people| >= 2
      modifies this
      ensures InRepair(wasQuestions, was, questions, answers, people, fixed + {eid}, prefsOf)
      ensures if HasSpare(old(answers), prefs) then TakenOver(old(answers), answers, eid, prefs)
              else |answers| == |old(answers)| + 1 && answers[|old(answers)|].topic == prefs[0]
    {
      for p := 0 to |prefs|
        invariant answers == old(answers) && questions == old(questions)
        invariant !HasSpare(answers, prefs[..p])
      {
        var cands := set i | 0 <= i < |answers| && Spare(answers, i, [prefs[p]]);
        if cands != {} {
          var i :| i in cands;
          assert prefs[p] in prefs && Spare(answers, i, prefs);
          TakeOver(i, eid, people, was, wasQuestions, fixed, prefsOf);
          assert IsTakeOver(old(answers), answers, eid, prefs, i, p);
          return;
        }
        forall i | 0 <= i < |answers| ensures !Spare(answers, i, [prefs[p]]) {
          assert i !in cands;
        }
        NoSpareSoFar(answers, prefs, p);
      }
      assert prefs[..|prefs|] == prefs;
      Append(eid, prefs[0], people, was, wasQuestions, fixed, prefsOf);
    }

    method TakeOver(i: nat, eid: Employee, people: set<Employee>,
                    ghost was: seq<Answer>, ghost wasQuestions: seq<Question>,
                    ghost fixed: set<Employee>, ghost prefsOf: Employee -> seq<Topic>)
      requires InRepair(wasQuestions, was, questions, answers, people, fixed, prefsOf)
      requires eid in people && Count(answers, eid) == 0 && |people| >= 2
      requires i < |answers| && answers[i].topic in prefsOf(eid) && Count(answers, answers[i].responder) > 1
      modifies this
      ensures InRepair(wasQuestions, was, questions, answers, people, fixed + {eid}, prefsOf)
      ensures answers == old(answers)[i := old(answers)[i].(responder := eid)]
    {
      SwapRepairs(was, answers, people, fixed, prefsOf, i, eid);
      ghost var q, a := questions, answers;
      AskerStays(wasQuestions, was, q, a, i, people);
      var asker := questions[i].asker;
      answers := answers[i := answers[i].(responder := eid)];
      if asker == eid {
        SomeoneElse(people, eid);
        asker :| asker in people && asker != eid;
        questions := questions[i := questions[i].(asker := asker)];
      }
      SwapKeepsPairs(wasQuestions, q, a, i, eid, asker, people);
      assert questions == q[i := q[i].(asker := asker)];
    }

    method Append(eid: Employee, t: Topic, people: set<Employee>,
                  ghost was: seq<Answer>, ghost wasQuestions: seq<Question>,
                  ghost fixed: set<Employee>, ghost prefsOf: Employee -> seq<Topic>)
      requires InRepair(wasQuestions, was, questions, answers, people, fixed, prefsOf)
      requires eid in people && Count(answers, eid) == 0 && |people| >= 2 && t in prefsOf(eid)
      modifies this
      ensures InRepair(wasQuestions, was, questions, answers, people, fixed + {eid}, prefsOf)
      ensures |answers| == |old(answers)| + 1 && answers[|old(answers)|].topic == t
    {
      SomeoneElse(people, eid);
      var idx := |questions| + 1;
      var asker :| asker in people && asker != eid;
      var q, a := Question(idx, asker, [t]), Answer(idx, idx, eid, t);
      AppendInRepair(wasQuestions, was, questions, answers, people, fixed, prefsOf, q, a);
      hide InRepair;
      questions := questions + [q];
      answers := answers + [a];
    }
  }

  /** Answer `i` is on a topic of `prefs` and its responder has others. */
  predicate Spare(answers: seq<Answer>, i: nat, prefs: seq<Topic>)
    requires i < |answers|
  {
    answers[i].topic in prefs && Count(answers, answers[i].responder) > 1
  }

  predicate HasSpare(answers: seq<Answer>, prefs: seq<Topic>) {
    exists i | 0 <= i < |answers| :: Spare(answers, i, prefs)
  }

  /** Answer `i`, on the first of `prefs` that offers a spare one, went to `eid`. */
  predicate IsTakeOver(was: seq<Answer>, now: seq<Answer>, eid: Employee, prefs: seq<Topic>, i: nat, p: nat) {
    && i < |was| && p < |prefs| && !HasSpare(was, prefs[..p])
    && Spare(was, i, [prefs[p]]) && now == was[i := was[i].(responder := eid)]
  }

  ghost predicate TakenOver(was: seq<Answer>, now: seq<Answer>, eid: Employee, prefs: seq<Topic>) {
    exists i, p :: IsTakeOver(was, now, eid, prefs, i, p)
  }

  lemma NoSpareSoFar(answers: seq<Answer>, prefs: seq<Topic>, p: nat)
    requires p < |prefs| && !HasSpare(answers, prefs[..p])
    requires forall i | 0 <= i < |answers| :: !Spare(answers, i, [prefs[p]])
    ensures !HasSpare(answers, prefs[..p + 1])
  {
    assert prefs[..p + 1] == prefs[..p] + [prefs[p]];
    var longer := prefs[..p + 1];
    forall i | 0 <= i < |answers| ensures !Spare(answers, i, longer) {
      assert !Spare(answers, i, prefs[..p]) && !Spare(answers, i, [prefs[p]]);
    }
  }

  /** What a repaired set of answers comes to: everyone covered, by as many swaps and appends
      as there were uncovered employees, and the pairs still distinct and matching. */
  lemma RepairCoversEveryone(was: seq<Answer>, now: seq<Answer>, questions: seq<Question>, people: set<Employee>,
                             prefsOf: Employee -> seq<Topic>)
    requires Repaired(was, now, people, Uncovered(was, people), prefsOf) && Paired(questions, now, people)
    ensures forall e | e in people :: Responds(now, e)
    ensures |now| - |was| <= |Uncovered(was, people)|
    ensures forall i, j | 0 <= i < |now| && 0 <= j < |now| :: now[i].questionId == questions[j].id <==> i == j
  {
    forall e | e in people ensures Responds(now, e) {
      RespondsIffCounted(now, e);
    }
    forall i, j | 0 <= i < |now| && 0 <= j < |now| ensures now[i].questionId == questions[j].id <==> i == j {
      assert IsPair(questions[i], now[i], i, people) && IsPair(questions[j], now[j], j, people);
    }
  }

  predicate Responds(answers: seq<Answer>, e: Employee) {
    exists i | 0 <= i < |answers| :: answers[i].responder == e
  }

  lemma {:induction false} RespondsIffCounted(answers: seq<Answer>, e: Employee)
    ensures Count(answers, e) >= 1 <==> Responds(answers, e)
  {
    if Responds(answers, e) {
      var i :| 0 <= i < |answers| && answers[i].responder == e;
      CountPositive(answers, i);
    }
    if Count(answers, e) >= 1 {
      var n := |answers| - 1;
      if answers[n].responder != e {
        RespondsIffCounted(answers[..n], e);
        var i :| 0 <= i < n && answers[..n][i].responder == e;
        assert answers[i].responder == e;
      }
    }
  }
}
