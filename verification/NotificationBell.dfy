/** `NotificationBell.tsx`: two polled scopes merged into one list, acknowledgements that race polls
    already on the way, and changes of the acting user. */
module NotificationBell {
  import opened Prelude

  datatype Kind = Declined | Accepted | RequestReceived

  /** `createdAt` stands for the ISO time stamp; a missing one sorts as the empty string. */
  datatype Item = Item(kind: Kind, id: nat, createdAt: Option<nat>, message: string)

  datatype Key = Key(kind: Kind, id: nat)

  function KeyOf(i: Item): Key { Key(i.kind, i.id) }

  function Rank(i: Item): nat { if i.createdAt.Some? then i.createdAt.value + 1 else 0 }

  // ------------------------------------------------------ filter and stable sort

  function Filter(items: seq<Item>, keep: Item -> bool): seq<Item> {
    if items == [] then []
    else
      var front, x := Filter(items[..|items| - 1], keep), items[|items| - 1];
      if keep(x) then front + [x] else front
  }

  /** Newest first: `x` goes behind everything at least as new. */
  function Insert(x: Item, s: seq<Item>): seq<Item> {
    if s == [] || Rank(x) > Rank(s[0]) then [x] + s else [s[0]] + Insert(x, s[1..])
  }

  /** The stable `sort` with newest first. */
  function NewestFirst(s: seq<Item>): seq<Item> {
    if s == [] then [] else Insert(s[|s| - 1], NewestFirst(s[..|s| - 1]))
  }

  predicate Sorted(s: seq<Item>) { forall i, j | 0 <= i < j < |s| :: Rank(s[i]) >= Rank(s[j]) }

  /** Newest first: a row with a time stamp never stands behind one without, nor behind an older one. */
  lemma SortedMeansNewestFirst(s: seq<Item>)
    ensures Sorted(s) <==>
            forall i, j | 0 <= i < j < |s| && s[j].createdAt.Some? ::
              s[i].createdAt.Some? && s[i].createdAt.value >= s[j].createdAt.value
  {
    if Sorted(s) {
      forall i, j | 0 <= i < j < |s| && s[j].createdAt.Some?
        ensures s[i].createdAt.Some? && s[i].createdAt.value >= s[j].createdAt.value
      {
        assert Rank(s[i]) >= Rank(s[j]);
      }
    }
  }

  lemma {:induction false} InsertSorted(x: Item, s: seq<Item>)
    requires Sorted(s)
    ensures Sorted(Insert(x, s)) && multiset(Insert(x, s)) == multiset(s) + multiset{x}
    ensures Insert(x, s) != []
    ensures Rank(Insert(x, s)[0]) == if s == [] || Rank(x) > Rank(s[0]) then Rank(x) else Rank(s[0])
  {
    if s != [] && !(Rank(x) > Rank(s[0])) {
      hide Rank;
      InsertSorted(x, s[1..]);
      assert s == [s[0]] + s[1..];
      PrependSorted(s[0], Insert(x, s[1..]));
    } else {
      PrependSorted(x, s);
    }
  }

  lemma PrependSorted(x: Item, s: seq<Item>)
    requires Sorted(s) && (s != [] ==> Rank(x) >= Rank(s[0]))
    ensures Sorted([x] + s)
  {
    hide Rank;
    forall j | 0 <= j < |s| ensures Rank(x) >= Rank(s[j]) {
      assert Rank(s[0]) >= Rank(s[j]);
    }
  }

  lemma {:induction false} NewestFirstSorts(s: seq<Item>)
    ensures Sorted(NewestFirst(s)) && multiset(NewestFirst(s)) == multiset(s)
  {
    if s != [] {
      NewestFirstSorts(s[..|s| - 1]);
      InsertSorted(s[|s| - 1], NewestFirst(s[..|s| - 1]));
      assert s == s[..|s| - 1] + [s[|s| - 1]];
    }
  }

  lemma {:induction false} InsertLast(x: Item, s: seq<Item>)
    requires forall i | 0 <= i < |s| :: Rank(s[i]) >= Rank(x)
    ensures Insert(x, s) == s + [x]
  {
    if s != [] {
      InsertLast(x, s[1..]);
      assert s == [s[0]] + s[1..];
    }
  }

  lemma {:induction false} SortedIsFixed(s: seq<Item>)
    requires Sorted(s)
    ensures NewestFirst(s) == s
  {
    if s != [] {
      var front := s[..|s| - 1];
      SortedIsFixed(front);
      InsertLast(s[|s| - 1], front);
    }
  }

  lemma FilterLast(front: seq<Item>, last: Item, keep: Item -> bool)
    ensures Filter(front + [last], keep) == Filter(front, keep) + if keep(last) then [last] else []
  {
    assert (front + [last])[..|front|] == front;
  }

  lemma {:induction false} FilterPrepend(x: Item, s: seq<Item>, keep: Item -> bool)
    ensures Filter([x] + s, keep) == (if keep(x) then [x] else []) + Filter(s, keep)
  {
    FilterNothing(keep);
    hide Filter;
    if s == [] {
      FilterLast([], x, keep);
      assert [x] + s == [] + [x];
    } else {
      var front, last := s[..|s| - 1], s[|s| - 1];
      FilterPrepend(x, front, keep);
      FilterLast(front, last, keep);
      FilterLast([x] + front, last, keep);
      assert s == front + [last] && [x] + s == [x] + front + [last];
    }
  }

  lemma FilterNothing(keep: Item -> bool)
    ensures Filter([], keep) == []
  {
  }

  lemma {:induction false} FilterAppend(a: seq<Item>, b: seq<Item>, keep: Item -> bool)
    ensures Filter(a + b, keep) == Filter(a, keep) + Filter(b, keep)
  {
    FilterNothing(keep);
    hide Filter;
    if b == [] {
      assert a + b == a;
    } else {
      var front, last := b[..|b| - 1], b[|b| - 1];
      FilterAppend(a, front, keep);
      FilterLast(front, last, keep);
      FilterLast(a + front, last, keep);
      assert b == front + [last] && a + b == a + front + [last];
    }
  }

  lemma {:induction false} FilterMembers(s: seq<Item>, keep: Item -> bool)
    ensures forall x :: x in Filter(s, keep) <==> x in s && keep(x)
  {
    if s != [] {
      hide *;
      var front, last := s[..|s| - 1], s[|s| - 1];
      FilterMembers(front, keep);
      FilterLast(front, last, keep);
      assert s == front + [last];
    } else {
      assert Filter(s, keep) == [];
    }
  }

  lemma {:induction false} FilterKeepsSorted(s: seq<Item>, keep: Item -> bool)
    requires Sorted(s)
    ensures Sorted(Filter(s, keep))
  {
    if s != [] {
      var front, last := s[..|s| - 1], s[|s| - 1];
      assert s == front + [last];
      FilterKeepsSorted(front, keep);
      FilterMembers(front, keep);
      FilterLast(front, last, keep);
      hide Filter, Rank;
      var kept := Filter(front, keep);
      forall i | 0 <= i < |kept| ensures Rank(kept[i]) >= Rank(last) {
        assert kept[i] in kept;
        var j :| 0 <= j < |front| && front[j] == kept[i];
        assert s[j] == front[j];
      }
    }
  }

  /** An item newer than all of `s` goes to the front of what is kept of `s`. */
  lemma InsertBeforeKept(x: Item, s: seq<Item>, keep: Item -> bool)
    requires Sorted(s) && s != [] && Rank(x) > Rank(s[0])
    ensures Insert(x, Filter(s, keep)) == [x] + Filter(s, keep)
  {
    FilterMembers(s, keep);
    var kept := Filter(s, keep);
    if kept != [] {
      assert kept[0] in kept;
      var j :| 0 <= j < |s| && s[j] == kept[0];
      assert Rank(s[0]) >= Rank(s[j]);
    }
  }

  lemma InsertBehind(x: Item, y: Item, t: seq<Item>)
    requires Rank(x) <= Rank(y)
    ensures Insert(x, [y] + t) == [y] + Insert(x, t)
  {
    assert ([y] + t)[1..] == t;
  }

  lemma {:induction false} FilterInsert(x: Item, s: seq<Item>, keep: Item -> bool)
    requires Sorted(s)
    ensures Filter(Insert(x, s), keep) == if keep(x) then Insert(x, Filter(s, keep)) else Filter(s, keep)
  {
    if s == [] {
      FilterPrepend(x, s, keep);
    } else if Rank(x) > Rank(s[0]) {
      FilterPrepend(x, s, keep);
      InsertBeforeKept(x, s, keep);
    } else {
      assert Sorted(s[1..]);
      assert s == [s[0]] + s[1..];
      hide *;
      FilterInsert(x, s[1..], keep);
      FilterInsertBehind(x, s[0], s[1..], keep);
    }
  }

  lemma FilterInsertBehind(x: Item, y: Item, t: seq<Item>, keep: Item -> bool)
    requires Rank(x) <= Rank(y)
    requires Filter(Insert(x, t), keep) == if keep(x) then Insert(x, Filter(t, keep)) else Filter(t, keep)
    ensures var s := [y] + t;
            Filter(Insert(x, s), keep) == if keep(x) then Insert(x, Filter(s, keep)) else Filter(s, keep)
  {
    hide *;
    InsertBehind(x, y, t);
    FilterPrepend(y, t, keep);
    FilterPrepend(y, Insert(x, t), keep);
    InsertBehind(x, y, Filter(t, keep));
    if !keep(y) {
      assert Filter([y] + t, keep) == Filter(t, keep);
      assert Filter([y] + Insert(x, t), keep) == Filter(Insert(x, t), keep);
    }
  }

  /** Sorting and filtering commute: the sort is stable. */
  lemma {:induction false} FilterSort(s: seq<Item>, keep: Item -> bool)
    ensures Filter(NewestFirst(s), keep) == NewestFirst(Filter(s, keep))
  {
    if s != [] {
      var front, x := s[..|s| - 1], s[|s| - 1];
      FilterSort(front, keep);
      NewestFirstSorts(front);
      FilterInsert(x, NewestFirst(front), keep);
      var kept := Filter(front, keep);
      assert (kept + [x])[..|kept|] == kept;
    }
  }

  // ---------------------------------------------------------------- the bell

  /** Rendered rows and the acknowledged keys. */
  datatype Bell = Bell(items: seq<Item>, acknowledged: set<Key>)

  const EMPTY_BELL: Bell := Bell([], {})

  /** The two polled scopes. */
  datatype Scope = Asker | Responder

  function ScopeOf(i: Item): Scope { if i.kind == RequestReceived then Responder else Asker }

  function InScope(items: seq<Item>, scope: Scope): seq<Item> { Filter(items, (i: Item) => ScopeOf(i) == scope) }

  function Visible(items: seq<Item>, acknowledged: set<Key>): seq<Item> {
    Filter(items, (i: Item) => KeyOf(i) !in acknowledged)
  }

  /** A fulfilled scope brings its visible rows, a rejected one (`None`) keeps the current rows. */
  function ScopeRows(b: Bell, scope: Scope, result: Option<seq<Item>>): seq<Item> {
    if result.Some? then Visible(result.value, b.acknowledged) else InScope(b.items, scope)
  }

  function AfterPoll(b: Bell, asker: Option<seq<Item>>, responder: Option<seq<Item>>): Bell {
    b.(items := NewestFirst(ScopeRows(b, Asker, asker) + ScopeRows(b, Responder, responder)))
  }

  /** Rows are removed by id alone, the key that is remembered is kind and id. */
  function AfterAcknowledge(b: Bell, item: Item): Bell {
    Bell(Filter(b.items, (i: Item) => i.id != item.id), b.acknowledged + {KeyOf(item)})
  }

  function AfterAckFailed(b: Bell, key: Key): Bell { b.(acknowledged := b.acknowledged - {key}) }

  /** Another acting user, or none: the keys go, the rows only if there is nobody. */
  function AfterSwitch(b: Bell, nobody: bool): Bell { Bell(if nobody then [] else b.items, {}) }

  // --------------------------------------------------------------------- runs

  /** Whatever polls were on the way, they show when they settle. */
  datatype Event =
    | Poll(asker: Option<seq<Item>>, responder: Option<seq<Item>>)
    | Acknowledge(item: Item)
    | AckFailed(key: Key)
    | Switch(nobody: bool)   // polls of the former user no longer settle

  /** What the server can answer: each scope only brings its own kinds. */
  ghost predicate Possible(e: Event) {
    e.Poll? ==>
      && (e.asker.Some? ==> forall i | i in e.asker.value :: ScopeOf(i) == Asker)
      && (e.responder.Some? ==> forall i | i in e.responder.value :: ScopeOf(i) == Responder)
  }

  function Next(b: Bell, e: Event): Bell {
    match e
    case Poll(asker, responder) => AfterPoll(b, asker, responder)
    case Acknowledge(item) => AfterAcknowledge(b, item)
    case AckFailed(key) => AfterAckFailed(b, key)
    case Switch(nobody) => AfterSwitch(b, nobody)
  }

  function Run(b: Bell, events: seq<Event>): Bell {
    if events == [] then b else Next(Run(b, events[..|events| - 1]), events[|events| - 1])
  }

  /** Newest first, and nothing acknowledged is shown. */
  ghost predicate Good(b: Bell) { Sorted(b.items) && forall i | i in b.items :: KeyOf(i) !in b.acknowledged }

  lemma PollIsGood(b: Bell, asker: Option<seq<Item>>, responder: Option<seq<Item>>)
    requires Good(b)
    ensures Good(AfterPoll(b, asker, responder))
  {
    var a, r := ScopeRows(b, Asker, asker), ScopeRows(b, Responder, responder);
    RowsAreVisible(b, Asker, asker);
    RowsAreVisible(b, Responder, responder);
    NewestFirstSorts(a + r);
    forall i | i in NewestFirst(a + r) ensures KeyOf(i) !in b.acknowledged {
      assert i in multiset(NewestFirst(a + r));
      assert i in a + r;
    }
  }

  lemma RowsAreVisible(b: Bell, scope: Scope, result: Option<seq<Item>>)
    requires Good(b)
    ensures forall i | i in ScopeRows(b, scope, result) :: KeyOf(i) !in b.acknowledged
  {
    if result.Some? {
      FilterMembers(result.value, (i: Item) => KeyOf(i) !in b.acknowledged);
    } else {
      FilterMembers(b.items, (i: Item) => ScopeOf(i) == scope);
    }
  }

  lemma NextIsGood(b: Bell, e: Event)
    requires Good(b)
    ensures Good(Next(b, e))
  {
    match e
    case Poll(asker, responder) => PollIsGood(b, asker, responder);
    case Acknowledge(item) =>
      FilterMembers(b.items, (i: Item) => i.id != item.id);
      FilterKeepsSorted(b.items, (i: Item) => i.id != item.id);
    case AckFailed(_) =>
    case Switch(_) =>
  }

  lemma {:induction false} RunIsGood(b: Bell, events: seq<Event>)
    requires Good(b)
    ensures Good(Run(b, events))
  {
    if events != [] {
      RunIsGood(b, events[..|events| - 1]);
      NextIsGood(Run(b, events[..|events| - 1]), events[|events| - 1]);
    }
  }

  lemma {:induction false} KeyStaysAcknowledged(b: Bell, events: seq<Event>, key: Key)
    requires key in b.acknowledged
    requires forall k | 0 <= k < |events| :: events[k] != AckFailed(key) && !events[k].Switch?
    ensures key in Run(b, events).acknowledged
  {
    if events != [] { KeyStaysAcknowledged(b, events[..|events| - 1], key); }
  }

  /** On every run the list is newest first, and once an item is acknowledged no row with its
      key is shown, whatever polls bring, until that acknowledgement fails or the user changes. */
  lemma {:induction false} AcknowledgedStaysHidden(before: seq<Event>, item: Item, after: seq<Event>)
    requires forall k | 0 <= k < |after| :: after[k] != AckFailed(KeyOf(item)) && !after[k].Switch?
    ensures var b := Run(Next(Run(EMPTY_BELL, before), Acknowledge(item)), after);
            Sorted(b.items) && forall i | i in b.items :: KeyOf(i) != KeyOf(item)
  {
    RunIsGood(EMPTY_BELL, before);
    var b := Next(Run(EMPTY_BELL, before), Acknowledge(item));
    NextIsGood(Run(EMPTY_BELL, before), Acknowledge(item));
    RunIsGood(b, after);
    KeyStaysAcknowledged(b, after, KeyOf(item));
  }

  /** The rows of a scope after a poll: its current rows unchanged and in the same order if it
      failed, otherwise what it brought, less what is acknowledged, newest first. */
  lemma ScopeAfterPoll(b: Bell, e: Event, scope: Scope)
    requires Good(b) && e.Poll? && Possible(e)
    ensures var result := if scope == Asker then e.asker else e.responder;
            InScope(Next(b, e).items, scope)
            == if result.None? then InScope(b.items, scope) else NewestFirst(Visible(result.value, b.acknowledged))
  {
    var a, r := ScopeRows(b, Asker, e.asker), ScopeRows(b, Responder, e.responder);
    RowsStayInScope(b, Asker, e.asker);
    RowsStayInScope(b, Responder, e.responder);
    ScopeOfBoth(a, r, scope);
    if (if scope == Asker then e.asker else e.responder).None? {
      FilterKeepsSorted(b.items, (i: Item) => ScopeOf(i) == scope);
      SortedIsFixed(InScope(b.items, scope));
    }
    hide Filter, NewestFirst, Sorted, ScopeOf, Visible;
  }

  lemma ScopeOfBoth(a: seq<Item>, r: seq<Item>, scope: Scope)
    requires (forall i | i in a :: ScopeOf(i) == Asker) && (forall i | i in r :: ScopeOf(i) == Responder)
    ensures InScope(NewestFirst(a + r), scope) == NewestFirst(if scope == Asker then a else r)
  {
    var keep := (i: Item) => ScopeOf(i) == scope;
    hide ScopeOf, Filter, NewestFirst;
    FilterSort(a + r, keep);
    FilterAppend(a, r, keep);
    FilterAllOrNone(a, keep, scope == Asker);
    FilterAllOrNone(r, keep, scope == Responder);
    assert a + [] == a && [] + r == r;
  }

  lemma RowsStayInScope(b: Bell, scope: Scope, result: Option<seq<Item>>)
    requires result.Some? ==> forall i | i in result.value :: ScopeOf(i) == scope
    ensures forall i | i in ScopeRows(b, scope, result) :: ScopeOf(i) == scope
  {
    if result.Some? {
      FilterMembers(result.value, (i: Item) => KeyOf(i) !in b.acknowledged);
    } else {
      FilterMembers(b.items, (i: Item) => ScopeOf(i) == scope);
    }
  }

  lemma {:induction false} FilterAllOrNone(s: seq<Item>, keep: Item -> bool, all: bool)
    requires forall k | 0 <= k < |s| :: keep(s[k]) == all
    ensures Filter(s, keep) == if all then s else []
  {
    if s != [] {
      var front, last := s[..|s| - 1], s[|s| - 1];
      assert forall k | 0 <= k < |front| :: front[k] == s[k];
      FilterAllOrNone(front, keep, all);
      assert s == front + [last];
    }
  }

  /** Removing by id takes away exactly the acknowledged key when, and only when, no other kind
      shows the same id. */
  lemma AckRemovesOnlyItsKey(b: Bell, item: Item)
    ensures AfterAcknowledge(b, item).items == Filter(b.items, (i: Item) => KeyOf(i) != KeyOf(item)) <==>
            forall i | i in b.items && i.id == item.id :: i.kind == item.kind
  {
    var byId, byKey := (i: Item) => i.id != item.id, (i: Item) => KeyOf(i) != KeyOf(item);
    if forall i | i in b.items && i.id == item.id :: i.kind == item.kind {
      SameFilter(b.items, byId, byKey);
    } else {
      var i :| i in b.items && i.id == item.id && i.kind != item.kind;
      FilterMembers(b.items, byId);
      FilterMembers(b.items, byKey);
      assert i in Filter(b.items, byKey) && i !in Filter(b.items, byId);
    }
  }

  lemma {:induction false} SameFilter(s: seq<Item>, p: Item -> bool, q: Item -> bool)
    requires forall i | i in s :: p(i) == q(i)
    ensures Filter(s, p) == Filter(s, q)
  {
    if s != [] {
      assert s[|s| - 1] in s;
      SameFilter(s[..|s| - 1], p, q);
    }
  }

  /** The result for the scope of `row` in a poll. */
  function ResultFor(e: Event, row: Item): Option<seq<Item>>
    requires e.Poll?
  {
    if ScopeOf(row) == Asker then e.asker else e.responder
  }

  predicate Brings(e: Event, row: Item) {
    e.Poll? && ResultFor(e, row).Some? && row in ResultFor(e, row).value
  }

  /** The scope of `row` is polled anew. */
  predicate Refreshes(e: Event, row: Item) { e.Poll? && ResultFor(e, row).Some? }

  lemma ScopeRowsComeFrom(b: Bell, scope: Scope, result: Option<seq<Item>>)
    ensures forall i | i in ScopeRows(b, scope, result) :: i in (if result.Some? then result.value else b.items)
    ensures result.None? ==> forall i | i in ScopeRows(b, scope, result) :: ScopeOf(i) == scope
  {
    if result.Some? {
      FilterMembers(result.value, (i: Item) => KeyOf(i) !in b.acknowledged);
    } else {
      FilterMembers(b.items, (i: Item) => ScopeOf(i) == scope);
    }
  }

  /** A row is shown behind a poll that brings it unacknowledged or fails for its scope. */
  lemma PollShows(b: Bell, e: Event, i: Item)
    requires e.Poll?
    requires if ResultFor(e, i).Some? then i in ResultFor(e, i).value && KeyOf(i) !in b.acknowledged else i in b.items
    ensures i in Next(b, e).items
  {
    var a, r := ScopeRows(b, Asker, e.asker), ScopeRows(b, Responder, e.responder);
    if ResultFor(e, i).Some? {
      FilterMembers(ResultFor(e, i).value, (x: Item) => KeyOf(x) !in b.acknowledged);
    } else {
      FilterMembers(b.items, (x: Item) => ScopeOf(x) == ScopeOf(i));
    }
    assert i in ScopeRows(b, ScopeOf(i), ResultFor(e, i));
    NewestFirstSorts(a + r);
    assert i in multiset(a + r);
    assert i in multiset(NewestFirst(a + r));
  }

  /** Nothing else is shown behind a poll. */
  lemma PollHides(b: Bell, e: Event, i: Item)
    requires e.Poll? && Possible(e) && i in Next(b, e).items
    ensures if ResultFor(e, i).Some? then i in ResultFor(e, i).value else i in b.items
  {
    var a, r := ScopeRows(b, Asker, e.asker), ScopeRows(b, Responder, e.responder);
    ScopeRowsComeFrom(b, Asker, e.asker);
    ScopeRowsComeFrom(b, Responder, e.responder);
    NewestFirstSorts(a + r);
    hide ScopeRows;
    assert i in multiset(NewestFirst(a + r));
    assert i in a + r;
  }

  /** What ends a row that no poll brings: its scope is polled anew, its id is acknowledged, or there
      is no user any more. */
  predicate TakesAway(e: Event, row: Item) {
    Refreshes(e, row) || (e.Acknowledge? && e.item.id == row.id) || e == Switch(true)
  }

  /** A poll whose asker scope fails keeps exactly the outcomes that are shown, one whose responder scope
      fails keeps exactly the requests, whatever the other scope brings of its own kinds. */
  lemma FailedScopeKeepsItsKinds(b: Bell, asker: Option<seq<Item>>, responder: Option<seq<Item>>, i: Item)
    requires asker.Some? ==> forall x | x in asker.value :: x.kind != RequestReceived
    requires responder.Some? ==> forall x | x in responder.value :: x.kind == RequestReceived
    requires if i.kind == RequestReceived then responder.None? else asker.None?
    ensures i in Next(b, Poll(asker, responder)).items <==> i in b.items
  {
    var e := Poll(asker, responder);
    if i in b.items { PollShows(b, e, i); }
    if i in Next(b, e).items { PollHides(b, e, i); }
  }

  /** A row that no poll brings stays exactly until then. */
  lemma RowStays(b: Bell, e: Event, row: Item)
    requires Possible(e) && !Brings(e, row)
    ensures row in Next(b, e).items <==> row in b.items && !TakesAway(e, row)
  {
    if e.Poll? {
      if row in Next(b, e).items { PollHides(b, e, row); }
      if row in b.items && ResultFor(e, row).None? { PollShows(b, e, row); }
    } else if e.Acknowledge? {
      FilterMembers(b.items, (i: Item) => i.id != e.item.id);
    }
  }

  /** A row of a former user is shown, after any changes of user, exactly while there has always been
      some user, its scope has had no fulfilled poll since, and its id no acknowledgement. */
  lemma {:induction false} FormerRowsExactly(b: Bell, nobody: bool, after: seq<Event>, row: Item)
    requires forall k | 0 <= k < |after| :: Possible(after[k]) && !Brings(after[k], row)
    ensures row in Run(AfterSwitch(b, nobody), after).items <==>
            && !nobody && row in b.items
            && forall k | 0 <= k < |after| :: !TakesAway(after[k], row)
  {
    hide Possible, Brings, TakesAway, Next;
    if after != [] {
      var front, e := after[..|after| - 1], after[|after| - 1];
      FormerRowsExactly(b, nobody, front, row);
      RowStays(Run(AfterSwitch(b, nobody), front), e, row);
      assert forall k | 0 <= k < |front| :: front[k] == after[k];
      assert after == front + [e];
    }
  }

  /** A row that went away only because it shares its id with an acknowledged row stays away until a
      poll brings it, whatever else happens, and then is back exactly unless its own key is
      acknowledged. */
  lemma {:induction false} RowOfOtherKindReturns(b: Bell, item: Item, row: Item, between: seq<Event>, poll: Event)
    requires Good(b) && row in b.items && row.id == item.id && row.kind != item.kind
    requires forall k | 0 <= k < |between| :: Possible(between[k]) && !Brings(between[k], row)
    requires Possible(poll) && Brings(poll, row)
    ensures var gone := Run(AfterAcknowledge(b, item), between);
            && row !in gone.items
            && (row in Next(gone, poll).items <==> KeyOf(row) !in gone.acknowledged)
            && ((forall k | 0 <= k < |between| && between[k].Acknowledge? :: KeyOf(between[k].item) != KeyOf(row)) ==>
                  row in Next(gone, poll).items)
  {
    var acked := AfterAcknowledge(b, item);
    FilterMembers(b.items, (i: Item) => i.id != item.id);
    NextIsGood(b, Acknowledge(item));
    StaysAway(acked, row, between);
    var gone := Run(acked, between);
    RunIsGood(acked, between);
    if KeyOf(row) !in gone.acknowledged { ComesBack(gone, row, poll); } else { NextIsGood(gone, poll); }
  }

  lemma {:induction false} StaysAway(b: Bell, row: Item, between: seq<Event>)
    requires row !in b.items && KeyOf(row) !in b.acknowledged
    requires forall k | 0 <= k < |between| :: Possible(between[k]) && !Brings(between[k], row)
    ensures row !in Run(b, between).items
    ensures (forall k | 0 <= k < |between| && between[k].Acknowledge? :: KeyOf(between[k].item) != KeyOf(row)) ==>
              KeyOf(row) !in Run(b, between).acknowledged
  {
    if between != [] {
      var front, e := between[..|between| - 1], between[|between| - 1];
      assert forall k | 0 <= k < |front| :: front[k] == between[k];
      StaysAway(b, row, front);
      RowStays(Run(b, front), e, row);
      hide Filter, NewestFirst, Possible, Brings;
    }
  }

  lemma ComesBack(b: Bell, row: Item, poll: Event)
    requires Good(b) && KeyOf(row) !in b.acknowledged
    requires poll.Poll? && Possible(poll) && ResultFor(poll, row).Some? && row in ResultFor(poll, row).value
    ensures row in Next(b, poll).items
  {
    var rows := ResultFor(poll, row).value;
    ScopeAfterPoll(b, poll, ScopeOf(row));
    FilterMembers(rows, (i: Item) => KeyOf(i) !in b.acknowledged);
    NewestFirstSorts(Visible(rows, b.acknowledged));
    assert row in multiset(Visible(rows, b.acknowledged));
    assert row in multiset(NewestFirst(Visible(rows, b.acknowledged)));
    assert row in InScope(Next(b, poll).items, ScopeOf(row));
    FilterMembers(Next(b, poll).items, (i: Item) => ScopeOf(i) == ScopeOf(row));
  }

  // ------------------------------------------- when rows of two kinds collide

  /** Rows of every kind carry the id of a recommendation. What the acting user has to do with it:
      is the question theirs, are they its responder, and is its outcome, once there is one,
      accepted (it is written once). */
  datatype Records = Records(asked: nat -> bool, received: nat -> bool, accepted: nat -> bool)

  function OutcomeKind(rec: Records, id: nat): Kind { if rec.accepted(id) then Accepted else Declined }

  /** Row `i` can come from the server: outcomes go to the asker, requests to the responder. */
  predicate Served(rec: Records, i: Item) {
    if i.kind == RequestReceived then rec.received(i.id) else rec.asked(i.id) && i.kind == OutcomeKind(rec, i.id)
  }

  ghost predicate ServedEvent(rec: Records, e: Event) {
    && Possible(e) && !e.Switch?
    && (e.Poll? && e.asker.Some? ==> forall i | i in e.asker.value :: Served(rec, i))
    && (e.Poll? && e.responder.Some? ==> forall i | i in e.responder.value :: Served(rec, i))
  }

  ghost predicate ServedRun(rec: Records, events: seq<Event>) {
    forall k | 0 <= k < |events| :: ServedEvent(rec, events[k])
  }

  /** Two shown rows share their id without being of one kind. */
  ghost predicate Collides(b: Bell) {
    exists i, j | i in b.items && j in b.items :: i.id == j.id && i.kind != j.kind
  }

  lemma NextIsServed(rec: Records, b: Bell, e: Event)
    requires ServedEvent(rec, e) && forall i | i in b.items :: Served(rec, i)
    ensures forall i | i in Next(b, e).items :: Served(rec, i)
  {
    match e
    case Poll(asker, responder) =>
      var a, r := ScopeRows(b, Asker, asker), ScopeRows(b, Responder, responder);
      ScopeRowsComeFrom(b, Asker, asker);
      ScopeRowsComeFrom(b, Responder, responder);
      NewestFirstSorts(a + r);
      hide ScopeRows, Served;
      forall i | i in NewestFirst(a + r) ensures Served(rec, i) {
        assert i in multiset(NewestFirst(a + r));
        assert i in a + r;
      }
    case Acknowledge(item) => FilterMembers(b.items, (i: Item) => i.id != item.id);
    case AckFailed(_) =>
  }

  lemma {:induction false} RunIsServed(rec: Records, events: seq<Event>)
    requires ServedRun(rec, events)
    ensures forall i | i in Run(EMPTY_BELL, events).items :: Served(rec, i)
  {
    hide Served, Next, ServedEvent;
    if events != [] {
      RunIsServed(rec, events[..|events| - 1]);
      NextIsServed(rec, Run(EMPTY_BELL, events[..|events| - 1]), events[|events| - 1]);
    }
  }

  /** The request is polled by its responder, then the outcome by its asker while the other scope fails. */
  function TwoPolls(request: Item, outcome: Item): seq<Event> {
    [Poll(None, Some([request]))] + [Poll(Some([outcome]), None)]
  }

  lemma TwoPollsShow(request: Item, outcome: Item)
    requires ScopeOf(request) == Responder && ScopeOf(outcome) == Asker
    ensures var b := Run(EMPTY_BELL, TwoPolls(request, outcome)); request in b.items && outcome in b.items
  {
    var first, second := Poll(None, Some([request])), Poll(Some([outcome]), None);
    RunSnoc(EMPTY_BELL, [], first);
    RunSnoc(EMPTY_BELL, [first], second);
    assert [] + [first] == [first] && Run(EMPTY_BELL, []) == EMPTY_BELL;
    PollKeepsKeys(EMPTY_BELL, first);
    hide Run, Next;
    PollShows(EMPTY_BELL, first, request);
    PollShows(Next(EMPTY_BELL, first), second, request);
    PollShows(Next(EMPTY_BELL, first), second, outcome);
  }

  lemma TwoPollsServed(rec: Records, request: Item, outcome: Item)
    requires ScopeOf(request) == Responder && ScopeOf(outcome) == Asker
    requires Served(rec, request) && Served(rec, outcome)
    ensures ServedRun(rec, TwoPolls(request, outcome))
  {
    hide Served, ScopeOf;
  }

  lemma SelfRecommendationCollides(rec: Records, id: nat) returns (events: seq<Event>)
    requires rec.asked(id) && rec.received(id)
    ensures ServedRun(rec, events) && Collides(Run(EMPTY_BELL, events))
  {
    var request, outcome := Item(RequestReceived, id, None, ""), Item(OutcomeKind(rec, id), id, None, "");
    events := TwoPolls(request, outcome);
    TwoPollsServed(rec, request, outcome);
    TwoPollsShow(request, outcome);
    hide TwoPolls, Run, ServedRun, Served;
  }

  lemma PollKeepsKeys(b: Bell, e: Event)
    requires e.Poll?
    ensures Next(b, e).acknowledged == b.acknowledged
  {
  }

  /** Rows of different kinds with one id are never shown together, on any run over what the
      server can answer, exactly when the user is nowhere the responder to their own question. */
  lemma CollisionExactlyOnSelfRecommendation(rec: Records)
    ensures (forall events | ServedRun(rec, events) :: !Collides(Run(EMPTY_BELL, events))) <==>
            forall id :: !(rec.asked(id) && rec.received(id))
  {
    if forall id :: !(rec.asked(id) && rec.received(id)) {
      forall events | ServedRun(rec, events) ensures !Collides(Run(EMPTY_BELL, events)) {
        RunIsServed(rec, events);
      }
    } else {
      var id :| rec.asked(id) && rec.received(id);
      var events := SelfRecommendationCollides(rec, id);
    }
  }

  // ------------------------------------------------------ the component itself

  class Component {
    var items: seq<Item>
    var acknowledged: set<Key>

    ghost function Value(): Bell reads this { Bell(items, acknowledged) }

    ghost predicate Valid() reads this { Good(Value()) }

    constructor ()
      ensures Valid() && Value() == EMPTY_BELL
    {
      items, acknowledged := [], {};
    }

    /** The rows stay newest first and free of acknowledged keys; a failed scope keeps its rows in
        order, a fulfilled one shows what it brought less the acknowledged keys. */
    method OnPollSettled(asker: Option<seq<Item>>, responder: Option<seq<Item>>)
      requires Valid()
      modifies this
      ensures Valid() && acknowledged == old(acknowledged)
      ensures Possible(Poll(asker, responder)) && asker.None? ==> InScope(items, Asker) == old(InScope(items, Asker))
      ensures Possible(Poll(asker, responder)) && responder.None? ==>
                InScope(items, Responder) == old(InScope(items, Responder))
      ensures Possible(Poll(asker, responder)) && asker.Some? ==>
                InScope(items, Asker) == NewestFirst(Visible(asker.value, acknowledged))
      ensures Possible(Poll(asker, responder)) && responder.Some? ==>
                InScope(items, Responder) == NewestFirst(Visible(responder.value, acknowledged))
      ensures Value() == Next(old(Value()), Poll(asker, responder))
    {
      ghost var e := Poll(asker, responder);
      NextIsGood(Value(), e);
      if Possible(e) {
        ScopeAfterPoll(Value(), e, Asker);
        ScopeAfterPoll(Value(), e, Responder);
      }
      hide Possible, Good, InScope, NewestFirst;
      var askerItems := if asker.Some? then Visible(asker.value, acknowledged)
                        else Filter(items, (i: Item) => ScopeOf(i) == Asker);
      var responderItems := if responder.Some? then Visible(responder.value, acknowledged)
                            else Filter(items, (i: Item) => ScopeOf(i) == Responder);
      ScopeRowsAre(Value(), asker, responder);
      items := NewestFirst(askerItems + responderItems);
    }

    /** No row of the key is left, nor any other row of its id; all other rows are. */
    method Acknowledge(item: Item)
      requires Valid()
      modifies this
      ensures Valid() && acknowledged == old(acknowledged) + {KeyOf(item)}
      ensures forall i :: i in items <==> i in old(items) && i.id != item.id
      ensures Value() == Next(old(Value()), Event.Acknowledge(item))
    {
      NextIsGood(Value(), Event.Acknowledge(item));
      FilterMembers(items, (i: Item) => i.id != item.id);
      acknowledged := acknowledged + {KeyOf(item)};
      items := Filter(items, (i: Item) => i.id != item.id);
    }

    /** From here on a poll may bring rows of this key again, and of no other. */
    method OnAckFailed(key: Key)
      requires Valid()
      modifies this
      ensures Valid() && items == old(items)
      ensures forall k :: k in acknowledged <==> k in old(acknowledged) && k != key
      ensures Value() == Next(old(Value()), AckFailed(key))
    {
      acknowledged := acknowledged - {key};
    }

    /** The effect of a change of users: no key is remembered, and rows go only with the last user. */
    method OnSwitch(nobody: bool)
      requires Valid()
      modifies this
      ensures Valid() && acknowledged == {} && items == if nobody then [] else old(items)
      ensures Value() == Next(old(Value()), Switch(nobody))
    {
      acknowledged := {};
      if nobody {
        items := [];
      }
    }
  }

  lemma ScopeRowsAre(b: Bell, asker: Option<seq<Item>>, responder: Option<seq<Item>>)
    ensures ScopeRows(b, Asker, asker)
            == if asker.Some? then Visible(asker.value, b.acknowledged)
               else Filter(b.items, (i: Item) => ScopeOf(i) == Asker)
    ensures ScopeRows(b, Responder, responder)
            == if responder.Some? then Visible(responder.value, b.acknowledged)
               else Filter(b.items, (i: Item) => ScopeOf(i) == Responder)
  {
  }

  /** A whole run of one component, watched for the keys whose last acknowledgement has not failed. */
  method Play(events: seq<Event>) returns (c: Component)
    ensures fresh(c) && c.Valid() && c.Value() == Run(EMPTY_BELL, events)
    ensures forall k | 0 <= k < |events| && events[k].Acknowledge? :: Hidden(events[k].item, events[k + 1..], c.items)
  {
    hide Next, Good;
    c := new Component();
    for k := 0 to |events|
      invariant fresh(c) && c.Valid() && c.Value() == Run(EMPTY_BELL, events[..k])
    {
      assert events[..k + 1][..k] == events[..k];
      match events[k] {
        case Poll(asker, responder) => c.OnPollSettled(asker, responder);
        case Acknowledge(item) => c.Acknowledge(item);
        case AckFailed(key) => c.OnAckFailed(key);
        case Switch(nobody) => c.OnSwitch(nobody);
      }
    }
    assert events[..|events|] == events;
    forall k | 0 <= k < |events| && events[k].Acknowledge?
      ensures Hidden(events[k].item, events[k + 1..], c.items)
    {
      RunStaysHidden(events, k);
    }
  }

  /** Unless an acknowledgement of `item` fails or the user changes in `after`, no row of its key is shown. */
  ghost predicate Hidden(item: Item, after: seq<Event>, items: seq<Item>) {
    (forall k | 0 <= k < |after| :: after[k] != AckFailed(KeyOf(item)) && !after[k].Switch?) ==>
      forall i | i in items :: KeyOf(i) != KeyOf(item)
  }

  lemma RunStaysHidden(events: seq<Event>, k: nat)
    requires k < |events| && events[k].Acknowledge?
    ensures Hidden(events[k].item, events[k + 1..], Run(EMPTY_BELL, events).items)
  {
    var before, e, after := events[..k], events[k], events[k + 1..];
    assert events == before + [e] + after;
    RunAppend(EMPTY_BELL, before + [e], after);
    assert (before + [e])[..k] == before;
    if forall m | 0 <= m < |after| :: after[m] != AckFailed(KeyOf(e.item)) && !after[m].Switch? {
      AcknowledgedStaysHidden(before, e.item, after);
    }
  }

  lemma RunSnoc(b: Bell, events: seq<Event>, e: Event)
    ensures Run(b, events + [e]) == Next(Run(b, events), e)
  {
    assert (events + [e])[..|events|] == events;
  }

  lemma {:induction false} RunAppend(b: Bell, before: seq<Event>, after: seq<Event>)
    ensures Run(b, before + after) == Run(Run(b, before), after)
  {
    hide Next;
    if after == [] {
      assert before + after == before;
    } else {
      RunAppend(b, before, after[..|after| - 1]);
      assert (before + after)[..|before + after| - 1] == before + after[..|after| - 1];
    }
  }
}
