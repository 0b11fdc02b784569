/** The event reducer of `useEventStream.ts`, the reply box of `ProcessingScreen.tsx`
    that reads its state, and what they make of a whole received log.
    Payloads the reducer never looks into are kept as their JSON text. */
module EventStream {
  import opened Prelude

  type Json = string

  datatype Candidate = Candidate(personId: string, details: Json)

  /** `missing` may be absent; `isSameFollowup` then reads it as the empty list. */
  datatype FollowupData = FollowupData(question: string, missing: Option<seq<string>>)

  datatype StreamEvent =
    | Understood(understood: Json)
    | Followup(followup: FollowupData)
    | Route(route: Json)
    | Reference(reference: Json)
    | Recommend(recommendations: seq<Candidate>)
    | Draft(draft: string)
    | Done(done: Json)
    | Message(message: Json)
    | ServerError(detail: Json)

  datatype ErrorText = STREAM_ERROR | CONNECTION_ERROR

  datatype EventStreamState = EventStreamState(
    events: seq<StreamEvent>,
    understood: Option<Json>,
    route: Option<Json>,
    reference: Option<Json>,
    recommend: Option<seq<Candidate>>,
    draft: Option<string>,
    followup: Option<FollowupData>,
    message: Option<Json>,
    done: Option<Json>,
    terminal: bool,
    error: Option<ErrorText>)

  const INITIAL_STATE: EventStreamState :=
    EventStreamState([], None, None, None, None, None, None, None, None, false, None)

  // ------------------------------------------------------------------ reducer

  function MissingList(f: FollowupData): seq<string> {
    if f.missing.Some? then f.missing.value else []
  }

  predicate IsSameFollowup(a: Option<FollowupData>, b: FollowupData) {
    if a.None? || a.value.question != b.question then false
    else
      var am, bm := MissingList(a.value), MissingList(b);
      |am| == |bm| && forall i | 0 <= i < |am| :: am[i] == bm[i]
  }

  predicate IsSameRecommend(a: Option<seq<Candidate>>, b: seq<Candidate>) {
    a.Some? && |a.value| == |b| && forall i | 0 <= i < |b| :: a.value[i].personId == b[i].personId
  }

  /** The three early returns: `e` repeats what `prev` already shows. */
  predicate IsReplay(prev: EventStreamState, e: StreamEvent) {
    match e
    case Followup(f) => IsSameFollowup(prev.followup, f)
    case Recommend(r) => IsSameRecommend(prev.recommend, r)
    case Draft(d) => prev.draft == Some(d)
    case _ => false
  }

  function ReduceEvent(prev: EventStreamState, e: StreamEvent): EventStreamState {
    if IsReplay(prev, e) then prev
    else
      var next := prev.(events := prev.events + [e]);
      match e
      case Understood(u) => next.(understood := Some(u))
      case Route(r) => next.(route := Some(r))
      case Reference(r) => next.(reference := Some(r))
      case Recommend(r) => next.(recommend := Some(r), draft := None)
      case Draft(d) => next.(draft := Some(d))
      case Followup(f) => next.(followup := Some(f))
      case Done(d) => next.(done := Some(d), terminal := true)
      case Message(m) => next.(message := Some(m), terminal := true)
      case ServerError(_) => next.(error := Some(STREAM_ERROR))
  }

  /** The state after receiving every event of `log`, oldest first, from `s`. */
  function FoldFrom(s: EventStreamState, log: seq<StreamEvent>): EventStreamState {
    if log == [] then s else ReduceEvent(FoldFrom(s, log[..|log| - 1]), log[|log| - 1])
  }

  function Fold(log: seq<StreamEvent>): EventStreamState {
    FoldFrom(INITIAL_STATE, log)
  }

  // ------------------------------------------------- direct reading of a log

  /** What the last event of `log` that `view` recognises says. */
  function Latest<T>(log: seq<StreamEvent>, view: StreamEvent -> Option<T>): Option<T> {
    if log == [] then None
    else if view(log[|log| - 1]).Some? then view(log[|log| - 1])
    else Latest(log[..|log| - 1], view)
  }

  function Ids(r: seq<Candidate>): (ids: seq<string>)
    ensures |ids| == |r| && forall i | 0 <= i < |r| :: ids[i] == r[i].personId
  {
    seq(|r|, i requires 0 <= i < |r| => r[i].personId)
  }

  function AsUnderstood(e: StreamEvent): Option<Json> { if e.Understood? then Some(e.understood) else None }
  function AsRoute(e: StreamEvent): Option<Json> { if e.Route? then Some(e.route) else None }
  function AsReference(e: StreamEvent): Option<Json> { if e.Reference? then Some(e.reference) else None }
  function AsDone(e: StreamEvent): Option<Json> { if e.Done? then Some(e.done) else None }
  function AsMessage(e: StreamEvent): Option<Json> { if e.Message? then Some(e.message) else None }
  function AsDraft(e: StreamEvent): Option<string> { if e.Draft? then Some(e.draft) else None }
  function AsIds(e: StreamEvent): Option<seq<string>> {
    if e.Recommend? then Some(Ids(e.recommendations)) else None
  }
  /** A followup up to equivalence: its question and its missing list. */
  function AsAsked(e: StreamEvent): Option<(string, seq<string>)> {
    if e.Followup? then Some((e.followup.question, MissingList(e.followup))) else None
  }

  predicate IsTerminalEvent(e: StreamEvent) { e.Done? || e.Message? }

  predicate IsServerError(e: StreamEvent) { e.ServerError? }

  /** Position `j` brings candidate ids that differ from those of the recommend before it. */
  predicate ChangesIds(log: seq<StreamEvent>, j: nat)
    requires j < |log|
  {
    log[j].Recommend? && Latest(log[..j], AsIds) != AsIds(log[j])
  }

  /** The part of `log` after the recommended ids last changed (all of it if they never did). */
  function SinceIdsChanged(log: seq<StreamEvent>): seq<StreamEvent> {
    if log == [] then []
    else if ChangesIds(log, |log| - 1) then []
    else SinceIdsChanged(log[..|log| - 1]) + [log[|log| - 1]]
  }

  lemma ChangesInPrefix(log: seq<StreamEvent>, n: nat, j: nat)
    requires j < n <= |log|
    ensures ChangesIds(log[..n], j) <==> ChangesIds(log, j)
  {
    assert log[..n][..j] == log[..j];
  }

  /** No position from `n` on brings other ids, and the one before does, if there is one. */
  predicate ChangedLast(log: seq<StreamEvent>, n: nat) {
    && n <= |log|
    && (forall j | n <= j < |log| :: !ChangesIds(log, j))
    && (n > 0 ==> ChangesIds(log, n - 1))
  }

  lemma ChangedLastSnoc(log: seq<StreamEvent>, n: nat)
    requires log != [] && ChangedLast(log[..|log| - 1], n) && !ChangesIds(log, |log| - 1)
    ensures ChangedLast(log, n)
  {
    forall j | 0 <= j < |log| - 1 ensures ChangesIds(log, j) <==> ChangesIds(log[..|log| - 1], j) {
      ChangesInPrefix(log, |log| - 1, j);
    }
    hide ChangesIds;
  }

  lemma {:induction false} SinceIdsChangedIsSuffix(log: seq<StreamEvent>)
    ensures var s := SinceIdsChanged(log);
            |s| <= |log| && s == log[|log| - |s|..] && ChangedLast(log, |log| - |s|)
  {
    hide ChangesIds, ChangedLast;
    if log == [] {
      NothingChanged();
    } else if ChangesIds(log, |log| - 1) {
      JustChanged(log);
    } else {
      var front, e := log[..|log| - 1], log[|log| - 1];
      SinceIdsChangedIsSuffix(front);
      var n := |front| - |SinceIdsChanged(front)|;
      ChangedLastSnoc(log, n);
      SuffixSnoc(front, e, SinceIdsChanged(front));
      assert log == front + [e];
    }
  }

  lemma SuffixSnoc<T>(front: seq<T>, e: T, s: seq<T>)
    requires |s| <= |front| && s == front[|front| - |s|..]
    ensures s + [e] == (front + [e])[|front| - |s|..]
  {
  }

  lemma NothingChanged()
    ensures ChangedLast([], 0)
  {
  }

  lemma JustChanged(log: seq<StreamEvent>)
    requires log != [] && ChangesIds(log, |log| - 1)
    ensures ChangedLast(log, |log|)
  {
  }

  /** The event that last changed what `view` sees: the first of those that say what is said last. */
  function LastChange<T(==)>(log: seq<StreamEvent>, view: StreamEvent -> Option<T>): Option<StreamEvent> {
    if log == [] then None
    else
      var front, e := log[..|log| - 1], log[|log| - 1];
      if view(e).Some? && Latest(front, view) != view(e) then Some(e) else LastChange(front, view)
  }

  lemma LastChangeSnoc<T>(log: seq<StreamEvent>, e: StreamEvent, view: StreamEvent -> Option<T>)
    ensures LastChange(log + [e], view)
         == if view(e).Some? && Latest(log, view) != view(e) then Some(e) else LastChange(log, view)
  {
    assert (log + [e])[..|log|] == log;
  }

  /** From position `n` on nothing else is said, and before it something else, or nothing, was. */
  ghost predicate SaysSince<T(!new)>(log: seq<StreamEvent>, n: nat, view: StreamEvent -> Option<T>) {
    && n < |log| && view(log[n]).Some? && view(log[n]) == Latest(log, view)
    && Latest(log[..n], view) != view(log[n])
    && forall j | n <= j < |log| :: view(log[j]).None? || view(log[j]) == view(log[n])
  }

  lemma {:induction false} LastChangeIsFirst<T(!new)>(log: seq<StreamEvent>, view: StreamEvent -> Option<T>)
    returns (n: nat)
    requires Latest(log, view).Some?
    ensures SaysSince(log, n, view) && LastChange(log, view) == Some(log[n])
  {
    var front, e := log[..|log| - 1], log[|log| - 1];
    if view(e).Some? && Latest(front, view) != view(e) {
      n := |front|;
    } else {
      n := LastChangeIsFirst(front, view);
      assert log[..n] == front[..n];
    }
  }

  predicate HasEvent(log: seq<StreamEvent>, p: StreamEvent -> bool) {
    exists i | 0 <= i < |log| :: p(log[i])
  }

  lemma HasEventSnoc(log: seq<StreamEvent>, e: StreamEvent, p: StreamEvent -> bool)
    ensures HasEvent(log + [e], p) <==> HasEvent(log, p) || p(e)
  {
    var all := log + [e];
    if HasEvent(log, p) {
      var i :| 0 <= i < |log| && p(log[i]);
      assert p(all[i]);
    }
    if p(e) { assert p(all[|log|]); }
  }

  function RecommendOf(e: Option<StreamEvent>): Option<seq<Candidate>> {
    if e.Some? && e.value.Recommend? then Some(e.value.recommendations) else None
  }

  function FollowupOf(e: Option<StreamEvent>): Option<FollowupData> {
    if e.Some? && e.value.Followup? then Some(e.value.followup) else None
  }

  /** What a reader of the whole log would say the state must show. */
  ghost predicate ReadsAs(s: EventStreamState, log: seq<StreamEvent>) {
    ReadsPayloads(s, log) && ReadsAnswer(s, log) && ReadsFollowup(s, log) && ReadsEnding(s, log)
  }

  ghost predicate ReadsPayloads(s: EventStreamState, log: seq<StreamEvent>) {
    && s.understood == Latest(log, AsUnderstood)
    && s.route == Latest(log, AsRoute)
    && s.reference == Latest(log, AsReference)
    && s.done == Latest(log, AsDone)
    && s.message == Latest(log, AsMessage)
  }

  /** The recommend that last changed the candidate ids, hence the ids last received, and the draft
      received since. */
  ghost predicate ReadsAnswer(s: EventStreamState, log: seq<StreamEvent>) {
    && s.recommend == RecommendOf(LastChange(log, AsIds))
    && (if s.recommend.Some? then Some(Ids(s.recommend.value)) else None) == Latest(log, AsIds)
    && s.draft == Latest(SinceIdsChanged(log), AsDraft)
  }

  /** The followup that last changed the question or its missing list. */
  ghost predicate ReadsFollowup(s: EventStreamState, log: seq<StreamEvent>) {
    && s.followup == FollowupOf(LastChange(log, AsAsked))
    && (if s.followup.Some? then AsAsked(Followup(s.followup.value)) else None) == Latest(log, AsAsked)
  }

  ghost predicate ReadsEnding(s: EventStreamState, log: seq<StreamEvent>) {
    && (s.terminal <==> HasEvent(log, IsTerminalEvent))
    && s.error == (if HasEvent(log, IsServerError) then Some(STREAM_ERROR) else None)
  }

  /** For every received log the reducer's state is the direct reading of that log. */
  lemma {:induction false} FoldReadsLog(log: seq<StreamEvent>)
    ensures ReadsAs(Fold(log), log)
  {
    if log != [] {
      var front, e := log[..|log| - 1], log[|log| - 1];
      FoldReadsLog(front);
      ReadOneMore(Fold(front), front, e);
      assert front + [e] == log;
    }
  }

  lemma LatestSnoc<T>(log: seq<StreamEvent>, e: StreamEvent, view: StreamEvent -> Option<T>)
    ensures Latest(log + [e], view) == if view(e).Some? then view(e) else Latest(log, view)
  {
    assert (log + [e])[..|log|] == log;
  }

  lemma SinceIdsChangedSnoc(log: seq<StreamEvent>, e: StreamEvent)
    ensures SinceIdsChanged(log + [e]) ==
            if e.Recommend? && Latest(log, AsIds) != AsIds(e) then [] else SinceIdsChanged(log) + [e]
  {
    var all := log + [e];
    assert all[..|log|] == log && all[|log|] == e;
    assert ChangesIds(all, |log|) <==> e.Recommend? && Latest(log, AsIds) != AsIds(e);
  }

  lemma ReadOneMore(s: EventStreamState, log: seq<StreamEvent>, e: StreamEvent)
    requires ReadsAs(s, log)
    ensures ReadsAs(ReduceEvent(s, e), log + [e])
  {
    ReadMorePayloads(s, log, e);
    ReadMoreAnswer(s, log, e);
    ReadMoreFollowup(s, log, e);
    ReadMoreEnding(s, log, e);
    hide ReadsPayloads, ReadsAnswer, ReadsFollowup, ReadsEnding, ReduceEvent;
  }

  lemma ReadMorePayloads(s: EventStreamState, log: seq<StreamEvent>, e: StreamEvent)
    requires ReadsPayloads(s, log)
    ensures ReadsPayloads(ReduceEvent(s, e), log + [e])
  {
    hide Latest, IsSameFollowup, IsSameRecommend;
    LatestSnoc(log, e, AsUnderstood);
    LatestSnoc(log, e, AsRoute);
    LatestSnoc(log, e, AsReference);
    LatestSnoc(log, e, AsDone);
    LatestSnoc(log, e, AsMessage);
  }

  lemma ReadMoreAnswer(s: EventStreamState, log: seq<StreamEvent>, e: StreamEvent)
    requires ReadsAnswer(s, log)
    ensures ReadsAnswer(ReduceEvent(s, e), log + [e])
  {
    hide Latest, LastChange, SinceIdsChanged, IsSameFollowup, IsSameRecommend, Ids;
    LastChangeSnoc(log, e, AsIds);
    LatestSnoc(log, e, AsIds);
    LatestSnoc(SinceIdsChanged(log), e, AsDraft);
    LatestOfNothing(AsDraft);
    SinceIdsChangedSnoc(log, e);
    SameIds(s.recommend, if e.Recommend? then e.recommendations else []);
  }

  lemma ReadMoreFollowup(s: EventStreamState, log: seq<StreamEvent>, e: StreamEvent)
    requires ReadsFollowup(s, log)
    ensures ReadsFollowup(ReduceEvent(s, e), log + [e])
  {
    hide Latest, LastChange, IsSameFollowup, IsSameRecommend, MissingList;
    LastChangeSnoc(log, e, AsAsked);
    LatestSnoc(log, e, AsAsked);
    SameAsked(s.followup, if e.Followup? then e.followup else FollowupData("", None));
  }

  lemma ReadMoreEnding(s: EventStreamState, log: seq<StreamEvent>, e: StreamEvent)
    requires ReadsEnding(s, log)
    ensures ReadsEnding(ReduceEvent(s, e), log + [e])
  {
    hide HasEvent, IsSameFollowup, IsSameRecommend;
    HasEventSnoc(log, e, IsTerminalEvent);
    HasEventSnoc(log, e, IsServerError);
  }

  lemma LatestOfNothing<T>(view: StreamEvent -> Option<T>)
    ensures Latest([], view) == None
  {
  }

  /** An absent list counts as the empty one. */
  lemma SameAsked(a: Option<FollowupData>, b: FollowupData)
    ensures IsSameFollowup(a, b) <==>
            a.Some? && a.value.question == b.question && MissingList(a.value) == MissingList(b)
    ensures forall f: FollowupData :: MissingList(f) == if f.missing == None then [] else f.missing.value
  {
  }

  lemma SameIds(a: Option<seq<Candidate>>, b: seq<Candidate>)
    ensures IsSameRecommend(a, b) <==> a.Some? && Ids(a.value) == Ids(b)
  {
    if a.Some? && Ids(a.value) == Ids(b) {
      forall i | 0 <= i < |b| ensures a.value[i].personId == b[i].personId {
        assert Ids(a.value)[i] == Ids(b)[i];
      }
    }
  }

  // ------------------------------------------------------------------ replays

  lemma {:induction false} FoldFromAppend(s: EventStreamState, a: seq<StreamEvent>, b: seq<StreamEvent>)
    ensures FoldFrom(s, a + b) == FoldFrom(FoldFrom(s, a), b)
  {
    hide ReduceEvent;
    if b == [] {
      assert a + b == a;
    } else {
      var front := b[..|b| - 1];
      FoldFromAppend(s, a, front);
      assert (a + b)[..|a + b| - 1] == a + front;
    }
  }

  /** Refolding the recorded `events` gives the state back: dropping replays loses nothing. */
  lemma {:induction false} RefoldEvents(log: seq<StreamEvent>)
    ensures Fold(Fold(log).events) == Fold(log)
  {
    if log != [] {
      var front, e := log[..|log| - 1], log[|log| - 1];
      RefoldEvents(front);
      FoldSnoc(front, e);
      FoldSnoc(Fold(front).events, e);
      DropsExactlyReplays(Fold(front), e);
      hide Fold, FoldFrom, ReduceEvent, IsReplay;
      assert log == front + [e];
    } else {
      assert Fold([]).events == [];
    }
  }

  lemma FoldSnoc(log: seq<StreamEvent>, e: StreamEvent)
    ensures Fold(log + [e]) == ReduceEvent(Fold(log), e)
  {
    hide ReduceEvent;
    assert (log + [e])[..|log|] == log;
  }

  lemma {:induction false} EventsOnlyGrow(s: EventStreamState, log: seq<StreamEvent>)
    ensures s.events <= FoldFrom(s, log).events
  {
    if log != [] { EventsOnlyGrow(s, log[..|log| - 1]); }
  }

  lemma DropsExactlyReplays(s: EventStreamState, e: StreamEvent)
    ensures IsReplay(s, e) ==> ReduceEvent(s, e) == s
    ensures !IsReplay(s, e) ==> ReduceEvent(s, e).events == s.events + [e]
  {
    hide IsReplay;
  }

  /** A sequence of received events leaves the whole state as it was exactly when each of
      them repeats the current followup, the current candidate ids or the current draft. */
  lemma {:induction false} SilentExactlyReplays(s: EventStreamState, replay: seq<StreamEvent>)
    ensures FoldFrom(s, replay) == s <==> forall i | 0 <= i < |replay| :: IsReplay(s, replay[i])
  {
    if replay != [] {
      var e, rest := replay[0], replay[1..];
      assert replay == [e] + rest;
      FoldFromAppend(s, [e], rest);
      assert [e][..0] == [];
      assert FoldFrom(s, [e]) == ReduceEvent(s, e);
      DropsExactlyReplays(s, e);
      hide ReduceEvent, IsReplay, FoldFrom;
      if IsReplay(s, e) {
        SilentExactlyReplays(s, rest);
        if forall i | 0 <= i < |rest| :: IsReplay(s, rest[i]) {
          forall i | 0 <= i < |replay| ensures IsReplay(s, replay[i]) {
            if i > 0 { assert replay[i] == rest[i - 1]; }
          }
        } else {
          var i :| 0 <= i < |rest| && !IsReplay(s, rest[i]);
          assert !IsReplay(s, replay[i + 1]);
        }
      } else {
        EventsOnlyGrow(ReduceEvent(s, e), rest);
        assert !IsReplay(s, replay[0]);
      }
    }
  }

  /** `e` re-sends progress that `s` already shows, with the identical payload. */
  predicate IsEcho(s: EventStreamState, e: StreamEvent) {
    || IsReplay(s, e)
    || (e.Understood? && s.understood == Some(e.understood))
    || (e.Route? && s.route == Some(e.route))
    || (e.Reference? && s.reference == Some(e.reference))
  }

  /** The events of a progress replay that no early return drops. */
  function Recorded(s: EventStreamState, replay: seq<StreamEvent>): seq<StreamEvent> {
    if replay == [] then []
    else
      var front, e := Recorded(s, replay[..|replay| - 1]), replay[|replay| - 1];
      if IsReplay(s, e) then front else front + [e]
  }

  /** A full-progress replay with identical payloads changes nothing but `events`. */
  lemma {:induction false} ProgressReplayOnlyAppends(s: EventStreamState, replay: seq<StreamEvent>)
    requires forall i | 0 <= i < |replay| :: IsEcho(s, replay[i])
    ensures FoldFrom(s, replay) == s.(events := s.events + Recorded(s, replay))
  {
    if replay == [] {
      assert s.events + [] == s.events;
    } else {
      var front, e := replay[..|replay| - 1], replay[|replay| - 1];
      assert forall i | 0 <= i < |front| :: front[i] == replay[i];
      ProgressReplayOnlyAppends(s, front);
      assert IsEcho(s, e);
      assert s.events + (Recorded(s, front) + [e]) == s.events + Recorded(s, front) + [e];
    }
  }

  // ---------------------------------------------------------------- reply box

  /** The part of `ProcessingScreen` that decides about the reply box. */
  datatype Screen = Screen(stream: EventStreamState, answered: bool)

  /** Index of the last followup among `events`, as `lastIndexOf` gives it. */
  function LastFollowup(events: seq<StreamEvent>): (k: int)
    ensures -1 <= k < |events|
    ensures k >= 0 ==> events[k].Followup?
    ensures forall i | k < i < |events| :: !events[i].Followup?
  {
    if events == [] then -1
    else if events[|events| - 1].Followup? then |events| - 1
    else LastFollowup(events[..|events| - 1])
  }

  predicate IsFollowupSuperseded(stream: EventStreamState) {
    var last := LastFollowup(stream.events);
    if last == -1 then false else |stream.events| - 1 > last
  }

  predicate ShowFollowup(sc: Screen) {
    && sc.stream.followup.Some?
    && !sc.answered
    && !sc.stream.terminal
    && !IsFollowupSuperseded(sc.stream)
  }

  /** One received event and the effect that re-opens the box when `stream.followup` is replaced. */
  function Receive(sc: Screen, e: StreamEvent): Screen {
    Screen(ReduceEvent(sc.stream, e),
           sc.answered && !(e.Followup? && !IsReplay(sc.stream, e)))
  }

  function ReceiveAll(sc: Screen, log: seq<StreamEvent>): Screen {
    if log == [] then sc else Receive(ReceiveAll(sc, log[..|log| - 1]), log[|log| - 1])
  }

  lemma {:induction false} ReceiveAllStream(sc: Screen, log: seq<StreamEvent>)
    ensures ReceiveAll(sc, log).stream == FoldFrom(sc.stream, log)
  {
    if log != [] { ReceiveAllStream(sc, log[..|log| - 1]); }
  }

  lemma {:induction false} EchoesKeepAnswered(sc: Screen, replay: seq<StreamEvent>)
    requires forall i | 0 <= i < |replay| :: IsEcho(sc.stream, replay[i])
    ensures ReceiveAll(sc, replay).answered == sc.answered
  {
    if replay != [] {
      var front, e := replay[..|replay| - 1], replay[|replay| - 1];
      assert forall i | 0 <= i < |front| :: front[i] == replay[i];
      EchoesKeepAnswered(sc, front);
      ReceiveAllStream(sc, front);
      ProgressReplayOnlyAppends(sc.stream, front);
      assert IsEcho(sc.stream, e);
    }
  }

  lemma {:induction false} RecordedHasNoFollowup(s: EventStreamState, replay: seq<StreamEvent>)
    requires forall i | 0 <= i < |replay| :: IsEcho(s, replay[i])
    ensures forall i | 0 <= i < |Recorded(s, replay)| :: !Recorded(s, replay)[i].Followup?
    ensures Recorded(s, replay) == [] <==> forall i | 0 <= i < |replay| :: IsReplay(s, replay[i])
  {
    if replay != [] {
      var front, e := replay[..|replay| - 1], replay[|replay| - 1];
      assert forall i | 0 <= i < |front| :: front[i] == replay[i];
      RecordedHasNoFollowup(s, front);
      assert IsEcho(s, e);
      if forall i | 0 <= i < |replay| :: IsReplay(s, replay[i]) {
        assert IsReplay(s, replay[|replay| - 1]);
      }
    }
  }

  lemma {:induction false} LastFollowupUnique(events: seq<StreamEvent>, k: int)
    requires -1 <= k < |events|
    requires k >= 0 ==> events[k].Followup?
    requires forall i | k < i < |events| :: !events[i].Followup?
    ensures LastFollowup(events) == k
  {
    var last := LastFollowup(events);
    if k >= 0 && last < k { assert false; }
    if last >= 0 && k < last { assert false; }
  }

  lemma {:induction false} PendingFollowupIsRecorded(log: seq<StreamEvent>)
    ensures Fold(log).followup.Some? ==> LastFollowup(Fold(log).events) >= 0
  {
    if log != [] {
      var front, e := log[..|log| - 1], log[|log| - 1];
      PendingFollowupIsRecorded(front);
      var before := Fold(front).events;
      if !IsReplay(Fold(front), e) {
        assert Fold(log).events == before + [e];
        assert (before + [e])[..|before|] == before;
      }
    }
  }

  /** `e` says nothing new after `log`: the question, the candidate ids or the draft last received. */
  predicate Repeats(log: seq<StreamEvent>, e: StreamEvent) {
    || (e.Followup? && Latest(log, AsAsked) == AsAsked(e))
    || (e.Recommend? && Latest(log, AsIds) == AsIds(e))
    || (e.Draft? && Latest(SinceIdsChanged(log), AsDraft) == AsDraft(e))
  }

  lemma ReplaysRepeat(log: seq<StreamEvent>, e: StreamEvent)
    ensures IsReplay(Fold(log), e) <==> Repeats(log, e)
  {
    FoldReadsLog(log);
    SameAsked(Fold(log).followup, if e.Followup? then e.followup else FollowupData("", None));
    SameIds(Fold(log).recommend, if e.Recommend? then e.recommendations else []);
    hide Fold, Latest, LastChange, SinceIdsChanged, IsSameFollowup, IsSameRecommend, HasEvent, Ids, MissingList;
  }

  /** Events arrive, and the user's replies are accepted. */
  datatype ScreenInput = Arrives(event: StreamEvent) | Answers

  function ScreenAfter(inputs: seq<ScreenInput>): Screen {
    if inputs == [] then Screen(INITIAL_STATE, false)
    else
      var sc := ScreenAfter(inputs[..|inputs| - 1]);
      match inputs[|inputs| - 1]
      case Arrives(e) => Receive(sc, e)
      case Answers => sc.(answered := true)
  }

  function Received(inputs: seq<ScreenInput>): seq<StreamEvent> {
    if inputs == [] then []
    else
      var front := Received(inputs[..|inputs| - 1]);
      match inputs[|inputs| - 1]
      case Arrives(e) => front + [e]
      case Answers => front
  }

  /** Input `n` asks something new, and nothing but repetitions has come since, no reply either. */
  predicate AskedLast(inputs: seq<ScreenInput>, n: nat) {
    && n < |inputs| && inputs[n].Arrives? && inputs[n].event.Followup?
    && !Repeats(Received(inputs[..n]), inputs[n].event)
    && forall j | n < j < |inputs| :: inputs[j].Arrives? && Repeats(Received(inputs[..j]), inputs[j].event)
  }

  lemma AskedLastSnoc(inputs: seq<ScreenInput>, i: ScreenInput)
    ensures var repeats := i.Arrives? && Repeats(Received(inputs), i.event);
            (exists n :: AskedLast(inputs + [i], n)) <==>
            if repeats then exists n :: AskedLast(inputs, n) else i.Arrives? && i.event.Followup?
  {
    hide Received, Repeats;
    var all, k := inputs + [i], |inputs|;
    assert all[..k] == inputs && all[k] == i;
    forall j | 0 <= j <= k ensures all[..j] == inputs[..j] {
    }
    assert inputs[..k] == inputs;
    if i.Arrives? && Repeats(Received(inputs), i.event) {
      forall n: nat ensures AskedLast(all, n) <==> AskedLast(inputs, n) {
        if AskedLast(inputs, n) {
          forall j | n < j < |all| ensures all[j].Arrives? && Repeats(Received(all[..j]), all[j].event) {
            if j < k { assert inputs[j] == all[j]; }
          }
        }
        if AskedLast(all, n) {
          forall j | n < j < k ensures inputs[j].Arrives? && Repeats(Received(inputs[..j]), inputs[j].event) {
            assert all[j] == inputs[j];
          }
        }
      }
    } else {
      if i.Arrives? && i.event.Followup? { assert AskedLast(all, k); }
      forall n: nat | n < k ensures !AskedLast(all, n) {
        assert !(all[k].Arrives? && Repeats(Received(all[..k]), all[k].event));
      }
    }
  }

  /** Everything that decides about the box but the end of the run. */
  predicate IsOpen(sc: Screen) { sc.stream.followup.Some? && !sc.answered && !IsFollowupSuperseded(sc.stream) }

  lemma ArrivalOpens(sc: Screen, e: StreamEvent)
    requires sc.stream.followup.Some? ==> LastFollowup(sc.stream.events) >= 0
    ensures IsOpen(Receive(sc, e)) <==> if IsReplay(sc.stream, e) then IsOpen(sc) else e.Followup?
  {
    hide IsReplay;
    DropsExactlyReplays(sc.stream, e);
    var events := sc.stream.events;
    if !IsReplay(sc.stream, e) {
      if e.Followup? {
        LastFollowupUnique(events + [e], |events|);
      } else {
        LastFollowupUnique(events + [e], LastFollowup(events));
      }
    }
  }

  lemma {:induction false} ScreenReadsInputs(inputs: seq<ScreenInput>)
    ensures ScreenAfter(inputs).stream == Fold(Received(inputs))
    ensures IsOpen(ScreenAfter(inputs)) <==> exists n :: AskedLast(inputs, n)
  {
    hide AskedLast, IsOpen, Repeats, Receive;
    if inputs == [] {
      NothingAsked();
    } else {
      var front, i := inputs[..|inputs| - 1], inputs[|inputs| - 1];
      ScreenReadsInputs(front);
      assert front + [i] == inputs;
      AskedLastSnoc(front, i);
      if i.Arrives? {
        PendingFollowupIsRecorded(Received(front));
        ReplaysRepeat(Received(front), i.event);
        ArrivalOpens(ScreenAfter(front), i.event);
        ReceiveFolds(ScreenAfter(front), Received(front), i.event);
      } else {
        AnsweredIsShut(ScreenAfter(inputs));
      }
    }
  }

  lemma NothingAsked()
    ensures !IsOpen(Screen(INITIAL_STATE, false)) && forall n :: !AskedLast([], n)
  {
  }

  lemma AnsweredIsShut(sc: Screen)
    ensures sc.answered ==> !IsOpen(sc)
  {
  }

  lemma ReceiveFolds(sc: Screen, log: seq<StreamEvent>, e: StreamEvent)
    requires sc.stream == Fold(log)
    ensures Receive(sc, e).stream == Fold(log + [e])
  {
    hide ReduceEvent;
    assert (log + [e])[..|log|] == log;
  }

  /** For every run of arrivals and replies: the box is shown exactly when no done or message has come,
      and a followup that asked something new has been followed by repetitions only. */
  lemma ReplyBoxExactly(inputs: seq<ScreenInput>)
    ensures ShowFollowup(ScreenAfter(inputs)) <==>
            !HasEvent(Received(inputs), IsTerminalEvent) && exists n :: AskedLast(inputs, n)
  {
    ScreenReadsInputs(inputs);
    FoldReadsLog(Received(inputs));
    hide Fold, ScreenAfter, Received, AskedLast, HasEvent, Latest, LastChange, SinceIdsChanged, IsFollowupSuperseded;
  }

  /** A box that was answered opens with the next event exactly when that asks something new and the
      run has not ended. */
  lemma NewQuestionReopens(log: seq<StreamEvent>, e: StreamEvent)
    ensures ShowFollowup(Receive(Screen(Fold(log), true), e)) <==>
            e.Followup? && AsAsked(e) != Latest(log, AsAsked) && !HasEvent(log, IsTerminalEvent)
  {
    var sc := Screen(Fold(log), true);
    PendingFollowupIsRecorded(log);
    ArrivalOpens(sc, e);
    ReplaysRepeat(log, e);
    FoldReadsLog(log);
    EndedByEvent(Fold(log), e);
    hide Fold, HasEvent, Latest, LastChange, SinceIdsChanged, IsFollowupSuperseded, IsReplay, ReduceEvent, AsAsked;
  }

  lemma EndedByEvent(s: EventStreamState, e: StreamEvent)
    ensures ReduceEvent(s, e).terminal <==> s.terminal || IsTerminalEvent(e)
  {
  }

  /** A reconnect that re-sends progress with identical payloads leaves an open reply box
      open exactly when no early return let an event of it through. In particular
      replays of the pending followup alone never close it. */
  lemma ReplyBoxSurvivesExactlyReplays(log: seq<StreamEvent>, answered: bool, replay: seq<StreamEvent>)
    requires ShowFollowup(Screen(Fold(log), answered))
    requires forall i | 0 <= i < |replay| :: IsEcho(Fold(log), replay[i])
    ensures ShowFollowup(ReceiveAll(Screen(Fold(log), answered), replay)) <==>
            forall i | 0 <= i < |replay| :: IsReplay(Fold(log), replay[i])
  {
    var sc := Screen(Fold(log), answered);
    var kept := Recorded(sc.stream, replay);
    PendingFollowupIsRecorded(log);
    ReceiveAllStream(sc, replay);
    ProgressReplayOnlyAppends(sc.stream, replay);
    EchoesKeepAnswered(sc, replay);
    RecordedHasNoFollowup(sc.stream, replay);
    LastFollowupUnique(sc.stream.events + kept, LastFollowup(sc.stream.events));
  }

  /** Replays of the pending event leave the box as it was, shown or hidden. */
  lemma {:induction false} ReplyBoxStable(sc: Screen, replay: seq<StreamEvent>)
    requires forall i | 0 <= i < |replay| :: IsReplay(sc.stream, replay[i])
    ensures ReceiveAll(sc, replay) == sc
    ensures ShowFollowup(ReceiveAll(sc, replay)) == ShowFollowup(sc)
  {
    ReceiveAllStream(sc, replay);
    SilentExactlyReplays(sc.stream, replay);
    EchoesKeepAnswered(sc, replay);
  }

  /** Re-sending `understood` while a followup is pending hides a box nobody has answered. */
  lemma UnderstoodReplayHidesReplyBox()
    ensures var u, f := Understood("{}"), Followup(FollowupData("?", Some(["product"])));
            var sc := ReceiveAll(Screen(INITIAL_STATE, false), [u, f]);
            ShowFollowup(sc) && !ShowFollowup(ReceiveAll(sc, [u, f]))
  {
    var u, f := Understood("{}"), Followup(FollowupData("?", Some(["product"])));
    var sc := Screen(INITIAL_STATE, false);
    assert [u, f][..1] == [u] && [u][..0] == [];
    var shown := ReceiveAll(sc, [u, f]);
    assert ReceiveAll(sc, [u]) == Receive(sc, u);
    assert shown.stream.events == [u, f];
    assert ReceiveAll(shown, [u]) == Receive(shown, u);
    var events := ReceiveAll(shown, [u, f]).stream.events;
    assert events == [u, f, u];
    LastFollowupUnique(events, 1);
  }
}
