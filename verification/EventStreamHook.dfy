/** The connection of `useEventStream`: subscribe, deliveries, transport errors, close, restart,
    over the queue of state updaters that React applies when it renders next. */
module EventStreamHook {
  import opened Prelude
  import opened EventStream

  datatype ReadyState = CONNECTING | OPEN | CLOSED

  /** What the browser hands to a listener: no string data, unparsable data, or an event. */
  datatype Wire = NoData | Malformed | Parsed(event: StreamEvent)

  /** A function passed to `setState`. The one of `onerror` reads the state of the source it was
      made for when it is applied, not when it is queued. */
  datatype Updater = Reset | Reduce(event: StreamEvent) | CheckSource(subscription: nat)

  datatype Input =
    | Deliver(wire: Wire)
    | TransportError(fatal: bool)   // the browser gives up (CLOSED) or reconnects (CONNECTING)
    | Restart                       // effect cleanup followed by a fresh subscription
    | Cleanup                       // unmount, or `enabled` turned off
    | Render                        // React applies the queued updaters, at whatever moment

  /** The hook as one value: the rendered state, the queued updaters, the number of the current
      subscription, its `closed` flag and the state of its source. */
  datatype View = View(state: EventStreamState, queue: seq<Updater>, subscription: nat, closed: bool,
                       source: ReadyState)

  const UNSUBSCRIBED: View := View(INITIAL_STATE, [], 0, true, CLOSED)

  predicate EndsStream(e: StreamEvent) { e.Done? || e.Message? || e.ServerError? }

  // ----------------------------------------------------------------- updaters

  /** One updater, when `live` is the subscription whose source is not closed, if any. */
  function Apply(s: EventStreamState, u: Updater, live: Option<nat>): EventStreamState {
    match u
    case Reset => INITIAL_STATE
    case Reduce(e) => ReduceEvent(s, e)
    case CheckSource(k) =>
      if s.terminal || s.error.Some? || live == Some(k) then s else s.(error := Some(CONNECTION_ERROR))
  }

  function Applied(s: EventStreamState, queue: seq<Updater>, live: Option<nat>): EventStreamState {
    if queue == [] then s
    else Apply(Applied(s, queue[..|queue| - 1], live), queue[|queue| - 1], live)
  }

  lemma AppliedNothing(s: EventStreamState, live: Option<nat>)
    ensures Applied(s, [], live) == s
  {
  }

  lemma AppliedSnoc(s: EventStreamState, queue: seq<Updater>, u: Updater, live: Option<nat>)
    ensures Applied(s, queue + [u], live) == Apply(Applied(s, queue, live), u, live)
  {
    assert (queue + [u])[..|queue|] == queue;
  }

  function Live(v: View): Option<nat> { if v.source == CLOSED then None else Some(v.subscription) }

  /** What the next render shows. */
  function Settled(v: View): EventStreamState { Applied(v.state, v.queue, Live(v)) }

  /** What it would show if the source were closed before. */
  function SettledIfClosed(v: View): EventStreamState { Applied(v.state, v.queue, None) }

  /** The updater of a transport error of this subscription is still queued. */
  predicate ErrorPending(v: View) { CheckSource(v.subscription) in v.queue }

  // -------------------------------------------------------------- transitions

  function Push(v: View, u: Updater): View { v.(queue := v.queue + [u]) }

  function Close(v: View): View { if v.closed then v else v.(closed := true, source := CLOSED) }

  function AfterEvent(v: View, e: StreamEvent): View {
    if EndsStream(e) then Close(Push(v, Reduce(e))) else Push(v, Reduce(e))
  }

  /** One input. A closed source dispatches nothing any more. */
  function Step(v: View, i: Input): View {
    match i
    case Deliver(wire) =>
      if v.source == CLOSED then v
      else if wire.Parsed? then AfterEvent(v.(source := OPEN), wire.event)
      else v.(source := OPEN)
    case TransportError(fatal) =>
      if v.source == CLOSED then v
      else Push(v.(source := if fatal then CLOSED else CONNECTING), CheckSource(v.subscription))
    case Restart => View(v.state, v.queue + [Reset], v.subscription + 1, false, CONNECTING)
    case Cleanup => Close(v)
    case Render => v.(state := Settled(v), queue := [])
  }

  function Run(inputs: seq<Input>): View {
    if inputs == [] then UNSUBSCRIBED else Step(Run(inputs[..|inputs| - 1]), inputs[|inputs| - 1])
  }

  // ---------------------------------------------------------------- histories

  /** `log` holds the well-formed events the live source delivered since the last restart. */
  function NextLog(v: View, log: seq<StreamEvent>, i: Input): seq<StreamEvent> {
    if i.Restart? then []
    else if i.Deliver? && i.wire.Parsed? && v.source != CLOSED then log + [i.wire.event]
    else log
  }

  /** Done or message closed the source while the updater of a transport error was queued. */
  predicate NextRaced(v: View, raced: bool, i: Input) {
    if i.Restart? then false
    else if i.Deliver? && i.wire.Parsed? && v.source != CLOSED && IsTerminalEvent(i.wire.event) then ErrorPending(v)
    else raced
  }

  function Accepted(inputs: seq<Input>): seq<StreamEvent> {
    if inputs == [] then []
    else
      var front := inputs[..|inputs| - 1];
      NextLog(Run(front), Accepted(front), inputs[|inputs| - 1])
  }

  predicate Raced(inputs: seq<Input>) {
    if inputs == [] then false
    else
      var front := inputs[..|inputs| - 1];
      NextRaced(Run(front), Raced(front), inputs[|inputs| - 1])
  }

  // ---------------------------------------------------------------- invariant

  function Interrupted(s: EventStreamState): EventStreamState { s.(error := Some(CONNECTION_ERROR)) }

  /** `s` is the direct reading of `log`, or that reading with a connection error added. */
  ghost predicate Shows(s: EventStreamState, log: seq<StreamEvent>) {
    s == Fold(log) || (s == Interrupted(Fold(log)) && !HasEvent(log, IsServerError))
  }

  ghost predicate OnlyLastEnds(events: seq<StreamEvent>) {
    forall i | 0 <= i < |events| - 1 :: !EndsStream(events[i])
  }

  predicate BothSet(s: EventStreamState) { s.terminal && s.error.Some? }

  ghost predicate GoodWhileLive(v: View, log: seq<StreamEvent>) {
    && !HasEvent(log, EndsStream)
    && Settled(v) == Fold(log)
    && SettledIfClosed(v) == if ErrorPending(v) then Interrupted(Fold(log)) else Fold(log)
  }

  ghost predicate GoodOnceClosed(v: View, log: seq<StreamEvent>, raced: bool) {
    && OnlyLastEnds(log)
    && Shows(SettledIfClosed(v), log)
    && (raced <==> BothSet(SettledIfClosed(v)))
  }

  ghost predicate Numbered(v: View) {
    forall u | u in v.queue && u.CheckSource? :: u.subscription <= v.subscription
  }

  ghost predicate Good(v: View, log: seq<StreamEvent>, raced: bool) {
    && Numbered(v)
    && (v.closed ==> v.source == CLOSED)
    && (if v.source == CLOSED then GoodOnceClosed(v, log, raced) else !raced && GoodWhileLive(v, log))
  }

  // ---------------------------------------------------- the invariant is kept

  lemma FoldSnoc(log: seq<StreamEvent>, e: StreamEvent)
    ensures Fold(log + [e]) == ReduceEvent(Fold(log), e)
  {
    assert (log + [e])[..|log|] == log;
  }

  lemma AppendKeepsOnlyLast(log: seq<StreamEvent>, e: StreamEvent)
    requires !HasEvent(log, EndsStream)
    ensures OnlyLastEnds(log + [e])
    ensures HasEvent(log + [e], EndsStream) <==> EndsStream(e)
  {
    var all := log + [e];
    HasEventSnoc(log, e, EndsStream);
    forall i | 0 <= i < |all| - 1 ensures !EndsStream(all[i]) {
      assert all[i] == log[i];
    }
  }

  /** The reducer neither reads nor clears an error; a server error overwrites it. */
  lemma ReduceInterrupted(s: EventStreamState, e: StreamEvent)
    ensures ReduceEvent(Interrupted(s), e)
         == if e.ServerError? then ReduceEvent(s, e) else Interrupted(ReduceEvent(s, e))
  {
    hide IsSameFollowup, IsSameRecommend;
  }

  lemma EndingIsAnEnd(log: seq<StreamEvent>)
    ensures HasEvent(log, IsTerminalEvent) || HasEvent(log, IsServerError) ==> HasEvent(log, EndsStream)
  {
    if k :| 0 <= k < |log| && (IsTerminalEvent(log[k]) || IsServerError(log[k])) {
      assert EndsStream(log[k]);
    }
  }

  lemma WithoutEnding(log: seq<StreamEvent>)
    requires !HasEvent(log, EndsStream)
    ensures !Fold(log).terminal && Fold(log).error.None? && !HasEvent(log, IsServerError) && OnlyLastEnds(log)
  {
    FoldReadsLog(log);
    EndingIsAnEnd(log);
    hide Fold, Latest, SinceIdsChanged;
  }

  /** What an ending event sets. */
  lemma ReduceSets(s: EventStreamState, e: StreamEvent)
    requires !s.terminal && s.error.None?
    ensures ReduceEvent(s, e).terminal <==> IsTerminalEvent(e)
    ensures ReduceEvent(s, e).error.Some? <==> IsServerError(e)
  {
    hide IsSameFollowup, IsSameRecommend;
  }

  /** A queued event is read behind everything queued before, whether or not the source closes first. */
  lemma EventSettles(v: View, log: seq<StreamEvent>, e: StreamEvent)
    requires v.source != CLOSED && GoodWhileLive(v, log)
    ensures var next := Push(v, Reduce(e));
            && Settled(next) == Fold(log + [e])
            && SettledIfClosed(next)
               == (if ErrorPending(v) && !e.ServerError? then Interrupted(Fold(log + [e])) else Fold(log + [e]))
            && (ErrorPending(next) <==> ErrorPending(v))
  {
    hide Applied, Fold, ReduceEvent, HasEvent;
    AppliedSnoc(v.state, v.queue, Reduce(e), Live(v));
    AppliedSnoc(v.state, v.queue, Reduce(e), None);
    FoldSnoc(log, e);
    ReduceInterrupted(Fold(log), e);
  }

  lemma EventKeepsGood(v: View, log: seq<StreamEvent>, e: StreamEvent)
    requires Good(v, log, false) && v.source != CLOSED
    ensures Good(AfterEvent(v, e), log + [e], IsTerminalEvent(e) && ErrorPending(v))
  {
    hide Applied, Fold, ReduceEvent, HasEvent, OnlyLastEnds;
    var next := Push(v, Reduce(e));
    EventSettles(v, log, e);
    WithoutEnding(log);
    AppendKeepsOnlyLast(log, e);
    FoldSnoc(log, e);
    ReduceSets(Fold(log), e);
    HasEventSnoc(log, e, IsServerError);
    assert SettledIfClosed(AfterEvent(v, e)) == SettledIfClosed(next);
    assert Settled(v.(queue := next.queue)) == Settled(next);
  }

  lemma TransportErrorKeepsGood(v: View, log: seq<StreamEvent>, fatal: bool)
    requires Good(v, log, false) && v.source != CLOSED
    ensures Good(Step(v, TransportError(fatal)), log, false)
  {
    hide Applied, Fold, HasEvent, OnlyLastEnds;
    AppliedSnoc(v.state, v.queue, CheckSource(v.subscription), Some(v.subscription));
    AppliedSnoc(v.state, v.queue, CheckSource(v.subscription), None);
    WithoutEnding(log);
  }

  lemma CloseKeepsGood(v: View, log: seq<StreamEvent>, raced: bool)
    requires Good(v, log, raced)
    ensures Good(Close(v), log, raced)
  {
    hide Applied, Fold, HasEvent, OnlyLastEnds;
    if v.source != CLOSED { WithoutEnding(log); }
  }

  lemma RestartIsGood(v: View)
    requires Numbered(v)
    ensures Good(Step(v, Restart), [], false)
  {
    AppliedSnoc(v.state, v.queue, Reset, None);
    AppliedSnoc(v.state, v.queue, Reset, Some(v.subscription + 1));
    hide Applied;
  }

  lemma RenderKeepsGood(v: View, log: seq<StreamEvent>, raced: bool)
    requires Good(v, log, raced)
    ensures Good(Step(v, Render), log, raced)
  {
    hide Applied, Fold, HasEvent, OnlyLastEnds;
    AppliedNothing(Settled(v), Live(v));
    AppliedNothing(Settled(v), None);
  }

  lemma StepKeepsGood(v: View, log: seq<StreamEvent>, raced: bool, i: Input)
    requires Good(v, log, raced)
    ensures Good(Step(v, i), NextLog(v, log, i), NextRaced(v, raced, i))
  {
    hide Applied, Fold, HasEvent, OnlyLastEnds;
    match i
    case Deliver(wire) =>
      if v.source != CLOSED {
        SourceOpens(v, log);
        if wire.Parsed? { EventKeepsGood(v.(source := OPEN), log, wire.event); }
      }
    case TransportError(fatal) => if v.source != CLOSED { TransportErrorKeepsGood(v, log, fatal); }
    case Restart => RestartIsGood(v);
    case Cleanup => CloseKeepsGood(v, log, raced);
    case Render => RenderKeepsGood(v, log, raced);
  }

  lemma SourceOpens(v: View, log: seq<StreamEvent>)
    requires Good(v, log, false) && v.source != CLOSED
    ensures Good(v.(source := OPEN), log, false)
  {
    hide Applied, Fold, HasEvent, OnlyLastEnds;
  }

  lemma LiveIsNotRaced(v: View, log: seq<StreamEvent>, raced: bool)
    requires Good(v, log, raced)
    ensures v.source != CLOSED ==> !raced
    ensures v.closed ==> v.source == CLOSED
  {
  }

  lemma {:induction false} AppliedFirst(s: EventStreamState, queue: seq<Updater>, live: Option<nat>)
    requires queue != []
    ensures Applied(s, queue, live) == Applied(Apply(s, queue[0], live), queue[1..], live)
  {
    hide Apply;
    var front, last := queue[..|queue| - 1], queue[|queue| - 1];
    if front == [] {
      assert queue == [last] && queue[1..] == [];
    } else {
      AppliedFirst(s, front, live);
      assert queue[1..] == front[1..] + [last];
      AppliedSnoc(Apply(s, queue[0], live), front[1..], last, live);
    }
  }

  lemma GoodIsNumbered(v: View, log: seq<StreamEvent>, raced: bool)
    requires Good(v, log, raced)
    ensures Numbered(v)
  {
  }

  lemma NothingYetIsGood()
    ensures Good(UNSUBSCRIBED, [], false)
  {
  }

  lemma {:induction false} RunIsGood(inputs: seq<Input>)
    ensures Good(Run(inputs), Accepted(inputs), Raced(inputs))
  {
    if inputs == [] {
      NothingYetIsGood();
    } else {
      hide Good, Step, NextLog, NextRaced;
      var front := inputs[..|inputs| - 1];
      RunIsGood(front);
      StepKeepsGood(Run(front), Accepted(front), Raced(front), inputs[|inputs| - 1]);
    }
  }

  // ------------------------------------------------------------- safety of runs

  /** The reducer records every ending, and nothing behind the last one delivered. */
  lemma {:induction false} RecordedEnding(log: seq<StreamEvent>)
    requires OnlyLastEnds(log)
    ensures OnlyLastEnds(Fold(log).events)
    ensures HasEvent(Fold(log).events, EndsStream) <==> HasEvent(log, EndsStream)
  {
    if log != [] {
      var front, e := log[..|log| - 1], log[|log| - 1];
      assert log == front + [e];
      RecordedEnding(front);
      FoldSnoc(front, e);
      HasEventSnoc(front, e, EndsStream);
      var s := Fold(front);
      assert !HasEvent(front, EndsStream);
      if !IsReplay(s, e) {
        assert ReduceEvent(s, e).events == s.events + [e];
        hide Fold, ReduceEvent, HasEvent, OnlyLastEnds;
        AppendKeepsOnlyLast(s.events, e);
      }
    }
  }

  /** What the invariant comes to for the next rendered state. */
  ghost predicate IsSafe(v: View, log: seq<StreamEvent>, raced: bool) {
    var s := Settled(v);
    && (BothSet(s) <==> raced)
    && (forall i | 0 <= i < |s.events| - 1 :: !EndsStream(s.events[i]))
    && (s.terminal || s.error.Some? ==> v.source == CLOSED)
    && (if s.error == Some(CONNECTION_ERROR) then s.(error := None) == Fold(log) else s == Fold(log))
  }

  lemma GoodIsSafe(v: View, log: seq<StreamEvent>, raced: bool)
    requires Good(v, log, raced)
    ensures IsSafe(v, log, raced)
  {
    if v.source != CLOSED { WithoutEnding(log); }
    RecordedEnding(log);
    FoldReadsLog(log);
    hide Applied, Fold, HasEvent, Latest, SinceIdsChanged;
  }

  /** On every run of deliveries, transport errors, closes, restarts and renders: the next
      rendered state has `terminal` and `error` both set exactly when done or message closed the
      source while the updater of a transport error was still queued; done, message and error
      together are recorded at most once per subscription and nothing follows them; and the
      state is the reading of what the source delivered since the last restart, to which only a
      connection error can have been added. */
  lemma RunIsSafe(inputs: seq<Input>)
    ensures IsSafe(Run(inputs), Accepted(inputs), Raced(inputs))
  {
    hide *;
    RunIsGood(inputs);
    GoodIsSafe(Run(inputs), Accepted(inputs), Raced(inputs));
  }

  lemma BothSetExactlyWhenRaced(inputs: seq<Input>)
    ensures BothSet(Settled(Run(inputs))) <==> Raced(inputs)
  {
    RunIsSafe(inputs);
    hide Run, Raced, Settled, BothSet, Accepted, Fold;
  }

  /** Every rendered state was the settled state of an earlier moment of the run. */
  lemma {:induction false} RenderedWasSettled(inputs: seq<Input>) returns (k: nat)
    ensures k <= |inputs| && Run(inputs).state == Settled(Run(inputs[..k]))
  {
    if inputs == [] {
      k := 0;
    } else {
      var front, i := inputs[..|inputs| - 1], inputs[|inputs| - 1];
      if i.Render? {
        k := |front|;
      } else {
        k := RenderedWasSettled(front);
        assert front[..k] == inputs[..k];
      }
    }
  }

  /** Once the source is closed, whatever the reason, nothing but a restart changes what is rendered. */
  lemma {:induction false} ClosedStateIsFrozen(before: seq<Input>, after: seq<Input>)
    requires Run(before).source == CLOSED
    requires forall i | 0 <= i < |after| :: !after[i].Restart?
    ensures Settled(Run(before + after)) == Settled(Run(before)) && Run(before + after).source == CLOSED
  {
    if after == [] {
      assert before + after == before;
    } else {
      var front := after[..|after| - 1];
      assert forall i | 0 <= i < |front| :: front[i] == after[i];
      ClosedStateIsFrozen(before, front);
      assert (before + after)[..|before + after| - 1] == before + front;
      var v := Run(before + front);
      AppliedNothing(Settled(v), None);
    }
  }

  lemma RunSnoc(inputs: seq<Input>, i: Input)
    ensures Run(inputs + [i]) == Step(Run(inputs), i)
    ensures Raced(inputs + [i]) <==> NextRaced(Run(inputs), Raced(inputs), i)
  {
    assert (inputs + [i])[..|inputs|] == inputs;
  }

  /** A transport error behind a subscription that is not yet rendered, then done: both are set. */
  lemma RaceShowsBoth() returns (inputs: seq<Input>)
    ensures inputs == [Restart, TransportError(false), Deliver(Parsed(Done("{}")))]
    ensures BothSet(Settled(Run(inputs)))
  {
    hide Run, Raced, Settled, BothSet;
    RunSnoc([], Restart);
    RunSnoc([Restart], TransportError(false));
    RunSnoc([Restart, TransportError(false)], Deliver(Parsed(Done("{}"))));
    assert [] + [Restart] == [Restart] && [Restart] + [TransportError(false)] == [Restart, TransportError(false)];
    inputs := [Restart, TransportError(false)] + [Deliver(Parsed(Done("{}")))];
    var v := Run([Restart, TransportError(false)]);
    assert v.queue[|v.queue| - 1] == CheckSource(v.subscription);
    BothSetExactlyWhenRaced(inputs);
  }

  // ----------------------------------------------------------------- the hook

  class Hook {
    var state: EventStreamState
    var queue: seq<Updater>
    var subscription: nat
    var closed: bool
    var source: ReadyState
    ghost var log: seq<StreamEvent>
    ghost var raced: bool

    ghost function Value(): View reads this { View(state, queue, subscription, closed, source) }

    ghost predicate Valid() reads this { Good(Value(), log, raced) }

    constructor ()
      ensures Valid() && Value() == UNSUBSCRIBED && log == [] && !raced
    {
      state, queue, subscription, closed, source := INITIAL_STATE, [], 0, true, CLOSED;
      log, raced := [], false;
      new;
      NothingYetIsGood();
    }

    /** Closing is final and keeps what was read. */
    method CloseSource()
      requires closed ==> source == CLOSED
      modifies this
      ensures source == CLOSED && log == old(log) && raced == old(raced)
      ensures old(Valid()) ==> Valid()
      ensures Value() == Close(old(Value()))
    {
      if old(Valid()) { CloseKeepsGood(Value(), log, raced); }
      if !closed {
        closed := true;
        source := CLOSED;
      }
    }

    /** A listener call of the live source: a well-formed event joins the log that the settled
        state reads, anything else is skipped; done, message and error close the source. */
    method OnEvent(wire: Wire)
      requires Valid() && source != CLOSED
      modifies this
      ensures Valid() && log == old(log) + if wire.Parsed? then [wire.event] else []
      ensures raced <==> wire.Parsed? && IsTerminalEvent(wire.event) && old(ErrorPending(Value()))
      ensures source == CLOSED <==> wire.Parsed? && EndsStream(wire.event)
      ensures Value() == if wire.Parsed? then AfterEvent(old(Value()), wire.event) else old(Value())
    {
      hide Good;
      LiveIsNotRaced(Value(), log, raced);
      if !wire.Parsed? {
        return;
      }
      EventKeepsGood(Value(), log, wire.event);
      raced := IsTerminalEvent(wire.event) && ErrorPending(Value());
      log := log + [wire.event];
      queue := queue + [Reduce(wire.event)];
      if wire.event.Done? || wire.event.Message? || wire.event.ServerError? {
        CloseSource();
      }
    }

    /** The browser calls `onerror` after it has closed the source or begun to reconnect. */
    method OnError(fatal: bool)
      requires Valid() && source != CLOSED
      modifies this
      ensures Valid() && log == old(log) && !raced && ErrorPending(Value())
      ensures source == CLOSED <==> fatal
      ensures Value() == Step(old(Value()), TransportError(fatal))
    {
      hide Good;
      LiveIsNotRaced(Value(), log, raced);
      TransportErrorKeepsGood(Value(), log, fatal);
      source := if fatal then CLOSED else CONNECTING;
      queue := queue + [CheckSource(subscription)];
    }

    /** A new subscription starts with nothing read, whatever is still queued from the old one. */
    method Subscribe()
      requires Valid()
      modifies this
      ensures Valid() && log == [] && !raced && source != CLOSED
      ensures Value() == Step(old(Value()), Restart)
    {
      GoodIsNumbered(Value(), log, raced);
      hide Good, Numbered;
      RestartIsGood(Value());
      queue := queue + [Reset];
      subscription := subscription + 1;
      closed, source := false, CONNECTING;
      log, raced := [], false;
    }

    /** React applies the queue: what was settled is rendered. */
    method Flush()
      requires Valid()
      modifies this
      ensures Valid() && log == old(log) && raced == old(raced) && source == old(source)
      ensures state == old(Settled(Value())) == Settled(Value()) && queue == []
      ensures Value() == Step(old(Value()), Render)
    {
      hide Good, Applied, ReduceEvent, NextLog, NextRaced;
      RenderKeepsGood(Value(), log, raced);
      ghost var settled := Settled(Value());
      while queue != []
        invariant Settled(Value()) == settled
        invariant log == old(log) && raced == old(raced) && source == old(source)
        invariant subscription == old(subscription) && closed == old(closed)
        decreases |queue|
      {
        AppliedFirst(state, queue, Live(Value()));
        match queue[0] {
          case Reset => state := INITIAL_STATE;
          case Reduce(e) => state := ReduceEvent(state, e);
          case CheckSource(k) =>
            if !(state.terminal || state.error.Some?) {
              if k != subscription || source == CLOSED {
                state := state.(error := Some(CONNECTION_ERROR));
              }
            }
        }
        queue := queue[1..];
      }
      AppliedNothing(state, Live(Value()));
    }

    /** The browser and React drive the hook with one input. Afterwards the next rendered state
        is safe, and reads what the live source delivered. */
    method Dispatch(i: Input)
      requires Valid()
      modifies this
      ensures Valid() && IsSafe(Value(), log, raced)
      ensures log == NextLog(old(Value()), old(log), i) && (raced <==> NextRaced(old(Value()), old(raced), i))
      ensures Value() == Step(old(Value()), i)
    {
      match i {
        case Deliver(wire) =>
          if source != CLOSED {
            LiveIsNotRaced(Value(), log, raced);
            SourceOpens(Value(), log);
            source := OPEN;
            OnEvent(wire);
          }
        case TransportError(fatal) =>
          if source != CLOSED {
            OnError(fatal);
          }
        case Restart => Subscribe();
        case Cleanup => CloseSource();
        case Render => Flush();
      }
      GoodIsSafe(Value(), log, raced);
    }
  }

  /** A whole run of one hook: it ends in the state of the run, safe, with the run's log. */
  method Drive(inputs: seq<Input>) returns (hook: Hook)
    ensures fresh(hook) && hook.Valid() && hook.Value() == Run(inputs)
    ensures hook.log == Accepted(inputs) && (hook.raced <==> Raced(inputs))
    ensures IsSafe(hook.Value(), hook.log, hook.raced)
  {
    hide Good, IsSafe, Step, NextLog, NextRaced;
    hook := new Hook();
    for k := 0 to |inputs|
      invariant fresh(hook) && hook.Valid() && hook.Value() == Run(inputs[..k])
      invariant hook.log == Accepted(inputs[..k]) && (hook.raced <==> Raced(inputs[..k]))
    {
      hook.Dispatch(inputs[k]);
      assert inputs[..k + 1][..k] == inputs[..k];
    }
    assert inputs[..|inputs|] == inputs;
    GoodIsSafe(hook.Value(), hook.log, hook.raced);
  }
}
