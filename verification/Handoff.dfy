/** `useHandoff.ts`: resolving a hand-off from any number of tabs, over a network that loses
    requests and acknowledgements, against a server that records one outcome and may lose its queue. */
module Handoff {
  import opened Prelude

  datatype Action = Answer | Defer | Refer

  datatype Outcome = Accepted | Declined

  function OutcomeByAction(a: Action): Outcome {
    match a
    case Answer => Accepted
    case Defer => Declined
    case Refer => Declined
  }

  datatype ErrorKind = LoadError | Gone

  datatype Phase = Loading | Failed | Ready | Submitting | Done

  /** State and refs of one hook instance. */
  datatype Tab = Tab(phase: Phase, action: Option<Action>, errorKind: Option<ErrorKind>, submitError: bool,
                     inFlight: bool, mounted: bool)

  const NEW_TAB: Tab := Tab(Loading, None, None, false, false, true)

  /** Status of GET /handoff: found, 404 or 409, any other failure. */
  datatype LoadResult = Found | NotAwaiting | Unavailable

  /** A POST of a tab; `id` tells POSTs apart. */
  datatype Request = Request(id: nat, tab: nat, action: Action)

  /** 2xx, 409, or any other failure. */
  datatype Reply = Recorded | Conflict | Refused

  /** What a tab is waiting for: the reply to its POST, or the drain that follows it. */
  datatype Promise = Posting(request: Request) | Draining(request: Request, won: bool)

  // ---------------------------------------------------- what each handler does

  function AfterLoad(t: Tab, r: LoadResult): Tab {
    if !t.mounted then t
    else
      match r
      case Found => Tab(Ready, None, None, false, t.inFlight, t.mounted)
      case NotAwaiting => Tab(Failed, None, Some(Gone), false, t.inFlight, t.mounted)
      case Unavailable => Tab(Failed, None, Some(LoadError), false, t.inFlight, t.mounted)
  }

  /** A submit that the single-flight guard lets through. */
  function AfterSubmit(t: Tab): Tab {
    var t' := t.(inFlight := true);
    if t.phase == Ready then t'.(phase := Submitting, submitError := false) else t'
  }

  /** The drain after a recorded outcome is over. */
  function AfterFinish(t: Tab, a: Action): Tab {
    var t' := t.(inFlight := false);
    if t.mounted then t'.(phase := Done, action := Some(a)) else t'
  }

  /** The drain after a 409 is over. */
  function AfterConflict(t: Tab): Tab {
    var t' := t.(inFlight := false);
    if t.mounted then t'.(phase := Failed, errorKind := Some(Gone)) else t'
  }

  /** The POST failed in any other way: retryable. */
  function AfterFailure(t: Tab): Tab {
    var t' := t.(inFlight := false);
    if t.mounted then t'.(phase := Ready, submitError := true) else t'
  }

  function AfterReply(t: Tab, reply: Reply): Tab { if reply == Refused then AfterFailure(t) else t }

  function AfterDrain(t: Tab, a: Action, won: bool): Tab { if won then AfterFinish(t, a) else AfterConflict(t) }

  /** The drain that a reply starts, if any. */
  function DrainAfter(r: Request, reply: Reply): set<Promise> {
    match reply
    case Recorded => {Draining(r, true)}
    case Conflict => {Draining(r, false)}
    case Refused => {}
  }

  // ------------------------------------------------- the invariant of one tab

  /** A tab waits for one promise at most, and is in flight exactly while it does; while mounted
      it is not left submitting without a flight; and it shows done only for an action of which a
      request was `confirmed`. */
  ghost predicate TabOk(t: Tab, waiting: set<Promise>, confirmed: set<Request>) {
    && (forall p, q | p in waiting && q in waiting :: p == q)
    && (t.inFlight <==> waiting != {})
    && (t.phase == Submitting && t.mounted ==> t.inFlight)
    && (forall p | p in waiting && p.Draining? && p.won :: p.request in confirmed)
    && (t.phase == Done ==> t.action.Some? && exists r | r in confirmed :: r.action == t.action.value)
  }

  lemma SubmitKeepsTab(t: Tab, waiting: set<Promise>, confirmed: set<Request>, r: Request)
    requires TabOk(t, waiting, confirmed) && !t.inFlight
    ensures TabOk(AfterSubmit(t), waiting + {Posting(r)}, confirmed)
  {
    assert Posting(r) in waiting + {Posting(r)};
  }

  lemma ReplyKeepsTab(t: Tab, waiting: set<Promise>, confirmed: set<Request>, r: Request, reply: Reply)
    requires TabOk(t, waiting, confirmed) && Posting(r) in waiting
    requires reply == Recorded ==> r in confirmed
    ensures TabOk(AfterReply(t, reply), waiting - {Posting(r)} + DrainAfter(r, reply), confirmed)
  {
    assert waiting == {Posting(r)};
    assert Draining(r, reply == Recorded) in DrainAfter(r, reply) || reply == Refused;
  }

  lemma DrainKeepsTab(t: Tab, waiting: set<Promise>, confirmed: set<Request>, r: Request, won: bool)
    requires TabOk(t, waiting, confirmed) && Draining(r, won) in waiting
    ensures TabOk(AfterDrain(t, r.action, won), waiting - {Draining(r, won)}, confirmed)
  {
    assert waiting == {Draining(r, won)};
    assert won ==> r in confirmed;
  }

  lemma LoadKeepsTab(t: Tab, waiting: set<Promise>, confirmed: set<Request>, r: LoadResult)
    requires TabOk(t, waiting, confirmed)
    ensures TabOk(AfterLoad(t, r), waiting, confirmed)
  {
  }

  class Hook {
    var phase: Phase
    var action: Option<Action>
    var errorKind: Option<ErrorKind>
    var submitError: bool
    var inFlight: bool
    var mounted: bool
    ghost var waiting: set<Promise>
    ghost var confirmed: set<Request>

    ghost function Value(): Tab reads this { Tab(phase, action, errorKind, submitError, inFlight, mounted) }

    ghost predicate Valid() reads this { TabOk(Value(), waiting, confirmed) }

    constructor ()
      ensures Valid() && Value() == NEW_TAB && waiting == {} && confirmed == {}
    {
      phase, action, errorKind, submitError, inFlight, mounted := Loading, None, None, false, false, true;
      waiting, confirmed := {}, {};
    }

    /** Loading leaves a flight alone, even one that is under way. */
    method OnLoad(r: LoadResult)
      requires Valid()
      modifies this
      ensures Valid() && waiting == old(waiting) && confirmed == old(confirmed)
      ensures mounted && r != Found ==>
                phase == Failed && errorKind == Some(if r == NotAwaiting then Gone else LoadError)
      ensures Value() == AfterLoad(old(Value()), r)
    {
      if !mounted {
        return;
      }
      action, submitError := None, false;
      match r {
        case Found => phase, errorKind := Ready, None;
        case NotAwaiting => phase, errorKind := Failed, Some(Gone);
        case Unavailable => phase, errorKind := Failed, Some(LoadError);
      }
    }

    /** A POST goes out exactly when nothing is waited for; then that POST alone is. */
    method Submit(ghost r: Request) returns (posts: bool)
      requires Valid()
      modifies this
      ensures Valid() && confirmed == old(confirmed)
      ensures posts <==> old(waiting) == {}
      ensures waiting == if posts then {Posting(r)} else old(waiting)
      ensures Value() == if posts then AfterSubmit(old(Value())) else old(Value())
    {
      if inFlight {
        return false;
      }
      SubmitKeepsTab(Value(), waiting, confirmed, r);
      waiting := waiting + {Posting(r)};
      inFlight := true;
      if phase == Ready {
        phase, submitError := Submitting, false;
      }
      return true;
    }

    /** The POST settles. A recorded outcome and a 409 keep the tab in flight for a drain; any
        other failure ends the flight, so that a retry can go out. */
    method OnReply(ghost r: Request, reply: Reply)
      requires Valid() && Posting(r) in waiting
      modifies this
      ensures Valid() && waiting == DrainAfter(r, reply)
      ensures confirmed == old(confirmed) + if reply == Recorded then {r} else {}
      ensures inFlight <==> reply != Refused
      ensures Value() == AfterReply(old(Value()), reply)
    {
      ghost var all := confirmed + if reply == Recorded then {r} else {};
      ReplyKeepsTab(Value(), waiting, all, r, reply);
      assert waiting == {Posting(r)};
      confirmed := all;
      waiting := waiting - {Posting(r)} + DrainAfter(r, reply);
      if reply == Refused {
        inFlight := false;
        if mounted {
          phase, submitError := Ready, true;
        }
      }
    }

    /** The drain is over and with it the flight. A mounted tab shows done, for the action of the
        confirmed request, exactly when that drain followed a recorded outcome. */
    method OnDrained(r: Request, won: bool)
      requires Valid() && Draining(r, won) in waiting
      modifies this
      ensures Valid() && waiting == {} && confirmed == old(confirmed) && (won ==> r in confirmed)
      ensures mounted ==> (phase == Done <==> won) && (phase == Failed <==> !won)
      ensures !mounted ==> phase == old(phase)
      ensures Value() == AfterDrain(old(Value()), r.action, won)
    {
      DrainKeepsTab(Value(), waiting, confirmed, r, won);
      assert waiting == {Draining(r, won)};
      waiting := waiting - {Draining(r, won)};
      inFlight := false;
      if mounted {
        if won {
          phase, action := Done, Some(r.action);
        } else {
          phase, errorKind := Failed, Some(Gone);
        }
      }
    }

    /** An unmounted tab keeps its flight and shows nothing new. */
    method Unmount()
      requires Valid()
      modifies this
      ensures Valid() && waiting == old(waiting) && confirmed == old(confirmed)
      ensures Value() == old(Value()).(mounted := false)
    {
      mounted := false;
    }
  }

  // -------------------------------------------------------- tabs, wire, server

  /** The session waits for an outcome, has one queued to go on with, or has gone on. */
  datatype Stage = Waiting | Queued | GoneOn

  /** `posted` remembers every request ever sent, `outcome` is the first the server recorded, and
      `accepted` are those it answered with 2xx. */
  datatype System = System(tabs: map<nat, Tab>, promises: set<Promise>, posted: map<nat, Request>,
                           wire: set<Request>, replies: map<nat, Reply>,
                           outcome: Option<Request>, stage: Stage, accepted: set<Request>)

  const START: System := System(map[], {}, map[], {}, map[], None, Waiting, {})

  datatype Event =
    | Open(tab: nat)
    | Load(tab: nat, result: LoadResult)
    | Unmount(tab: nat)
    | Click(tab: nat, action: Action, id: nat)   // `id` names the request, if one goes out
    | Handle(request: Request)                   // the server accepts it or answers 409
    | GoOn                                       // an events reader consumes the queued outcome
    | LoseQueue                                  // a restart forgets that an outcome is queued
    | Refuse(request: Request)                   // the server fails without recording
    | LoseRequest(request: Request)
    | LoseReply(id: nat)
    | Receive(request: Request)                  // the tab gets the reply
    | GiveUp(request: Request)                   // the tab's POST fails; the request may still arrive
    | DrainDone(request: Request, won: bool)

  function SetTab(s: System, t: nat, tab: Tab): System { s.(tabs := s.tabs[t := tab]) }

  /** The reply to `r` settles the POST of its tab. */
  function Settle(s: System, r: Request, reply: Reply): System
    requires r.tab in s.tabs
  {
    SetTab(s, r.tab, AfterReply(s.tabs[r.tab], reply)).(promises := s.promises - {Posting(r)} + DrainAfter(r, reply))
  }

  /** One event; an event that cannot happen changes nothing. The server accepts what comes while the
      session waits. It writes an outcome only the first time; a repeated one, which can only come
      after the queue was lost, it accepts without writing. */
  function Next(s: System, e: Event): System {
    match e
    case Open(t) => if t in s.tabs then s else SetTab(s, t, NEW_TAB)
    case Load(t, r) => if t in s.tabs then SetTab(s, t, AfterLoad(s.tabs[t], r)) else s
    case Unmount(t) => if t in s.tabs then SetTab(s, t, s.tabs[t].(mounted := false)) else s
    case Click(t, a, id) =>
      if t !in s.tabs || s.tabs[t].inFlight || id in s.posted then s
      else
        var r := Request(id, t, a);
        SetTab(s, t, AfterSubmit(s.tabs[t])).(posted := s.posted[id := r], wire := s.wire + {r},
                                              promises := s.promises + {Posting(r)})
    case Handle(r) =>
      if r !in s.wire then s
      else if s.stage == Waiting then
        s.(wire := s.wire - {r}, outcome := if s.outcome.None? then Some(r) else s.outcome, stage := Queued,
           accepted := s.accepted + {r}, replies := s.replies[r.id := Recorded])
      else s.(wire := s.wire - {r}, replies := s.replies[r.id := Conflict])
    case GoOn => if s.stage == Queued then s.(stage := GoneOn) else s
    case LoseQueue => if s.stage == Queued then s.(stage := Waiting) else s
    case Refuse(r) =>
      if r !in s.wire then s else s.(wire := s.wire - {r}, replies := s.replies[r.id := Refused])
    case LoseRequest(r) => s.(wire := s.wire - {r})
    case LoseReply(id) => s.(replies := s.replies - {id})
    case Receive(r) =>
      if Posting(r) !in s.promises || r.id !in s.replies || r.tab !in s.tabs then s
      else Settle(s, r, s.replies[r.id])
    case GiveUp(r) =>
      if Posting(r) !in s.promises || r.tab !in s.tabs then s else Settle(s, r, Refused)
    case DrainDone(r, won) =>
      if Draining(r, won) !in s.promises || r.tab !in s.tabs then s
      else SetTab(s, r.tab, AfterDrain(s.tabs[r.tab], r.action, won)).(promises := s.promises - {Draining(r, won)})
  }

  function Run(events: seq<Event>): System {
    if events == [] then START else Next(Run(events[..|events| - 1]), events[|events| - 1])
  }

  // ------------------------------------------------------------------- safety

  ghost predicate Posted(s: System, r: Request) { r.id in s.posted && s.posted[r.id] == r }

  function WaitingOf(s: System, t: nat): set<Promise> { set p | p in s.promises && p.request.tab == t }

  /** The accepted requests of tab `t`. */
  function ConfirmedOf(s: System, t: nat): set<Request> { set r | r in s.accepted && r.tab == t }

  /** Every tab keeps its own invariant, confirmed by nothing but its accepted requests. */
  ghost predicate TabsOk(s: System) {
    forall t | t in s.tabs :: TabOk(s.tabs[t], WaitingOf(s, t), ConfirmedOf(s, t))
  }

  ghost predicate PromisesOk(s: System) {
    forall p | p in s.promises :: Posted(s, p.request) && p.request.tab in s.tabs
  }

  /** Nothing but accepted requests is answered with 2xx, the recorded one is the first of them, and
      a 409 means that one is recorded. */
  ghost predicate ServerOk(s: System) {
    && (forall id | id in s.posted :: s.posted[id].id == id)
    && (forall r | r in s.wire :: Posted(s, r))
    && (forall r | r in s.accepted :: Posted(s, r) && r !in s.wire)
    && (if s.outcome.Some? then s.outcome.value in s.accepted else s.accepted == {} && s.stage == Waiting)
    && (forall id | id in s.replies :: id in s.posted && s.posted[id] !in s.wire)
    && (forall id | id in s.replies && s.replies[id] == Recorded :: s.posted[id] in s.accepted)
    && (forall id | id in s.replies && s.replies[id] == Conflict :: s.outcome.Some?)
  }

  ghost predicate Safe(s: System) { TabsOk(s) && PromisesOk(s) && ServerOk(s) }

  /** A change of one tab and its promises. */
  lemma TabChangeIsSafe(s: System, s': System, t: nat)
    requires Safe(s) && ServerOk(s') && PromisesOk(s')
    requires s'.accepted == s.accepted && s'.tabs.Keys == s.tabs.Keys + {t}
    requires forall u | u in s.tabs && u != t :: s'.tabs[u] == s.tabs[u]
    requires forall p: Promise | p.request.tab != t :: p in s'.promises <==> p in s.promises
    requires TabOk(s'.tabs[t], WaitingOf(s', t), ConfirmedOf(s, t))
    ensures Safe(s')
  {
    hide ServerOk, PromisesOk, TabOk;
    forall u | u in s'.tabs ensures TabOk(s'.tabs[u], WaitingOf(s', u), ConfirmedOf(s', u)) {
      assert ConfirmedOf(s', u) == ConfirmedOf(s, u);
      if u != t { assert WaitingOf(s', u) == WaitingOf(s, u); }
    }
  }

  /** Opening, loading and unmounting leave promises, wire and server alone. */
  lemma TabEventIsSafe(s: System, t: nat, tab: Tab)
    requires Safe(s) && TabOk(tab, WaitingOf(s, t), ConfirmedOf(s, t))
    ensures Safe(SetTab(s, t, tab))
  {
    var s' := SetTab(s, t, tab);
    assert WaitingOf(s', t) == WaitingOf(s, t);
    assert PromisesOk(s') && ServerOk(s') by { hide TabOk; }
    hide *;
    TabChangeIsSafe(s, s', t);
  }

  lemma OpenIsSafe(s: System, t: nat)
    requires Safe(s) && t !in s.tabs
    ensures Safe(SetTab(s, t, NEW_TAB))
  {
    assert WaitingOf(s, t) == {};
    assert TabOk(NEW_TAB, {}, ConfirmedOf(s, t));
    TabEventIsSafe(s, t, NEW_TAB);
  }

  lemma ClickIsSafe(s: System, t: nat, a: Action, id: nat)
    requires Safe(s)
    ensures Safe(Next(s, Click(t, a, id)))
  {
    var s', r := Next(s, Click(t, a, id)), Request(id, t, a);
    if s' != s {
      SubmitKeepsTab(s.tabs[t], WaitingOf(s, t), ConfirmedOf(s, t), r);
      assert WaitingOf(s', t) == WaitingOf(s, t) + {Posting(r)};
      hide TabOk, TabsOk, ConfirmedOf, WaitingOf;
      ClickIsPosted(s, s', r);
      hide *;
      TabChangeIsSafe(s, s', t);
    }
  }

  lemma ClickIsPosted(s: System, s': System, r: Request)
    requires PromisesOk(s) && ServerOk(s) && r.id !in s.posted && r.tab in s.tabs
    requires s'.posted == s.posted[r.id := r] && s'.wire == s.wire + {r} && s'.promises == s.promises + {Posting(r)}
    requires s'.replies == s.replies && s'.outcome == s.outcome && s'.tabs.Keys == s.tabs.Keys
    requires s'.accepted == s.accepted && s'.stage == s.stage
    ensures PromisesOk(s') && ServerOk(s')
  {
    forall q | Posted(s, q) ensures Posted(s', q) && q.id != r.id {
    }
  }

  lemma SettleIsSafe(s: System, r: Request, reply: Reply)
    requires Safe(s) && Posting(r) in s.promises && r.tab in s.tabs
    requires reply == Recorded ==> r in s.accepted
    ensures Safe(Settle(s, r, reply))
  {
    var s' := Settle(s, r, reply);
    ReplyKeepsTab(s.tabs[r.tab], WaitingOf(s, r.tab), ConfirmedOf(s, r.tab), r, reply);
    assert WaitingOf(s', r.tab) == WaitingOf(s, r.tab) - {Posting(r)} + DrainAfter(r, reply);
    hide TabOk, TabsOk, ConfirmedOf, WaitingOf;
    assert forall p | p in DrainAfter(r, reply) :: p.request == r;
    assert PromisesOk(s') && ServerOk(s');
    hide Settle, Safe, ServerOk, PromisesOk;
    TabChangeIsSafe(s, s', r.tab);
  }

  lemma DrainIsSafe(s: System, r: Request, won: bool)
    requires Safe(s) && Draining(r, won) in s.promises && r.tab in s.tabs
    ensures Safe(Next(s, DrainDone(r, won)))
  {
    var s' := Next(s, DrainDone(r, won));
    DrainKeepsTab(s.tabs[r.tab], WaitingOf(s, r.tab), ConfirmedOf(s, r.tab), r, won);
    assert WaitingOf(s', r.tab) == WaitingOf(s, r.tab) - {Draining(r, won)};
    hide TabOk, TabsOk, ConfirmedOf, WaitingOf;
    assert PromisesOk(s') && ServerOk(s');
    hide *;
    TabChangeIsSafe(s, s', r.tab);
  }

  lemma MoreConfirmed(t: Tab, waiting: set<Promise>, confirmed: set<Request>, more: set<Request>)
    requires TabOk(t, waiting, confirmed) && confirmed <= more
    ensures TabOk(t, waiting, more)
  {
  }

  predicate IsServerEvent(e: Event) {
    e.Handle? || e.GoOn? || e.LoseQueue? || e.Refuse? || e.LoseRequest? || e.LoseReply?
  }

  /** The server and the network leave tabs and promises alone. */
  lemma WireEventIsSafe(s: System, e: Event)
    requires Safe(s) && IsServerEvent(e)
    ensures Safe(Next(s, e))
  {
    hide Next, ServerOk, TabOk;
    var s' := Next(s, e);
    ServerStaysOk(s, e);
    WireLeavesTabs(s, e);
    forall t | t in s'.tabs ensures TabOk(s'.tabs[t], WaitingOf(s', t), ConfirmedOf(s', t)) {
      assert WaitingOf(s', t) == WaitingOf(s, t);
      MoreConfirmed(s.tabs[t], WaitingOf(s, t), ConfirmedOf(s, t), ConfirmedOf(s', t));
    }
  }

  lemma WireLeavesTabs(s: System, e: Event)
    requires IsServerEvent(e)
    ensures var s' := Next(s, e);
            && s'.tabs == s.tabs && s'.promises == s.promises && s'.posted == s.posted
            && s.accepted <= s'.accepted
  {
  }

  lemma ServerStaysOk(s: System, e: Event)
    requires ServerOk(s) && IsServerEvent(e)
    ensures ServerOk(Next(s, e))
  {
    var s' := Next(s, e);
    assert forall r | Posted(s, r) :: Posted(s', r);
  }

  lemma NextIsSafe(s: System, e: Event)
    requires Safe(s)
    ensures Safe(Next(s, e))
  {
    hide TabOk, ServerOk;
    match e
    case Open(t) => if t !in s.tabs { OpenIsSafe(s, t); }
    case Load(t, r) =>
      if t in s.tabs {
        LoadKeepsTab(s.tabs[t], WaitingOf(s, t), ConfirmedOf(s, t), r);
        TabEventIsSafe(s, t, AfterLoad(s.tabs[t], r));
      }
    case Unmount(t) =>
      if t in s.tabs {
        UnmountKeepsTab(s.tabs[t], WaitingOf(s, t), ConfirmedOf(s, t));
        TabEventIsSafe(s, t, s.tabs[t].(mounted := false));
      }
    case Click(t, a, id) => ClickIsSafe(s, t, a, id);
    case Receive(r) =>
      if Next(s, e) != s {
        RepliesAreTrue(s, r);
        SettleIsSafe(s, r, s.replies[r.id]);
      }
    case GiveUp(r) => if Next(s, e) != s { SettleIsSafe(s, r, Refused); }
    case DrainDone(r, won) => if Next(s, e) != s { DrainIsSafe(s, r, won); }
    case Handle(_) => WireEventIsSafe(s, e);
    case GoOn => WireEventIsSafe(s, e);
    case LoseQueue => WireEventIsSafe(s, e);
    case Refuse(_) => WireEventIsSafe(s, e);
    case LoseRequest(_) => WireEventIsSafe(s, e);
    case LoseReply(_) => WireEventIsSafe(s, e);
  }

  lemma RepliesAreTrue(s: System, r: Request)
    requires Safe(s) && Posting(r) in s.promises && r.id in s.replies
    ensures s.replies[r.id] == Recorded ==> r in s.accepted
  {
  }

  lemma UnmountKeepsTab(t: Tab, waiting: set<Promise>, confirmed: set<Request>)
    requires TabOk(t, waiting, confirmed)
    ensures TabOk(t.(mounted := false), waiting, confirmed)
  {
  }

  lemma {:induction false} RunIsSafe(events: seq<Event>)
    ensures Safe(Run(events))
  {
    if events == [] {
      assert Safe(START);
    } else {
      hide Safe, Next;
      RunIsSafe(events[..|events| - 1]);
      NextIsSafe(Run(events[..|events| - 1]), events[|events| - 1]);
    }
  }

  function RecordedOutcome(s: System): Option<Outcome> {
    if s.outcome.Some? then Some(OutcomeByAction(s.outcome.value.action)) else None
  }

  /** POSTs of one tab whose reply it still waits for. */
  function InFlight(s: System, t: nat): set<Promise> { set p | p in s.promises && p.Posting? && p.request.tab == t }

  /** Every accepted request has the recorded outcome. */
  ghost predicate AcceptedAlike(s: System) {
    forall r | r in s.accepted :: RecordedOutcome(s) == Some(OutcomeByAction(r.action))
  }

  /** Tab `t` shows done for an action whose outcome is not the recorded one. */
  predicate ShowsWrong(s: System, t: nat) {
    t in s.tabs && s.tabs[t].phase == Done && s.tabs[t].action.Some?
    && RecordedOutcome(s) != Some(OutcomeByAction(s.tabs[t].action.value))
  }

  /** On every run: a tab waits for at most one POST; a tab shows done only for an action of which its
      own request was accepted; and no tab is wrong about the outcome if the accepted requests are
      all alike. */
  lemma DoneTabsWereAccepted(events: seq<Event>)
    ensures var s := Run(events);
            && (forall t :: |InFlight(s, t)| <= 1)
            && (forall t | t in s.tabs && s.tabs[t].phase == Done ::
                  s.tabs[t].action.Some?
                  && exists r | r in s.accepted :: r.tab == t && r.action == s.tabs[t].action.value)
            && (AcceptedAlike(s) ==> forall t :: !ShowsWrong(s, t))
  {
    var s := Run(events);
    RunIsSafe(events);
    forall t ensures |InFlight(s, t)| <= 1 {
      OneFlight(s, t);
    }
    forall t | t in s.tabs && s.tabs[t].phase == Done
      ensures s.tabs[t].action.Some? && exists r | r in s.accepted :: r.tab == t && r.action == s.tabs[t].action.value
    {
      DoneIsConfirmed(s, t);
    }
    hide InFlight, PromisesOk, ServerOk, TabOk;
  }

  lemma DoneIsConfirmed(s: System, t: nat)
    requires Safe(s) && t in s.tabs && s.tabs[t].phase == Done
    ensures s.tabs[t].action.Some? && exists r | r in s.accepted :: r.tab == t && r.action == s.tabs[t].action.value
  {
    assert TabOk(s.tabs[t], WaitingOf(s, t), ConfirmedOf(s, t));
    var r :| r in ConfirmedOf(s, t) && r.action == s.tabs[t].action.value;
  }

  predicate KeepsQueue(events: seq<Event>) { forall k | 0 <= k < |events| :: !events[k].LoseQueue? }

  /** While the queue is kept, only the recorded request is accepted. */
  lemma {:induction false} OneAccepted(events: seq<Event>)
    requires KeepsQueue(events)
    ensures var s := Run(events);
            if s.outcome.Some? then s.accepted == {s.outcome.value} && s.stage != Waiting
            else s.accepted == {} && s.stage == Waiting
  {
    if events != [] {
      var front := events[..|events| - 1];
      assert forall k | 0 <= k < |front| :: front[k] == events[k];
      OneAccepted(front);
      OneMoreAccepted(Run(front), events[|events| - 1]);
      hide Next;
    }
  }

  lemma OneMoreAccepted(s: System, e: Event)
    requires !e.LoseQueue?
    requires if s.outcome.Some? then s.accepted == {s.outcome.value} && s.stage != Waiting
             else s.accepted == {} && s.stage == Waiting
    ensures var s' := Next(s, e);
            if s'.outcome.Some? then s'.accepted == {s'.outcome.value} && s'.stage != Waiting
            else s'.accepted == {} && s'.stage == Waiting
  {
  }

  /** On every run on which the queue is kept: a tab waits for at most one POST; at most one tab shows
      done; and a tab that shows done for an action is right: its own request was recorded, with
      that outcome. */
  lemma DoneTabsAreRight(events: seq<Event>)
    requires KeepsQueue(events)
    ensures var s := Run(events);
            && (forall t :: |InFlight(s, t)| <= 1)
            && (forall t, u | t in s.tabs && u in s.tabs && s.tabs[t].phase == Done && s.tabs[u].phase == Done ::
                  t == u)
            && (forall t | t in s.tabs && s.tabs[t].phase == Done ::
                  s.tabs[t].action.Some? && s.outcome.Some? && s.outcome.value.tab == t
                  && RecordedOutcome(s) == Some(OutcomeByAction(s.tabs[t].action.value)))
  {
    DoneTabsWereAccepted(events);
    OneAccepted(events);
    hide Run, InFlight;
  }

  /** While the queue is kept, a tab that shows done shows an answer exactly when the session was
      accepted, and otherwise the session was declined. */
  lemma DoneMeansOutcome(events: seq<Event>, t: nat)
    requires KeepsQueue(events)
    requires t in Run(events).tabs && Run(events).tabs[t].phase == Done
    ensures var s := Run(events);
            && s.tabs[t].action.Some?
            && RecordedOutcome(s) == Some(if s.tabs[t].action.value == Answer then Accepted else Declined)
  {
    DoneTabsAreRight(events);
    hide Run, InFlight;
  }

  lemma OneFlight(s: System, t: nat)
    requires Safe(s)
    ensures |InFlight(s, t)| <= 1
  {
    var flights := InFlight(s, t);
    if flights != {} {
      var p :| p in flights;
      OnlyPromise(s, t);
      assert flights <= WaitingOf(s, t) == {p};
      assert flights == {p};
    }
  }

  lemma FirstWriteWins(s: System, e: Event)
    requires s.outcome.Some?
    ensures Next(s, e).outcome == s.outcome
  {
  }

  /** The server never replaces a recorded outcome. */
  lemma {:induction false} OutcomeIsFinal(events: seq<Event>, more: seq<Event>)
    requires Run(events).outcome.Some?
    ensures Run(events + more).outcome == Run(events).outcome
  {
    hide Next;
    if more == [] {
      assert events + more == events;
    } else {
      var front, last := more[..|more| - 1], more[|more| - 1];
      OutcomeIsFinal(events, front);
      FirstWriteWins(Run(events + front), last);
      RunSnoc(events + front, last);
      assert events + more == events + front + [last];
    }
  }

  lemma RunSnoc(events: seq<Event>, e: Event)
    ensures Run(events + [e]) == Next(Run(events), e)
  {
    assert (events + [e])[..|events|] == events;
  }

  // ------------------------------------------- what tabs can still come to show

  /** Some tab shows done for an action of a kind. */
  predicate Shows(s: System, kind: Action -> bool) {
    exists t | t in s.tabs :: s.tabs[t].phase == Done && s.tabs[t].action.Some? && kind(s.tabs[t].action.value)
  }

  /** A mounted tab waits for the drain of an accepted request of a kind, or for its reply, which is
      still under way. */
  ghost predicate Awaited(s: System, kind: Action -> bool) {
    exists r | r in s.accepted :: kind(r.action) && Awaits(s, r)
  }

  predicate Awaits(s: System, r: Request) {
    && r.tab in s.tabs && s.tabs[r.tab].mounted
    && (Draining(r, true) in s.promises
        || (Posting(r) in s.promises && r.id in s.replies && s.replies[r.id] == Recorded))
  }

  /** Nobody begins to wait for a request that was accepted before. */
  lemma NobodyBeginsToWait(s: System, e: Event, r: Request)
    requires Safe(s) && r in s.accepted && Awaits(Next(s, e), r)
    ensures Awaits(s, r)
  {
    AcceptedIsPosted(s, r);
    PromisesHaveTabs(s);
    if e.Handle? && Next(s, e) != s {
      HandledIsNew(s, e.request, r);
      hide Safe;
    } else if IsServerEvent(e) {
      hide Safe, Settle, AfterLoad, AfterSubmit, AfterDrain;
    } else {
      TabEventBeginsNoWait(s, e, r);
    }
  }

  lemma TabEventBeginsNoWait(s: System, e: Event, r: Request)
    requires Posted(s, r) && !IsServerEvent(e) && Awaits(Next(s, e), r)
    requires forall p | p in s.promises :: p.request.tab in s.tabs
    ensures Awaits(s, r)
  {
    if e.Receive? || e.GiveUp? {
      hide AfterLoad, AfterSubmit, AfterDrain;
    } else {
      hide Settle, AfterReply, DrainAfter;
    }
  }

  lemma AcceptedIsPosted(s: System, r: Request)
    requires Safe(s) && r in s.accepted
    ensures Posted(s, r) && r !in s.wire
  {
  }

  lemma HandledIsNew(s: System, q: Request, r: Request)
    requires Safe(s) && r in s.accepted && q in s.wire
    ensures q.id != r.id
  {
  }

  lemma PromisesHaveTabs(s: System)
    requires Safe(s)
    ensures forall p | p in s.promises :: p.request.tab in s.tabs
  {
  }

  /** A tab comes to show done by the drain of an accepted request it waits for. */
  lemma DoneWasAwaited(s: System, e: Event, t: nat)
    requires Safe(s) && t in Next(s, e).tabs && Next(s, e).tabs[t].phase == Done
    ensures (t in s.tabs && s.tabs[t].phase == Done && s.tabs[t].action == Next(s, e).tabs[t].action)
            || (e.DrainDone? && e.won && e.request in s.accepted && Awaits(s, e.request)
                && Next(s, e).tabs[t].action == Some(e.request.action))
  {
    if e.DrainDone? && e.won && Next(s, e) != s { WonIsAccepted(s, e.request); }
    if e.DrainDone? {
      hide Safe, AfterLoad, AfterSubmit, AfterReply, Settle;
    } else {
      hide Safe;
      OnlyDrainsShow(s, e, t);
    }
  }

  lemma OnlyDrainsShow(s: System, e: Event, t: nat)
    requires !e.DrainDone? && t in Next(s, e).tabs && Next(s, e).tabs[t].phase == Done
    ensures t in s.tabs && s.tabs[t].phase == Done && s.tabs[t].action == Next(s, e).tabs[t].action
  {
    hide AfterDrain, DrainAfter;
  }

  lemma WonIsAccepted(s: System, r: Request)
    requires Safe(s) && Draining(r, true) in s.promises
    ensures r in s.accepted
  {
    assert Draining(r, true) in WaitingOf(s, r.tab);
    assert TabOk(s.tabs[r.tab], WaitingOf(s, r.tab), ConfirmedOf(s, r.tab));
    assert r in ConfirmedOf(s, r.tab);
  }

  lemma NobodyWillShow(s: System, e: Event, kind: Action -> bool)
    requires Safe(s) && Next(s, e).accepted == s.accepted && !Shows(s, kind) && !Awaited(s, kind)
    ensures !Shows(Next(s, e), kind) && !Awaited(Next(s, e), kind)
  {
    hide Safe, Next, Awaits;
    var s' := Next(s, e);
    forall t | t in s'.tabs
      ensures !(s'.tabs[t].phase == Done && s'.tabs[t].action.Some? && kind(s'.tabs[t].action.value))
    {
      if s'.tabs[t].phase == Done { DoneWasAwaited(s, e, t); }
    }
    forall r | r in s'.accepted ensures !(kind(r.action) && Awaits(s', r)) {
      if Awaits(s', r) { NobodyBeginsToWait(s, e, r); }
    }
  }

  lemma AcceptedStays(s: System, e: Event)
    ensures s.accepted <= Next(s, e).accepted
  {
  }

  lemma {:induction false} AcceptedGrows(events: seq<Event>, more: seq<Event>)
    ensures Run(events).accepted <= Run(events + more).accepted
  {
    hide Next;
    if more == [] {
      assert events + more == events;
    } else {
      var front, last := more[..|more| - 1], more[|more| - 1];
      AcceptedGrows(events, front);
      AcceptedStays(Run(events + front), last);
      RunSnoc(events + front, last);
      assert events + more == events + front + [last];
    }
  }

  lemma {:induction false} NeverShows(events: seq<Event>, more: seq<Event>, kind: Action -> bool)
    requires !Shows(Run(events), kind) && !Awaited(Run(events), kind)
    requires Run(events + more).accepted == Run(events).accepted
    ensures !Shows(Run(events + more), kind) && !Awaited(Run(events + more), kind)
  {
    hide Shows, Awaited, Next;
    if more == [] {
      assert events + more == events;
    } else {
      var front, last := more[..|more| - 1], more[|more| - 1];
      AcceptedGrows(events, front);
      AcceptedStays(Run(events + front), last);
      RunSnoc(events + front, last);
      assert events + more == events + front + [last];
      NeverShows(events, front, kind);
      RunIsSafe(events + front);
      NobodyWillShow(Run(events + front), last, kind);
    }
  }

  /** Drain, or reply and drain, of the awaited request. */
  lemma AwaitedWillShow(events: seq<Event>, r: Request) returns (more: seq<Event>)
    requires r in Run(events).accepted && Awaits(Run(events), r)
    ensures var s := Run(events + more);
            && s.accepted == Run(events).accepted && KeepsQueue(more)
            && r.tab in s.tabs && s.tabs[r.tab].phase == Done && s.tabs[r.tab].action == Some(r.action)
  {
    var s := Run(events);
    hide Run;
    if Draining(r, true) in s.promises {
      more := [DrainDone(r, true)];
      RunSnoc(events, DrainDone(r, true));
    } else {
      more := [Receive(r)] + [DrainDone(r, true)];
      RunSnoc(events, Receive(r));
      RunSnoc(events + [Receive(r)], DrainDone(r, true));
      assert events + more == events + [Receive(r)] + [DrainDone(r, true)];
    }
  }

  /** A continuation on which no further request is accepted. */
  ghost predicate AcceptsNothing(events: seq<Event>, more: seq<Event>) {
    Run(events + more).accepted == Run(events).accepted
  }

  /** In every reachable state: some continuation without a further acceptance shows done for an action
      of a kind exactly when a tab does so now, or is mounted and still waits for what can tell it
      that its request of that kind was accepted. */
  lemma ShowsExactlyWhileAwaited(events: seq<Event>, kind: Action -> bool)
    ensures (exists more | AcceptsNothing(events, more) :: Shows(Run(events + more), kind)) <==>
            Shows(Run(events), kind) || Awaited(Run(events), kind)
  {
    if Shows(Run(events), kind) {
      assert events + [] == events;
      assert AcceptsNothing(events, []) && Shows(Run(events + []), kind);
    } else if Awaited(Run(events), kind) {
      var r :| r in Run(events).accepted && kind(r.action) && Awaits(Run(events), r);
      hide Run, Awaits;
      var more := AwaitedWillShow(events, r);
      assert AcceptsNothing(events, more) && Shows(Run(events + more), kind);
    } else {
      hide Run, Shows, Awaited;
      forall more | AcceptsNothing(events, more) ensures !Shows(Run(events + more), kind) {
        NeverShows(events, more, kind);
      }
    }
  }

  function AnyAction(): Action -> bool { (a: Action) => true }

  function NotRecorded(s: System): Action -> bool { (a: Action) => RecordedOutcome(s) != Some(OutcomeByAction(a)) }

  /** While the queue is kept: after an outcome is recorded, some continuation shows done exactly when a
      tab does so now or the winner's tab is mounted and still waits for what can tell it. */
  lemma DoneExactlyWhileAwaited(events: seq<Event>)
    requires KeepsQueue(events) && Run(events).outcome.Some?
    ensures (exists more | KeepsQueue(more) :: Shows(Run(events + more), AnyAction())) <==>
            Shows(Run(events), AnyAction()) || Awaits(Run(events), Run(events).outcome.value)
  {
    OneAccepted(events);
    WinnerIsAwaited(Run(events));
    hide Run, Shows, Awaited, Awaits, AnyAction;
    if Shows(Run(events), AnyAction()) {
      assert events + [] == events;
      assert KeepsQueue([]) && Shows(Run(events + []), AnyAction());
    } else if Awaits(Run(events), Run(events).outcome.value) {
      var more := AwaitedWillShow(events, Run(events).outcome.value);
      DoneIsShown(Run(events + more), Run(events).outcome.value.tab);
    } else {
      forall more | KeepsQueue(more) ensures !Shows(Run(events + more), AnyAction()) {
        OneAccepted(events + more);
        OutcomeIsFinal(events, more);
        NeverShows(events, more, AnyAction());
      }
    }
  }

  lemma WinnerIsAwaited(s: System)
    requires s.outcome.Some? && s.accepted == {s.outcome.value}
    ensures Awaited(s, AnyAction()) <==> Awaits(s, s.outcome.value)
  {
    hide Awaits;
  }

  lemma DoneIsShown(s: System, t: nat)
    requires t in s.tabs && s.tabs[t].phase == Done && s.tabs[t].action.Some?
    ensures Shows(s, AnyAction())
  {
  }

  /** Where several requests were accepted: no tab comes to be wrong about the outcome, without a further
      acceptance, exactly when none is wrong now and no mounted tab waits for an accepted request with
      another outcome than the recorded one. */
  lemma WrongExactlyWhileAwaited(events: seq<Event>)
    requires Run(events).outcome.Some?
    ensures (forall more | AcceptsNothing(events, more) :: forall t :: !ShowsWrong(Run(events + more), t)) <==>
            !Shows(Run(events), NotRecorded(Run(events))) && !Awaited(Run(events), NotRecorded(Run(events)))
  {
    var kind := NotRecorded(Run(events));
    hide Run, Shows, Awaited, ShowsWrong, NotRecorded;
    ShowsExactlyWhileAwaited(events, kind);
    forall more ensures Shows(Run(events + more), kind) <==> exists t :: ShowsWrong(Run(events + more), t) {
      OutcomeIsFinal(events, more);
      WrongIsShown(Run(events), Run(events + more));
    }
  }

  /** Once the session has gone on it stays so, and nothing more is accepted. */
  lemma {:induction false} GoneOnAcceptsNothing(events: seq<Event>, more: seq<Event>)
    requires Run(events).stage == GoneOn
    ensures Run(events + more).stage == GoneOn && AcceptsNothing(events, more)
  {
    hide Next;
    if more == [] {
      assert events + more == events;
    } else {
      var front, last := more[..|more| - 1], more[|more| - 1];
      GoneOnAcceptsNothing(events, front);
      GoneOnStays(Run(events + front), last);
      RunSnoc(events + front, last);
      assert events + more == events + front + [last];
    }
  }

  lemma GoneOnStays(s: System, e: Event)
    requires s.stage == GoneOn
    ensures Next(s, e).stage == GoneOn && Next(s, e).accepted == s.accepted
  {
  }

  /** Before the session has gone on, losing the queue lets it accept a request of a new tab. */
  lemma LostQueueAccepts(events: seq<Event>, a: Action) returns (more: seq<Event>, r: Request)
    requires Run(events).outcome.Some? && Run(events).stage != GoneOn
    ensures r.action == a && r in Run(events + more).accepted && Awaits(Run(events + more), r)
  {
    more, r := SentFromNewTab(events, a);
    var s := Run(events + more);
    hide Run;
    RunSnoc(events + more, Handle(r));
    assert events + more + [Handle(r)] == events + (more + [Handle(r)]);
    more := more + [Handle(r)];
  }

  lemma SentFromNewTab(events: seq<Event>, a: Action) returns (more: seq<Event>, r: Request)
    requires Run(events).outcome.Some? && Run(events).stage != GoneOn
    ensures var s := Run(events + more);
            && r.action == a && s.stage == Waiting && r in s.wire && Posting(r) in s.promises
            && r.tab in s.tabs && s.tabs[r.tab].mounted
  {
    var s := Run(events);
    var t := SomethingAbove(s.tabs.Keys);
    var id := SomethingAbove(s.posted.Keys);
    r := Request(id, t, a);
    hide Run;
    var lost := events + [LoseQueue];
    RunSnoc(events, LoseQueue);
    RunSnoc(lost, Open(t));
    RunSnoc(lost + [Open(t)], Click(t, a, id));
    more := [LoseQueue, Open(t), Click(t, a, id)];
    assert events + more == lost + [Open(t)] + [Click(t, a, id)];
  }

  /** After an outcome is recorded: no tab will ever be wrong about it exactly when the session has gone
      on, so that nothing more is accepted, no tab is wrong now, and no mounted tab waits for an
      accepted request with another outcome than the recorded one. */
  lemma NeverWrongExactly(events: seq<Event>)
    requires Run(events).outcome.Some?
    ensures (forall more: seq<Event>, t: nat :: !ShowsWrong(Run(events + more), t)) <==>
            && Run(events).stage == GoneOn
            && !Shows(Run(events), NotRecorded(Run(events))) && !Awaited(Run(events), NotRecorded(Run(events)))
  {
    hide Run, Shows, Awaited, ShowsWrong, NotRecorded, AcceptsNothing;
    WrongExactlyWhileAwaited(events);
    if Run(events).stage == GoneOn {
      forall more: seq<Event> ensures AcceptsNothing(events, more) { GoneOnAcceptsNothing(events, more); }
    } else {
      var more, t := LostQueueMisleadsSomebody(events);
    }
  }

  /** Before the session has gone on, some continuation makes a tab wrong. */
  lemma LostQueueMisleadsSomebody(events: seq<Event>) returns (more: seq<Event>, t: nat)
    requires Run(events).outcome.Some? && Run(events).stage != GoneOn
    ensures ShowsWrong(Run(events + more), t)
  {
    var a := if RecordedOutcome(Run(events)) == Some(Accepted) then Defer else Answer;
    hide Run, Awaits;
    var sent, r := LostQueueAccepts(events, a);
    var rest := AwaitedWillShow(events + sent, r);
    more, t := sent + rest, r.tab;
    assert events + more == events + sent + rest;
    OutcomeIsFinal(events, more);
  }

  lemma WrongIsShown(was: System, s: System)
    requires s.outcome == was.outcome
    ensures Shows(s, NotRecorded(was)) <==> exists t :: ShowsWrong(s, t)
  {
    if Shows(s, NotRecorded(was)) {
      var t :| t in s.tabs && s.tabs[t].phase == Done && s.tabs[t].action.Some?
               && NotRecorded(was)(s.tabs[t].action.value);
      assert ShowsWrong(s, t);
    }
  }

  /** Tab 0 sends its answer. */
  lemma AnswerSent() returns (events: seq<Event>)
    ensures Run(events) == System(map[0 := Tab(Submitting, None, None, false, true, true)],
                                  {Posting(Request(0, 0, Answer))}, map[0 := Request(0, 0, Answer)],
                                  {Request(0, 0, Answer)}, map[], None, Waiting, {})
  {
    events := [];
    assert Run(events) == START;
    hide Run;
    events := Extend(events, Open(0));
    events := Extend(events, Load(0, Found));
    assert Run(events) == System(map[0 := Tab(Ready, None, None, false, false, true)], {}, map[], {}, map[], None,
                                 Waiting, {});
    events := Extend(events, Click(0, Answer, 0));
  }

  /** It is recorded, its acknowledgement is lost. */
  lemma RecordedButLost() returns (events: seq<Event>)
    ensures Run(events) == System(map[0 := Tab(Ready, None, None, true, false, true)], {},
                                  map[0 := Request(0, 0, Answer)], {}, map[0 := Recorded],
                                  Some(Request(0, 0, Answer)), Queued, {Request(0, 0, Answer)})
  {
    var first := Request(0, 0, Answer);
    events := AnswerSent();
    hide Run;
    events := Extend(events, Handle(first));
    events := Extend(events, GiveUp(first));
  }

  /** The retry of tab 0 is answered 409. */
  lemma RetryRefused() returns (events: seq<Event>)
    ensures Run(events) == System(map[0 := Tab(Submitting, None, None, false, true, true)],
                                  {Posting(Request(1, 0, Answer))},
                                  map[0 := Request(0, 0, Answer), 1 := Request(1, 0, Answer)], {},
                                  map[0 := Recorded, 1 := Conflict], Some(Request(0, 0, Answer)), Queued,
                                  {Request(0, 0, Answer)})
  {
    var first, second := Request(0, 0, Answer), Request(1, 0, Answer);
    events := RecordedButLost();
    hide Run;
    events := Extend(events, Click(0, Answer, 1));
    assert Run(events) == System(map[0 := Tab(Submitting, None, None, false, true, true)], {Posting(second)},
                                 map[0 := first, 1 := second], {second}, map[0 := Recorded], Some(first), Queued,
                                 {first});
    events := Extend(events, Handle(second));
  }

  /** An instance in which nobody waits any more: after a lost acknowledgement the retry shows the
      neutral "already handled" message in the very tab whose answer was recorded. */
  lemma LostAckShowsGone() returns (events: seq<Event>)
    ensures var s := Run(events);
            && s.outcome == Some(Request(0, 0, Answer)) && s.tabs.Keys == {0}
            && s.tabs[0].phase == Failed && s.tabs[0].errorKind == Some(Gone)
  {
    var second := Request(1, 0, Answer);
    events := RetryRefused();
    hide Run;
    events := Extend(events, Receive(second));
    events := Extend(events, DrainDone(second, false));
  }

  /** The queue is lost, and tab 0 changes its mind to a deferral. */
  lemma ChangedMind() returns (events: seq<Event>)
    ensures Run(events) == System(map[0 := Tab(Submitting, None, None, false, true, true)],
                                  {Posting(Request(1, 0, Defer))},
                                  map[0 := Request(0, 0, Answer), 1 := Request(1, 0, Defer)],
                                  {Request(1, 0, Defer)}, map[0 := Recorded], Some(Request(0, 0, Answer)), Waiting,
                                  {Request(0, 0, Answer)})
  {
    events := RecordedButLost();
    hide Run;
    events := Extend(events, LoseQueue);
    events := Extend(events, Click(0, Defer, 1));
  }

  /** The deferral is accepted; the answer stays the recorded outcome. */
  lemma AcceptedUnwritten() returns (events: seq<Event>)
    ensures Run(events) == System(map[0 := Tab(Submitting, None, None, false, true, true)],
                                  {Posting(Request(1, 0, Defer))},
                                  map[0 := Request(0, 0, Answer), 1 := Request(1, 0, Defer)],
                                  {}, map[0 := Recorded, 1 := Recorded], Some(Request(0, 0, Answer)), Queued,
                                  {Request(0, 0, Answer), Request(1, 0, Defer)})
  {
    events := ChangedMind();
    hide Run;
    events := Extend(events, Handle(Request(1, 0, Defer)));
  }

  /** An instance in which a tab is wrong: after a lost acknowledgement and a lost queue, the deferral
      is accepted without being written, and the tab shows it as done over the recorded answer. */
  lemma LostQueueMisleads() returns (events: seq<Event>)
    ensures var s := Run(events);
            && RecordedOutcome(s) == Some(Accepted) && s.tabs.Keys == {0}
            && s.tabs[0].phase == Done && s.tabs[0].action == Some(Defer) && ShowsWrong(s, 0)
  {
    var second := Request(1, 0, Defer);
    events := AcceptedUnwritten();
    hide Run;
    events := Extend(events, Receive(second));
    events := Extend(events, DrainDone(second, true));
  }

  lemma Extend(events: seq<Event>, e: Event) returns (longer: seq<Event>)
    ensures Run(longer) == Next(Run(events), e)
  {
    RunSnoc(events, e);
    longer := events + [e];
  }

  // ------------------------------------------------------------ tabs as objects

  /** `h` is what tab `t` of `s` looks like, and waits for what the system says it does. */
  ghost predicate Mirrors(h: Hook, s: System, t: nat)
    reads h
  {
    && h.Valid() && t in s.tabs && h.Value() == s.tabs[t]
    && h.waiting == WaitingOf(s, t) && h.confirmed <= ConfirmedOf(s, t)
  }

  ghost predicate AllMirror(hooks: map<nat, Hook>, s: System)
    reads hooks.Values
  {
    && hooks.Keys == s.tabs.Keys
    && (forall t | t in hooks :: Mirrors(hooks[t], s, t))
    && (forall t, u | t in hooks && u in hooks && t != u :: hooks[t] != hooks[u])
  }

  /** The tab an event is about, if it is about one. */
  function Subject(e: Event): Option<nat> {
    match e
    case Open(t) => Some(t)
    case Load(t, _) => Some(t)
    case Unmount(t) => Some(t)
    case Click(t, _, _) => Some(t)
    case Receive(r) => Some(r.tab)
    case GiveUp(r) => Some(r.tab)
    case DrainDone(r, _) => Some(r.tab)
    case _ => None
  }

  lemma OthersAreLeftAlone(s: System, e: Event, t: nat)
    requires Safe(s) && t in s.tabs
    ensures t in Next(s, e).tabs && ConfirmedOf(s, t) <= ConfirmedOf(Next(s, e), t)
    ensures Subject(e) != Some(t) || Next(s, e) == s ==>
              Next(s, e).tabs[t] == s.tabs[t] && WaitingOf(Next(s, e), t) == WaitingOf(s, t)
  {
    hide Safe;
  }

  lemma TabsOpen(s: System, e: Event)
    ensures Next(s, e).tabs.Keys == s.tabs.Keys + if e.Open? then {e.tab} else {}
  {
  }

  /** What the event means for the tab it is about. */
  lemma SubjectWaits(s: System, e: Event, t: nat)
    requires Safe(s) && Subject(e) == Some(t) && t in s.tabs && Next(s, e) != s
    ensures WaitingOf(Next(s, e), t) ==
            match e
            case Click(t, a, id) => WaitingOf(s, t) + {Posting(Request(id, t, a))}
            case Receive(r) => DrainAfter(r, s.replies[r.id])
            case GiveUp(r) => {}
            case DrainDone(r, won) => {}
            case _ => WaitingOf(s, t)
  {
    OnlyPromise(s, t);
    hide Safe;
  }

  lemma OnlyPromise(s: System, t: nat)
    requires Safe(s) && t in s.tabs
    ensures forall p | p in WaitingOf(s, t) :: WaitingOf(s, t) == {p}
  {
    assert TabOk(s.tabs[t], WaitingOf(s, t), ConfirmedOf(s, t));
  }

  lemma OpenedWaits(s: System, t: nat)
    requires Safe(s) && t !in s.tabs
    ensures var s' := Next(s, Open(t)); s'.tabs == s.tabs[t := NEW_TAB] && WaitingOf(s', t) == {}
  {
    hide TabsOk, ServerOk;
  }

  /** An event about the open tab of `h`: its hook is called. */
  method HappenTo(h: Hook, s: System, e: Event, t: nat)
    requires Safe(s) && Mirrors(h, s, t) && Subject(e) == Some(t)
    modifies h
    ensures Mirrors(h, Next(s, e), t)
  {
    hide Safe, TabOk, WaitingOf, AfterReply, AfterDrain, AfterLoad, AfterSubmit;
    OthersAreLeftAlone(s, e, t);
    if Next(s, e) != s { SubjectWaits(s, e, t); }
    match e {
      case Open(_) =>
      case Load(_, r) => h.OnLoad(r);
      case Unmount(_) => h.Unmount();
      case Click(_, a, id) =>
        if id !in s.posted {
          ClickGoesOut(s, t);
          var posts := h.Submit(Request(id, t, a));
        }
      case Receive(r) =>
        if Posting(r) in s.promises && r.id in s.replies {
          PromiseWaits(s, Posting(r));
          RepliesAreTrue(s, r);
          h.OnReply(r, s.replies[r.id]);
        }
      case GiveUp(r) =>
        if Posting(r) in s.promises {
          PromiseWaits(s, Posting(r));
          h.OnReply(r, Refused);
        }
      case DrainDone(r, won) =>
        if Draining(r, won) in s.promises {
          PromiseWaits(s, Draining(r, won));
          h.OnDrained(r, won);
        }
    }
  }

  lemma PromiseWaits(s: System, p: Promise)
    ensures p in s.promises ==> p in WaitingOf(s, p.request.tab)
  {
  }

  lemma ClickGoesOut(s: System, t: nat)
    requires Safe(s) && t in s.tabs
    ensures s.tabs[t].inFlight <==> WaitingOf(s, t) != {}
  {
    assert TabOk(s.tabs[t], WaitingOf(s, t), ConfirmedOf(s, t));
  }

  method OpenTab(hooks: map<nat, Hook>, ghost s: System, t: nat) returns (after: map<nat, Hook>)
    requires Safe(s) && AllMirror(hooks, s) && t !in hooks
    ensures AllMirror(after, Next(s, Open(t)))
    ensures forall u | u in after :: (u in hooks && after[u] == hooks[u]) || fresh(after[u])
  {
    hide Safe, Next, TabOk, WaitingOf, ConfirmedOf;
    OpenedWaits(s, t);
    var h := new Hook();
    after := hooks[t := h];
    forall u | u in hooks ensures Mirrors(after[u], Next(s, Open(t)), u) {
      OthersAreLeftAlone(s, Open(t), u);
    }
  }

  /** Any other event: at most one hook is called. */
  method HappenToTabs(hooks: map<nat, Hook>, s: System, e: Event)
    requires Safe(s) && AllMirror(hooks, s) && !(e.Open? && e.tab !in hooks)
    modifies hooks.Values
    ensures AllMirror(hooks, Next(s, e))
  {
    hide Safe, Next, TabOk, WaitingOf, ConfirmedOf;
    if Subject(e).Some? && Subject(e).value in hooks {
      HappenTo(hooks[Subject(e).value], s, e, Subject(e).value);
    }
    TabsOpen(s, e);
    forall t | t in hooks ensures Mirrors(hooks[t], Next(s, e), t) {
      OthersAreLeftAlone(s, e, t);
    }
  }

  method Happen(hooks: map<nat, Hook>, s: System, e: Event) returns (after: map<nat, Hook>)
    requires Safe(s) && AllMirror(hooks, s)
    modifies hooks.Values
    ensures AllMirror(after, Next(s, e))
    ensures forall t | t in after :: (t in hooks && after[t] == hooks[t]) || fresh(after[t])
  {
    hide Safe, Next, Mirrors;
    after := hooks;
    if e.Open? && e.tab !in hooks {
      after := OpenTab(hooks, s, e.tab);
    } else {
      HappenToTabs(hooks, s, e);
    }
  }

  /** A whole run of any number of tabs: every hook ends as its tab in the run, and so no two show
      done and none is wrong about the outcome as long as the queue is kept. */
  method Play(events: seq<Event>) returns (hooks: map<nat, Hook>)
    ensures AllMirror(hooks, Run(events)) && forall t | t in hooks :: fresh(hooks[t])
    ensures KeepsQueue(events) ==>
              forall t, u | t in hooks && u in hooks && hooks[t].phase == Done && hooks[u].phase == Done :: t == u
    ensures KeepsQueue(events) ==>
              forall t | t in hooks && hooks[t].phase == Done ::
                hooks[t].action.Some?
                && RecordedOutcome(Run(events)) == Some(OutcomeByAction(hooks[t].action.value))
  {
    hide Safe, AllMirror, Next;
    hooks := map[];
    var s := START;
    assert AllMirror(hooks, START) by { NoTabsMirror(hooks); }
    for k := 0 to |events|
      invariant s == Run(events[..k]) && AllMirror(hooks, s) && forall t | t in hooks :: fresh(hooks[t])
    {
      assert events[..k + 1][..k] == events[..k];
      RunIsSafe(events[..k]);
      hooks := Happen(hooks, s, events[k]);
      s := Next(s, events[k]);
    }
    assert events[..|events|] == events;
    if KeepsQueue(events) { DoneTabsAreRight(events); }
    MirroredTabs(hooks, s);
  }

  lemma NoTabsMirror(hooks: map<nat, Hook>)
    requires hooks == map[]
    ensures AllMirror(hooks, START)
  {
  }

  lemma MirroredTabs(hooks: map<nat, Hook>, s: System)
    requires AllMirror(hooks, s)
    ensures hooks.Keys == s.tabs.Keys && forall t | t in hooks :: hooks[t].Value() == s.tabs[t]
  {
  }
}
