/** `useAskQuestion.ts`: asking a question over a network that loses requests and
    acknowledgements. Each handler call is one atomic step on the committed state. */
module AskQuestion {
  import opened Prelude

  type SessionId = nat
  type User = nat

  /** State of the hook. `busy` is `submitting`. */
  datatype Ask = Ask(question: string, busy: bool, error: bool, pending: Option<SessionId>)

  const EMPTY_ASK: Ask := Ask("", false, false, None)

  /** White space and line terminators as `String.prototype.trim` removes them. */
  predicate IsSpace(c: char) {
    || '\t' <= c <= '\r' || c == ' ' || c == '\U{A0}' || c == '\U{1680}' || '\U{2000}' <= c <= '\U{200A}'
    || c == '\U{2028}' || c == '\U{2029}' || c == '\U{202F}' || c == '\U{205F}' || c == '\U{3000}' || c == '\U{FEFF}'
  }

  function TrimLeft(s: string): string { if s != "" && IsSpace(s[0]) then TrimLeft(s[1..]) else s }

  function TrimRight(s: string): string {
    if s != "" && IsSpace(s[|s| - 1]) then TrimRight(s[..|s| - 1]) else s
  }

  function Trim(s: string): string { TrimRight(TrimLeft(s)) }

  lemma {:induction false} TrimLeftSplits(s: string) returns (n: nat)
    ensures n <= |s| && TrimLeft(s) == s[n..] && forall k | 0 <= k < n :: IsSpace(s[k])
    ensures n < |s| ==> !IsSpace(s[n])
  {
    hide IsSpace;
    if s != "" && IsSpace(s[0]) {
      var m := TrimLeftSplits(s[1..]);
      n := m + 1;
      assert s[1..][m..] == s[n..];
      forall k | 0 <= k < n ensures IsSpace(s[k]) {
        if k > 0 { assert s[1..][k - 1] == s[k]; }
      }
    } else {
      n := 0;
    }
  }

  lemma {:induction false} TrimRightSplits(s: string) returns (n: nat)
    ensures n <= |s| && TrimRight(s) == s[..n] && forall k | n <= k < |s| :: IsSpace(s[k])
    ensures n > 0 ==> !IsSpace(s[n - 1])
  {
    hide IsSpace;
    n := |s|;
    if s != "" && IsSpace(s[|s| - 1]) {
      var front := s[..|s| - 1];
      n := TrimRightSplits(front);
      assert front[..n] == s[..n];
      assert forall k | 0 <= k < |front| :: front[k] == s[k];
    }
  }

  /** Trimming takes away white space at both ends, all of it, and nothing else. */
  lemma TrimSplits(s: string) returns (i: nat, j: nat)
    ensures i <= j <= |s| && Trim(s) == s[i..j]
    ensures (forall k | 0 <= k < i :: IsSpace(s[k])) && forall k | j <= k < |s| :: IsSpace(s[k])
    ensures i < j ==> !IsSpace(s[i]) && !IsSpace(s[j - 1])
  {
    i := TrimLeftSplits(s);
    var rest := s[i..];
    var n := TrimRightSplits(rest);
    j := i + n;
    hide *;
    assert rest[..n] == s[i..j];
    assert forall k | 0 <= k < |rest| :: rest[k] == s[i + k];
    forall k | j <= k < |s| ensures IsSpace(s[k]) {
      assert rest[k - i] == s[k];
    }
  }

  predicate CanSubmit(a: Ask, user: Option<User>) { Trim(a.question) != "" && !a.busy && user.Some? }

  // ---------------------------------------------------- what each handler does

  function AfterSetQuestion(a: Ask, value: string): Ask { a.(question := value, pending := None) }

  /** The session id a submit uses: the pending one, else `newId`. */
  function ChosenId(a: Ask, newId: SessionId): SessionId { if a.pending.Some? then a.pending.value else newId }

  function AfterSubmit(a: Ask, newId: SessionId): Ask {
    a.(busy := true, error := false, pending := Some(ChosenId(a, newId)))
  }

  /** 2xx, 409, or any other failure. */
  datatype Reply = Accepted | Conflict | Refused

  function AfterFailure(a: Ask): Ask { a.(busy := false, error := true) }

  function AfterReply(a: Ask, reply: Reply): Ask { if reply == Refused then AfterFailure(a) else a }

  /** `sent` are the POSTs since the last edit, `waiting` the id of the one whose reply is awaited,
      `left` whether the client has navigated. Retries carry one id and text, which are those of
      the form; the form is busy exactly while it waits and once it has navigated. */
  ghost predicate AskOk(a: Ask, sent: seq<(SessionId, string)>, waiting: Option<SessionId>, left: bool) {
    && (forall p | p in sent :: a.pending == Some(p.0) && Trim(a.question) == p.1)
    && (a.pending.Some? <==> sent != [])
    && (a.busy <==> waiting.Some? || left)
    && !(waiting.Some? && left)
  }

  class Hook {
    var question: string
    var submitting: bool
    var error: bool
    var pendingSessionId: Option<SessionId>
    ghost var sent: seq<(SessionId, string)>
    ghost var waiting: Option<SessionId>
    ghost var left: bool

    ghost function Value(): Ask reads this { Ask(question, submitting, error, pendingSessionId) }

    ghost predicate Valid() reads this { AskOk(Value(), sent, waiting, left) }

    constructor ()
      ensures Valid() && Value() == EMPTY_ASK && sent == [] && waiting == None && !left
    {
      question, submitting, error, pendingSessionId := "", false, false, None;
      sent, waiting, left := [], None, false;
    }

    /** An edit starts a new series of POSTs; a reply still awaited stays awaited. */
    method SetQuestion(value: string)
      requires Valid()
      modifies this
      ensures Valid() && sent == [] && waiting == old(waiting) && left == old(left)
      ensures Value() == AfterSetQuestion(old(Value()), value)
    {
      question := value;
      pendingSessionId := None;
      sent := [];
    }

    /** Returns the session id and trimmed text of the POST, if one goes out: only while nothing
        is awaited and nothing was navigated to, and equal to every POST since the last edit. */
    method Submit(user: Option<User>, newId: SessionId) returns (post: Option<(SessionId, string)>)
      requires Valid()
      modifies this
      ensures Valid() && left == old(left)
      ensures post.Some? <==> Trim(old(question)) != "" && user.Some? && old(waiting).None? && !old(left)
      ensures post.Some? ==> forall p | p in old(sent) :: p == post.value
      ensures post.Some? ==> old(sent) == [] ==> post.value == (newId, Trim(old(question)))
      ensures sent == old(sent) + if post.Some? then [post.value] else []
      ensures waiting == if post.Some? then Some(post.value.0) else old(waiting)
      ensures Value() == if post.Some? then AfterSubmit(old(Value()), newId) else old(Value())
    {
      var trimmed := Trim(question);
      if trimmed == "" || submitting || user.None? {
        return None;
      }
      submitting := true;
      error := false;
      var sessionId := if pendingSessionId.Some? then pendingSessionId.value else newId;
      pendingSessionId := Some(sessionId);
      if sent != [] { assert sent[0] in sent; }
      sent := sent + [(sessionId, trimmed)];
      waiting := Some(sessionId);
      return Some((sessionId, trimmed));
    }

    /** The POST settles: on 2xx and on 409 the client navigates to the id it sent, for the first
        and last time; otherwise the form is usable again and the next POST is a retry. */
    method OnReply(reply: Reply, sessionId: SessionId) returns (goto: Option<SessionId>)
      requires Valid() && waiting == Some(sessionId)
      modifies this
      ensures Valid() && sent == old(sent) && waiting == None
      ensures goto == if reply == Refused then None else old(waiting)
      ensures !old(left) && (left <==> goto.Some?)
      ensures submitting <==> left
      ensures Value() == AfterReply(old(Value()), reply)
    {
      waiting := None;
      if reply != Refused {
        left := true;
        return Some(sessionId);
      }
      error := true;
      submitting := false;
      return None;
    }
  }

  // -------------------------------------------------------- client and server

  /** A POST /ask. `attempt` tells retries apart, `edits` counts the edits made before it. */
  datatype Post = Post(attempt: nat, edits: nat, sid: SessionId, text: string, asker: User)

  /** `posts` remembers all POSTs ever sent, `waiting` is the one whose reply is awaited.
      `made` are the ids handed out so far; a new one is always different. */
  datatype System = System(ask: Ask, user: Option<User>, edits: nat, posts: set<Post>, waiting: Option<Post>,
                           made: set<SessionId>, wire: set<Post>, replies: map<Post, Reply>,
                           sessions: map<SessionId, Post>, visited: seq<SessionId>)

  const START: System := System(EMPTY_ASK, None, 0, {}, None, {}, {}, map[], map[], [])

  datatype Event =
    | SwitchUser(user: Option<User>)
    | Edit(value: string)
    | Submit(attempt: nat, newId: SessionId)
    | Handle(post: Post)        // the server makes the session, or answers 409 while it has it
    | Refuse(post: Post)        // the server fails without creating one
    | LosePost(post: Post)
    | LoseReply(post: Post)
    | Receive                   // the client gets the reply to the POST it waits for
    | GiveUp                    // that POST fails on the way; it may still arrive

  /** The client gets `reply` to the POST it waits for. */
  function Settle(s: System, sid: SessionId, reply: Reply): System {
    s.(ask := AfterReply(s.ask, reply), waiting := None,
       visited := if reply == Refused then s.visited else s.visited + [sid])
  }

  /** One event; an event that cannot happen changes nothing. The server answers 409 to every id it
      knows. The real one does so only while a run of the session is queued or paused, and takes
      another question under the id of a finished session; the client makes no difference. */
  function Next(s: System, e: Event): System {
    match e
    case SwitchUser(u) => s.(user := u)
    case Edit(value) => s.(ask := AfterSetQuestion(s.ask, value), edits := s.edits + 1)
    case Submit(attempt, newId) =>
      if !CanSubmit(s.ask, s.user) || newId in s.made || (exists p | p in s.posts :: p.attempt == attempt) then s
      else
        var p := Post(attempt, s.edits, ChosenId(s.ask, newId), Trim(s.ask.question), s.user.value);
        s.(ask := AfterSubmit(s.ask, newId), made := s.made + {p.sid}, posts := s.posts + {p},
           waiting := Some(p), wire := s.wire + {p})
    case Handle(p) =>
      if p !in s.wire then s
      else if p.sid in s.sessions then s.(wire := s.wire - {p}, replies := s.replies[p := Conflict])
      else s.(wire := s.wire - {p}, replies := s.replies[p := Accepted], sessions := s.sessions[p.sid := p])
    case Refuse(p) => if p !in s.wire then s else s.(wire := s.wire - {p}, replies := s.replies[p := Refused])
    case LosePost(p) => s.(wire := s.wire - {p})
    case LoseReply(p) => s.(replies := s.replies - {p})
    case Receive =>
      if s.waiting.None? || s.waiting.value !in s.replies then s
      else Settle(s, s.waiting.value.sid, s.replies[s.waiting.value])
    case GiveUp => if s.waiting.None? then s else Settle(s, s.waiting.value.sid, Refused)
  }

  function Run(events: seq<Event>): System {
    if events == [] then START else Next(Run(events[..|events| - 1]), events[|events| - 1])
  }

  // ------------------------------------------------------------------- safety

  /** POSTs between the same two edits carry the same id and text, others another id. */
  ghost predicate OneIdPerEdit(s: System) {
    && (forall p, q | p in s.posts && q in s.posts ::
          (p.edits == q.edits <==> p.sid == q.sid) && (p.edits == q.edits ==> p.text == q.text))
    && (forall p | p in s.posts :: p.edits <= s.edits && p.sid in s.made)
    && (forall p | p in s.posts && p.edits == s.edits ::
          s.ask.pending == Some(p.sid) && p.text == Trim(s.ask.question))
    && (s.ask.pending.Some? ==> exists p :: p in s.posts && p.edits == s.edits)
  }

  ghost predicate ServerHoldsPosts(s: System) {
    && s.wire <= s.posts && s.replies.Keys <= s.posts
    && (forall sid | sid in s.sessions :: s.sessions[sid] in s.posts && s.sessions[sid].sid == sid)
    && (forall p | p in s.replies && s.replies[p] != Refused :: p.sid in s.sessions)
  }

  /** The hook is busy exactly while it waits and once it has navigated. */
  ghost predicate NavigatesOnce(s: System) {
    && (s.ask.busy ==> s.waiting.Some? || s.visited != [])
    && (s.waiting.Some? ==> s.waiting.value in s.posts && s.ask.busy && s.visited == [])
    && |s.visited| <= 1
    && (s.visited != [] ==> s.ask.busy && s.visited[0] in s.sessions)
  }

  ghost predicate Safe(s: System) { OneIdPerEdit(s) && ServerHoldsPosts(s) && NavigatesOnce(s) }

  lemma SubmitIsSafe(s: System, attempt: nat, newId: SessionId)
    requires Safe(s)
    ensures Safe(Next(s, Submit(attempt, newId)))
  {
    var s' := Next(s, Submit(attempt, newId));
    if s' != s {
      var p := s'.waiting.value;
      assert p in s'.posts && p.edits == s.edits && p.sid == ChosenId(s.ask, newId);
      forall q | q in s.posts
        ensures (p.edits == q.edits <==> p.sid == q.sid) && (p.edits == q.edits ==> p.text == q.text)
      {
        if s.ask.pending.Some? {
          var r :| r in s.posts && r.edits == s.edits;
          assert r.sid == p.sid;
        }
      }
    }
  }

  lemma NextIsSafe(s: System, e: Event)
    requires Safe(s)
    ensures Safe(Next(s, e))
  {
    match e
    case Submit(attempt, newId) => SubmitIsSafe(s, attempt, newId);
    case Edit(_) =>
    case SwitchUser(_) =>
      assert Next(s, e).posts == s.posts && Next(s, e).ask == s.ask;
    case Handle(p) => ServerEventIsSafe(s, e);
    case Refuse(p) => ServerEventIsSafe(s, e);
    case LosePost(p) => ServerEventIsSafe(s, e);
    case LoseReply(p) => ServerEventIsSafe(s, e);
    case Receive => ReplyEventIsSafe(s, e);
    case GiveUp => ReplyEventIsSafe(s, e);
  }

  lemma SameClientSide(s: System, s': System)
    requires OneIdPerEdit(s) && NavigatesOnce(s)
    requires s'.posts == s.posts && s'.ask == s.ask && s'.edits == s.edits && s'.made == s.made
    requires s'.waiting == s.waiting && s'.visited == s.visited && s.sessions.Keys <= s'.sessions.Keys
    ensures OneIdPerEdit(s') && NavigatesOnce(s')
  {
  }

  lemma ServerEventIsSafe(s: System, e: Event)
    requires Safe(s) && (e.Handle? || e.Refuse? || e.LosePost? || e.LoseReply?)
    ensures Safe(Next(s, e))
  {
    hide OneIdPerEdit, NavigatesOnce, ServerHoldsPosts, Next;
    ServerLeavesClient(s, e);
    SameClientSide(s, Next(s, e));
  }

  lemma ServerLeavesClient(s: System, e: Event)
    requires ServerHoldsPosts(s) && (e.Handle? || e.Refuse? || e.LosePost? || e.LoseReply?)
    ensures var s' := Next(s, e);
            && s'.posts == s.posts && s'.ask == s.ask && s'.edits == s.edits && s'.made == s.made
            && s'.waiting == s.waiting && s'.visited == s.visited && s.sessions.Keys <= s'.sessions.Keys
            && ServerHoldsPosts(s')
  {
  }

  lemma ReplyEventIsSafe(s: System, e: Event)
    requires Safe(s) && (e.Receive? || e.GiveUp?)
    ensures Safe(Next(s, e))
  {
    var s' := Next(s, e);
    assert s'.posts == s.posts && s'.ask.pending == s.ask.pending && s'.ask.question == s.ask.question;
  }

  lemma {:induction false} RunIsSafe(events: seq<Event>)
    ensures Safe(Run(events))
  {
    if events != [] {
      RunIsSafe(events[..|events| - 1]);
      NextIsSafe(Run(events[..|events| - 1]), events[|events| - 1]);
    }
  }

  /** What every safe state shows. */
  ghost predicate AsksOnce(s: System) {
    && (forall p, q | p in s.posts && q in s.posts && p.edits == q.edits :: p.sid == q.sid && p.text == q.text)
    && (forall a, b | a in s.sessions && b in s.sessions && s.sessions[a].edits == s.sessions[b].edits :: a == b)
    && (forall a | a in s.sessions :: s.sessions[a] in s.posts)
    && |s.sessions| <= s.edits + 1
    && |s.visited| <= 1
    && (forall i | 0 <= i < |s.visited| :: s.visited[i] in s.sessions)
  }

  lemma SafeAsksOnce(s: System)
    requires Safe(s)
    ensures AsksOnce(s)
  {
    forall a, b | a in s.sessions && b in s.sessions && s.sessions[a].edits == s.sessions[b].edits ensures a == b {
      assert s.sessions[a] in s.posts && s.sessions[b] in s.posts;
    }
    hide Trim;
    SessionsByEdit(s.sessions.Keys, s.sessions, s.edits);
    assert |s.sessions| == |s.sessions.Keys|;
  }

  /** On every run: retries between two edits carry the same session id, so the server holds
      at most one session per edit, made by a POST of that edit; the client navigates at most
      once, and to a session that the server holds. */
  lemma AskingIsSafe(events: seq<Event>)
    ensures AsksOnce(Run(events))
  {
    RunIsSafe(events);
    SafeAsksOnce(Run(events));
  }

  /** Sessions of different edits, all at most `n`, are at most `n + 1`. */
  lemma {:induction false} SessionsByEdit(sids: set<SessionId>, sessions: map<SessionId, Post>, n: nat)
    requires sids <= sessions.Keys
    requires forall a, b | a in sids && b in sids && sessions[a].edits == sessions[b].edits :: a == b
    requires forall a | a in sids :: sessions[a].edits <= n
    ensures |sids| <= n + 1
  {
    var last := set a | a in sids && sessions[a].edits == n;
    if last != {} {
      var a :| a in last;
      assert last == {a};
    }
    var rest := sids - last;
    assert |sids| == |rest| + |last|;
    if n == 0 {
      assert rest == {};
    } else {
      SessionsByEdit(rest, sessions, n - 1);
    }
  }

  lemma RunSnoc(events: seq<Event>, e: Event)
    ensures Run(events + [e]) == Next(Run(events), e)
  {
    assert (events + [e])[..|events|] == events;
  }

  // ------------------------------------------------- whose session is opened

  /** The question stays as it is and so does the acting user. */
  predicate SameQuestion(more: seq<Event>) {
    forall k | 0 <= k < |more| :: !more[k].Edit? && !more[k].SwitchUser?
  }

  /** Session `sid` was started by `u`; while the server has none, every POST that can still start it
      comes from `u`. */
  ghost predicate Owned(s: System, sid: SessionId, u: User) {
    if sid in s.sessions then s.sessions[sid].asker == u
    else forall q | q in s.wire && q.sid == sid :: q.asker == u
  }

  /** POST `p` can still be answered with 2xx or 409. */
  ghost predicate Answerable(s: System, p: Post) {
    p in s.wire || (p in s.replies && s.replies[p] != Refused)
  }

  /** Another POST can follow for the present question: it is not blank, and the client has not
      navigated. */
  predicate Resubmits(s: System) { Trim(s.ask.question) != "" && s.visited == [] }

  /** Where the client is, where the awaited reply can take it, and where the next POST can: sessions
      of `u` only. */
  ghost predicate OwnSession(s: System, u: User) {
    && (forall i | 0 <= i < |s.visited| && s.visited[i] in s.sessions :: s.sessions[s.visited[i]].asker == u)
    && (s.waiting.Some? && Answerable(s, s.waiting.value) ==> Owned(s, s.waiting.value.sid, u))
    && (Resubmits(s) && s.ask.pending.Some? ==> Owned(s, s.ask.pending.value, u))
  }

  /** One more POST of `u`. */
  lemma SubmitStaysOwn(s: System, u: User, attempt: nat, newId: SessionId)
    requires Safe(s) && s.user == Some(u) && OwnSession(s, u)
    ensures OwnSession(Next(s, Submit(attempt, newId)), u)
  {
    KnownIdsAreMade(s);
    SubmitsOnlyFree(s, attempt, newId);
    hide Safe, Trim;
  }

  lemma SubmitsOnlyFree(s: System, attempt: nat, newId: SessionId)
    requires Safe(s)
    ensures Next(s, Submit(attempt, newId)) != s ==> s.visited == [] && s.waiting.None?
  {
  }

  lemma KnownIdsAreMade(s: System)
    requires Safe(s)
    ensures s.sessions.Keys <= s.made && forall q | q in s.wire :: q.sid in s.made
  {
    forall sid | sid in s.sessions ensures sid in s.made {
      assert s.sessions[sid] in s.posts;
    }
  }

  lemma NextStaysOwn(s: System, u: User, e: Event)
    requires Safe(s) && s.user == Some(u) && OwnSession(s, u) && !e.Edit? && !e.SwitchUser?
    ensures OwnSession(Next(s, e), u) && Next(s, e).user == Some(u)
  {
    hide Safe, CanSubmit, Trim;
    match e
    case Submit(attempt, newId) => SubmitStaysOwn(s, u, attempt, newId);
    case Receive => SettlingStaysOwn(s, u, e);
    case GiveUp => SettlingStaysOwn(s, u, e);
    case Handle(p) => HandlingStaysOwn(s, u, p);
    case Refuse(_) =>
    case LosePost(_) =>
    case LoseReply(_) =>
  }

  lemma SettlingStaysOwn(s: System, u: User, e: Event)
    requires Safe(s) && OwnSession(s, u) && (e.Receive? || e.GiveUp?)
    ensures OwnSession(Next(s, e), u)
  {
    ReplyMeansSession(s);
    hide Safe, Trim;
  }

  lemma HandlingStaysOwn(s: System, u: User, p: Post)
    requires Safe(s) && OwnSession(s, u)
    ensures OwnSession(Next(s, Handle(p)), u)
  {
    VisitedIsHeld(s);
    hide Safe, Trim;
  }

  lemma VisitedIsHeld(s: System)
    requires Safe(s)
    ensures forall i | 0 <= i < |s.visited| :: s.visited[i] in s.sessions
  {
  }

  lemma ReplyMeansSession(s: System)
    requires Safe(s)
    ensures forall p | p in s.replies && s.replies[p] != Refused :: p.sid in s.sessions
  {
  }

  lemma {:induction false} RunStaysOwn(events: seq<Event>, u: User, more: seq<Event>)
    requires Run(events).user == Some(u) && OwnSession(Run(events), u) && SameQuestion(more)
    ensures Run(events + more).user == Some(u) && OwnSession(Run(events + more), u)
  {
    hide OwnSession, Next;
    if more == [] {
      assert events + more == events;
    } else {
      var front, e := more[..|more| - 1], more[|more| - 1];
      RunStaysOwn(events, u, front);
      RunIsSafe(events + front);
      NextStaysOwn(Run(events + front), u, e);
      RunSnoc(events + front, e);
      assert events + more == events + front + [e];
    }
  }

  /** The client has navigated to a session of somebody else. */
  ghost predicate InAnothersSession(s: System, u: User) {
    exists i | 0 <= i < |s.visited| :: s.visited[i] in s.sessions && s.sessions[s.visited[i]].asker != u
  }

  /** The form can be submitted: a POST goes out, and its reply will be the first to be acted on. */
  lemma RetryGoesOut(events: seq<Event>, sid: SessionId) returns (retry: Event, p: Post)
    requires var s := Run(events);
             CanSubmit(s.ask, s.user) && s.ask.pending == Some(sid)
    ensures retry.Submit? && p.sid == sid && p !in Run(events).posts
    ensures var s, s' := Run(events), Run(events + [retry]);
            && s'.waiting == Some(p) && p in s'.wire && s'.sessions == s.sessions && s'.visited == s.visited
  {
    var s := Run(events);
    assert s.user.Some?;
    hide Run, CanSubmit, Trim;
    var attempt, newId := FreshNames(s);
    retry := Submit(attempt, newId);
    p := Post(attempt, s.edits, sid, Trim(s.ask.question), s.user.value);
    RunSnoc(events, retry);
    SubmitGoesOut(s, attempt, newId);
  }

  lemma FreshNames(s: System) returns (attempt: nat, newId: SessionId)
    ensures newId !in s.made && forall q | q in s.posts :: q.attempt != attempt
  {
    var attempts := set q | q in s.posts :: q.attempt;
    attempt := SomethingAbove(attempts);
    newId := SomethingAbove(s.made);
    forall q | q in s.posts ensures q.attempt != attempt {
      assert q.attempt in attempts;
    }
  }

  lemma SubmitGoesOut(s: System, attempt: nat, newId: SessionId)
    requires CanSubmit(s.ask, s.user) && s.ask.pending.Some?
    requires newId !in s.made && forall q | q in s.posts :: q.attempt != attempt
    ensures var p := Post(attempt, s.edits, s.ask.pending.value, Trim(s.ask.question), s.user.value);
            var s' := Next(s, Submit(attempt, newId));
            && s'.waiting == Some(p) && p in s'.wire && s'.sessions == s.sessions && s'.visited == s.visited
            && p !in s.posts
  {
    hide CanSubmit, Trim;
  }

  /** Once the session under the pending id exists, the next POST leads to it. */
  lemma RetryOpensSession(events: seq<Event>, sid: SessionId) returns (more: seq<Event>)
    requires var s := Run(events);
             CanSubmit(s.ask, s.user) && s.ask.pending == Some(sid) && sid in s.sessions
    ensures SameQuestion(more)
    ensures var s := Run(events + more); s.sessions == Run(events).sessions && sid in s.visited
  {
    var retry, p := RetryGoesOut(events, sid);
    hide Run, CanSubmit, Trim;
    more := [retry, Handle(p), Receive];
    var first := events + [retry];
    RunSnoc(first, Handle(p));
    RunSnoc(first + [Handle(p)], Receive);
    assert events + more == first + [Handle(p)] + [Receive];
    var s := Run(events + more);
    assert s.visited[|s.visited| - 1] == sid;
  }

  /** If the session under `sid` is not `u`'s to start, somebody else's POST may start it. */
  lemma SessionMayBeAnothers(events: seq<Event>, sid: SessionId, u: User) returns (more: seq<Event>)
    requires !Owned(Run(events), sid, u)
    ensures |more| <= 1 && SameQuestion(more)
    ensures var s, s' := Run(events), Run(events + more);
            && s'.ask == s.ask && s'.user == s.user && s'.waiting == s.waiting && s'.visited == s.visited
            && sid in s'.sessions && s'.sessions[sid].asker != u
            && (forall p: Post | p.sid == sid && Answerable(s, p) :: Answerable(s', p))
  {
    var s := Run(events);
    if sid in s.sessions {
      more := [];
      assert events + more == events;
    } else {
      var q :| q in s.wire && q.sid == sid && q.asker != u;
      more := [Handle(q)];
      RunSnoc(events, Handle(q));
    }
    hide Run, Trim;
  }

  /** The awaited POST is answered, and its session exists by then. */
  lemma ReplyOpensSession(events: seq<Event>) returns (more: seq<Event>)
    requires var s := Run(events);
             s.waiting.Some? && Answerable(s, s.waiting.value) && s.waiting.value.sid in s.sessions
    ensures SameQuestion(more)
    ensures var s, s' := Run(events), Run(events + more);
            s'.sessions == s.sessions && s.waiting.value.sid in s'.visited
  {
    var s := Run(events);
    var p := s.waiting.value;
    hide Run, Trim;
    if p in s.replies && s.replies[p] != Refused {
      more := [Receive];
      RunSnoc(events, Receive);
    } else {
      more := [Handle(p), Receive];
      RunSnoc(events, Handle(p));
      RunSnoc(events + [Handle(p)], Receive);
      assert events + more == events + [Handle(p)] + [Receive];
    }
    var s' := Run(events + more);
    assert s'.visited[|s'.visited| - 1] == p.sid;
  }

  lemma AnothersReplyArrives(events: seq<Event>, u: User) returns (more: seq<Event>)
    requires var s := Run(events);
             s.waiting.Some? && Answerable(s, s.waiting.value) && !Owned(s, s.waiting.value.sid, u)
    ensures SameQuestion(more) && InAnothersSession(Run(events + more), u)
  {
    var sid := Run(events).waiting.value.sid;
    hide *;
    var first := SessionMayBeAnothers(events, sid, u);
    var rest := ReplyOpensSession(events + first);
    more := first + rest;
    assert events + more == events + first + rest;
    Joined(first, rest);
    VisitsAnothers(Run(events + more), sid, u);
  }

  lemma Joined(a: seq<Event>, b: seq<Event>)
    requires SameQuestion(a) && SameQuestion(b)
    ensures SameQuestion(a + b)
  {
  }

  lemma VisitsAnothers(s: System, sid: SessionId, u: User)
    requires sid in s.visited && sid in s.sessions && s.sessions[sid].asker != u
    ensures InAnothersSession(s, u)
  {
    var i :| 0 <= i < |s.visited| && s.visited[i] == sid;
  }

  lemma FreeFormRetries(events: seq<Event>, sid: SessionId, u: User) returns (more: seq<Event>)
    requires var s := Run(events); CanSubmit(s.ask, s.user) && s.ask.pending == Some(sid) && !Owned(s, sid, u)
    ensures SameQuestion(more) && InAnothersSession(Run(events + more), u)
  {
    hide *;
    var first := SessionMayBeAnothers(events, sid, u);
    var rest := RetryOpensSession(events + first, sid);
    more := first + rest;
    assert events + more == events + first + rest;
    Joined(first, rest);
    VisitsAnothers(Run(events + more), sid, u);
  }

  lemma AnothersSessionIsRetried(events: seq<Event>, u: User) returns (more: seq<Event>)
    requires var s := Run(events);
             && Safe(s) && s.user == Some(u) && Resubmits(s) && s.ask.pending.Some?
             && !Owned(s, s.ask.pending.value, u)
    ensures SameQuestion(more) && InAnothersSession(Run(events + more), u)
  {
    hide *;
    var sid := Run(events).ask.pending.value;
    var free := FormIsFreed(events);
    OwnedDependsOn(Run(events), Run(events + free), sid, u);
    var rest := FreeFormRetries(events + free, sid, u);
    more := free + rest;
    assert events + more == events + free + rest;
    Joined(free, rest);
  }

  lemma OwnedDependsOn(s: System, s': System, sid: SessionId, u: User)
    requires s'.sessions == s.sessions && s'.wire == s.wire
    ensures Owned(s', sid, u) <==> Owned(s, sid, u)
  {
  }

  /** A question that can be sent again can be sent once the reply is given up. */
  lemma FormIsFreed(events: seq<Event>) returns (free: seq<Event>)
    requires var s := Run(events); Safe(s) && s.user.Some? && Resubmits(s)
    ensures SameQuestion(free)
    ensures var s, s' := Run(events), Run(events + free);
            && CanSubmit(s'.ask, s'.user) && s'.user == s.user && s'.ask.pending == s.ask.pending
            && s'.sessions == s.sessions && s'.wire == s.wire
  {
    var s := Run(events);
    if s.waiting.Some? {
      free := [GiveUp];
      RunSnoc(events, GiveUp);
    } else {
      free := [];
      assert events + free == events;
    }
    hide Run, Trim;
  }

  lemma AnothersSessionIsReached(events: seq<Event>, u: User) returns (more: seq<Event>)
    requires Run(events).user == Some(u) && !OwnSession(Run(events), u)
    ensures SameQuestion(more) && InAnothersSession(Run(events + more), u)
  {
    var s := Run(events);
    RunIsSafe(events);
    hide Run, Safe, Owned, Answerable, Resubmits;
    if s.waiting.Some? && Answerable(s, s.waiting.value) && !Owned(s, s.waiting.value.sid, u) {
      more := AnothersReplyArrives(events, u);
    } else if Resubmits(s) && s.ask.pending.Some? && !Owned(s, s.ask.pending.value, u) {
      more := AnothersSessionIsRetried(events, u);
    } else {
      more := [];
      assert events + more == events;
    }
  }

  /** In every reachable state: up to the next edit or change of user, the acting user is only ever
      taken to sessions of their own, exactly when that holds of where the client is, of where the
      awaited reply can take it, and of where the next POST can. */
  lemma OwnSessionExactly(events: seq<Event>, u: User)
    requires Run(events).user == Some(u)
    ensures (forall more | SameQuestion(more) :: !InAnothersSession(Run(events + more), u)) <==>
            OwnSession(Run(events), u)
  {
    hide Run, SameQuestion, Owned, Answerable, Resubmits;
    if OwnSession(Run(events), u) {
      forall more | SameQuestion(more) ensures !InAnothersSession(Run(events + more), u) {
        RunStaysOwn(events, u, more);
      }
    } else {
      var more := AnothersSessionIsReached(events, u);
    }
  }

  /** Where the form can be submitted, that is a matter of the pending id alone. */
  lemma OwnSessionWhenFree(s: System, u: User)
    requires Safe(s) && CanSubmit(s.ask, s.user)
    ensures OwnSession(s, u) <==> (s.ask.pending.Some? ==> Owned(s, s.ask.pending.value, u))
  {
    hide Trim;
  }

  lemma Extend(events: seq<Event>, e: Event) returns (longer: seq<Event>)
    ensures Run(longer) == Next(Run(events), e)
  {
    RunSnoc(events, e);
    longer := events + [e];
  }

  const FIRST: Post := Post(0, 1, 7, "q", 1)
  const RETRY: Post := Post(1, 1, 7, "q", 2)

  /** User 1 sends a question. */
  lemma QuestionSent() returns (events: seq<Event>)
    ensures Run(events) == System(Ask("q", true, false, Some(7)), Some(1), 1, {FIRST}, Some(FIRST), {7}, {FIRST},
                                  map[], map[], [])
  {
    events := [];
    assert Run(events) == START;
    assert Trim("q") == "q";
    hide Run, Trim;
    events := Extend(events, SwitchUser(Some(1)));
    events := Extend(events, Edit("q"));
    assert Run(events) == System(Ask("q", false, false, None), Some(1), 1, {}, None, {}, {}, map[], map[], []);
    events := Extend(events, Submit(0, 7));
  }

  /** It is accepted, the acknowledgement is lost. */
  lemma AcceptedButLost() returns (events: seq<Event>)
    ensures Run(events) == System(Ask("q", false, true, Some(7)), Some(1), 1, {FIRST}, None, {7}, {},
                                  map[FIRST := Accepted], map[7 := FIRST], [])
  {
    events := QuestionSent();
    hide Run, Trim;
    events := Extend(events, Handle(FIRST));
    events := Extend(events, GiveUp);
  }

  /** An instance: the id is kept for the question, not for the asker, so after a change of user
      the retry opens the session that the previous user started. */
  lemma RetryMayOpenAnothersSession() returns (events: seq<Event>)
    ensures var s := Run(events); s.user == Some(2) && InAnothersSession(s, 2)
  {
    events := AcceptedButLost();
    assert Trim("q") == "q";
    hide Run, Trim;
    events := Extend(events, SwitchUser(Some(2)));
    assert !OwnSession(Run(events), 2) by {
      assert !Owned(Run(events), 7, 2);
    }
    var more := AnothersSessionIsReached(events, 2);
    RunKeepsUser(events, more);
    events := events + more;
  }

  lemma {:induction false} RunKeepsUser(events: seq<Event>, more: seq<Event>)
    requires SameQuestion(more)
    ensures Run(events + more).user == Run(events).user
  {
    if more == [] {
      assert events + more == events;
    } else {
      var front, e := more[..|more| - 1], more[|more| - 1];
      RunKeepsUser(events, front);
      RunSnoc(events + front, e);
      assert events + more == events + front + [e];
      hide Run, Trim, CanSubmit;
    }
  }

  // ---------------------------------------------------------- the hook at work

  /** `h` shows the client side of `s`. */
  ghost predicate Mirrors(h: Hook, s: System)
    reads h
  {
    && h.Valid() && h.Value() == s.ask
    && h.waiting == (if s.waiting.Some? then Some(s.waiting.value.sid) else None)
    && (h.left <==> s.visited != [])
    && (forall p | p in s.posts && p.edits == s.edits :: (p.sid, p.text) in h.sent)
  }

  /** An event happens to the client: the hook's method is called. */
  method Happen(h: Hook, s: System, e: Event) returns (goto: Option<SessionId>)
    requires Safe(s) && Mirrors(h, s)
    modifies h
    ensures Mirrors(h, Next(s, e))
    ensures Next(s, e).visited == s.visited + if goto.Some? then [goto.value] else []
  {
    hide Trim, Safe;
    goto := None;
    match e {
      case Edit(value) =>
        NoPostsAhead(s);
        h.SetQuestion(value);
      case Submit(attempt, newId) =>
        if newId !in s.made && !(exists p | p in s.posts :: p.attempt == attempt) {
          var post := h.Submit(s.user, newId);
        }
      case Receive =>
        if s.waiting.Some? && s.waiting.value in s.replies {
          goto := h.OnReply(s.replies[s.waiting.value], s.waiting.value.sid);
        }
      case GiveUp =>
        if s.waiting.Some? {
          goto := h.OnReply(Refused, s.waiting.value.sid);
        }
      case _ =>
    }
  }

  lemma NoPostsAhead(s: System)
    requires Safe(s)
    ensures forall p | p in s.posts :: p.edits != s.edits + 1
  {
  }

  /** A whole run of one hook: it ends as the client of the run, and navigates as the run does,
      so once at most and only to a session the server holds. */
  method Play(events: seq<Event>) returns (h: Hook, visited: seq<SessionId>)
    ensures fresh(h) && Mirrors(h, Run(events)) && visited == Run(events).visited
    ensures |visited| <= 1 && forall i | 0 <= i < |visited| :: visited[i] in Run(events).sessions
  {
    hide Safe, Next, Mirrors;
    h := new Hook();
    visited := [];
    var s := START;
    assert Mirrors(h, START) by { NewHookMirrors(h); }
    for k := 0 to |events|
      invariant fresh(h) && s == Run(events[..k]) && Mirrors(h, s) && visited == s.visited
    {
      assert events[..k + 1][..k] == events[..k];
      RunIsSafe(events[..k]);
      var goto := Happen(h, s, events[k]);
      s := Next(s, events[k]);
      visited := visited + if goto.Some? then [goto.value] else [];
    }
    assert events[..|events|] == events;
    AskingIsSafe(events);
  }

  lemma NewHookMirrors(h: Hook)
    requires h.Valid() && h.Value() == EMPTY_ASK && h.waiting == None && !h.left
    ensures Mirrors(h, START)
  {
  }
}
