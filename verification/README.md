# Verified model of TEKIJIN's ranking, streaming and fixture logic

TEKIJIN routes an employee's question to the colleagues who can answer it. This project models, in
Dafny, the parts of the repository whose correctness does not show in any one function: the browser
hooks that talk to a server over an unreliable network, the ranking algebra of the research scripts,
the repair loops that shape the fixture data, and the rewriting of generated regions in documents.

Code that updates state is modelled by classes and methods, each proved against a specification
function; the properties are then proved about those functions, for every input, every run or every
interleaving.

| file | models |
|---|---|
| `Prelude.dfy` | options, results, repetition-free sequences, counting, weighted lists, a few facts about reals |
| `EventStream.dfy` | the event reducer, the direct reading of a received log, and the reply box |
| `EventStreamHook.dfy` | the connection: deliveries, transport errors, close, restart, over React's queue of updaters |
| `Handoff.dfy` | several tabs resolving one hand-off against a server that records one outcome and may lose its queue |
| `AskQuestion.dfy` | asking with retries that reuse the session id |
| `NotificationBell.dfy` | two polled scopes merged while acknowledgements race polls and users change |
| `RealSums.dfy`, `PersonGraph.dfy` | the co-project graph and the smoothing of scores on it |
| `ZScoreFusion.dfy` | z-score fusion, and what the zero test of the smoothing does to its result |
| `Ranking.dfy`, `RankFusion.dfy`, `Aggregation.dfy` | rankings, reciprocal rank fusion, chunk-to-person aggregation |
| `Bm25.dfy` | BM25 in both loop orders and the overlap-filtered scan |
| `Ndcg.dfy`, `WithinQueryAuc.dfy` | the two evaluation measures |
| `RoundRobin.dfy` | the three round-robin merges |
| `CoverageRepair.dfy`, `PickMembers.dfy`, `RouteRepair.dfy` | generation and repair of fixture data |
| `MarkerRewrite.dfy` | the marker expression and the substitution |

The hooks and the bell are classes. Each object carries an invariant (`Valid`) that its methods keep,
and a driver method (`Drive`, `Play`) runs objects through any sequence of events and ends with the
theorem about that run.

Some promises of the source hold only under a condition. For these the code is kept as it is, the
exact condition is proved, and a concrete run or document shows the failure:

- Rewriting is meant to be repeatable. It is so exactly when no body holds its own closing marker and
  no body, with the line break in front of it, holds another's (`MarkerRewrite.StableExactlyWhenSafe`).
- The comment of `pick_members` says the number of members never changes. It does not change on any
  run exactly when the chosen are distinct, exclude the lead and, but for the first, are no candidates
  themselves (`PickMembers.CountKeptExactlyWhenSafe`); the department rule of `main` ensures that.
- An ended stream is meant to show no connection error. It does not exactly when no transport error's
  updater is still queued while done or message closes the source
  (`EventStreamHook.BothSetExactlyWhenRaced`).
- Reconnect replays keep the reply box open exactly when they re-send nothing but what is pending
  (`EventStream.ReplyBoxSurvivesExactlyReplays`).
- As long as the server keeps its queue, the tab whose outcome was recorded can still show done exactly
  while it is mounted and waits for what can tell it (`Handoff.DoneExactlyWhileAwaited`).
- A tab is meant never to confirm the wrong action. After a restart that loses the queue one can
  (`Handoff.LostQueueMisleads`). With an outcome recorded, none ever will exactly if the session has gone
  on and no tab is wrong or waits to become so (`Handoff.NeverWrongExactly`).
- A retry leads the acting user to a session of their own exactly under `AskQuestion.OwnSessionExactly`.
- Removing an acknowledged row by id alone takes the rows of other kinds with the same id with it
  (`NotificationBell.AckRemovesOnlyItsKey`); such rows can be shown exactly when the user is the
  responder to a question of their own (`NotificationBell.CollisionExactlyOnSelfRecommendation`).
- The bell is meant to show the rows of the acting user. After a change of user it shows those of the former
  one exactly under `NotificationBell.FormerRowsExactly`.
- Smoothing obeys its law for the total exactly under `PersonGraph.PropagateConservesExactly`. Mixed
  z-scores have total zero as real numbers, so for them rounding decides whether the shortcut is taken;
  what hangs on it is `ZScoreFusion.MixedScoresByTest`.
- BM25 adds nobody to the aggregated chunks exactly for the weights of `RankFusion.HybridTopExactly`;
  unless the dense list holds the whole corpus, the default weight 1.0 is not one of them
  (`RankFusion.ShippedWeights`).
- `facet_top3` gives every topic its first choice exactly when there are at most three different ones
  (`RoundRobin.FacetsServedExactly`).
- nDCG@k stays within 1 exactly on rankings without repetitions inside the cut-off
  (`Ndcg.AtMostOneExactlyWhenDistinct`).

Numbers are exact reals. Logarithms are parameters: for BM25 a function that is positive above 1
and, where rare and common tokens are compared, strictly increasing, for
nDCG a positive, strictly decreasing discount. The standard deviation of z-scores is a parameter
too. Random choices are nondeterministic. Identifiers are
numbers in the order in which the source sorts them.

Check everything with `dafny verify dfyconfig.toml`.

## Model

| member | source | states |
|---|---|---|
| `EventStream.FoldReadsLog` | frontend/src/hooks/useEventStream.ts:118-167 | For every received log the state is a direct reading of it: latest understood, route, reference, done and message; the recommend that last changed the candidate ids and the followup that last changed what is asked, payload and all; the draft text last received since the recommended ids last changed; terminal and error exactly when such an event came |
| `EventStream.LastChangeIsFirst` | frontend/src/hooks/useEventStream.ts:119-131 | That event carries what was received last; from it on every recommend has the same ids (every followup asks the same), and before it other ones, or none, were received last |
| `EventStream.ReadOneMore` | frontend/src/hooks/useEventStream.ts:118-167 | One more event, replay or not, keeps the state equal to the reading of the longer log |
| `EventStream.SinceIdsChangedIsSuffix` | frontend/src/hooks/useEventStream.ts:125-131 | What the reading calls "since the ids last changed" is the suffix of the log behind the last recommend whose ids differ from those of the recommend before it |
| `EventStream.SameAsked` | frontend/src/hooks/useEventStream.ts:97-105 | Two followups count as the same exactly when question and missing list agree, an absent list being the empty one |
| `EventStream.SameIds` | frontend/src/hooks/useEventStream.ts:107-115 | Two recommends count as the same exactly when their candidate ids agree in order, whatever else the candidates carry |
| `EventStream.RefoldEvents` | frontend/src/hooks/useEventStream.ts:118-167 | Refolding the recorded `events` from the initial state gives the same state: dropping replays loses nothing |
| `EventStream.EventsOnlyGrow` | frontend/src/hooks/useEventStream.ts:140 | Recorded events are never removed or reordered |
| `EventStream.SilentExactlyReplays` | frontend/src/hooks/useEventStream.ts:119-139 | A sequence of received events leaves the whole state unchanged if and only if each of them repeats the current followup, the current candidate ids or the current draft text |
| `EventStream.ProgressReplayOnlyAppends` | frontend/src/hooks/useEventStream.ts:118-167 | A full-progress replay with identical payloads changes nothing but `events`, which gain exactly the events no early return drops |
| `EventStream.PendingFollowupIsRecorded` | frontend/src/hooks/useEventStream.ts:156-157 | Whenever a followup is pending it is among the recorded events, so the search for the last one succeeds |
| `EventStream.LastFollowup` | frontend/src/components/ProcessingScreen.tsx:49-53 | The index found is that of the last followup, or -1 exactly when there is none |
| `EventStream.ReplyBoxExactly` | frontend/src/components/ProcessingScreen.tsx:85-104 | For every run of arriving events and accepted replies: the box is shown if and only if no done or message has come and some followup that asked something new has been followed by nothing but repetitions of the question, the candidate ids or the draft last received |
| `EventStream.NewQuestionReopens` | frontend/src/components/ProcessingScreen.tsx:85-92 | After any log, the next event opens a box that was answered if and only if it is a followup that asks something else than the last one and the run has not ended |
| `EventStream.ReplyBoxSurvivesExactlyReplays` | frontend/src/components/ProcessingScreen.tsx:48-55 | After any log that leaves the reply box open, a progress replay with identical payloads keeps it open if and only if it consists of replays the reducer drops |
| `EventStream.ReplyBoxStable` | frontend/src/components/ProcessingScreen.tsx:100-104 | Replays of the pending event, any number of them, leave the reply box and everything else on the screen as they were |
| `EventStream.UnderstoodReplayHidesReplyBox` | frontend/src/components/ProcessingScreen.tsx:43-55 | The other case: re-sending `understood` behind a pending followup hides a reply box nobody has answered |
| `EventStreamHook.ReduceInterrupted` | frontend/src/hooks/useEventStream.ts:140-163 | The reducer neither reads nor clears an error, so a connection error stays beside whatever is reduced later; only a server error overwrites it |
| `EventStreamHook.EventKeepsGood` | frontend/src/hooks/useEventStream.ts:202-222 | A delivered event, whatever updaters are still queued, keeps the settled state the reading of the longer log; done and message behind a queued transport error end with both endings set |
| `EventStreamHook.TransportErrorKeepsGood` | frontend/src/hooks/useEventStream.ts:228-246 | A transport error changes nothing that will be rendered unless the source is closed by then |
| `EventStreamHook.CloseKeepsGood` | frontend/src/hooks/useEventStream.ts:194-200 | Closing, for whatever reason, keeps the settled state the reading of the log, with at most a connection error added |
| `EventStreamHook.RestartIsGood` | frontend/src/hooks/useEventStream.ts:177-194 | A new subscription starts with nothing read, whatever is still queued from the old one |
| `EventStreamHook.StepKeepsGood` | frontend/src/hooks/useEventStream.ts:202-253 | Every delivery, transport error, restart, clean-up and render keeps the invariant that ties the rendered state and the queue to the events delivered |
| `EventStreamHook.RunIsGood` | frontend/src/hooks/useEventStream.ts:169-254 | The invariant holds on every run |
| `EventStreamHook.RecordedEnding` | frontend/src/hooks/useEventStream.ts:118-163 | Of a log whose only ending comes last, the recorded events have their only ending last as well, and have one exactly when the log has |
| `EventStreamHook.RunIsSafe` | frontend/src/hooks/useEventStream.ts:169-254 | On every run over the queue of updaters: `terminal` and `error` are both set exactly when done or message closed the source while the updater of a transport error was queued; done, message and error are recorded at most once and nothing after them; an ended state has a closed source; and the state is the reading of the delivered events with at most a connection error added |
| `EventStreamHook.BothSetExactlyWhenRaced` | frontend/src/hooks/useEventStream.ts:228-246 | The promise that an ended stream shows no error fails if and only if that race happens |
| `EventStreamHook.RaceShowsBoth` | frontend/src/hooks/useEventStream.ts:228-246 | The race is reachable: a transport error behind an update not yet rendered, then done |
| `EventStreamHook.RenderedWasSettled` | frontend/src/hooks/useEventStream.ts:237-245 | Every rendered state was the settled state of an earlier moment of the run |
| `EventStreamHook.ClosedStateIsFrozen` | frontend/src/hooks/useEventStream.ts:218-221 | Once the source is closed nothing but a restart changes what is rendered |
| `EventStreamHook.Hook.OnEvent` | frontend/src/hooks/useEventStream.ts:202-222 | A well-formed event of the live source joins the log that the object keeps its settled state equal to, anything else does not; the source closes exactly on done, message and error |
| `EventStreamHook.Hook.Flush` | frontend/src/hooks/useEventStream.ts:237-245 | Applying the queued updaters one by one renders the settled state, and that stays settled |
| `EventStreamHook.Hook.Dispatch` | frontend/src/hooks/useEventStream.ts:177-254 | Each input keeps the invariant of the object, its log and its race flag, and leaves its next rendered state safe |
| `EventStreamHook.Drive` | frontend/src/hooks/useEventStream.ts:169-254 | A hook object driven through any sequence of inputs ends as the run does, with the log of the run and a safe state |
| `Handoff.SubmitKeepsTab` | frontend/src/hooks/useHandoff.ts:95-101 | A POST goes out only where nothing is awaited, and then is all that is awaited |
| `Handoff.ReplyKeepsTab` | frontend/src/hooks/useHandoff.ts:107-144 | A reply replaces the POST by the drain it starts, or ends the flight; a tab is in flight exactly while it waits |
| `Handoff.DrainKeepsTab` | frontend/src/hooks/useHandoff.ts:107-139 | The end of a drain ends the flight; done is shown only for an action of which a request was confirmed |
| `Handoff.Hook.Submit` | frontend/src/hooks/useHandoff.ts:95-124 | A POST goes out if and only if the tab waits for nothing, and then it waits for that POST alone |
| `Handoff.Hook.OnReply` | frontend/src/hooks/useHandoff.ts:125-144 | A recorded outcome and a 409 keep the tab in flight for exactly one drain, any other failure frees it for a retry; only a recorded outcome confirms the request |
| `Handoff.Hook.OnDrained` | frontend/src/hooks/useHandoff.ts:107-139 | After the drain the tab waits for nothing; mounted, it shows done exactly when the drain followed a confirmed request, and "gone" otherwise |
| `Handoff.NextIsSafe` | frontend/src/hooks/useHandoff.ts:95-147 | Every click, server step, loss, reply and drain, the loss of the queue included, keeps the invariant of every tab and that nothing but its accepted requests confirm one |
| `Handoff.RunIsSafe` | frontend/src/hooks/useHandoff.ts:95-147 | These invariants hold in every reachable state of any number of tabs |
| `Handoff.DoneTabsWereAccepted` | frontend/src/hooks/useHandoff.ts:30-34 | On every run each tab waits for at most one POST, a tab that shows done for an action had its own request of that action accepted, and none is wrong about the recorded outcome while the accepted requests are all alike |
| `Handoff.OneAccepted` | backend/src/tekijin/api/service.py:555-563 | As long as the server keeps its queue, nothing but the recorded request is accepted |
| `Handoff.DoneTabsAreRight` | frontend/src/hooks/useHandoff.ts:30-34 | On every run on which the server keeps its queue, at most one tab shows done, and it is the one whose request was recorded, with the outcome of the action it shows |
| `Handoff.DoneMeansOutcome` | frontend/src/hooks/useHandoff.ts:30-34 | While the queue is kept, the recorded outcome is accepted if a tab shows done for an answer, and declined if it shows done for a deferral or a referral |
| `Handoff.OutcomeIsFinal` | backend/src/tekijin/api/service.py:722-725 | The server keeps the outcome it recorded first, whatever it accepts later |
| `Handoff.AwaitedWillShow` | frontend/src/hooks/useHandoff.ts:107-125 | While a mounted tab waits for the drain of its accepted request, or for its reply still under way, a continuation shows done for that action |
| `Handoff.NeverShows` | frontend/src/hooks/useHandoff.ts:126-144 | Otherwise no continuation ever does unless a further request is accepted |
| `Handoff.ShowsExactlyWhileAwaited` | frontend/src/hooks/useHandoff.ts:95-147 | In every reachable state and for any kind of action: some continuation without a further acceptance shows done for such an action if and only if a tab does so now, or is mounted and still waits for what can tell it that its request of that kind was accepted |
| `Handoff.DoneExactlyWhileAwaited` | frontend/src/hooks/useHandoff.ts:95-147 | While the queue is kept: after an outcome is recorded, some continuation shows done if and only if a tab does so now, or the tab of the recorded request is mounted and waits for the drain or for the reply that is still under way |
| `Handoff.WrongExactlyWhileAwaited` | frontend/src/hooks/useHandoff.ts:126-131 | Whatever was accepted after losing the queue: no tab comes to show done against the recorded outcome, as long as nothing further is accepted, if and only if none does now and no mounted tab waits for what tells it that a request with the other outcome was accepted |
| `Handoff.NeverWrongExactly` | frontend/src/hooks/useHandoff.ts:126-131 | In every reachable state with a recorded outcome, over all continuations, losses of the queue and further acceptances included: no tab ever comes to show done against the recorded outcome if and only if the session has gone on, none does now, and no mounted tab waits for what tells it that a request with the other outcome was accepted |
| `Handoff.LostQueueMisleadsSomebody` | backend/src/tekijin/api/service.py:587-604 | Before the session has gone on, some continuation from any state with a recorded outcome makes a tab wrong |
| `Handoff.LostQueueMisleads` | backend/src/tekijin/api/service.py:587-604 | An instance in which a tab is wrong: the answer is recorded, its acknowledgement and the queue are lost, and a deferral is accepted without being written |
| `Handoff.LostAckShowsGone` | frontend/src/hooks/useHandoff.ts:126-144 | An instance of the other case: the acknowledgement of a recorded answer is lost and the retry shows the neutral message |
| `Handoff.HappenTo` | frontend/src/hooks/useHandoff.ts:95-147 | The methods of a hook object do to its tab what the system says the event does |
| `Handoff.Happen` | frontend/src/hooks/useHandoff.ts:95-147 | An event calls at most one hook object, and all objects keep mirroring their tabs |
| `Handoff.Play` | frontend/src/hooks/useHandoff.ts:58-150 | Any number of hook objects driven through a run end as its tabs: while the queue is kept, at most one shows done, and for the recorded outcome |
| `AskQuestion.Hook.Submit` | frontend/src/hooks/useAskQuestion.ts:47-74 | A POST goes out if and only if the trimmed question is not empty, there is a user, no reply is awaited and nothing was navigated to; it equals every POST since the last edit, and is new with the trimmed text if there is none |
| `AskQuestion.Hook.OnReply` | frontend/src/hooks/useAskQuestion.ts:73-88 | On 2xx and 409 the client navigates to the id it sent, for the first time; otherwise the form is free for a retry |
| `AskQuestion.NextIsSafe` | frontend/src/hooks/useAskQuestion.ts:45-89 | Every edit, submit, server step, loss and reply keeps: one id and text per edit; sessions and answers only for POSTs that were sent; the hook busy while it waits and after it has navigated |
| `AskQuestion.RunIsSafe` | frontend/src/hooks/useAskQuestion.ts:45-89 | These invariants hold in every reachable state |
| `AskQuestion.SafeAsksOnce` | frontend/src/hooks/useAskQuestion.ts:45-89 | What the invariants come to for the server: at most one session per edit |
| `AskQuestion.SessionsByEdit` | frontend/src/hooks/useAskQuestion.ts:50-53 | Sessions of different edits, none later than edit `n`, are at most `n + 1` |
| `AskQuestion.AskingIsSafe` | frontend/src/hooks/useAskQuestion.ts:55-89 | On every run: retries between two edits carry the same session id and text, the server holds at most one session per edit, and the client navigates at most once and only to a session the server holds |
| `AskQuestion.TrimSplits` | frontend/src/hooks/useAskQuestion.ts:47-49 | The text that is sent is the question without the white space at both ends, all of it and nothing else |
| `AskQuestion.RunStaysOwn` | frontend/src/hooks/useAskQuestion.ts:55-89 | While only sessions of the acting user can be reached, that stays so up to the next edit or change of user |
| `AskQuestion.AnothersSessionIsReached` | frontend/src/hooks/useAskQuestion.ts:62-83 | Otherwise some continuation takes the acting user to a session of somebody else |
| `AskQuestion.OwnSessionExactly` | frontend/src/hooks/useAskQuestion.ts:55-89 | In every reachable state with an acting user, awaiting a reply or not: every continuation without an edit or a change of user keeps them out of the sessions of others if and only if the client is in no such session, the awaited POST, if it can still be answered, and the pending id, if it can be sent again, each have a session of theirs or, while there is none, no POST of anybody else under way |
| `AskQuestion.OwnSessionWhenFree` | frontend/src/hooks/useAskQuestion.ts:55-83 | Where the form can be submitted, that is a matter of the pending id alone |
| `AskQuestion.RetryMayOpenAnothersSession` | frontend/src/hooks/useAskQuestion.ts:55-83 | An instance of the other case: the acting user changes between a lost acknowledgement and the retry |
| `AskQuestion.Happen` | frontend/src/hooks/useAskQuestion.ts:50-89 | The methods of the hook object do what the system says an event does to the client, navigation included |
| `AskQuestion.Play` | frontend/src/hooks/useAskQuestion.ts:31-92 | A hook object driven through a run ends as its client, and navigates once at most and only to a session the server holds |
| `NotificationBell.NewestFirstSorts` | frontend/src/components/NotificationBell.tsx:126-128 | The merge is sorted newest first and is a permutation of its input |
| `NotificationBell.SortedMeansNewestFirst` | frontend/src/components/NotificationBell.tsx:126-128 | Sorted means: a row with a time stamp never stands behind one without, nor behind an older one |
| `NotificationBell.FilterSort` | frontend/src/components/NotificationBell.tsx:118-128 | Filtering and the stable sort commute, so the order inside a scope does not depend on the other scope |
| `NotificationBell.NextIsGood` | frontend/src/components/NotificationBell.tsx:93-130 | Every poll, acknowledgement, failure and change of user keeps the list newest first and free of acknowledged keys |
| `NotificationBell.RunIsGood` | frontend/src/components/NotificationBell.tsx:93-139 | That holds on every interleaving |
| `NotificationBell.AcknowledgedStaysHidden` | frontend/src/components/NotificationBell.tsx:225-238 | On every interleaving, after an acknowledgement no row with its key is shown, whatever polls bring, until that acknowledgement fails or the user changes; the list stays newest first |
| `NotificationBell.ScopeAfterPoll` | frontend/src/components/NotificationBell.tsx:112-128 | A failed scope keeps exactly its currently shown rows in order; a fulfilled one shows exactly what it brought less the acknowledged keys, newest first |
| `NotificationBell.FailedScopeKeepsItsKinds` | frontend/src/components/NotificationBell.tsx:118-125 | When the asker scope fails exactly the outcomes shown stay, when the responder scope fails exactly the requests shown stay |
| `NotificationBell.AckRemovesOnlyItsKey` | frontend/src/components/NotificationBell.tsx:225-228 | Removing by id takes away exactly the acknowledged key if and only if no other kind shows the same id |
| `NotificationBell.RowOfOtherKindReturns` | frontend/src/components/NotificationBell.tsx:225-238 | A row of another kind removed by id alone stays away through any polls without it, failures, acknowledgements and changes of user; the next poll that contains it shows it if and only if its own key is not acknowledged by then, so certainly if that key was not acknowledged in between |
| `NotificationBell.RowStays` | frontend/src/components/NotificationBell.tsx:93-128 | A row that no poll contains stays shown exactly until its scope has a fulfilled poll, its id is acknowledged, or there is no user any more |
| `NotificationBell.FormerRowsExactly` | frontend/src/components/NotificationBell.tsx:93-98 | After a change of user and any further ones, a row of the former user that later polls do not contain is shown if and only if it was, there has been some user ever since, its scope has had no fulfilled poll, and its id no acknowledgement |
| `NotificationBell.RunIsServed` | backend/src/tekijin/data/notifications.py:1-17 | On every run for one user whose polls the server can answer, every shown row is one of that user: outcomes of their questions, requests to them |
| `NotificationBell.SelfRecommendationCollides` | backend/src/tekijin/data/notifications.py:52-66 | A recommendation of which the user is asker and responder can be shown in two kinds: the outcome is polled while the other scope fails |
| `NotificationBell.CollisionExactlyOnSelfRecommendation` | frontend/src/components/NotificationBell.tsx:228 | Rows of different kinds with one id are never shown together, on any run the server can answer, if and only if the user is nowhere the responder to their own question |
| `NotificationBell.Component.OnPollSettled` | frontend/src/components/NotificationBell.tsx:109-130 | The shown rows stay newest first and free of acknowledged keys; each failed scope keeps exactly its rows in order, each fulfilled one shows what it brought less the acknowledged keys |
| `NotificationBell.Component.Acknowledge` | frontend/src/components/NotificationBell.tsx:225-228 | Afterwards a row is shown if and only if it was and has another id; the key is remembered and the object stays free of acknowledged keys |
| `NotificationBell.Play` | frontend/src/components/NotificationBell.tsx:93-139 | A component object driven through a run ends as the run does, and shows no row of an acknowledged key unless that acknowledgement failed or the user changed since |
| `PersonGraph.AddProject` | scripts/research_rank.py:168-173 | One project adds to each entry of two different people the product of their numbers of appearances, in place, and to the diagonal nothing |
| `PersonGraph.Normalise` | scripts/research_rank.py:174-176 | Each row divided by its sum, rows of sum zero by 1 |
| `PersonGraph.BuildPersonGraph` | scripts/research_rank.py:163-176 | The matrix built in place is the row-normalised co-project matrix of all projects |
| `PersonGraph.AdjacencyIsGraph` | scripts/research_rank.py:168-173 | The co-project matrix is symmetric without negative entries |
| `PersonGraph.TogetherCountsPairs` | scripts/research_rank.py:168-173 | Projects add up, and one project counts each pair of appearances of two different people |
| `PersonGraph.RowsAddToOne` | scripts/research_rank.py:174-176 | Each row of the transition matrix adds up to 1, or to 0 for somebody who shares no project with anybody |
| `PersonGraph.Propagate` | scripts/research_rank.py:179-194 | The loop returns the smoothed vector by person, and the score map itself when the initial total is zero |
| `PersonGraph.NonZeroTotalIsSmoothed` | scripts/research_rank.py:189-194 | Any scores with a total other than zero are smoothed on the co-project graph, and their total is exactly the initial total less (1 - alpha) times the mass on people without a neighbour |
| `PersonGraph.TotalByTest` | scripts/research_rank.py:189-194 | Whichever way the test for a zero total comes out, for any scores: the shortcut and the smoothed result have totals that differ by exactly (1 - alpha) times the mass on people without a neighbour |
| `PersonGraph.SmoothedNonNegative` | scripts/research_rank.py:191-193 | Without negative scores no iterate has a negative score |
| `PersonGraph.AlphaOneChangesNothing` | scripts/research_rank.py:180 | With alpha 1 nothing is propagated: everybody in the index keeps their own score |
| `PersonGraph.ReceivedTotal` | scripts/research_rank.py:193 | One application of the transposed matrix hands on exactly the mass of people who have a neighbour |
| `PersonGraph.IsolatedMassShrinks` | scripts/research_rank.py:193 | People without a neighbour keep alpha times their initial score, whatever the others have |
| `PersonGraph.SmoothedTotal` | scripts/research_rank.py:191-193 | After any number of steps >= 1 the total is exactly the initial total minus (1 - alpha) times the mass on people without a neighbour, for every alpha and scores of any sign |
| `PersonGraph.SmoothContracts` | scripts/research_rank.py:193 | One step brings any two vectors closer in the sum norm by the factor 1 - alpha |
| `PersonGraph.IteratesShrink` | scripts/research_rank.py:191-193 | Successive iterates come closer in the sum norm by a factor 1 - alpha per step |
| `PersonGraph.IteratesApproachFixedPoint` | scripts/research_rank.py:179-184 | The iterates approach any vector that a step leaves alone at that geometric rate |
| `PersonGraph.DegreesAreFixed` | scripts/research_rank.py:174-193 | The co-membership matrix being symmetric, the degree vector is unchanged by smoothing for every alpha and number of steps |
| `PersonGraph.PropagateConservesExactly` | scripts/research_rank.py:179-194 | With an exact test, for any scores, any alpha and at least one step on the graph of any projects, that law for the total holds if and only if the initial total is not zero, or alpha is 1, or that mass is zero |
| `PersonGraph.PropagateConserves` | scripts/research_rank.py:179-194 | For scores without negative values and alpha in [0, 1] nothing returned is negative and the exact total holds without exception |
| `PersonGraph.ZeroTotalSkipsSmoothing` | scripts/research_rank.py:189-190 | An instance: with two scores that cancel, the shortcut returns the scores where smoothing would change them |
| `ZScoreFusion.AddMap` | scripts/research_rank.py:105-108 | One weighted map adds to each of its keys the weighted z-score, and to no other key |
| `ZScoreFusion.ZScoreFuse` | scripts/research_rank.py:98-109 | Fails exactly when weights are given in another number than maps; otherwise every key of some map gets the sum of its z-scores, each with the given weight of its map, or 1.0 when none are given |
| `ZScoreFusion.ScoreOfEntry` | scripts/research_rank.py:105-108 | In one map an entry scores its weighted distance from the mean in units of the standard deviation, in units of 1 when that is zero |
| `ZScoreFusion.FusedIsAdditive` | scripts/research_rank.py:98-109 | Maps add up |
| `ZScoreFusion.HigherValueScoresHigher` | scripts/research_rank.py:105-108 | In a map of positive weight the higher value scores higher |
| `ZScoreFusion.ZScoresSumToZero` | scripts/research_rank.py:105-108 | The weighted z-scores of one map sum to zero, whatever nonzero spread they are divided by |
| `ZScoreFusion.FusedSumsToZero` | scripts/research_rank.py:98-109 | Added up over the people of an index that holds all keys, the fused scores are zero |
| `ZScoreFusion.FusedTotalIsZero` | scripts/research_rank.py:98-109 | As real numbers, the initial vector of fused z-scores has total zero |
| `ZScoreFusion.MixedScoresByTest` | scripts/research_ablation.py:230-238 | For mixed z-scores the zero test of `propagate` is a knife edge: if it holds the total stays zero, if it does not the total becomes minus (1 - alpha) times the fused scores of people without a neighbour |
| `Ranking.ToRanking` | scripts/research_rank.py:156-157 | The result lists every key once, by descending score, ties by ascending id |
| `Ranking.RankingIsUnique` | scripts/research_rank.py:156-157 | Only one list has these properties, so they determine `to_ranking` |
| `Ranking.BeforeMeansPrecedes` | scripts/research_rank.py:156-157 | An id stands before another exactly when its score is higher, or equal with the smaller id |
| `RankFusion.RrfFuse` | scripts/research_rank.py:88-95 | Fails exactly when weights are given in another number than rankings; otherwise ranks by the sum over the rankings, each with its given weight, or each with weight 1.0 when none are given |
| `RankFusion.AddRanking` | scripts/research_rank.py:93-94 | One ranking adds to each of its items what the item earns by its positions, and to no other item |
| `RankFusion.FusedIsAdditive` | scripts/research_rank.py:88-94 | Rankings add up, and one alone gives an item what it earns there |
| `RankFusion.HybridRank` | scripts/research_ablation.py:209-212 | The hybrid setting calls the fusion with the weights 1.0 and w, so that the conditions on the first n places hold of its result |
| `RankFusion.FusedIsDistinctUnion` | scripts/research_rank.py:88-95 | The fused list is the duplicate-free union of the rankings |
| `RankFusion.FusionIgnoresOrder` | scripts/research_rank.py:92-95 | The fused list does not depend on the order of the (ranking, weight) pairs |
| `RankFusion.ParetoOrder` | scripts/research_rank.py:88-95 | An item that beats another in every ranking that counts, strictly in one of positive weight, precedes it in the fused list |
| `RankFusion.EarnedAt` | scripts/research_rank.py:93-94 | In a duplicate-free ranking an item earns weight / (k + rank + 1) for its one position |
| `RankFusion.DenseBeforeBm25Only` | scripts/research_ablation.py:209-212 | If w * (k + depth) < k + 1, every dense item precedes every item only BM25 found |
| `RankFusion.HybridTopExactly` | scripts/research_ablation.py:209-212 | For any corpus: the first n places of the hybrid list hold only dense items, whatever list of the corpus BM25 returns, if and only if for each chunk of the corpus outside the dense list w * (k + n) < k + 1, or equality holds and its id is larger than that of the n-th dense item |
| `RankFusion.DenseFillsTheTop` | scripts/research_ablation.py:209-212 | When each of the first n dense items beats every BM25-only item, the first n places are dense |
| `RankFusion.IntruderGetsIn` | scripts/research_ablation.py:209-212 | Conversely, a BM25 item that beats the n-th dense item and everything behind it gets into the first n places |
| `Aggregation.AggregatePeople` | scripts/research_rank.py:115-153 | One pooled score per person over the evidence of the first `top_n` chunks, for all four poolings and the count normalisation |
| `Aggregation.ScorePeople` | scripts/bench_embeddings.py:174-181 | The reference scorer returns the ranking of the sums accumulated over the same evidence |
| `Aggregation.ScoreFromPieces` | scripts/research_rank.py:133-153 | A person has a score if and only if a chunk of the cut speaks for them, and it is the pooled worth of exactly the places they are met at, divided by the norm of their number; a place is worth the reciprocal of its rank or the similarity of its chunk, times the weight of its kind, 0.3 for kinds not listed |
| `Aggregation.PoolMeans` | scripts/research_rank.py:144-149 | Max is the largest piece, top3_sum the sum of three pieces none of which is below another one, and the other poolings add up all |
| `Aggregation.TotalIsSum` | scripts/research_rank.py:147-149 | Sums add up |
| `Aggregation.ScoreOfOnePiece` | scripts/research_rank.py:133-153 | Somebody met once, at rank r, scores the weight of that kind over 61 + r, or times the similarity of the chunk, over the norm of 1, under every pooling |
| `Aggregation.HigherWeightScoresHigher` | scripts/research_rank.py:140 | Replacing the kind of any piece of evidence by one of higher weight raises the rank_sum score strictly |
| `Aggregation.ScorersAgree` | scripts/bench_embeddings.py:174-181 | The reference scorer ranks people exactly as `to_ranking` of the `rank_sum` aggregation |
| `Aggregation.DescendingSorts` | scripts/research_rank.py:146-147 | The reverse sort orders, permutes and keeps the sum |
| `Aggregation.PoolingsAreOrdered` | scripts/research_rank.py:126-131 | Without negative evidence max <= top3_sum <= rank_sum, with equality of the last two for at most three pieces of evidence |
| `Aggregation.HybridScoresOnlyDenseOwners` | scripts/research_ablation.py:209-228 | In the hybrid setting with a full dense list and w * (60 + top_n) < 61, everybody who gets a score owns a dense chunk, under every pooling |
| `Bm25.CountTokens` | scripts/research_rank.py:40-42 | The counter of a document holds each of its tokens with its frequency |
| `Bm25.CountDocument` | scripts/research_rank.py:44-45 | Counting one more document gives the document frequencies of the longer collection |
| `Bm25.Index` | scripts/research_rank.py:37-48 | Term counts of every document and one idf per token of the vocabulary |
| `Bm25.SumOfCounts` | scripts/eval_baselines.py:56 | Summing a document's counts gives its number of tokens |
| `Bm25.ScoreOfToken` | scripts/research_rank.py:46-63 | The score for one token, written out over the number of documents that hold it, its number of occurrences, the length of the document and the mean length |
| `Bm25.ScoreIsAdditive` | scripts/research_rank.py:50-63 | The score of a query is the sum of those of its parts |
| `Bm25.LengthsAddUp` | scripts/research_rank.py:35-36 | Lengths of collections add up, and one document brings its number of tokens |
| `Bm25.RareTokenScoresHigher` | scripts/research_rank.py:46-48 | Of two tokens that a document holds equally often, the one in fewer documents scores strictly higher |
| `Bm25.FrequentTokenScoresHigher` | scripts/research_rank.py:57-62 | Of two documents of the same length, the one that holds a token more often scores strictly higher, for k1 > 0 |
| `Bm25.ShortDocumentScoresHigher` | scripts/research_rank.py:57-62 | Of two documents that hold a token equally often, the shorter one scores strictly higher, for k1 > 0 and b > 0 |
| `Bm25.TermMajor.constructor` | scripts/research_rank.py:32-48 | The term-major index holds lengths, mean length, counts and idf of the collection |
| `Bm25.TermMajor.Scores` | scripts/research_rank.py:50-63 | The loop over query tokens, then documents, gives every document its BM25 score; a repeated query token counts each time |
| `Bm25.DocMajor.constructor` | scripts/eval_baselines.py:53-62 | The document-major index holds the same quantities, lengths taken from the counts and the mean with max(1, n) |
| `Bm25.DocMajor.Scores` | scripts/eval_baselines.py:64-80 | The loop over documents, then query tokens, gives the same scores as the term-major one: both equal one specification |
| `Bm25.PositiveExactlyOnOverlap` | scripts/research_rank.py:50-63 | A score is never negative, and positive if and only if query and document share a token |
| `Bm25.Bm25ChunkRank` | scripts/research_ablation.py:100-120 | The scan with early exit returns the ids of the first chunks, in score order, that share a token with the query, cut after `depth` (looked at only after keeping one), with their scores |
| `Bm25.FilteredIsPrefix` | scripts/research_ablation.py:106-115 | When overlap means a positive score, the overlap filter cuts off exactly the zero scores at the end of the order |
| `Bm25.OverlapScanTakesTop` | scripts/research_ablation.py:100-120 | On the scores of the same tokens the scan keeps min(depth, number overlapping) chunks (one at least when any overlaps), all overlapping, and none scores less than a chunk left out |
| `Ndcg.GainedAtMostIdeal` | scripts/bench_embeddings.py:165-171 | The gain of the hits is at most the ideal gain of as many hits, and reaches it exactly when the hits stand first |
| `Ndcg.NdcgRange` | scripts/bench_embeddings.py:165-171 | Without repetitions inside the cut-off and for any positive strictly decreasing discount nDCG@k lies in [0, 1] and is 1 if and only if k > 0 and the first min(k, number of gold items) positions exist and are gold |
| `Ndcg.ExchangeRaisesNdcg` | scripts/bench_embeddings.py:165-171 | Exchanging a gold item inside the cut-off with a non-gold item just above it raises nDCG@k strictly |
| `Ndcg.LoneGoldScores` | scripts/bench_embeddings.py:165-171 | A single gold item at index r inside the cut-off scores its discount over the first one, outside the cut-off nothing |
| `Ndcg.GainsAddUp` | scripts/bench_embeddings.py:169 | Gains of disjoint gold sets add up |
| `Ndcg.AtMostOneExactlyWhenDistinct` | scripts/bench_embeddings.py:165-171 | For each positive, strictly decreasing discount, and so for the one in use: nDCG@k is at most 1 for all gold lists if and only if no item is repeated inside the cut-off |
| `Ndcg.RepetitionExceedsOne` | scripts/bench_embeddings.py:165-171 | With the items inside the cut-off as gold, any repetition there pushes the score above 1, under every such discount |
| `Ndcg.RepetitionOnTopExceedsOne` | scripts/bench_embeddings.py:169 | An item on both of the first two ranks does so already as the only gold item |
| `RoundRobin.MergeByIndex` | scripts/research_topic.py:162-170 | The index loops build the merged list |
| `RoundRobin.RankExpertsForTopics` | scripts/research_topic.py:162-170 | Mode `round_robin` merges the `to_ranking` of every topic, nothing for no topic |
| `RoundRobin.MergeByTuples` | scripts/research_c6_retrieval_recall.py:40-49 | The `zip_longest` loops build the same list as the index loops |
| `RoundRobin.MergedIsDistinctUnion` | scripts/research_c6_retrieval_recall.py:40-49 | The merged list is the duplicate-free union of the lists |
| `RoundRobin.PlaceInMerged` | scripts/research_c6_retrieval_recall.py:40-49 | The item at index r of list i among m lists appears at output index r * m + i or earlier |
| `RoundRobin.PickThree` | scripts/research_c6_retrieval_recall.py:137-146 | The loop with its early return picks exactly the first three elements of the merged list |
| `RoundRobin.FacetTop3` | scripts/research_c6_retrieval_recall.py:126-146 | Two or more topics: the first three of the round robin; one or none: the first three of the aggregate ranking |
| `RoundRobin.FirstChoicesLead` | scripts/research_c6_retrieval_recall.py:137-146 | The merged list starts with the different first choices of the topics, each once |
| `RoundRobin.FacetsServedExactly` | scripts/research_c6_retrieval_recall.py:126-146 | Every topic that ranks anybody has its first choice among the three if and only if the topics have at most three different first choices, for any number of topics |
| `RoundRobin.EveryFacetIsServed` | scripts/research_c6_retrieval_recall.py:126-129 | So with two or three topics no topic that ranks anybody goes without |
| `RoundRobin.FourthFacetIsDropped` | scripts/research_c6_retrieval_recall.py:137-146 | With four or more topics of different first choices the first three topics take all places |
| `CoverageRepair.QaStore.Generate` | scripts/build_fixtures.py:740-779 | n pairs, on the topics in turn, each answered by one of the topic's top three experts (all, if fewer) and asked by somebody else, with matching running ids; the question names besides its topic at most the first other top topic of the responder |
| `CoverageRepair.OthersStart` | scripts/build_fixtures.py:755-756 | The extra topic is the first one of the expert that differs from the topic of the question |
| `CoverageRepair.QaStore.RepairCoverage` | scripts/build_fixtures.py:792-841 | Afterwards everybody answers at least once; every initially uncovered employee got exactly one answer by one swap or append; pairs still match and nobody answers their own question; an asker changed only where the new responder had asked |
| `CoverageRepair.QaStore.RepairEach` | scripts/build_fixtures.py:792-795 | The loop leaves each employee handled so far with an answer |
| `CoverageRepair.QaStore.RepairOne` | scripts/build_fixtures.py:796-841 | One round repairs one employee: if an answer in a preferred topic has a responder with others, by taking over one of the first topic that offers any, else by appending a pair on the first preferred topic |
| `CoverageRepair.QaStore.TakeOver` | scripts/build_fixtures.py:806-814 | A swap keeps all repair invariants and the number of answers; an asker who would answer themselves is replaced |
| `CoverageRepair.QaStore.Append` | scripts/build_fixtures.py:817-841 | An append keeps all repair invariants and adds one matching pair |
| `CoverageRepair.SwapRepairs` | scripts/build_fixtures.py:804-814 | Taking an answer from a responder with several leaves that one covered, and no answer is moved twice |
| `CoverageRepair.AppendRepairs` | scripts/build_fixtures.py:817-841 | A new answer counts for its responder only and moves nothing |
| `CoverageRepair.RepairCoversEveryone` | scripts/build_fixtures.py:781-784 | A repaired store has an answer of every employee, has grown by at most the number of uncovered ones, and answer and question ids match one to one |
| `CoverageRepair.RespondsIffCounted` | scripts/build_fixtures.py:788-790 | The responder count is positive exactly when an answer of that employee exists |
| `CoverageRepair.CountIsNumber` | scripts/build_fixtures.py:788-790 | The responder count is the number of answers of that employee |
| `PickMembers.PickMembers` | scripts/build_fixtures.py:301-313 | The members that come out are distinct, exclude the lead, are chosen members or supporters, and are as many as were chosen under the checkable condition; each draw made is one the generator can make |
| `PickMembers.SupportOf` | scripts/build_fixtures.py:294-299 | The loops collect exactly the members of departments that support a topic, other than the department of the lead |
| `PickMembers.KeptIsSound` | scripts/build_fixtures.py:301-313 | Whatever is drawn, the members are distinct, exclude the lead, and are chosen members or supporters |
| `PickMembers.CountKeptExactlyWhenSafe` | scripts/build_fixtures.py:277-278 | The number of members is kept on every run if and only if the chosen are distinct, exclude the lead, and none but possibly the first is a candidate replacement |
| `PickMembers.LosingRun` | scripts/build_fixtures.py:309-310 | Whenever that condition fails there is a run that ends with fewer members than were chosen |
| `PickMembers.OwnDepartmentKeepsCount` | scripts/build_fixtures.py:291-299 | Chosen members of the lead's own department, as `main` passes them, always come out in the same number, distinct and without the lead |
| `RouteRepair.SwapRepairsOne` | scripts/build_eval.py:124-128 | One exchange removes one misplaced document label, uses up one available place and permutes the labels |
| `RouteRepair.SwapKeepsRepairing` | scripts/build_eval.py:124-128 | An exchange keeps the permutation, the prior_answer positions and the difference of misplaced labels and places, and finishes its position |
| `RouteRepair.RepairRoutes` | scripts/build_eval.py:122-128 | For any length the loop permutes the labels in place, leaves prior_answer positions alone, and leaves exactly max(0, bad - available) misplaced document labels |
| `WithinQueryAuc.GroupSlots` | scripts/research_confidence.py:45-47 | Each group gets its slots in order |
| `WithinQueryAuc.ComparePairs` | scripts/research_confidence.py:51-54 | The inner loops count the pairs of a group, ties as one half |
| `WithinQueryAuc.WithinQuery` | scripts/research_confidence.py:38-55 | The grouped loops give the share of won pairs over all pairs of a hit and a miss of the same group, and their number; nan when there is none |
| `WithinQueryAuc.WonIsAboveAndHalfTheTies` | scripts/research_confidence.py:51-54 | Won is the number of pairs whose hit stands above its miss plus half the ties; counted is the number of all pairs of a hit and a miss of one group |
| `WithinQueryAuc.AucExtremes` | scripts/research_confidence.py:51-55 | The AUC exists if and only if there is a pair; it is 1 if and only if every hit stands strictly above every miss of its group, and 0 if and only if strictly below |
| `WithinQueryAuc.PositiveFactor` | scripts/research_confidence.py:49-50 | A positive sign changes nothing |
| `WithinQueryAuc.AucRange` | scripts/research_confidence.py:38-55 | The AUC lies in [0, 1] whenever a pair counts |
| `WithinQueryAuc.SignReversal` | scripts/research_confidence.py:49-50 | Reversing the sign turns the AUC into 1 minus itself |
| `WithinQueryAuc.TransformInvariant` | scripts/research_confidence.py:41-42 | A strictly increasing transform, chosen for each question on its own, changes neither the AUC nor the number of pairs |
| `WithinQueryAuc.Replicate` | scripts/research_confidence.py:123-128 | One replicate is the AUC of the drawn blocks, each draw a group of its own |
| `WithinQueryAuc.OneDraw` | scripts/research_confidence.py:123-128 | Drawing one question once gives the slots of that question, values and hits |
| `WithinQueryAuc.PerDrawPairs` | scripts/research_confidence.py:124-128 | Grouping by draw, every draw brings exactly the pairs of its question |
| `WithinQueryAuc.PerQuestionPairs` | scripts/research_confidence.py:124-126 | Grouping by question, the pairs of the m draws of a question multiply to m * m |
| `WithinQueryAuc.MultiplicityOfDraws` | scripts/research_confidence.py:111-128 | Over any draws, grouping by draw weights won and counted pairs of each question by its multiplicity; grouping by question id would square it |
| `MarkerRewrite.MatchHeadExactly` | scripts/render_bench_docs.py:817-820 | A region is matched at the head of a text if and only if its opening marker, body and closing marker stand there and no shorter body would do |
| `MarkerRewrite.PrintParse` | scripts/render_bench_docs.py:845 | Cutting a document up into copied text and regions loses nothing |
| `MarkerRewrite.RewriteDocument` | scripts/render_bench_docs.py:835-845 | The substitution returns the document with every body regenerated, or the first unknown marker; `stale` lists the regions whose body differs, `seen` the names met |
| `MarkerRewrite.RewriteFailsExactly` | scripts/render_bench_docs.py:838-839 | The script ends if and only if some region carries a name without a table, and it names such a one |
| `MarkerRewrite.NoNewClose` | scripts/render_bench_docs.py:835-845 | With safe bodies rewriting creates no closing marker that was not there |
| `MarkerRewrite.OutputParsesAlike` | scripts/render_bench_docs.py:835-845 | With safe bodies the output is cut up exactly like the input with the bodies replaced: same copied text, same regions in the same order |
| `MarkerRewrite.RewriteIsStable` | scripts/render_bench_docs.py:835-860 | With safe bodies rewriting twice is rewriting once, the second pass reports nothing stale, everything outside the bodies is unchanged, and the stale list is empty exactly when output equals input |
| `MarkerRewrite.OwnCloseIsUnstable` | scripts/render_bench_docs.py:817-820 | A body holding its own closing marker makes some document unstable |
| `MarkerRewrite.OtherCloseIsUnstable` | scripts/render_bench_docs.py:817-820 | So does a body that, with the line break in front of it, holds the closing marker of another name |
| `MarkerRewrite.StableExactlyWhenSafe` | scripts/render_bench_docs.py:817-847 | Rewriting is stable on every document if and only if the generated bodies are safe |

## Left out

Event stream and reply box:
- When React renders: the queue of updaters is applied as a whole at any moment, so that evaluating an updater at once when the queue is empty is one of the cases. Rendering in several priorities and calling an updater twice in strict mode are not modelled.
- Payload fields that the reducer never looks at are kept as one JSON text; of a draft only its text is kept. Events of other names than the nine known ones do not occur, since no listener is registered for them.
- The rest of `ProcessingScreen` (submitting a reply, spinners, links) beyond the flags that decide about the reply box.
- EventStream.ReplyBoxExactly: is about one subscription; a restart empties the state and with it the box.

Hand-off, asking, notifications:
- Each handler call is one atomic step on committed state; two clicks on one stale rendering of the ask form are not modelled.
- One session id per hand-off hook. A change of session while a drain is under way, the recommendation id, rerouting to a new candidate and the answer text are not modelled.
- The servers are abstract: one records the first outcome, accepts again after losing its queue and otherwise answers 409, one keeps sessions by id and answers 409 to a known id. Any request may be refused without effect or lost, any reply may be lost. The real ones also answer 409 while a run is queued or paused (`backend/src/tekijin/api/service.py:489-507`) and take another question under the id of a finished session.
- NotificationBell.RunIsServed: is about one acting user; after a change of user see `NotificationBell.FormerRowsExactly`. A poll of the former user no longer settles. Time stamps are numbers, a missing one the smallest.
- Navigation, the callback that replaces it, and the links of notifications.

Ranking:
- 32-bit rounding, and with it the order of nearly equal scores.
- Tokenisation by SudachiPy and by character n-grams; tokens are opaque.
- The order of equal scores in numpy's `argsort`: every order that is descending is allowed.
- Negative cut-offs, which Python would count from the end.
- Aggregation.AggregatePeople: takes `c ** count_norm` as a given positive function of the number of pieces of evidence.
- Nothing is claimed about which way the zero test of `propagate` goes for fused scores: their total is zero as real numbers only, and the source tests a rounded sum.
- The ensemble branch of `make_system`, the other modes of `rank_experts_for_topics`, `recall_at_k`.
- RoundRobin.FacetTop3: takes the rankings that the scorer returns as inputs; the scorer itself is not modelled.
- Percentiles, intervals and the pooled `auc` of `research_confidence.py`.

Fixtures:
- Texts, dates, status and helpfulness of questions and answers. Nothing is claimed about reuse counts: for appended answers the source computes them from the last generated topic, not from the answer's own (`scripts/build_fixtures.py:839-840`).
- CoverageRepair.QaStore.RepairCoverage: takes the order of preferred topics as a function of the employee that is never empty, and at least two employees, as the source does when it draws an asker.
- The contents of the topic and department tables, and the seeds of the generators.

Documents:
- The contents of the tables (a body is any text), the loop over files, reading and writing them, the report of tables without a marker, and the audit of intervals.

Not modelled at all: the backend services, database access, embedding and language models, chat polling, layout and other interface code.
