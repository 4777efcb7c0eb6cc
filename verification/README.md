# Verified model of the codexcli connection

The Go package codexcli drives a codex app-server over JSON-RPC. This project
models the parts of it whose correctness spans several functions or several
goroutines, and proves what they promise.

- **Event routing** (`Basics`, `Events`, `ChildTree`, `Fabric`, `LateNaming`,
  `Identity`, `Delivery`, `Registry`, `Conn`, `Client`, `EndToEnd`, `Examples`).
  One read loop turns notifications into events; each goes to one subscription, a
  subagent's to the subscriber at the root of its tree. `Fabric` is the
  transition system, one action per critical section. `Registry.ChildRegistry`
  and `Conn.Connection` are the objects the program updates in place, each method
  proved to take exactly its transition;
  `Client.Connection` adds the running turns and the server requests that the
  same notifications touch. `Identity` says what a child is known as and
  `Delivery` who is told what, over whole runs and read off the events;
  `LateNaming` proves that it does not matter when a child is named, and
  `EndToEnd` carries that to the consumer of the root's stream.
- **Concurrent protocols** (`Pump`, `Stream`, `Pipeline`, `LoginHandle`,
  `LoginRegistry`, `LoginRun`, `Teardown`, `ServerRequests`, `Rpc`,
  `ThreadTurns`). Each is a step system over every interleaving, with the object
  that takes the steps beside it where the program has one. `Pipeline` runs pump
  and stream together, `LoginRun` the two halves of a sign-in.
- **Sequential algorithms** (`ConfigValues`, `ConfigHeap`, `Options`,
  `LineSplit`, `ShellQuote`, `Update`). `ConfigHeap` is the deep merge on
  mutable maps and slices, with a ghost tree for what a value looks like on the
  heap; `ConfigValues` is the merge on values, and what it means path by path.

Strings that are only compared are wrapped (`Id`, `Text`). Quoting is modelled
on characters; sections 2.2.2 and 2.2.3 of the POSIX.1-2017 Shell Command
Language say what single and double quotes preserve.

## Where the code and its documentation differ

The model follows the code. For each item one lemma has the exact condition and
another an input at which it shows.

- `login.go:162-174` says a held completion outlives the process exit. A
  completion that was delivered can still end as the exit error: exactly when,
  as the exit is noticed, nothing is settled and a Cancel owes the outcome,
  having taken the held completion and not finished yet
  (`LoginHandle.ExitHidesCompletion`, `LoginHandle.ExitRaceExample`; with the
  pairing of completions and starts, `LoginRun.ExitErrorIff`). An attempt
  nobody began to cancel is never cut off (`LoginHandle.NoCancelNoCutOff`).
- `login.go:105-110` reports a successful Cancel as a cancelled attempt "unless
  the sign-in finished first". The outcome of the ambiguous completion is decided
  at the first moment, from the completion on, at which no Cancel is in flight
  (`LoginHandle.DecidedAtFirst`). A Cancel that begins after that moment and is
  answered before the outcome settles does not count either
  (`LoginHandle.ReadingsAgreeIff`, `LoginHandle.LateCancelExample`).
- `thread.go:42-51` says a turn that is over stays cleared. A late turn/start
  response makes it active again exactly when another turn completed after it
  (`ThreadTurns.RevivedIffOvertaken`, `ThreadTurns.OvertakenResponse`).
- `schema/types.go:840-848` unwraps "-lc" and "-c" alike. A quoted body behind
  one of the flags comes back whole exactly when it contains none of the flags
  looked for earlier, so " -lc " always works and " -c " does not when the body
  contains " -lc " (`ShellQuote.UnwrapInvertsIff`, `ShellQuote.PlainShellFails`).
- `option.go:259-280` copies config values. The copy is exact just when the
  value holds no nil map or nil `[]any` and no empty non-nil `[]string`
  (`ConfigValues.CopyExactIffPlain`, `ConfigValues.InexactCopies`).
- `thread.go:262-264` layers ResumeThread's options on the connection's. The
  sandbox, model provider, developer instructions and thread extras are not
  carried; a resume is sent what all options at once would send exactly when the
  call sets those again (`Options.ResumeKeepsAllIffResent`,
  `Options.ResumeDropsSandbox`).
- `option.go:7-9` says call-time options replace defaults and do not merge. The
  turn extras, thread extras, environment and thread config merge and the
  opt-outs add up; an option replaces what the defaults set exactly when it has
  every key they set, for a config at every level, or there is nothing to add to
  (`Options.ReplacesIff`, `Options.DefaultsShowThrough`).
- `subagent.go:120-134` evicts the oldest idle child past the limit. The child
  just added is itself evicted exactly when it is idle and has fewer idle elders
  than there are children too many; it is then returned to its caller, and told
  of what was held for it, but not kept (`ChildTree.NewcomerEvictedIff`,
  `Examples.NewcomerTurnedAway`).
- `subagent.go:159-187` holds events until the child is named. Only the last 256
  are held, so late naming is invisible exactly up to that many
  (`LateNaming.LateNamingTransparent`, `Examples.NamedTooLate`).
- `npm_update.go:354-357` says the advertised verdict and Update cannot
  disagree. A file found to be held open makes Update decline whatever the verdict,
  with an error of its own (`InUse`), and is counted apart. Leaving it aside,
  npm installs differ in one case: Update also refuses when the probe cannot tell
  whether a file it replaces is in use (`Update.RunUpdate`,
  `Update.VerdictsDiffer`).

## Model

| member | source | states |
|---|---|---|
| ChildTree.ForgetKeepsOk | subagent.go:106-118 | dropping any set of threads keeps both order lists duplicate-free and equal to the keys of their maps, and children apart from held threads |
| ChildTree.AddMembers | subagent.go:120-134 | after an add the children are the old ones plus the new one less the evicted, and the order list holds exactly them, once each |
| ChildTree.AddEvictsOldestIdle | subagent.go:120-134 | no child with a running turn is evicted; an evicted child has no idle elder that stayed; afterwards there are at most 1024 children or all are running; eviction never goes below 1024; and the newcomer goes exactly when it is turned away |
| ChildTree.NewcomerEvictedIff | subagent.go:120-134 | the child just added is itself evicted exactly when it is idle and fewer of its elders are idle than there are children too many |
| Examples.NewcomerTurnedAway | subagent.go:120-134 | from the empty connection, after 1024 threads have each started a turn and been named, all are children and an idle thread named next is not kept |
| ChildTree.RootIffUnder | subagent.go:145-157 | for a thread that is not a child, it is a child's root exactly when it is an ancestor at most 65 steps up; no acyclicity is assumed |
| ChildTree.PassesIffWithin | subagent.go:145-157 | meeting a thread on the bounded walk is the same as its being the start or an ancestor within reach |
| ChildTree.DetachMakesRoot | subagent.go:246-255 | detaching a thread makes it the root of every child whose bounded chain passes through it and changes no other child's root |
| Fabric.HoldKeepsOk | subagent.go:172-186 | holding an event keeps the registry invariant: at most 32 held threads, 1 to 256 events each, disjoint from children |
| Fabric.AdoptKeepsOk | subagent.go:209-231 | taking in a named child keeps the four structures consistent once its held events are taken over |
| Fabric.StepKeepsInv | subagent.go:162-272 | every critical section keeps the registry invariant and keeps children and held threads disjoint from registered threads |
| Fabric.ReachableInv | subagent.go:76-89 | so does every run of the connection, from any state that has it |
| Fabric.HeldBufferIsTail | subagent.go:172-186 | over every run a held thread's buffer is exactly the last 256 of the events, with the turns then running, that arrived since it opened |
| Identity.ChildIsAsNamed | subagent.go:209-231 | in every run from the start, a child's parent and spawn turn are those of the first item that named it since it became a child, its path is the last non-empty one given, and its tool call is the first item that says it started, or none |
| Identity.NamedIsKnown | subagent.go:209-231 | an item of another thread that names an unregistered one makes it a child, or leaves it one, exactly unless the registry turns the newcomer away |
| Identity.ItemFrameNames | client.go:694-716 | so does such an item in a notification of a registered thread |
| Identity.ToldAsNamed | subagent.go:159-244 | in every run, every event a subscriber is told of a child carries the identity its naming items had given by some moment of that run; no other identity is ever told |
| Delivery.DeliveredToItsOwn | client.go:635-643 | an event for a thread with an open subscription is appended to what that one accepts, and no other subscription, thread or registry entry changes |
| Delivery.SubscriberGetsItsOwn | client.go:635-643 | over every run in which its subscription stays current and open, what a subscriber accepts beside its children's events is exactly what is sent to its thread or to all, in order |
| Delivery.SubscriberGetsItsOwnSince | client.go:635-643 | from its subscription on, and nothing from before |
| Delivery.AfterLeavingNothing | subscription.go:57-60 | a subscription whose reader has left accepts nothing more |
| Delivery.NoneAfterRemoval | client.go:620-629 | once it is removed, or the exit has closed all, there is none until somebody subscribes again |
| Delivery.ChildEventGoesToRoot | subagent.go:159-171 | an event of a child nobody subscribed to is accepted by its root's open subscription, with the child's identity and running turn, and by no other |
| Delivery.TurnIsTheRunningOne | subagent.go:189-207 | a start sets the recorded turn of an unregistered thread, the end of that turn clears it, and nothing else touches it but dropping the thread |
| Delivery.DroppedHasNoTurn | subagent.go:106-134 | whatever drops a thread, by name, by deletion or through a limit, leaves it no turn |
| Delivery.RegisterTakesOne | subagent.go:246-255 | registering a thread takes it out of the tree with its turn and what was held for it, and leaves every other child and held thread as it was |
| Delivery.DeleteTakesTree | subagent.go:259-272 | deleting a registered thread takes exactly the children rooted there, with their turns, and leaves every other child, held thread and subscription as it was |
| Delivery.ChildFrameTells | client.go:667-693 | the event each turn or thread notification of a child tells its root, and the turn it is told with |
| Delivery.FramesReachSubscriber | client.go:658-723 | whatever notifications arrive, a subscriber accepts exactly its own thread's, each as its event, and the connection's, in order |
| Delivery.LongestHeldGoes | subagent.go:172-186 | in every run, delivering an event costs another held thread its events only when it is for a new one with 32 held, and then only the one held longest |
| LateNaming.RunTellsStory | subagent.go:159-244 | over every run that opens, closes, names and drops nothing of the child's own path, what the root's subscriber accepted about a child is a function of the steps about that child alone |
| LateNaming.StoryTransparent | subagent.go:159-244 | that function gives the same story for naming first and naming last exactly when at most 256 frames come before the naming |
| LateNaming.CalmNamingTransparent | subagent.go:159-244 | the same of two whole runs in which the child's events are always routed to that root |
| LateNaming.TendedIsCalm | subagent.go:145-244 | they are, in every run in which the root stays registered and subscribed, the child is named from the root or from a thread already rooted there, and no thread between them is dropped |
| LateNaming.LateNamingTransparent | subagent.go:159-244 | so two such runs that differ in when a child is named, and in anything not about it, leave the root's subscriber the same events of the child, in order, with the same turns and identity, exactly when at most 256 came before the late naming |
| Examples.NamedEarlyOrLate | subagent.go:159-244 | for every n, naming a child before or after n frames are two such runs, and the root is told the same exactly for n up to 256 |
| Examples.NamedTooLate | subagent.go:159-244 | with 257 frames it is not |
| LateNaming.RootSurvives | subagent.go:145-157 | a child keeps its root through every step that neither makes the root a child nor drops an ancestor of the child |
| Registry.RemoveID | subagent.go:136-143 | the list without the id, the others in order |
| Registry.RemoveKey | subagent.go:108-118 | map and order list lose the same key |
| Registry.ChildRegistry.Forget | subagent.go:106-118 | removes a thread from children, turns, held frames and both orders, and nothing else |
| Registry.ChildRegistry.ForgetList | subagent.go:266-271 | forgetting a thread and then each of a list is forgetting them all at once |
| Registry.ChildRegistry.HoldEvent | subagent.go:175-186 | the in-place eviction and trimming do what the transition says: the oldest held thread goes at 32, the buffer is the last 256 |
| Registry.ChildRegistry.TakeHeld | subagent.go:231-236 | hands over all that was held, in order, and stops holding |
| Registry.ChildRegistry.AdoptChild | subagent.go:219-230 | a child is created once, with the naming thread, turn, path and, if the item says started, item id; later items refine it as the transition says, also for a child evicted at once |
| Registry.ChildRegistry.Add | subagent.go:120-134 | the scan with its index and re-slicing terminates and evicts exactly the set of oldest idle children, the survivors in order |
| Registry.AddIsScan | subagent.go:124-133 | the eviction scan, step by step, equals the set-based description of eviction |
| Registry.ChildRegistry.RootOf | subagent.go:145-157 | the loop's result is the bounded walk's |
| Registry.ChildRegistry.Walk | subagent.go:285-305 | lists exactly the children at most the remaining number of steps under the parent; under a thread that is no child, each once and after its own |
| Registry.ChildRegistry.ListDescendants | subagent.go:285-305 | the two bounded walks agree: for a thread that is not a child the listed are exactly the children whose root it is, each once, each after all listed under it, in any map order |
| Registry.SubtreesApart | subagent.go:290-302 | subtrees of different children of one thread share no listed thread and neither precedes the other wrongly, because parents are unique |
| Conn.Connection.RouteUnsubscribed | subagent.go:162-187 | takes exactly the route transition on the whole state: to the root's subscriber with the child and its running turn, or held, or nothing for a registered thread; keeps the invariant |
| Conn.Connection.DeliverEvent | client.go:635-643 | takes exactly the deliver transition on the whole state; an event for a thread with an open subscription is appended there and nothing else changes |
| Conn.Connection.NoteTurnOf | subagent.go:191-205 | records a foreign thread's running turn; an end clears only that turn |
| Conn.Connection.NameChild | subagent.go:209-244 | naming registers the child and replays what was held to the root's subscriber, oldest first, each with the turn it arrived under |
| Conn.Connection.ReplayHeld | subagent.go:237-243 | the replay loop appends every held event in order to that one subscription |
| Conn.Connection.BroadcastEvent | client.go:648-654 | every open subscription accepts the event once |
| Conn.Connection.RegisterThread | client.go:582-590 | registering a thread makes it a root and keeps the invariant |
| Conn.Connection.ForgetThread | subagent.go:259-272 | a deleted thread goes, with exactly the children listed under it, from every structure |
| Conn.Connection.SubscribeTo | client.go:604-616 | the new subscription is the thread's only one; the one it replaces is closed and keeps what it had accepted |
| Conn.Connection.Unsubscribe | client.go:622-629 | the reader's subscription is cancelled; it is removed only while it is the current one |
| Conn.Connection.DeliverExitAndCloseSubs | client.go:396-408 | the exit is appended as every open subscription's last event and each is closed; a second call changes nothing |
| Conn.Connection.DispatchNotification | client.go:658-723 | what a notification's arm does to the routing: its transitions in order, invariant kept |
| Client.Connection.DispatchNotification | client.go:658-723 | a notification takes its routing transitions, starts or completes the turn of exactly the thread it names if the connection opened it, and at a turn's end withdraws exactly that turn's requests; nothing else moves |
| Client.Connection.DispatchResolved | client.go:958-963 | the request with the resolved key, and only it, leaves the table and its handler is cancelled; every other request and handler stays as it was |
| Client.Connection.OpenThread | client.go:582-590 | a registered thread gets an object of its own, with no turn, and becomes a root |
| Client.Connection.DropThread | subagent.go:259-272 | a deleted thread goes from both the threads and the routing |
| Pump.StepKeepsInv | subscription.go:36-100 | no step loses, doubles or reorders an event or loses a wake-up; once closing, nothing more is accepted |
| Pump.NothingLost | subscription.go:36-100 | in every interleaving, until an abort, what was accepted is what was delivered, then what is in hand, then the queue; the channel closes only with nothing missing |
| Pump.FinishDrains | subscription.go:48-100 | after finish, under a live reader, some step is always possible, every schedule ends, and it ends with everything accepted delivered |
| Pump.Subscription.Push | subscription.go:36-45 | takes the accept and signal steps, or nothing when closing |
| Pump.Subscription.Finish | subscription.go:48-53 | takes the close and signal steps |
| Pump.Subscription.Cancel | subscription.go:57-60 | finishes, then aborts |
| Pump.Subscription.PumpLook | subscription.go:72-94 | one pass of the pump's critical section is one step of the system |
| Pump.Subscription.PumpWait | subscription.go:81-86 | the select on wake and abort takes one of the steps enabled |
| Pump.Subscription.PumpHand | subscription.go:95-99 | so does the select on the reader and abort |
| Stream.SeesPrefixOfShare | thread.go:148-183 | in every interleaving the consumer has seen, in order, a prefix of the stream's share of what its subscription accepted: up to the first own turn completion or fatal error, never cut by a child's; or the one error of a refused start |
| Stream.SeesWholeShare | thread.go:148-183 | when the consumer's channel has closed and nobody cancelled, it has seen that share entirely, and a share without an end means the subscription closed with nothing missing |
| Stream.SeenToOwnEnd | thread.go:148-183 | whatever a child's events hold, the consumer sees nothing after the first turn completion of the thread's own or fatal error, all up to and with it once its channel is read out, and everything accepted when there is none |
| Stream.RefusalIsTold | thread.go:148-160 | a refused start is what the consumer is told of, as a fatal error with its cause, and only then |
| Stream.NeverStuck | stream.go:54-70 | while the consumer has nothing to read and its channel is open, some goroutine can go on, or the forwarder is waiting for turn/start or for an event |
| Pipeline.SeenIsEnabled | thread.go:148-183 | whatever pump and forwarder do together, handing over an event or seeing the channel close, is a step the stream can take on what the pump holds |
| Pipeline.ConsumerSeesAccepted | subscription.go:36-100 | end to end: over every interleaving of pushes, pump, forwarder, relay and consumer, the consumer has seen in order a prefix of the share of what the pushes were accepted |
| Pipeline.ConsumerSeesAll | subscription.go:36-100 | and all of it once its channel has closed uncancelled |
| Pipeline.ConsumerSeesToOwnEnd | thread.go:148-183 | end to end: of what the pushes were accepted, everything up to and with the thread's own first completion or fatal error and nothing after, whatever its children do |
| Pipeline.Ends | subscription.go:48-100 | once the subscription is closing, every schedule of the goroutines under a reading consumer is bounded and can end only with the consumer's channel closed and read out |
| EndToEnd.ConsumerSeesNoNaming | subagent.go:159-244 | two runs that differ in when a child is named, each delivered over any interleaving of pump and stream to a consumer that reads to the end, tell the consumer the same of the child, in order, with the same turns and identity, exactly when at most 256 frames came before the late naming |
| EndToEnd.CoveredWhenOpen | thread.go:148-183 | a subscription that accepted no completion of its own turn and no fatal error, or only as its last event, passes all of it on, so all that concerns a child |
| Stream.TrackedShare | stream.go:113-150 | tracking a share yields the turn that ends it and its failure, or else the first cause |
| Stream.WaitTells | stream.go:84-102 | Wait's error is nil exactly when the share ends in a turn that did not fail and no cause came before; ErrNoTurn exactly when there is neither a turn nor a cause |
| Stream.WaitTellsByKind | stream.go:84-150 | the same read off the events: the completed turn with its own failure, else the first abnormal exit before the end, else the fatal error, else that there was no turn; and the phase |
| Stream.RunningIffStarted | stream.go:113-150 | until a turn ends or something fails, the stream is running exactly when a turn has started |
| Stream.Stream.Wait | stream.go:84-102 | repeated calls return the same and change nothing |
| Teardown.StepKeepsInv | client.go:361-408 | no step of the reaper, the read loop, handlers or stream openers leaves an open stream that is not its thread's current one, or one told of the exit and still open |
| Teardown.ExitIsLast | client.go:361-408 | a stream open when the exit is delivered accepts it once, after everything the read loop dispatched to it, and nothing ever after, whatever handlers still report |
| Teardown.ToldOnce | client.go:396-408 | in every run the exit occurs in a stream's events at most once, as the last, and only once it was delivered |
| Teardown.NoStreamHangs | client.go:361-408 | once the exit has been delivered every stream ever opened, also one subscribed later, has left, was refused, is closing, or will be refused at its check |
| Teardown.CurrentStreamGetsAll | client.go:635-643 | over every run in which it stays its thread's current one and the exit is not delivered, a stream accepts exactly what is sent to its thread, in order |
| Teardown.StreamGetsAllThenExit | client.go:361-408 | a new stream still current when the exit is delivered has accepted what was sent since it subscribed, then the exit, and nothing else |
| Teardown.RefusedIffStored | thread.go:191-194 | a start is refused exactly when the exit had been stored before it looked |
| LoginHandle.SettlesOnce | login.go:111-181 | in every run with one completion and no exit the outcome is decided by the deciding steps and no others: before them only a Cancel in flight keeps the completion held; after them the attempt stays decided, marked cancelled exactly when the completion is the ambiguous one and a Cancel answered "canceled" among those steps |
| LoginHandle.ReadingsAgreeIff | login.go:111-181 | the settled flag says whether a Cancel was answered "canceled" before settling exactly when the completion is not ambiguous, or a Cancel was among the deciding steps, or none was between those and the settling |
| LoginHandle.LateCancelExample | login.go:111-181 | a Cancel begun and answered "canceled" between the deciding step and the settling is not counted |
| LoginHandle.DecidedAtFirst | login.go:111-160 | for the ambiguous completion the deciding steps end exactly at the first moment, from the completion on, with no Cancel in flight; it is determined by the run |
| LoginHandle.MessageIsCodexs | login.go:291-296 | a non-empty error of codex is the message, unchanged |
| LoginHandle.AmbiguousIff | login.go:298-309 | exactly a failure with the literal message "Login was not completed" is ambiguous |
| LoginHandle.ReorderingIsHarmless | login.go:111-160 | for Cancels already begun, any order of their answers and the completion leads to the same outcome and state, but for who settles it |
| LoginHandle.ExitHidesCompletion | login.go:162-181 | in every run in which the completion was delivered before the exit was noticed, the attempt can end with the exit error exactly when at that moment nothing is settled and a Cancel owes the outcome |
| LoginHandle.NoCancelNoCutOff | login.go:150-181 | without any Cancel it cannot |
| LoginHandle.ExitRaceExample | login.go:111-145 | a run that reaches such a moment and ends cut off |
| LoginHandle.Login.EndCancel | login.go:123-136 | the last answer in takes the held completion, and only it |
| LoginHandle.Login.Deliver | login.go:150-160 | decides at once, or holds the ambiguous completion for the Cancels in flight |
| LoginHandle.Login.NoteExit | login.go:164-174 | a held completion is decided in preference to the exit |
| LoginHandle.Login.Finish | login.go:176-181 | only the first outcome settles |
| LoginRegistry.ReachableInv | login.go:225-289 | in every run no login is both waiting and kept early, the start count is right, and nothing is kept when no start is in flight |
| LoginRegistry.StepAgrees | login.go:232-289 | each step keeps one login's completion where its phase says: nowhere, kept early, or handed over |
| LoginRegistry.CompletionReachesHandleOnce | login.go:232-289 | over every interleaving a completion dispatched after its login's start began reaches that login's handle exactly once, as soon as the handle is registered |
| LoginRegistry.EveryCompletionIsPaired | login.go:343-418 | the same from the start of the connection, with what is waiting and what is kept in the meantime |
| LoginRegistry.UnregisteredGetsNothing | login.go:232-289 | a login taken out of the registry is handed no completion any more, in every run in which no start names it |
| LoginRun.HandedWhenBoth | login.go:240-289 | a step hands a completion to the handle exactly when it is the later of the end of its start and the dispatch of its completion |
| LoginRun.StepKeepsInv | login.go:343-418 | every step of pairing and settling together keeps both registries right and the handle exactly where its own steps and that completion put it |
| LoginRun.ExitErrorIff | login.go:162-181 | from an empty registry, over every interleaving of starts, completions, Cancels and settling, a login can end with the exit error exactly when no completion of it was dispatched, or nothing is settled and a Cancel owes the outcome as the exit is noticed |
| LoginRun.SettledAsDispatched | login.go:232-289 | without an exit a login whose completion was dispatched, before or after its start ended, is decided as that completion and the Cancels answered by the deciding step say, or is held for a Cancel in flight; any other login waits |
| LoginRegistry.Registry.EndFailed | login.go:387-388 | a failed start is no longer in flight; the last one out clears what was kept |
| LoginRegistry.Registry.EndStarted | login.go:240-262 | the handle gets its early completion, or waits |
| LoginRegistry.Registry.DispatchCompletion | login.go:270-289 | the completion goes to the waiting handle, is kept for a start in flight, or is dropped |
| ServerRequests.StepSettlesOnce | client.go:1130-1178 | a request's fate is settled once: claimed, withdrawn or displaced never changes |
| ServerRequests.AnsweredAtMostOnce | client.go:1023-1178 | over every run at most one response is written for a request, only after a claim, and none once it was withdrawn or displaced |
| ServerRequests.PendingIsAnswered | client.go:1023-1077 | if the handler returns or panics while the request is pending, exactly one response is written, whatever else happens |
| ServerRequests.ClaimedIsAnswered | client.go:1152-1161 | a claimed request's write stays possible until it is made, and nobody else makes it |
| ServerRequests.EndedHandlerHasDecided | client.go:1023-1077 | a handler that ends writes exactly when its request was still pending and has finished otherwise, and no other request changes |
| ServerRequests.NewRequestDisplaces | client.go:1138-1148 | a new request takes over its id: one pending under it is displaced, and no other changes |
| ServerRequests.TurnOverLeavesNothing | client.go:685-692 | after a turn completes, a pending request of that turn, or of its thread with no known turn, is withdrawn and no longer reachable, and every other request is as it was |
| ServerRequests.ResolvedTakesOne | client.go:958-963 | after codex takes a request back, the pending one with that key is withdrawn and no longer reachable, and every other is as it was and still reachable if it was pending |
| ServerRequests.RequestTable.TrackRequest | client.go:1138-1148 | the new request is pending under its id; one it displaces never is again |
| ServerRequests.RequestTable.ClaimRequest | client.go:1152-1161 | true exactly when the request is still pending, and then it is not any more; a second claim of any request is answered false |
| ServerRequests.RequestTable.WithdrawRequests | client.go:1165-1178 | exactly the matching pending requests leave the table, and the handler of each is cancelled |
| ServerRequests.SplitTable | client.go:1168-1173 | one pass, in any order, keeps exactly the entries that do not match |
| Rpc.StepKeepsInv | rpc.go:112-277 | every step of callers, read loop and Close keeps ids unshared, each channel sent to at most once, each message with the id it answers, and a waiting call's message on its way: in its channel, in the read loop's hand, or its entry still to be found |
| Rpc.RepliesAreCorrelated | rpc.go:135-232 | in every run a caller that was answered got the failure or a frame that was read and carries its own id; no other call has that id; no channel got two messages |
| Rpc.FirstResponseIsReturned | rpc.go:135-232 | the first response read with the id of a call that has stored its channel and not returned is that call's: once the read loop has sent it, over every interleaving, the call has returned that very frame or can at once; unless it gave up, the connection ended, or its write failed or found it closed |
| Rpc.NoneAdmittedOnceClosed | rpc.go:194-277 | over every run once the connection is closed, a call that has not yet written never waits and returns with nothing, and one that has not passed the check draws no id |
| Rpc.StopsOnlyByFailing | rpc.go:112-164 | no frame, and no answer to one, stops the read loop |
| Rpc.CloseStays | rpc.go:112-277 | over every run frames read stay read, a connection that Close has begun to close stays closed, and one that Close or the end of the read loop has cancelled stays cancelled |
| Rpc.LateReplyDropped | rpc.go:153-164 | a response to an id already answered, never drawn, or whose caller has returned changes nothing |
| Rpc.NobodyStranded | rpc.go:112-133 | once the read loop has exited or Close has cancelled, every call not yet returned, begun before or after, has a step of its own that brings it closer to returning |
| Rpc.OthersDoNotDelay | rpc.go:194-232 | no step of anybody else moves a call back or undoes the cancellation |
| Rpc.EveryCallReturns | rpc.go:194-277 | over any run a call takes at most five steps, and after the exit or a Close it can always take the next |
| ThreadTurns.RevivedIffOvertaken | thread.go:42-51 | a turn that is over is made active by a late response exactly when another turn completed after it |
| ThreadTurns.ActiveTells | thread.go:30-59 | the active turn is that of the last act that is not a response of the turn that completed last, and there is none when that act is a completion |
| ThreadTurns.OvertakenResponse | thread.go:42-51 | two turns in sequence and a late first response report a turn that is not running |
| ThreadTurns.CompletedStaysCleared | thread.go:42-58 | with no other turn in between, a completed turn is not active wherever its response is recorded |
| ThreadTurns.SendMessage | thread.go:233-260 | at most two requests are sent, the second only after a refusal and to another active turn, each naming the turn active when it was sent; the result is what the last request was answered, so a message is delivered at most once |
| ConfigValues.CopyExactIffPlain | option.go:259-280 | a copy equals its original exactly when the original is plain, and a copy is always plain |
| ConfigValues.InexactCopies | option.go:259-280 | a nil map, a nil slice and an empty []string are not copied exactly |
| ConfigValues.CopyIsThePlainOne | option.go:259-280 | a copy is the one plain value that holds the same as its original, nil and empty taken for one at every level |
| ConfigValues.MergePlain | option.go:239-257 | a merge into a plain config is plain |
| ConfigValues.MergeOverlays | option.go:239-257 | at every path of keys the merge holds what the source has there; where the source has nothing there and only objects on the way, what the destination has; and nothing else |
| ConfigValues.KnownByPaths | option.go:239-257 | a config is known by what it holds at every path |
| ConfigValues.MergeIsTheOverlay | option.go:239-257 | the merge is the one config that overlays source on destination at every path, and only it |
| ConfigValues.MergeAssociatesIff | option.go:239-257 | merging three layers associates exactly when no middle layer puts a non-object between two objects and thereby drops a key the last does not set again |
| ConfigValues.MergeDoesNotAssociate | option.go:239-257 | three configs for which it does not |
| ConfigHeap.CopyTable | option.go:269-274 | the copied map has the same rows and is new, in any iteration order |
| ConfigHeap.CopyWords | option.go:275-276 | a non-empty slice is copied into a new one, an empty one becomes nil |
| ConfigHeap.CopySlice | option.go:263-268 | the new slice holds copies of the elements, in order, none sharing an object with another or with the original |
| ConfigHeap.CopyValue | option.go:259-280 | a copy has the copied value and consists of new objects only |
| ConfigHeap.MergeKey | option.go:248-254 | one key is merged into the map already there or replaced by a copy; every other entry is untouched |
| ConfigHeap.MergeConfig | option.go:239-257 | the destination keeps its identity and holds the merged value, every object added to it is new, no part is shared, and the source is as it was; for any key order and any sharing inside the source |
| Options.SnapshotIsMade | option.go:234-237 | the option holds a plain snapshot of the caller's config |
| Options.ApplyAllSettled | option.go:408-425 | resolving such options always leaves a plain config |
| Options.ApplyAllInTurn | option.go:408-425 | resolving two lists one after the other is resolving their concatenation |
| Options.CallOptsGiveBack | thread.go:265-289 | resolving callOpts gives back every carried field exactly, config and extras included, and sets no other |
| Options.LayeringKeepsCarried | thread.go:191-206 | for any client, connection and call options, layering through the connection yields the same carried fields and the same turn/start parameters as resolving all at once |
| Options.ResumeKeepsAllIffResent | client.go:459-478 | the resume parameters are those of all options at once exactly when the call sets again the connection's sandbox, provider, instructions and every thread extra key |
| Options.ResumeDropsSandbox | client.go:459-478 | a connection's sandbox alone is not sent on resume |
| Options.OptionIsSent | option.go:427-505 | each option changes the one thread/start, thread/resume and turn/start parameter it is about, and no other |
| Options.OptOutsAddUp | option.go:408-425 | the opt-outs of a list add up in its order |
| Options.TakeSnapshot | option.go:234-237 | the snapshot has the config's copied value, is new, and leaves the caller's map as it was |
| Options.ReplacesIff | option.go:7-10 | a call-time option comes out as if the defaults had not set it exactly when it has every key they set, for a config at every level, or there is nothing to add to |
| Options.DefaultsShowThrough | option.go:174-257 | turn extras, thread extras, environment, opt-outs and a config of the defaults that show through |
| Options.Settings.ApplyOne | option.go:93-355 | one option changes what it says and nothing else; a config option keeps its snapshot apart from the settings |
| Options.Settings.ApplyEach | option.go:408-425 | the options take effect in order and none is used up: every snapshot still holds what it held and can be applied again |
| Options.Settings.ListCallOpts | thread.go:265-289 | the list says what the settings hold, and its config is a snapshot apart from them |
| Options.Resolve | option.go:408-425 | new settings hold defaults then overrides, sharing nothing with the options |
| LineSplit.SplitResumes | update.go:1017-1028 | splitting a text can stop anywhere and go on with the last piece |
| LineSplit.SplitAtFirst | update.go:1019-1026 | cutting at the first break leaves the rest to split |
| LineSplit.ChunksDoNotMatter | update.go:1012-1042 | for every way of cutting a text into chunks the writes and the final flush emit the lines of the whole text split once, right-trimmed and without empty ones |
| LineSplit.LineWriter.Write | update.go:1017-1028 | emits every line the chunk completes, in order, and keeps what follows the last break |
| LineSplit.LineWriter.EmitFirst | update.go:1019-1026 | emitting one line changes nothing of what is emitted overall |
| LineSplit.LineWriter.Flush | update.go:1031-1036 | emits the trailing text and empties the buffer |
| LineSplit.LineWriter.Emit | update.go:1038-1042 | hands on the trimmed line unless it is empty |
| LineSplit.LineRing.Add | update.go:1051-1059 | the ring holds exactly the last max lines ever added, none for max at most 0 |
| LineSplit.WriteAll | update.go:967-1002 | any chunks written and flushed leave the ring with the last max lines of the whole text |
| LineSplit.LinesAreClean | update.go:1017-1042 | no line handed on is empty, holds a line feed or carriage return, or ends in a space or tab |
| LineSplit.TrimsBlanks | update.go:1017-1042 | what trimming drops is spaces and tabs at the end, and all of them |
| LineSplit.SplitLosesBreaks | update.go:1017-1042 | the pieces put together are the text without its breaks, one more piece than breaks |
| ShellQuote.DecodeDoubleQuoted | schema/types.go:877-900 | the index loop and the fast path both compute the decoding |
| ShellQuote.NothingToDecode | schema/types.go:878-880 | without a backslash the decoding is the text itself |
| ShellQuote.UnquoteShell | schema/types.go:864-875 | strips one pair of matching quotes and decodes by their kind |
| ShellQuote.UnwrapShellCommand | schema/types.go:849-857 | the flags are looked for in order and the first found is cut at |
| ShellQuote.CutIsAtFirst | schema/types.go:852-853 | the cut is at the first place the flag occurs |
| ShellQuote.DecodeResumes | schema/types.go:877-900 | decoding gives an escaped text back and goes on behind it |
| ShellQuote.OtherBackslashes | schema/types.go:886-897 | between escaped parts a line continuation leaves nothing, and a backslash before any other character stays |
| ShellQuote.UnquoteInverts | schema/types.go:864-900 | for every body, unquoting its single-quoted and its double-quoted form gives the body back |
| ShellQuote.FlagInInner | schema/types.go:849-857 | a flag occurs in a quoted body exactly when it occurs in the body |
| ShellQuote.CutTooFar | schema/types.go:849-857 | cutting at a flag inside the body never gives the body back |
| ShellQuote.UnwrapInvertsIff | schema/types.go:849-857 | behind any non-empty word without white space and any of the four flags, a quoted body comes back whole exactly when it contains none of the flags looked for earlier |
| ShellQuote.LoginShellInverts | schema/types.go:849-857 | behind " -lc " every body comes back whole |
| ShellQuote.PlainShellFails | schema/types.go:849-857 | behind " -c " the body " -lc " does not |
| ShellQuote.BareComesBack | schema/types.go:840-857 | what follows the first of the flags that occurs comes back trimmed and otherwise unchanged when it is not in one pair of quotes |
| ShellQuote.NoFlagComesBack | schema/types.go:840-857 | a command without any of the flags comes back trimmed and otherwise unchanged |
| ShellQuote.TrimmedText | schema/types.go:840-857 | trimming drops white space at the two ends only, and leaves none there |
| Update.NPMPackageRoot | npm_update.go:263-277 | the bounded upward loop finds what the walk finds |
| Update.NearestRoot | npm_update.go:263-277 | that is the first package root among the eight directories going up, and none exactly when none of them is one |
| Update.LookPathIn | npm_update.go:246-257 | the first executable of that name on an absolute PATH entry |
| Update.ProofIsSound | npm_update.go:90-164 | a proven unix plan's npm writes, symlinks followed, the very package nearest above the binary PATH runs; a pinned prefix is the reported one; the directories checked are the one holding that package and its prefix's bin |
| Update.ProvenNPM | npm_update.go:90-244 | a proven unix plan runs the prefix's own npm beside its own node whenever there is a file for it, unpinned; else the first npm on PATH, which resolves to npm's own bin/npm-cli.js and has an executable node in the directory put first on PATH, pinned to the prefix it reported |
| Update.OrdinaryIsProven | npm_update.go:90-164 | an npm install inside its prefix, with that prefix's own npm and node executable and the reported prefix leading to the same package, is proven |
| Update.FallbackIsTaken | npm_update.go:165-210 | where the prefix has no npm, the first on PATH that is npm's own script with an executable node is the one chosen |
| Update.LookInIsFirst | npm_update.go:246-257 | a look-up finds the first executable of that name on an absolute entry, and none only if there is none |
| Update.WinPlanCovers | npm_update_winlayout.go:92-141 | a proven Windows plan is pinned to the reported prefix, and what it probes for use is the package and the three shims, each in a directory checked for writing |
| Update.OthersNeverProven | npm_update.go:90-164 | an install another package manager made is never proven, advertised or updated |
| Update.WritableIff | npm_update.go:362-379 | the probe passes exactly when every directory is known writable |
| Update.InstallSelfManaged | npm_update.go:362-379 | the advertised verdict: native, or npm with a proof and every target writable |
| Update.StartableIff | update.go:600-725 | a run is permitted exactly when the install is native with known writable targets, or proven npm with writable targets, a newer version and nothing held; and it is then the only one |
| Update.Preflight | update.go:600-725 | yields a run exactly when one is permitted, and that one; otherwise refuses exactly in the stated cases, or reports the install up to date, in use or unresolved |
| Update.RunUpdate | update.go:600-762 | an updater starts exactly when a run is permitted, and it is that run; success is reported exactly when the updater succeeded and the version re-read, for npm the resolved one, is there; a native install is refused exactly for unknown or unwritable targets, an npm install exactly when the verdict is no or file use cannot be told; and each other ending (unresolved, in use, failed, unread, wrong version) is reported exactly in its own case |
| Update.VerdictsDiffer | update.go:712-719 | an npm install advertised as self-managed that Update refuses because the in-use probe fails |

## Left out

- Fabric.ReachableInv: registration, deletion and naming are one step each, so the window between `noteSubAgent`'s thread lookup and its lock (subagent.go:211-214), the two halves of `registerThread`, and between `forgetDeleted`'s listing and its locks are not interleaved with other goroutines.
- Conn.Connection.Unsubscribe: cancelling and removing the subscription are one call here; in the transition system they are two actions.
- LateNaming.LateNamingTransparent: assumes the child is neither registered nor subscribed itself, the root stays registered and its subscription current and open, the child is named from the root's tree and no thread between them is dropped; the limits enter as conditions on the child alone.
- EndToEnd.ConsumerSeesNoNaming: besides, assumes each stream's share covers the child's events, which fails when the stream's own turn ends before the child's last event, and that pump and stream carry what the routing pushed, as `Conn.Connection.DeliverEvent` does.
- Teardown.NoStreamHangs: the reaper's waits are steps that become possible; that the process exits and the read loop ends is assumed by the run it speaks of.
- Pump.FinishDrains: that a live reader eventually reads, and that the scheduler is fair, is assumed by the schedule it speaks of.
- LoginHandle.SettlesOnce: an attempt is decided under the handle's lock and settled outside it; the outcome meant is the decided one.
- LoginHandle.ExitHidesCompletion: that the exit is noticed only after the read loop and the start have settled what they owe is a condition of the step, as the waits in `client.go:376-386` and `login.go:402-418` make it.
- LoginRegistry.EveryCompletionIsPaired: assumes of codex one completion per login, after its start began, and a login id named by one start only.
- LoginRun.ExitErrorIff: assumes the same; that the exit is noticed only once the start has ended and nobody but a Cancel still owes the outcome is a condition of the step.
- Identity.ToldAsNamed: only the routing itself wraps an event as a child's; that no notification delivers such an event is a condition on the run, which every notification meets (`Delivery.FramesSend`).
- Rpc.FirstResponseIsReturned: a response is known by its place among the frames read; what it holds is opaque.
- Rpc.NobodyStranded: a write that blocks for ever on the pipe is not modelled; a write ends, well or badly.
- ConfigHeap.MergeConfig: a config value of any other Go type (a pointer, a `[]int`) is treated as a scalar; cyclic configs, on which the program does not terminate, have no tree and are outside; a slice is its whole array.
- Options.LayeringKeepsCarried: of the client-only options, the environment and the opt-outs are modelled and the rest (paths, client info, callbacks, handlers, flags) are left out, each a plain assignment; extra values are opaque.
- ShellQuote.UnwrapInvertsIff: text is a sequence of characters, so input that is not valid UTF-8 is outside.
- Update.ProofIsSound: covers unix; on Windows the proof's answer is a parameter.
- Update.RunUpdate: files, npm, the registry and the updater are answers fixed in advance; cancellation, deadlines and progress output are left out, and the native targets are given.
- ThreadTurns.SendMessage: the readings of the active turn and codex's answers are parameters.
- Client.Connection.DispatchNotification: the routing's two parts of a turn notification are one call, so the turn and the withdrawal come before a foreign thread's turn note; they touch nothing in common.
- The setters of single fields (`setActiveTurn`, `beginStart`, `unregister` and the like) are methods proved equal to their step and have no row.
- JSON encoding and decoding: the model starts from typed notifications and frames.
- Process spawning, signals, stderr draining and exit classification: the exit is one event.
- Timeouts (Ping, Close, interrupt bounds, login lifetimes): only as steps by which a caller gives up.
- `interruptDescendants`: cancellation fan-out is I/O over the listed descendants.
- Version parsing and comparison, install-method detection and shim lookup: per-branch string tests.
- The account, MCP, model and skill calls, doctor projections, schema structs and command-line tools: thin wrappers without shared state.
- Approval decision tables, command output accumulation and the stderr ring: would only add easy members.
