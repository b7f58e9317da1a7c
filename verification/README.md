# Node-API on V8 and JavaScriptCore: a verified model

A Dafny model of the state machines and codecs underneath this Node-API implementation, with proofs of what they
keep. Each part is a specification (datatypes, functions and a step function), lemmas about it, and, where the
program works in place, classes and loop methods proved equal to the specification.

* `RefTracking*.dfy`, `NapiEnv.dfy` - references, weak callbacks, the pending finalizer set and environment teardown
  on V8. What one invocation of a user finalizer does is a finite script of calls and collections carried by its
  registration; a finalizer runs at most once, so this covers every program. Finalizers may create, read, count, delete
  and collect other references, read and replace instance data and post more finalizers, nested to any depth, and a
  call that reaches a freed tracker is made and recorded. `RefTrackerList.dfy` has the two intrusive lists with their
  pointers, which the environment object in `NapiEnv.dfy` updates in place. `RefTrackingQueue.dfy` is about what is
  queued and when it runs, `RefTrackingTeardown.dfy` about what finalizers may still touch during teardown, and
  `RefTrackingFaults.dfy` has programs that touch what is freed.
* `Bridge.dfy`, `BridgeProgress.dfy` - the inspector bridge: a transport thread and the V8 thread interleaved one
  critical section or atomic access at a time, with pumps, dispatches, waits and pause loops nested on the V8 thread's
  stack; what every interleaving keeps, and what the steps of each thread achieve.
* `WebSocket.dfy`, `ReadLoop.dfy` - frames (section 5.2 of RFC 6455), the streaming decoder, and the read loop that
  answers pings and reassembles fragments (section 5.4).
* `Sha1.dfy`, `Sha1Example.dfy` - the buffered hash against RFC 3174, and the digest of its first example.
* `Utf.dfy`, `BigIntWords.dfy`, `TypeTags.dfy` - the text and number codecs and the stored forms of type tags.
* `JscLedger*.dfy`, `JscEnv.dfy` - handle scopes, protect counts, references, promises and deferred finalizers on
  JavaScriptCore. Calls nest on an explicit stack of frames, so a native callback, a JavaScript call, a finalizer or
  the reporting of its exception is any sequence of steps between entering and leaving; collections and buffer
  deallocations may come between any two steps, of any holder whose target is not protected.
* `WrapState.dfy`, `PrivateKeys.dfy` - the wrap caches in internal fields and the per-thread private-key cache.

Some promises of the code or its comments hold only under a condition; each has a concrete sequence of steps that
breaks it and the exact condition:

* On V8, a finalizer that teardown runs can reach a freed tracker. DeleteMe finalizes newest first and frees as it goes,
  so using a newer handle with a finalizer of its own (`NewerHandleFaults`), reading or replacing instance data set
  later (`NewerInstanceFaults`), or using a weak handle collected meanwhile (`CollectedHandleFaults`) does so.
  `HandleInTeardown`, `NewerHandlesAreGone` and `InstanceInTeardown` say exactly when each call is safe, and
  `FreedTouchedExactly` that nothing else in any run of the modelled calls reaches a freed tracker.
* A JavaScriptCore reference with a positive count can read empty: `napi_reference_ref` on a reference whose target
  is gone counts up all the same (`HeldButEmpty`). It reads its target for as long as it is held exactly if it read
  it before that call (`StrengthenedReadsExactly`).
* The protect ledger balances after a run exactly if no step wrapped the 32-bit count of a reference that protected
  its target (`LedgerBalances`, `WrappingCountLeaks`).
* Removing a wrap hides the native from fast reads exactly if the object does not have one or two internal fields
  (`NeverStaleExactly`); objects made by `napi_define_class` have three.
* At most one inspector interrupt is outstanding exactly as long as no bridge is made at the address of a deleted one
  whose interrupt has not fired (`AtMostOneInterrupt`, `EarlyReuseDoubles`).
* A deleted inspector bridge is never used exactly if it is stopped with none of its own activations on the stack
  (`DeletedBridgeUntouched`, `NestedStopTouches`).
* On JavaScriptCore a type tag is looked up through the prototypes, so an untagged object with a tagged prototype
  refuses its first tag; and a frozen object accepts tags without keeping them (`FirstTagWins`, `FrozenKeepsNoTag`).

Integer widths are explicit: the reference counts and the SHA-1 words wrap at 2^32 and the SHA-1 bit counter at 2^64.

## Model

| member | source | states |
|---|---|---|
| `RefTrackingCalls.FinalizersRunExactlyOnce` | src/v8/js_native_api_v8.h:177-192 | over every program, tick order and pending-set order, ending in teardown: a registered finalizer ran exactly once if no call of the run gave it up before it ran (deleted, unwrapped or replaced it), and never otherwise; both lists and the pending set are empty; all that stays allocated are handles the user never deleted |
| `RefTrackingQueue.CollectedIsPending` | src/v8/internals.cc:11-23 | in every reachable state every linked tracker with a finalizer whose target was collected, and every posted one, is in the pending set, and after a tick none is left; only the instance data waits for teardown |
| `RefTrackingQueue.TickFinalizes` | src/v8/js_native_api_v8.h:163-175 | after any run that ends in a tick, each finalizer of a collected or posted tracker has run exactly once, unless a call of the run gave it up |
| `RefTrackingQueue.CollectThenTick` | src/v8/internals.cc:11-23 | from any reachable state: collect an object with a finalizer, then tick - the finalizer has run once, unless a call of that drain gave it up |
| `RefTrackingQueue.PostThenTick` | src/v8/wrap.cc:206-212 | from any reachable state: post a finalizer, then tick - it has run once; no call can give it up |
| `RefTrackingCalls.FreedTouchedExactly` | src/v8/internals.cc:63-147 | before teardown no freed tracker is ever read, counted, freed or finalized again; over a whole run that happens exactly if a call made by a finalizer in teardown reaches a freed tracker; the runtime itself never does it |
| `RefTrackingCalls.NoFaultBefore` | src/v8/reference.cc:69-131 | in any state before teardown no call - counting, deleting or reading a reference, reading or replacing instance data - reaches a freed tracker |
| `RefTrackingCalls.InstanceSafeExactly` | src/v8/instance.cc:65-92 | replacing instance data faults exactly if the tracker of the old data is no longer linked, reading it exactly if moreover its own Finalize is not running; neither ever before teardown |
| `RefTrackingTeardown.InstanceInTeardown` | src/v8/js_native_api_v8.h:183-189 | between any two calls of a finalizer that DeleteMe starts: replacing instance data faults exactly if DeleteMe has come to its tracker, reading it exactly if it did so in an earlier turn; for finalizers registered before DeleteMe, exactly if the tracker is not older (for reading: is newer) than the one whose finalizer runs and was not made by that finalizer |
| `RefTrackingFaults.NewerInstanceFaults` | src/v8/instance.cc:65-92 | programs of two calls whose teardown reads the freed instance data tracker, or deletes it a second time |
| `RefTrackingTeardown.HandleInTeardown` | src/v8/internals.cc:119-130 | between any two calls of a finalizer that DeleteMe starts, at any count, a handle that the user did not delete is allocated exactly if DeleteMe did not come to it in an earlier turn and no collection since DeleteMe began finalized it; a collection can do so only at count zero, and outside experimental modules only if the handle has no finalizer of its own |
| `RefTrackingTeardown.NewerHandlesAreGone` | src/v8/js_native_api_v8.h:183-189 | for finalizers registered before DeleteMe: a handle that was there when the finalizer started and was not collected since DeleteMe began is freed exactly if it has a finalizer of its own, is newer than the tracker whose finalizer runs, and was not finalized before DeleteMe; deleting or reading it faults exactly then |
| `RefTrackingFaults.NewerHandleFaults` | src/v8/internals.cc:119-130 | the comment's "no double-free" does not cover a finalizer that deletes, reads or counts a newer handle: programs of two calls that reach it after it was freed |
| `RefTrackingFaults.CollectedHandleFaults` | src/v8/internals.cc:119-147 | nor one that uses an older weak handle after its collection, which frees it because of the teardown flag: programs of two calls |
| `RefTrackingTeardown.TurnsAreFinalizeAll` | src/v8/js_native_api_v8.h:64-68 | the turns those theorems count are the turns of FinalizeAll |
| `RefTrackingTeardown.TurnsInOrder` | src/v8/js_native_api_v8.h:44-51 | whatever DeleteMe has started was linked when it began or made since, and is newer than everything that was there before and is still to come |
| `RefTrackingTeardown.TurnsTorn` | src/v8/internals.cc:119-130 | after any number of turns teardown has finalized exactly what those turns started and what was collected meanwhile |
| `RefTrackingTeardown.TornExec` | src/v8/internals.cc:119-147 | one call in teardown, with all it sets off, finalizes a tracker exactly if one of the collections made takes it |
| `RefTrackingTeardown.QuietExec` | src/v8/internals.cc:117-147 | no call links a tracker again, and in teardown none leaves a tracker allocated on no list |
| `RefTrackingCalls.FaultExec` | src/v8/reference.cc:69-117 | one call, with all it sets off, reaches a freed tracker exactly if one of the calls made does |
| `RefTrackingCalls.DropExec` | src/v8/internals.cc:29-33 | one call, with all it sets off, gives up a finalizer exactly if one of the calls made does |
| `RefTrackingCalls.EveryFinalizerRuns` | src/v8/js_native_api_v8.h:163-192 | all registered finalizers run exactly once if and only if no call of the run gives one up before it ran |
| `RefTrackingPrograms.ProgramKeepsFinalizers` | src/v8/js_native_api_v8.h:163-192 | read off the program text: if nothing in it or in its callbacks deletes, unwraps or sets instance data, every registered finalizer runs exactly once |
| `RefTrackingPrograms.ProgramTouchesNothingFreed` | src/v8/js_native_api_v8.h:183-189 | read off the program text: if no finalizer reads, counts or deletes references or reads or sets instance data, no run touches a freed tracker, whatever the program itself calls |
| `RefTrackingPrograms.NeverExec` | src/v8/internals.cc:35-49 | what no call of the text does, no call of the run does, callbacks that callbacks register included |
| `RefTrackingRuns.HandlesSurviveCollection` | src/v8/internals.cc:117-147 | before teardown a userland handle is allocated exactly until the user deletes it, and a positive count keeps a strong hold |
| `RefTrackingRuns.RequestedHandleStaysGood` | src/v8/js_native_api_v8_impl.h:447-459 | a reference a caller asked for and got is allocated, after any later calls, collections and ticks, exactly until the user deletes it |
| `RefTrackingLaws.CreationExactly` | src/v8/internals.cc:51-115 | what a creating call gives: whose the reference is, its count and hold, its callback and list; and exactly when the call is refused |
| `RefTrackingLaws.HandleIsUsable` | src/v8/reference.cc:69-131 | a handle can be counted, read and deleted from the start, and after its deletion none of these |
| `RefTrackingLaws.WrapThenRemove` | src/v8/js_native_api_v8_impl.h:224-291 | a wrap can be removed, once; its finalizer goes with it, and the reference too unless the user has it |
| `RefTrackingLaws.UnrefUndoesRef` | src/v8/internals.cc:88-115 | counting up adds one and holds the target, and counting down undoes it; on a collected target counting changes nothing |
| `RefTrackingLaws.GcFinalizerChangesNoReference` | src/v8/internals.cc:11-23 | whatever a finalizer does that a collection runs at once in an experimental module, no other reference changes |
| `RefTrackingRuns.Run` | src/v8/internals.cc:11-147 | the invariant holds after any calls, collections and ticks, with no finalizer left on the stack |
| `RefTrackingRuns.Drain` | src/v8/js_native_api_v8.h:163-175 | keeps the invariant and, unless it refuses to nest, ends with an empty pending set |
| `RefTrackingRuns.DrainLoop` | src/v8/js_native_api_v8.h:169-173 | terminates although finalizers queue more finalizers, and empties the pending set |
| `RefTrackingRuns.FinalizeAll` | src/v8/js_native_api_v8.h:64-68 | terminates although finalizers link and unlink trackers, and empties its list; emptying reflist never refills an empty finalizing_reflist |
| `RefTrackingRuns.DeleteMe` | src/v8/js_native_api_v8.h:177-192 | keeps the invariant and leaves both lists empty |
| `RefTrackingSafety.ExecInv` | src/v8/internals.cc:51-181 | every API call, on freed handles and freed instance data too, keeps list membership, pending-set validity, exactly-once accounting, hold strength and handle lifetime |
| `RefTrackingSafety.RunScriptInv` | src/v8/internals.cc:35-49 | so does any finite script of calls a user finalizer makes |
| `RefTrackingSafety.FinalizeInv` | src/v8/internals.cc:117-131 | so does Finalize, with whatever its callback does in between |
| `RefTrackingSafety.WeakCallbackInv` | src/v8/internals.cc:143-147 | so does the weak callback of the collector |
| `RefTrackingSafety.FromGcInv` | src/v8/internals.cc:11-23 | so does the choice between queueing and finalizing at once, and the GC flag is restored |
| `RefTrackingSafety.DestroyInv` | src/v8/internals.cc:63-86 | so does deleting a tracker: it is unlinked, dequeued and freed; a second delete after teardown freed it is recorded as a fault and changes nothing else |
| `RefTrackingSafety.ReplaceInstanceInv` | src/v8/instance.cc:65-80 | so does replacing the instance data, whatever has become of the old tracker |
| `RefTrackingSafety.RemoveWrapInv` | src/v8/js_native_api_v8_impl.h:240-250 | so does removing a wrap, by either ownership |
| `RefTrackingSafety.EndFinalizeInv` | src/v8/internals.cc:126-130 | so does the end of Finalize, which frees runtime-owned references always and userland ones in teardown |
| `RefTrackerList.RefTracker.Link` | src/v8/js_native_api_v8.h:44-51 | pointer updates of Link: only the node, the head and the old first node change |
| `RefTrackerList.RefTracker.Unlink` | src/v8/js_native_api_v8.h:53-62 | the neighbours are joined and the node points nowhere |
| `RefTrackerList.PushFront` | src/v8/js_native_api_v8.h:44-51 | linking at a head gives a well-formed doubly linked list with the node first, and leaves another list as it is |
| `RefTrackerList.TakeOut` | src/v8/js_native_api_v8.h:53-62 | unlinking takes exactly that node out; a node that points nowhere changes nothing |
| `RefTrackerList.TrackerLists.New` | src/v8/js_native_api_v8.h:44-51 | a new tracker at the head of its list; both lists stay well formed over disjoint trackers |
| `RefTrackerList.TrackerLists.Unlink` | src/v8/js_native_api_v8.h:53-62 | the tracker leaves whatever list it is on, both lists stay well formed, and a second unlink changes nothing |
| `NapiEnvObject.NapiEnv.Exec` | src/v8/reference.cc:46-117 | the object, with both pointer lists updated in place and still well formed, takes exactly the step of the state machine |
| `NapiEnvObject.NapiEnv.Link` | src/v8/js_native_api_v8.h:44-51 | a new node at the head of its doubly linked list |
| `NapiEnvObject.NapiEnv.Unlink` | src/v8/js_native_api_v8.h:53-62 | the node is out of its list, and a second time is harmless |
| `NapiEnvObject.NapiEnv.Free` | src/v8/internals.cc:63-86 | unlinked, dequeued, freed |
| `NapiEnvObject.NapiEnv.Finalize` | src/v8/internals.cc:117-131 | equal to the state machine's Finalize |
| `NapiEnvObject.NapiEnv.WeakCallback` | src/v8/internals.cc:143-147 | equal to the state machine's weak callback |
| `NapiEnvObject.NapiEnv.InvokeFinalizerFromGC` | src/v8/internals.cc:11-23 | equal to the state machine's step, with the flag saved and restored |
| `NapiEnvObject.NapiEnv.Ref` | src/v8/internals.cc:95-101 | 32-bit count, and strong from the first reference on |
| `NapiEnvObject.NapiEnv.Unref` | src/v8/internals.cc:103-109 | weak again from the last one on |
| `NapiEnvObject.NapiEnv.RemoveWrap` | src/v8/js_native_api_v8_impl.h:240-250 | reset for userland references, deleted for the runtime's |
| `NapiEnvObject.NapiEnv.SetInstanceData` | src/v8/instance.cc:65-80 | the old tracker is deleted, allocated or not, and a new one linked |
| `NapiEnvObject.NapiEnv.DrainFinalizerQueue` | src/v8/js_native_api_v8.h:163-175 | the loop computes the state machine's Drain |
| `NapiEnvObject.NapiEnv.FinalizeAll` | src/v8/js_native_api_v8.h:64-68 | the loop over the node behind the head computes the state machine's FinalizeAll |
| `NapiEnvObject.NapiEnv.DeleteMe` | src/v8/js_native_api_v8.h:177-192 | finalizes both lists, the finalizing one first, until neither head has a successor, and restores the teardown flag |
| `Bridge.DispatchOrder` | src/v8/inspector/bridge.cc:136-189 | in every interleaving, messages started so far followed by the queue are all messages sent, in order |
| `Bridge.InterruptsBounded` | src/v8/inspector/bridge.cc:145-162 | never more than one interrupt of this bridge outstanding, besides those left over from bridges deleted at the same address |
| `Bridge.AtMostOneInterrupt` | src/v8/inspector/bridge.cc:145-162 | at most one outstanding in all, if no bridge is made at an address whose old interrupt has not fired |
| `Bridge.EarlyReuseDoubles` | src/v8/inspector/bridge.cc:43-49 | and only then: from any reachable state in which the address is used again too early, the first message makes two |
| `Bridge.EarlyReuseHappens` | src/v8/inspector/bridge.cc:43-49 | a run that reaches such a state |
| `Bridge.NothingStranded` | src/v8/inspector/bridge.cc:136-189 | with the producer idle, no interrupt on its way and no pump on the stack, everything sent has been dispatched, however pumps and pause loops nest |
| `Bridge.BlockedOnlyWhenQuiet` | src/v8/inspector/bridge.cc:191-200 | a thread still blocked in Wait has an empty queue and is paused: no lost wake-up |
| `Bridge.DeletedBridgeUntouched` | src/v8/inspector/bridge.cc:43-49 | if it is stopped from the top level only, no late interrupt, pump, pause loop or transport step reaches a deleted bridge |
| `Bridge.NestedStopTouches` | src/v8/inspector/inspector_api.cc:159-176 | and only then: when it is stopped from a pause handler or from JavaScript a dispatch runs, at any depth and in any reachable state, the V8 thread cannot go on without using the deleted bridge |
| `Bridge.NestedStopHappens` | src/v8/inspector/inspector_api.cc:159-176 | a run that does so |
| `Bridge.RunInv` | src/v8/inspector/bridge.cc:136-228 | all of the above as one invariant kept by every step of either thread |
| `Bridge.StepCoalesced` | src/v8/inspector/bridge.cc:145-162 | requested, delivered-but-unacknowledged and about-to-be-requested interrupts together cover the flag and exceed it by at most those of earlier bridges |
| `Bridge.StepWatched` | src/v8/inspector/bridge.cc:166-189 | a non-empty queue always has someone who will look at it |
| `Bridge.PumpStays` | src/v8/inspector/bridge.cc:166-189 | a pump leaves the stack only after seeing the queue empty |
| `Bridge.StepWakeup` | src/v8/inspector/bridge.cc:191-228 | every change that could end a wait is followed by a notification |
| `Bridge.StackDiscipline` | src/v8/inspector/bridge.cc:204-223 | a step rewrites the innermost activation only |
| `BridgeProgress.EnqueueExactly` | src/v8/inspector/bridge.cc:136-149 | a message joins the end of the queue, a waiter is signalled, and an interrupt is requested exactly if none is on its way |
| `BridgeProgress.PumpDispatchesAll` | src/v8/inspector/bridge.cc:166-189 | a pump dispatches the whole queue in order and returns |
| `BridgeProgress.InterruptDispatchesAll` | src/v8/inspector/bridge.cc:151-162 | a delivered interrupt clears the flag, dispatches the whole queue and returns to the code it interrupted |
| `BridgeProgress.MessageReachesJs` | src/v8/inspector/bridge.cc:136-189 | a message enqueued while JavaScript runs brings an interrupt that dispatches it and all before it |
| `BridgeProgress.PauseLoopPumps` | src/v8/inspector/bridge.cc:204-223 | a paused loop with a message queued starts the oldest one in its next two steps |
| `BridgeProgress.PauseLoopTurn` | src/v8/inspector/bridge.cc:213-216 | one turn of the loop dispatches everything before it looks whether to go on |
| `BridgeProgress.PauseSeesEmpty` | src/v8/inspector/bridge.cc:213-216 | in every run the loop looks whether it is still paused only after that turn's pump has seen the queue empty |
| `BridgeProgress.ResumeEndsPause` | src/v8/inspector/bridge.cc:204-228 | a breakpoint can be resumed: when a message dispatched by the loop asks for it, the rest of the queue is dispatched and the loop returns |
| `BridgeProgress.PausedOnlyInPause` | src/v8/inspector/bridge.cc:204-223 | in every run the bridge is paused only while a pause loop is on the stack |
| `BridgeProgress.BreakpointPauses` | src/v8/inspector/bridge.cc:204-210 | a breakpoint pauses, in the host's loop if it has one |
| `BridgeProgress.WaitSleepsExactly` | src/v8/inspector/bridge.cc:191-200 | a wait sleeps exactly if there is nothing to do |
| `BridgeProgress.WaitReturnsExactly` | src/v8/inspector/bridge.cc:191-200 | and returns exactly when it was signalled with something to do, or timed out |
| `BridgeProgress.MessageWakes` | src/v8/inspector/bridge.cc:136-200 | a message wakes the thread that sleeps in Wait |
| `BridgeProgress.StopEndsPause` | src/v8/inspector/bridge.cc:121-130 | stopping ends a pause and dispatches nothing |
| `BridgeProgress.NewBridgeIsFresh` | src/v8/inspector/bridge.cc:151-162 | a late interrupt of a deleted bridge does nothing, and a bridge at its address starts afresh but for those |
| `WebSocket.FrameRoundTrip` | src/v8/inspector/websocket.cc:135-201 | any frame, masked or not, in any of the three length forms and with any reserved bits, followed by any bytes, parses to that frame and leaves exactly those bytes |
| `WebSocket.ProperPrefixIncomplete` | src/v8/inspector/websocket.cc:135-168 | no proper prefix of a frame parses: the encodings form a prefix code |
| `WebSocket.ParseMore` | src/v8/inspector/websocket.cc:135-181 | bytes that arrive later never change a frame already complete |
| `WebSocket.MaskTwice` | src/v8/inspector/websocket.cc:173-178 | unmasking undoes masking |
| `WebSocket.XorAt` | src/v8/inspector/websocket.cc:171-178 | a bit of the exclusive or is set exactly where the bytes differ |
| `WebSocket.TextExamples` | src/v8/inspector/websocket.cc:128-186 | the text messages of section 5.7 of RFC 6455, masked, unmasked and in fragments, decode to Hello |
| `WebSocket.ControlExamples` | src/v8/inspector/websocket.cc:128-186 | so do its ping and its masked pong |
| `WebSocket.LengthExamples` | src/v8/inspector/websocket.cc:144-161 | and the headers of its two long binary messages |
| `WebSocket.EncodeFrame` | src/v8/inspector/websocket.cc:185-201 | appends the unmasked wire form with the shortest length form |
| `WebSocket.WsDecoder.TryDecode` | src/v8/inspector/websocket.cc:135-181 | takes a frame off the buffer exactly when one is complete, and otherwise leaves the buffer as it was |
| `WebSocket.WsDecoder.Feed` | src/v8/inspector/websocket.cc:133-133 | appends to the buffer |
| `WebSocket.LengthRoundTrip` | src/v8/inspector/websocket.cc:146-158 | the extended lengths read back in network byte order |
| `ReadLoop.SameBytesSameBehaviour` | src/v8/inspector/server.cc:280-312 | deliveries, pongs and closing depend on the bytes received and not on how recv cut them |
| `ReadLoop.PiecesDoNotMatter` | src/v8/inspector/server.cc:287-310 | serving pieces is consuming their concatenation |
| `ReadLoop.ConsumeMore` | src/v8/inspector/server.cc:292-310 | consuming early and then more bytes equals consuming all at once |
| `ReadLoop.MessagesDeliveredWhole` | src/v8/inspector/server.cc:292-310 | at any point of a conversation - whole messages cut into any fragments with pings, pongs and frames of reserved opcodes between them, then part of a message, more control frames and part of a frame, in any encodings, received in any pieces - every whole message has been delivered in one piece and in order, every ping answered in its place, and what is unfinished is kept |
| `ReadLoop.CloseEnds` | src/v8/inspector/server.cc:292-294 | a close frame at any point of a conversation ends it: what came before has had its effect, the unfinished message is not delivered, and nothing after it is looked at |
| `ReadLoop.PongAnswers` | src/v8/inspector/server.cc:295-300 | the answer to a ping parses, whatever follows it, to one unmasked final pong with the same payload |
| `ReadLoop.CutIsIncomplete` | src/v8/inspector/websocket.cc:135-168 | part of a frame is such an unfinished rest |
| `ReadLoop.SentMessages` | src/v8/inspector/server.cc:302-309 | the messages among those events are exactly the payloads sent |
| `ReadLoop.HandleFragments` | src/v8/inspector/server.cc:292-310 | frames of one fragmented message give its events and leave nothing assembled |
| `ReadLoop.ClientReadLoop` | src/v8/inspector/server.cc:280-312 | the nested loops over the decoder produce exactly the events of the specification |
| `ReadLoop.OversizedStays` | src/v8/inspector/websocket.cc:151-158 | in the specification a length of 2^63 or more, once announced, is never got past: the one precondition of the read loop |
| `Sha1Hash.DigestOfParts` | src/v8/inspector/websocket.cc:66-97 | for every partition of every message into Update calls the result is the digest of the whole message |
| `Sha1Example.DigestOfAbc` | src/v8/inspector/websocket.cc:20-66 | the digest of "abc" is the one in section 7.3 of RFC 3174, through the schedule and all eighty rounds |
| `Sha1Hash.ChooseExactly` | src/v8/inspector/websocket.cc:35-37 | the first round function takes the bits of c where b is set and of d elsewhere |
| `Sha1Hash.MajorityExactly` | src/v8/inspector/websocket.cc:41-43 | the third gives, wherever two arguments agree, what they agree on |
| `Sha1Hash.Sha1.Update` | src/v8/inspector/websocket.cc:66-79 | any number of bytes: whole blocks are compressed, the rest is buffered, bufLen stays below 64 and the 64-bit counter is the bit length modulo 2^64 |
| `Sha1Hash.Sha1.Final` | src/v8/inspector/websocket.cc:81-97 | pads with one or two closing blocks and writes the digest of everything given to Update (sections 4 and 6.1 of RFC 3174) |
| `Sha1Hash.Sha1.PadToLength` | src/v8/inspector/websocket.cc:82-89 | the one bit and the zeros, with the extra block when more than 56 bytes are used |
| `Sha1Hash.Sha1.PutLength` | src/v8/inspector/websocket.cc:90-91 | the 64-bit length, most significant byte first |
| `Sha1Hash.Sha1.PutWords` | src/v8/inspector/websocket.cc:93-97 | five words, most significant byte first |
| `Sha1Hash.Sha1.ProcessBlock` | src/v8/inspector/websocket.cc:25-64 | one application of the compression function |
| `Sha1Hash.Sha1.Expand` | src/v8/inspector/websocket.cc:26-33 | the eighty schedule words of section 6.1 of RFC 3174 |
| `Sha1Hash.Sha1.Mix` | src/v8/inspector/websocket.cc:34-58 | the eighty rounds |
| `Sha1Hash.IterateAppend` | src/v8/inspector/websocket.cc:68-78 | whole blocks in front can be compressed first |
| `Sha1Hash.CounterBytes` | src/v8/inspector/websocket.cc:90-91 | a wrapped 64-bit counter gives the length field of the true length |
| `Sha1Hash.PadZeros` | src/v8/inspector/websocket.cc:82-89 | the zeros of the one-block and the two-block case are those of the padding rule |
| `Sha1Hash.PadIsWholeBlocks` | src/v8/inspector/websocket.cc:81-92 | the padded message is whole blocks, so the digest covers every byte |
| `Sha1Hash.AbsorbBlock` | src/v8/inspector/websocket.cc:74-77 | compressing a full buffer moves it into the chaining value |
| `Utf.DecodeEncode` | src/jsc/js_native_api_jsc.cc:882-915 | for every UTF-16 sequence, decoding its encoding gives it with each unpaired surrogate replaced by U+FFFD |
| `Utf.RoundTripExactly` | src/jsc/js_native_api_jsc.cc:882-915 | it survives unchanged exactly if it has no unpaired surrogate |
| `Utf.BytesRoundTripExactly` | src/jsc/js_native_api_jsc.cc:790-823 | for every byte string, encoding its decoding gives it back exactly if it is well formed by the byte ranges of section 4 of RFC 3629 |
| `Utf.DecodeWellFormed` | src/jsc/js_native_api_jsc.cc:790-823 | any bytes decode to well-formed UTF-16 of no more units than bytes |
| `Utf.BadByteReplaced` | src/jsc/js_native_api_jsc.cc:801-823 | where no UTF8-char begins, one byte gives one U+FFFD and reading goes on behind it |
| `Utf.CharRead` | src/jsc/js_native_api_jsc.cc:801-823 | where one begins, its code point is emitted and reading goes on behind it |
| `Utf.FirstExample` | src/jsc/js_native_api_jsc.cc:790-913 | an example of section 7 of RFC 3629, both ways |
| `Utf.SecondExample` | src/jsc/js_native_api_jsc.cc:790-913 | another, with a character outside the first plane as a surrogate pair |
| `Utf.EncodeWellFormed` | src/jsc/js_native_api_jsc.cc:882-915 | any units encode to well-formed UTF-8 |
| `Utf.DecodedIsChar` | src/jsc/js_native_api_jsc.cc:805-823 | a sequence the decoder accepts is a UTF8-char of RFC 3629 and its code point encodes to those bytes |
| `Utf.CharIsDecoded` | src/jsc/js_native_api_jsc.cc:805-823 | every UTF8-char is accepted, with its length |
| `Utf.PointRoundTrip` | src/jsc/js_native_api_jsc.cc:882-897 | a scalar value reads back from its encoding whatever follows |
| `Utf.UnitsRoundTrip` | src/jsc/js_native_api_jsc.cc:792-800 | a scalar value reads back from its one or two units |
| `Utf.DecodeUtf8` | src/jsc/js_native_api_jsc.cc:801-823 | the loop computes Decode: one U+FFFD for each byte that starts no character |
| `Utf.ReadPoint` | src/jsc/js_native_api_jsc.cc:801-823 | one turn: lead byte, truncation, tail bytes, overlong, range and surrogate checks |
| `Utf.EncodeUtf16` | src/jsc/js_native_api_jsc.cc:898-913 | the loop computes Encode |
| `Utf.CutPoint` | src/jsc/js_native_api_jsc.cc:919-927 | backs off to the longest prefix that fits and is whole characters |
| `Utf.BoundaryExactly` | src/jsc/js_native_api_jsc.cc:920-927 | inside well-formed bytes a cut is at a character boundary exactly if no tail byte follows it |
| `Utf.CutDecodesToPrefix` | src/jsc/js_native_api_jsc.cc:919-927 | what is left decodes to a prefix of the full string, encodes back to itself, and gives up at most three bytes of the room |
| `Utf.GetStringUtf8` | src/jsc/js_native_api_jsc.cc:868-935 | statuses, required length, longest cut within bufsize - 1, NUL behind it, bytes after it and zero-sized buffers untouched |
| `BigIntWords.Limits` | src/jsc/jsc_buffers.cc:395-399 | the two bounds are the largest signed 32-bit integer and 2^30 bits |
| `BigIntWords.RoundTrip` | src/jsc/jsc_buffers.cc:384-510 | for any number of words up to the limit, none included, create then get returns the words with high zero words dropped, and the sign cleared for zero |
| `BigIntWords.CreateBigIntWords` | src/jsc/jsc_buffers.cc:384-414 | the signed value of the words; zero for no words; invalid_arg above INT_MAX words and RangeError above 2^24 |
| `BigIntWords.GetBigIntWords` | src/jsc/jsc_buffers.cc:471-510 | sign, minimal word count, and exactly the low min(capacity, count) words written |
| `BigIntWords.HexOfWords` | src/jsc/jsc_buffers.cc:404-412 | the literal built word by word denotes the value of the words |
| `BigIntWords.ChunksAreWords` | src/jsc/jsc_buffers.cc:494-508 | sixteen digits at a time from the end are the words, and (digits + 15) / 16 is their number |
| `BigIntWords.WordsRoundTrip` | src/jsc/jsc_buffers.cc:384-510 | words to a number and back lose only high zero words |
| `BigIntWords.WordsMinimal` | src/jsc/jsc_buffers.cc:497-497 | no shorter sequence of words has the value, and the words of that length are unique |
| `BigIntWords.ValueOfWords` | src/jsc/jsc_buffers.cc:500-508 | the words written denote the number, the highest not zero |
| `BigIntWords.ToString16Parts` | src/jsc/jsc_buffers.cc:492-496 | the minus sign is the sign and "0" is zero only |
| `BigIntWords.EvaluateLiteral` | src/jsc/jsc_buffers.cc:402-413 | the literal with its prefix and suffix denotes the signed value of its digits |
| `TypeTags.FirstTagWins` | src/jsc/jsc_buffers.cc:516-559 | over any sequence of tagging attempts, in all three stored forms, a check succeeds exactly for the first tag; on the JSC side a tag of the prototype counts as that first one, and an object that takes no new property when the attempts begin accepts every tag and has none |
| `TypeTags.FrozenKeepsNoTag` | src/jsc/jsc_buffers.cc:527-532 | a frozen object accepts a tag, fails the check for it and accepts another |
| `TypeTags.TagTextExactly` | src/jsc/jsc_buffers.cc:525-526 | two tags have the same 32 digits exactly if they are equal |
| `TypeTags.WordsMatchExactly` | src/v8/wrap.cc:142-156 | of all BigInts, high zero words dropped or not, only the tag itself passes the comparison |
| `TypeTags.TextTagged.TypeTag` | src/jsc/jsc_buffers.cc:516-535 | refused exactly if a lookup through the prototypes finds a tag; otherwise accepted, and then found exactly if the object is extensible; the prototypes' tags stay |
| `TypeTags.TextTagged.CheckTypeTag` | src/jsc/jsc_buffers.cc:537-559 | true exactly for the tag a lookup through the prototypes finds |
| `TypeTags.BigIntTagged.TypeTag` | src/v8/wrap.cc:84-114 | a second tag is refused and the first kept |
| `TypeTags.BigIntTagged.CheckTypeTag` | src/v8/wrap.cc:117-160 | true exactly for the tag set |
| `TypeTags.ExternalWrapper.TypeTag` | src/v8/js_native_api_v8_impl.h:504-510 | a second tag is refused and the first kept |
| `TypeTags.ExternalWrapper.CheckTypeTag` | src/v8/js_native_api_v8_impl.h:512-514 | true exactly for the tag set |
| `JscLedgerRuns.LedgerBalances` | src/jsc/js_native_api_jsc.cc:274-311 | after any run no owner lacks its protect, and each value's protect count is its occurrences in scope handles, pending exception, exceptions being reported, strong references, unsettled promises and cached globals if and only if no step wrapped the count of a reference that protected its target |
| `JscLedgerRuns.RunBalanced` | src/jsc/js_native_api_jsc.cc:274-311 | from any reachable state: a surplus is never made good |
| `JscLedgerSafety.NextKeepsExactly` | src/jsc/jsc_object.cc:1037-1047 | every step keeps the whole invariant; the ledger is balanced after it exactly if it was before and the step does not wrap the 32-bit count of a reference that protects its target |
| `JscLedgerRuns.RunInv` | src/jsc/js_native_api_jsc.cc:274-376 | the whole invariant - a protect for every owner, scope stack under the call stack, references against holders, queue history, promises being settled - holds in every reachable state |
| `JscLedgerRuns.WrappingCountLeaks` | src/jsc/jsc_object.cc:1037-1047 | two calls that wrap a count and leave a protect nobody owns |
| `JscLedgerBalance.ExecBalance` | src/jsc/js_native_api_jsc.cc:274-311 | what each kind of step does to each value's protects and owners |
| `JscLedgerBalance.StrengthenBalance` | src/jsc/jsc_object.cc:1037-1047 | counting up protects from zero only, and only a live target |
| `JscLedgerBalance.WeakenBalance` | src/jsc/jsc_object.cc:1049-1060 | counting down releases at zero only |
| `JscLedgerBalance.DeleteRefBalance` | src/jsc/jsc_object.cc:1024-1035 | deleting releases exactly what the reference held |
| `JscLedgerBalance.MakeReferenceBalance` | src/jsc/jsc_object.cc:858-888 | a new reference reads its value; it protects it if counted, and always if it is no object or has neither a wrap nor a holder that landed; it owns exactly what was protected for it |
| `JscLedgerBalance.UnwindBalance` | src/jsc/js_native_api_jsc.cc:145-157 | unwinding forgotten scopes releases exactly their handles |
| `JscLedgerBalance.JsReturnsBalance` | src/jsc/jsc_object.cc:1231-1245 | settling a promise releases its two functions once, also when the call runs native code that does other things |
| `JscLedgerBalance.FinalizerReturnsBalance` | src/jsc/js_native_api_jsc.cc:343-371 | an exception a finalizer leaves stays protected while it is reported |
| `JscLedgerBalance.SurfacedBalance` | src/jsc/js_native_api_jsc.cc:372-373 | and is released once afterwards |
| `JscLedgerBalance.CollectBalance` | src/jsc/js_native_api_jsc.cc:79-98 | a collection releases nothing |
| `JscLedgerRuns.HeldReferenceReads` | src/jsc/jsc_object.cc:1062-1073 | while its count stays positive, what a reference reads does not change, over any run |
| `JscLedgerRuns.StrengthenedReadsExactly` | src/jsc/jsc_object.cc:1037-1047 | a reference taken up from zero reads its target for as long as it is held exactly if it read it before the call |
| `JscLedgerRuns.HeldButEmpty` | src/jsc/jsc_object.cc:1037-1047 | three steps to a live reference with count 1 that reads empty: a positive count alone is not enough |
| `JscLedgerRuns.CallbackLeavesScopes` | src/jsc/js_native_api_jsc.cc:123-204 | whatever a callback does and calls, the scopes below it keep their handles, and when it returns the scope stack is the one it was entered with |
| `JscLedgerSafety.LeaveExact` | src/jsc/js_native_api_jsc.cc:145-157 | closing a callback scope gives back the recorded stack |
| `JscLedgerSafety.UnwindExact` | src/jsc/js_native_api_jsc.cc:145-153 | the unwinding loop stops at the callback's own scope |
| `JscLedgerSafety.EscapeStack` | src/jsc/js_native_api_jsc.cc:1136-1152 | escaping never reaches a scope below the running callback |
| `JscLedgerRuns.EscapedSurvivesClose` | src/jsc/js_native_api_jsc.cc:1136-1152 | an escaped handle is in the parent scope and protected after its own scope closed, and a second escape is refused |
| `JscLedgerRuns.CloseUndoesOpen` | src/jsc/js_native_api_jsc.cc:1100-1120 | closing a scope gives up exactly the handles made in it |
| `JscLedgerRuns.WeakenUndoesStrengthen` | src/jsc/jsc_object.cc:1037-1060 | counting up and down again changes nothing |
| `JscLedgerRuns.FinalizerSeesEmptyReferences` | src/jsc/js_native_api_jsc.cc:79-98 | from the moment a finalizer is queued, every reference on its holder reads empty |
| `JscLedgerFinalizers.WrapFinalizerSeesEmpty` | src/jsc/jsc_object.cc:862-879 | a reference created while the object is wrapped reads empty by the time the finalizer of that wrap is queued, whatever happens in between |
| `JscLedgerFinalizers.RemovedWrapNeverFinalizes` | src/jsc/jsc_object.cc:975-991 | after a wrap is removed its finalizer never starts, over any later run |
| `JscLedgerRuns.DrainRunsAllOnce` | src/jsc/js_native_api_jsc.cc:325-376 | over any run, started finalizers followed by waiting ones are all that were queued, none twice; when a drain ends, the finalizers of all collected holders and all that code posted have been started in the order they were queued, those posted by finalizers during the drain included |
| `JscLedgerFinalizers.GuardExactly` | src/jsc/js_native_api_jsc.cc:338-344 | in every reachable state the GC guard is up exactly while the finalizer of a holder made basic is on the stack, never for a posted one; above it there are only unguarded calls such as napi_is_error and the callbacks their JavaScript runs |
| `JscLedgerFinalizers.BasicExactly` | src/jsc/jsc_object.cc:817-826 | over any later run the holder of a wrap or of an added finalizer is basic exactly if the module is experimental, and that of an external never is |
| `JscLedgerLaws.PreambleExactly` | src/jsc/js_native_api_jsc.h:238-246 | which calls abort inside a basic finalizer and are refused while an exception is pending, and that the others do their work |
| `JscLedgerLaws.TakenIsPending` | src/jsc/js_native_api_jsc.cc:511-522 | the handle handed out is the pending exception, whose protect it takes over, or undefined |
| `JscLedgerLaws.ThrownIsTaken` | src/jsc/js_native_api_jsc.cc:303-311 | what was thrown last is what is taken, and an exception it replaced is released |
| `JscLedgerLaws.ThrownIsPending` | src/jsc/jsc_object.cc:604-647 | what JavaScript throws is pending afterwards, except from an unguarded query |
| `JscLedgerLaws.LeftBehind` | src/jsc/js_native_api_jsc.cc:343-352 | a callback hands its exception to the engine, a finalizer to the host, and neither leaves it pending |
| `JscLedgerLaws.EnterThenLeave` | src/jsc/js_native_api_jsc.cc:123-204 | wherever JavaScript runs native code may be called, and a callback that does nothing leaves every field as it was, but for a pending exception, which the engine gets with its protect |
| `JscLedgerLaws.CallThenReturn` | src/jsc/jsc_object.cc:604-647 | a call into JavaScript that returns nothing but its value leaves every field as it was, guarded or not |
| `JscLedgerLaws.DrainStartsAll` | src/jsc/js_native_api_jsc.cc:325-376 | a drain whose finalizers return at once starts every entry, in order, and ends with the queue empty and nothing else changed |
| `JscLedgerLaws.PromiseSettlesOnce` | src/jsc/jsc_object.cc:1214-1245 | a promise made and settled leaves its handle and nothing else protected, and can be settled neither again nor while it is being settled |
| `JscLedgerLaws.EscapeReaches` | src/jsc/js_native_api_jsc.cc:1136-1160 | an escape from the innermost scope is never passed over |
| `JscLedgerLaws.WrappedIsFound` | src/jsc/jsc_object.cc:912-950 | a wrap is found afterwards, with its native and finalizer, and its reference reads the object without keeping it |
| `JscLedgerLaws.FinalizerAdded` | src/jsc/jsc_object.cc:993-1011 | an added finalizer leaves the wrap as it is, and its reference reads the object without keeping it |
| `JscLedgerLaws.RemovedMakesRoom` | src/jsc/jsc_object.cc:975-991 | in every reachable state a removed wrap makes room for another exactly if no reference was made to the object while it was wrapped; an object never has two wraps |
| `JscLedgerLaws.BufferQueuedOnce` | src/jsc/jsc_buffers.cc:63-71 | a deallocated buffer queues its entry at the end of the queue and cannot be deallocated again |
| `JscLedgerLaws.FreedForGood` | src/jsc/jsc_buffers.cc:63-71 | over any later run |
| `JscLedgerSafety.PostQueue` | src/jsc/jsc_object.cc:1306-1315 | a posted finalizer goes to the end of the queue, once |
| `JscLedgerLaws.PostedOnce` | src/jsc/jsc_object.cc:1306-1315 | one entry of its own if there is a callback, none otherwise |
| `JscLedgerLaws.BufferMade` | src/jsc/jsc_buffers.cc:137-155 | a buffer has a deallocation to come exactly if it has a finalizer |
| `JscEnvObject.JscEnv.Exec` | src/jsc/js_native_api_jsc.h:238-246 | the object takes any step with its guards as the ledger does, so everything proved of runs holds of it |
| `JscEnvObject.JscEnv.PostFinalizer` | src/jsc/jsc_object.cc:1306-1315 | queues the entry, unless there is no callback |
| `JscEnvObject.JscEnv.DeallocFinalize` | src/jsc/jsc_buffers.cc:63-71 | the deallocator of an array buffer queues its entry |
| `JscLedgerSafety.NextQueue` | src/jsc/js_native_api_jsc.cc:326-335 | the drain takes the oldest entry |
| `JscLedgerSafety.CollectQueue` | src/jsc/js_native_api_jsc.cc:93-97 | no holder is queued twice |
| `JscLedgerSafety.CollectRefs` | src/jsc/js_native_api_jsc.cc:89-92 | a reference reads empty exactly when its holder was collected |
| `JscEnvObject.JscEnv.AddHandle` | src/jsc/js_native_api_jsc.cc:274-280 | the object takes the step of the ledger |
| `JscEnvObject.JscEnv.OpenHandleScope` | src/jsc/js_native_api_jsc.cc:1100-1107 | a new innermost scope, named by what is handed out |
| `JscEnvObject.JscEnv.CloseHandleScope` | src/jsc/js_native_api_jsc.cc:1109-1120 | only the innermost scope the program opened can be closed; its handles are released one by one |
| `JscEnvObject.JscEnv.EscapeHandle` | src/jsc/js_native_api_jsc.cc:1136-1152 | refused unless the scope is innermost, escapable and not yet used |
| `JscEnvObject.JscEnv.CloseCallbackScope` | src/jsc/js_native_api_jsc.cc:145-157 | the nested loops compute the ledger's unwinding |
| `JscEnvObject.JscEnv.LeaveCallback` | src/jsc/js_native_api_jsc.cc:165-180 | scope closed, then a pending exception forwarded |
| `JscEnvObject.JscEnv.RecordException` | src/jsc/js_native_api_jsc.cc:303-311 | a pending exception is replaced and released |
| `JscEnvObject.JscEnv.GetAndClearLastException` | src/jsc/js_native_api_jsc.cc:511-522 | the exception becomes a handle |
| `JscEnvObject.JscEnv.ExternalFinalize` | src/jsc/js_native_api_jsc.cc:79-98 | the holder's references are emptied before the finalizer is queued |
| `JscEnvObject.JscEnv.EmptyReferences` | src/jsc/js_native_api_jsc.cc:89-92 | the loop empties exactly the references on the holder |
| `JscEnvObject.JscEnv.FindWrapHolder` | src/jsc/jsc_object.cc:954-961 | finds the attached wrap holder of a value, if any |
| `JscEnvObject.JscEnv.MakeReference` | src/jsc/jsc_object.cc:858-888 | the three forms of a reference |
| `JscEnvObject.JscEnv.Wrap` | src/jsc/jsc_object.cc:912-950 | refused on a wrapped object |
| `JscEnvObject.JscEnv.RemoveWrap` | src/jsc/jsc_object.cc:975-991 | gives the data of the holder, if there is one, which stays attached exactly if it backs references |
| `JscEnvObject.JscEnv.DeleteReference` | src/jsc/jsc_object.cc:1024-1035 | the step of the ledger |
| `JscEnvObject.JscEnv.ReferenceRef` | src/jsc/jsc_object.cc:1037-1047 | the step of the ledger, and the new count |
| `JscEnvObject.JscEnv.ReferenceUnref` | src/jsc/jsc_object.cc:1049-1060 | the step of the ledger, refused at zero |
| `JscEnvObject.JscEnv.GetReferenceValue` | src/jsc/jsc_object.cc:1062-1073 | empty after collection, else a handle to the value |
| `JscEnvObject.JscEnv.CreatePromise` | src/jsc/jsc_object.cc:1214-1228 | two protects and a handle |
| `JscEnvObject.JscEnv.BeginSettle` | src/jsc/jsc_object.cc:1231-1237 | the promise cannot be settled again while the call runs |
| `JscEnvObject.JscEnv.CallReturned` | src/jsc/jsc_object.cc:604-647 | what a call threw is recorded, and dropped by an unguarded query |
| `JscEnvObject.JscEnv.SettleReturned` | src/jsc/jsc_object.cc:1238-1244 | the two protects released, an exception recorded |
| `JscEnvObject.JscEnv.StartNextFinalizer` | src/jsc/js_native_api_jsc.cc:326-342 | takes the oldest entry, of a holder or posted, and sets the GC guard for basic holders only |
| `JscEnvObject.JscEnv.FinalizerReturned` | src/jsc/js_native_api_jsc.cc:343-352 | clears the guard and takes over a pending exception |
| `JscEnvObject.JscEnv.Surfaced` | src/jsc/js_native_api_jsc.cc:372-373 | the reported exception is released |
| `WrapState.PathsAgree` | src/v8/js_native_api_v8_impl.h:224-291 | after any run on any object, wrap, unwrap and remove answer as one simple map does, by internal fields or private property; class instances answer fast reads so too |
| `WrapState.FieldZeroIsData` | src/v8/js_native_api_v8_impl.h:239-249 | a non-null field 0 is the data of the live reference in field 2 |
| `WrapState.FastReadExactly` | src/v8/fast_call.cc:256-272 | on class instances a fast read with a tag gives p exactly if the current wrap is a fast wrap of p with that tag |
| `WrapState.NeverStaleExactly` | src/v8/fast_call.cc:241-252 | fast reads never give a removed native, over all runs and tags, exactly if the object does not have one or two internal fields |
| `WrapState.StaleAfterRemove` | src/v8/js_native_api_v8_impl.h:277-289 | on one or two fields a fast wrap followed by a remove still exposes the pair |
| `WrapState.FewFieldsKeepLast` | src/v8/fast_call.cc:241-252 | what such objects expose: the pair of the last fast wrap |
| `WrapState.RetiredExactly` | src/v8/js_native_api_v8_impl.h:265-269 | over every run, each removed wrap left its reference, in order: deleted if the caller had asked for none, otherwise the caller's and without its finalizer |
| `WrapState.RunHolds` | src/v8/js_native_api_v8_impl.h:224-291 | over every run the object holds what the map says: the reference with its native, owner and finalizer, mirrored fields and fast pair |
| `WrapState.StepHolds` | src/v8/js_native_api_v8_impl.h:224-291 | every operation keeps object and map in step |
| `WrapState.Drive` | src/v8/js_native_api_v8_impl.h:419-476 | an object updated in place gives the map's replies over any run |
| `WrapState.JsObject.constructor` | src/v8/js_native_api_v8_impl.h:390-399 | reserved fields start null |
| `WrapState.JsObject.Wrap` | src/v8/js_native_api_v8_impl.h:419-476 | one wrap, in place |
| `WrapState.JsObject.Unwrap` | src/v8/js_native_api_v8_impl.h:224-291 | one unwrap or removal, in place |
| `WrapState.JsObject.FastWrap` | src/v8/fast_call.cc:220-252 | refuses odd pointers and double wraps, then mirrors the pair |
| `WrapState.JsObject.FastUnwrap` | src/v8/fast_call.cc:256-272 | reads field 0 behind the tag check |
| `PrivateKeys.Drive` | src/v8/napi_v8_engine.cc:145-177 | over any order of creating, using and destroying isolates on one thread, with addresses reused, every lookup gives a key of the isolate living there |
| `PrivateKeys.PrivateKeyCache.GetPrivateKey` | src/v8/napi_v8_engine.cc:150-166 | a key of the current isolate, from the cache or made anew |
| `PrivateKeys.PrivateKeyCache.Forget` | src/v8/napi_v8_engine.cc:168-177 | the cache stays right when the isolate is disposed of |

## Left out

- JscLedgerFinalizers.GuardExactly: property traps of a proxy, run while a reference or wrap is made, are not calls of their own.
- Engine behaviour: `JSValueProtect`, persistent handles, private properties, property lookup, promises, BigInt literals and `toString(16)` have their mathematical meaning; which object dies when is any choice the protects allow.
- Sockets, the HTTP handshake, Base64 and the accept key, the accept and write loops and thread joins: the read loop starts at raw bytes with its stop flag down, and recv yields any pieces.
- ReadLoop.ClientReadLoop: does not cover length fields of 2^63 or more, which section 5.2 of RFC 6455 forbids and the decoder does not check; they are a precondition.
- WebSocket.WsDecoder.TryDecode: has the same precondition.
- ReadLoop.OversizedStays: speaks of the specification; for such a length the code's sum of offset and length can wrap.
- RefTracking.Exec: does not let a finalizer delete or unwrap its own reference or run the host tick. A program may delete the reference a wrap returned while the wrap is installed, but what the object's field then holds, and unwrapping it after that or in teardown, is not modelled: such an unwrap is passed over.
- RefTrackingTeardown.InstanceInTeardown: speaks of the finalizers DeleteMe starts, not of a GC finalizer that a collection inside one of them runs at once in an experimental module; what calls fault there is still counted by `FreedTouchedExactly`.
- RefTrackingRuns.HandlesSurviveCollection: one environment per thread. The teardown flag belongs to the thread, so while another environment on it runs DeleteMe, a collection frees this one's weak userland references as well.
- RefTrackingRuns.RequestedHandleStaysGood: the same.
- The tracked string resources of V8 and `napi_unwrap` during V8 teardown.
- Bridge.RunInv: the bridge is modelled on values, because two threads share it and a Dafny method runs alone; one address is modelled, used again any number of times.
- Bridge.NestedStopTouches: a run ends with the first use of the deleted bridge; a new bridge is made at its address only when no activation of the old one is left.
- The JavaScriptCore environment's deletion, and a drain started inside a basic finalizer.
- JscEnvObject.JscEnv.Wrap: an object whose wrap was removed but still backs references, or whose native is NULL, is not wrapped again, because the overwritten holder falls outside the ledger; wrap and add_finalizer always land on their object (frozen objects only in create_reference).
- JscLedgerRuns.DrainRunsAllOnce: the drain loop is a sequence of steps, not a method, because arbitrary user code runs between its turns; its two halves are `StartNextFinalizer` and `FinalizerReturned`.
- JscLedgerSafety.RefGood: a reference and its control block are one record, since each control is made for one reference; the holder's list of controls is the references that name it.
- Statuses of JavaScriptCore calls other than those the methods return, and the last-error record.
- Utf.Decode: one U+FFFD per offending byte, as the code does, not one per maximal subpart; argument checks of the string constructors and the UTF-16 and Latin-1 readers.
- WrapState.JsObject.Unwrap: deletion and reset of the reference are marks on a record; their effect on finalizers is in the reference model.
- TypeTags.TextTagged.TypeTag: the prototype of an object does not change.
- PrivateKeys.Drive: isolates created and disposed of on one thread; the cache of another thread is another object.
- Typed arrays, properties, error constructors, coercions, script caches, int64 BigInts, the watchdog and build scripts: thin wrappers or engine calls.
