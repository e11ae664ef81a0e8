# A verified model of the OSF UI bookkeeping

OSF UI joins a game thread, a GPU queue and an out-of-process browser. This project models the
bookkeeping between the three and proves what it promises over every run:

- **Shared frames.** Frames rendered by the browser into a ring of at most eight slots stay alive while
  they are pending, current, or read by a recorded or submitted command list. The last reference turns
  into one acknowledgement, after which the browser may overwrite the slot. What is drawn belongs to the
  presentation asked for. (`SharedFrame*`, `Overlay*`)
- **Game to host.** A connection snapshot is put in front of a coalescing bounded queue and single changes
  follow; the host converges to the renderer, which has what the game last asked for, gets every page message in
  order, and presents what was shown. (`BoundedQueue`, `HostReplication*`, `HostAsked`, `HostPosts`,
  `HostPresentation*`, `HostRenderer`)
- **The page bridge.** Requests settle once, with what the settling call carries; documents see ready, then state,
  then events. (`BridgeModel`, `MessageBridge`, `BridgeSettlement`, `BridgeAnswers`, `BridgeGates`)
- **State replication to pages**, current and legacy: pages hold the last values set. (`RetainedState*`,
  `RetainedLastValues`, `LegacyState*`, `LegacyLastValues`, `LegacyRequests`, `Text`)
- **Opening and closing views**, the launcher handshake, and what the renderer is told to show. (`ViewOpen*`,
  `ViewLives`, `ViewFrames`, `ViewScreen*`)
- **The pipe**: call counting, closing, and length-prefixed framing. (`Pipe*`, `Framing`)
- **Three self-contained pieces**: the virtual-URL check against RFC 3986, the legacy settings codec, and the
  gamepad arithmetic. (`LocalUri`, `SettingsCodec`, `KeyNames`, `Gamepad*`)

Each stateful component comes in three parts. A `*Model` file gives every operation as a function on values.
A file with classes gives the same operations as the source writes them, fields changed in place and loops
over them, and each method is proved to reach the state the function gives. A `*Proofs` file lets any
sequence of operations run, with a history of what happened beside the state, and proves what holds in every
reachable state. A mutex-protected method is one atomic step.

Safety over every run leaves room for a program that does nothing, or the wrong thing safely. So beside the
`*Proofs` files stand those that read the expected outcome off the list of calls alone, by rules of their own that
call none of the model's operations, and prove that the model reaches it in every run: `SharedFrameEpochs`,
`OverlayImports`, `HostAsked`, `HostPosts`, `BridgeAnswers`, `RetainedLastValues`, `LegacyLastValues`,
`LegacyRequests`, `ViewLives`, `ViewFrames`, `PipeAdmission` and `GamepadReports`.

`dafny verify dfyconfig.toml` checks everything.

## What the proofs found

Where the source does not keep a property on every input, the code is modelled as it is, a lemma exhibits the
failure, and another says exactly when it does not happen.

- A request handler that replaces its own page before it settles answers the replacing document
  (`AnswerReachesTheAskingDocument`, `HandlerThatReplacesItsPageAnswersTheNewOne`).
- A view that is shown and hidden again can leave frames accepted under an epoch the host never presents: the
  hide replaces the queued show, on the game's side of the pipe or the host's, or cancels the reveal the host
  was waiting to finish. The current epoch is never presented if and only if nothing undelivered and no
  pending reveal leads to it (`NeverPresentedExactlyWhen`), and `OfferIsLostExactlyWhen` names the steps that
  lose it (`ShowThenHideIsNeverPresented`, `ShownPresentationArrives`).
- A legacy page that says hello while scripts are suspended gets no replay, and values already pumped to its
  predecessor stay missing (`PumpConvergesExactlyWhen`, `SuspendedHelloConvergesExactlyWhen`,
  `SuspendedHelloLosesAValue`).
- A page caches a retained entry under its bare key and under its address. A key spelled "mod/key" shares a cell
  with "key", and a key spelled "osfui/views" shares its bare cell with the platform's view list; whichever of
  the two is sent last overwrites the other. `EntryHeldExactlyWhen` says over every run when a page still holds
  an entry, from what it was sent since (`EntrySurvivesExactlyWhen` and `EntrySurvivesTheListExactlyWhen` for
  one message; `SharedCellsOverwrite` and `ListOverwritesItsKey` exhibit the failures).
- A setting left at its default is not written; an alias that names another written entry then captures it on
  the next read (`SettingsRoundTrip`, `AliasOfAnAuthoredKeyCaptures`).

One hazard lies in an interface rather than in the program: a hello hook that replaced its own page would leave
a new document whose events are open although it never said hello (`HelloOpensAGreetedGateExactlyWhen`,
`HookThatReplacesItsPageOvertakesReady`). The only hook installed, `Runtime::OnViewGreeted`
(src/Runtime/Runtime.cpp:93, src/Bridge/RuntimeBridge.cpp:156-174), creates and destroys no view, so every
document sees its events in order (`EveryDocumentSeesItsEventsInOrder`).

## Model

| member | source | states |
|---|---|---|
| SharedFrameProofs.AcknowledgementSafety | src/Render/SharedFrameState.h:87-183 | in every reachable state a serial about to be reported was published on that slot of the current generation, is newer than every earlier acknowledgement there, and is strictly below the serial of any frame still held on the slot; live frames of one generation differ in slot and serial |
| SharedFrameProofs.NoSlotLeaked | src/Render/SharedFrameState.h:87-107 | the last serial consumed on a slot is that of the one live frame there, or waits to be reported, or was acknowledged; it is the maximum of the three |
| SharedFrameProofs.DrainedRingIsFullyAcknowledged | src/Render/SharedFrameState.h:153-162 | once nothing is selected and no read is outstanding, the next TakeReleases has acknowledged every consumed slot |
| SharedFrameProofs.HiddenRingHoldsOnlyReads | src/Render/SharedFrameState.h:79-85 | hiding drops both selections: what is still held is exactly what outstanding reads hold |
| SharedFrameProofs.AcksIncrease | src/Render/SharedFrameState.h:162-180 | the acknowledgements of a slot strictly increase within a generation and each names a published serial, so none is given twice |
| SharedFrameProofs.DisplayIsMonotone | src/Render/SharedFrameState.h:112-128 | within a generation the drawn serials never decrease |
| SharedFrameProofs.DrawnOnlyWhenProduced | src/Render/SharedFrameState.h:112-128 | a drawn serial is at most the produce-fence value of its promotion |
| SharedFrameProofs.LatestNamesTheSelection | src/Render/SharedFrameState.h:103-109 | Latest(), when present, names the pending frame, or the current one if none is pending |
| SharedFrameProofs.PreparedFrameIsPinned | src/Render/SharedFrameState.h:55-71 | a frame published during preparation stays pending until it is drawn or an explicit discard; no publish replaces it |
| SharedFrameProofs.ReadyFrameIsDrawnFirst | src/Render/SharedFrameState.h:62-77 | over any calls that discard nothing, a prepared frame once reported ready at a size has been drawn as the first of the committed menu, or is still pending, and the next visible record under that ring after the commit draws it at that size, whatever was published meanwhile |
| SharedFrameProofs.ReadsLeaveOnlyWhenComplete | src/Render/SharedFrameState.h:153-159 | a completion report removes exactly the submitted reads of its own queue at or below its value, none for queue 0 or the device-removed value |
| SharedFrameProofs.EraseDoneIsFilter | src/Render/SharedFrameState.h:156-158 | erasing finished reads one reference at a time keeps the others in order and changes nothing but reads and release cells |
| SharedFrameProofs.StepKeeps | src/Render/SharedFrameState.h:28-162 | every operation keeps the invariant the properties above follow from |
| SharedFrameEpochs.StateIsAsAsked | src/Render/SharedFrameState.h:28-85 | after any run the ring, its last consumed serial, the presentation epoch, acceptance and visibility are those the calls last asked for, read off the calls |
| SharedFrameEpochs.PendingIsOfTheAskedEpoch | src/Render/SharedFrameState.h:87-107 | a pending frame was published, since the ring was announced, under the epoch last asked for with frames accepted; a frame in flight from an older presentation never becomes pending |
| SharedFrameEpochs.CurrentIsLawful | src/Render/SharedFrameState.h:44-53 | so was the displayed frame, unless a presentation change during a preparation kept it |
| SharedFrameEpochs.DrawnIsLawful | src/Render/SharedFrameState.h:112-128 | so was whatever a Record draws |
| SharedFrameEpochs.AcceptedExactlyWhen | src/Render/SharedFrameState.h:87-107 | a frame is accepted if and only if the ring can take it, frames are accepted, it is of the epoch and the ring's size last asked for and no prepared frame is pinned; refused exactly when it names no slot, no serial or a held slot |
| SharedFrameEpochs.DrawsExactlyWhen | src/Render/SharedFrameState.h:112-128 | a visible Record draws the pending frame once it is produced and no preparation is rendering, else the displayed one, of the imported ring only, else nothing |
| SharedFrameEpochs.PreparationFollows | src/Render/SharedFrameState.h:55-71 | the preparation moves as asked and ends with the first draw of a committed frame; selections stay otherwise |
| SharedFrameEpochs.PreparedFrameIsReadyExactlyWhenProduced | src/Render/SharedFrameState.h:72-77 | a frame accepted during a preparation is reported ready, for its ring and size only, exactly from when it is produced |
| SharedFrames.UsedIffHeld | src/Render/SharedFrameState.h:172-190 | a frame's use count is positive exactly while some owner is left |
| SharedFrames.SharedFrameState.Release | src/Render/SharedFrameState.h:176-180 | dropping one shared_ptr runs the destructor exactly when no owner remains, raising the slot's release cell in the frame's own generation |
| SharedFrames.SharedFrameState.Invalidate | src/Render/SharedFrameState.h:191-196 | forgets both selections and the latest view; a frame no read holds is released |
| SharedFrames.SharedFrameState.BeginRing | src/Render/SharedFrameState.h:28-36 | a new generation with empty accounts; old reads keep their own |
| SharedFrames.SharedFrameState.Disconnect | src/Render/SharedFrameState.h:38-42 | no generation is left to acknowledge into |
| SharedFrames.SharedFrameState.SetPresentation | src/Render/SharedFrameState.h:44-53 | the whole new state for a changed epoch or closed acceptance, in and out of preparation |
| SharedFrames.SharedFrameState.BeginPreparation | src/Render/SharedFrameState.h:55-61 | drops the pending frame and keeps the displayed one |
| SharedFrames.SharedFrameState.EndPreparation | src/Render/SharedFrameState.h:62-71 | commits the prepared frame or drops it |
| SharedFrames.SharedFrameState.SetVisible | src/Render/SharedFrameState.h:79-85 | visibility, with invalidation when hidden |
| SharedFrames.SharedFrameState.IsSlotHeld | src/Render/SharedFrameState.h:91-96 | true exactly when some owner holds a frame of the current ring on the slot |
| SharedFrames.SharedFrameState.Publish | src/Render/SharedFrameState.h:87-107 | result and whole new state for refused, discarded and accepted frames |
| SharedFrames.SharedFrameState.AssignPending | src/Render/SharedFrameState.h:104 | the replaced pending frame loses one reference |
| SharedFrames.SharedFrameState.KeepRead | src/Render/SharedFrameState.h:118-122 | at most one read per list and frame |
| SharedFrames.SharedFrameState.TakePending | src/Render/SharedFrameState.h:123-126 | promotion moves the pending frame and drops the frame that was current |
| SharedFrames.SharedFrameState.Record | src/Render/SharedFrameState.h:112-128 | what is drawn and the state it leaves; nothing changes when nothing is drawn |
| SharedFrames.SharedFrameState.HasRecorded | src/Render/SharedFrameState.h:136-139 | true exactly when some read is not yet submitted |
| SharedFrames.SharedFrameState.HasRecordedIn | src/Render/SharedFrameState.h:130-135 | true exactly when one of these lists holds such a read |
| SharedFrames.SharedFrameState.Submitted | src/Render/SharedFrameState.h:142-151 | stamps exactly the reads of the submitted lists, releasing none |
| SharedFrames.SharedFrameState.Completed | src/Render/SharedFrameState.h:153-159 | erases the finished reads and releases the frames only they held |
| SharedFrames.SharedFrameState.TakeReleases | src/Render/SharedFrameState.h:162 | reports the current generation's release cells and clears them |
| OverlayProofs.AcknowledgedSlotIsFreeOnTheGpu | src/Composite/D3D12Compositor.cpp:298-344 | with the GPU's own set of draws it may still execute beside the bookkeeping: a slot acknowledged or about to be is never one such a draw reads at that serial |
| OverlayProofs.RingIsReplacedOnlyWhenIdle | src/Composite/D3D12Compositor.cpp:369-420 | every outstanding draw uses the imported ring, which changes only in an adoption with no draw recorded or in flight |
| OverlayProofs.OnlyTheNewestRingIsDrawn | src/Render/SharedFrameConsumer.cpp:28-60 | a newly recorded draw belongs to the newest ring announced, already imported, at or below the produce fence; never an older ring |
| OverlayProofs.ExecutionSafe | src/Render/SharedFrameConsumer.h:56-79 | in every reachable world the recorded flag mirrors "some read is not submitted", reads carry values given to their queue and not yet reached, and each announced ring's handles are closed once |
| OverlayProofs.PollReads | src/Composite/D3D12Compositor.cpp:298-303 | polling removes exactly the reads some timeline's fence has reached |
| OverlayImports.RingsAreAsAnnounced | src/Composite/D3D12Compositor.cpp:369-420 | in every run the waiting ring and the imported textures are those the announcements and adoptions give: an adoption with no draw outstanding takes the waiting ring and, if its import succeeds, its textures |
| OverlayImports.DrawsExactlyTheDrawable | src/Composite/D3D12Compositor.cpp:453-480 | a draw puts exactly the drawable frame on the command list when textures are imported, the device is there and a pipeline exists; otherwise the GPU gets nothing and nothing changes |
| OverlayImports.PollForgetsExactlyTheFinished | src/Composite/D3D12Compositor.cpp:298-303 | in every run a poll forgets exactly the draws whose queue's fence has reached the value of their submission |
| OverlayObjects.SharedFrameConsumer.AnnounceRing | src/Render/SharedFrameConsumer.cpp:28-37 | closes the handles of a ring still waiting, numbers the new one and begins its generation |
| OverlayObjects.SharedFrameConsumer.Disconnect | src/Render/SharedFrameConsumer.cpp:39-47 | disconnects and closes a waiting ring's handles once |
| OverlayObjects.SharedFrameConsumer.TakeRingIfIdle | src/Render/SharedFrameConsumer.cpp:55-60 | hands the waiting ring over only when no read is outstanding |
| OverlayObjects.SharedFrameConsumer.Record | src/Render/SharedFrameConsumer.h:56-62 | records and leaves the flag equal to "some read is not submitted" |
| OverlayObjects.SharedFrameConsumer.Submitted | src/Render/SharedFrameConsumer.h:69-74 | submits and leaves the flag equal to "some read is not submitted" |
| OverlayObjects.Compositor.PollCompletions | src/Composite/D3D12Compositor.cpp:298-303 | reports each timeline's own fence value, in order |
| OverlayObjects.Compositor.FindTimeline | src/Composite/D3D12Compositor.cpp:323-333 | the queue's own timeline, created on demand; none when creation fails |
| OverlayObjects.Compositor.OnExecuted | src/Composite/D3D12Compositor.cpp:305-344 | polls, advances the queue's timeline and stamps the lists, with queue 0 when the signal failed |
| OverlayObjects.Compositor.EnsureSharedRing | src/Composite/D3D12Compositor.cpp:369-420 | adopts a ring only when idle, closing its handles once; a failed import leaves none active |
| OverlayObjects.Compositor.RecordOverlay | src/Composite/D3D12Compositor.cpp:453-469 | the gates before Record: an imported ring, a live device, a pipeline |
| BoundedQueues.GameMessageCoalesceKey | tools/webview2_shared/Wv2BoundedQueue.h:15-25 | exactly which messages may coalesce |
| BoundedQueues.CoalescingPreservesMeaning | tools/webview2_shared/Wv2BoundedQueue.h:49-85 | for any receiver where a later message of a key absorbs the one before it, what was delivered then what is queued leaves it where every accepted push, in order, would have; refused pushes change nothing |
| BoundedQueues.PushMeaning | tools/webview2_shared/Wv2BoundedQueue.h:49-63 | one push, coalesced or not, has the effect of its message |
| BoundedQueues.RunKeepsBound | tools/webview2_shared/Wv2BoundedQueue.h:49-94 | no run exceeds the capacity |
| BoundedQueues.PushIsRefusedExactlyWhen | tools/webview2_shared/Wv2BoundedQueue.h:49-63 | after any run a push is refused if and only if the queue is full and the newest item is not under its key, by the keys read off the operations |
| BoundedQueues.SnapshotIsDeliveredWhole | tools/webview2_shared/Wv2BoundedQueue.h:65-75 | prepended items without keys arrive whole and first, whatever is pushed later |
| BoundedQueues.BoundedQueue.Push | tools/webview2_shared/Wv2BoundedQueue.h:49-63 | outcome and contents |
| BoundedQueues.BoundedQueue.Prepend | tools/webview2_shared/Wv2BoundedQueue.h:65-75 | all items in front, or none when closed or too many |
| BoundedQueues.BoundedQueue.TryPop | tools/webview2_shared/Wv2BoundedQueue.h:77-94 | the oldest item, also from a closed queue |
| BoundedQueues.BoundedQueue.Clear | tools/webview2_shared/Wv2BoundedQueue.h:96-100 | empties the queue and leaves it open or closed |
| BoundedQueues.BoundedQueue.Close | tools/webview2_shared/Wv2BoundedQueue.h:102-109 | closes and keeps the items |
| BoundedQueues.BoundedQueue.Reset | tools/webview2_shared/Wv2BoundedQueue.h:111-116 | empty and open again |
| HostReplicationProofs.HostConvergesToTheRenderer | src/Render/WebView2HostWebRenderer.cpp:719-763 | while connected, the host's state with both undelivered queues folded over it is the renderer's views, entries, hidden flags, orders, heights, input target, size, viewport, pointer, window and focus flags and announced epoch, whenever the connection was made |
| HostReplicationProofs.FramesFollowVisibility | src/Render/WebView2HostWebRenderer.cpp:383-399 | frames are accepted exactly while some view is visible, under the current epoch |
| HostReplicationProofs.HostAbsorbs | src/Render/WebView2HostWebRenderer.cpp:323-329 | two messages under one key set the same thing, so the host may see only the later one |
| HostReplicationProofs.BootstrapArrives | src/Render/WebView2HostWebRenderer.cpp:719-756 | the snapshot alone turns a new host process into the renderer's mirror |
| HostReplicationProofs.ConnectKeeps | src/Render/WebView2HostWebRenderer.cpp:350-357 | a connection runs exactly when the snapshot fits and no stop or failure came first, and then tracks the renderer |
| HostReplicationProofs.ShowThenHideQueuesTheHide | src/Render/WebView2HostWebRenderer.cpp:1321-1339 | with nothing queued and another view visible, show then hide leaves the hide alone in the queue and the show's epoch current |
| HostAsked.RendererIsAsAsked | src/Render/WebView2HostWebRenderer.cpp:1109-1366 | after any run, connected or not, the renderer's size and viewport are those of the last nonzero request, its pointer, window and focus flags the last ones given (a restart takes the focus), its input target, views in creation order and presentation epoch those the calls give, read off the calls |
| HostAsked.ViewIsAsAsked | src/Render/WebView2HostWebRenderer.cpp:1082-1104 | so is each view: entry, kind and height of its last navigation, visibility, cold-open flag and order last set since it was created |
| HostAsked.HostEndsWithWhatWasAsked | src/Render/WebView2HostWebRenderer.cpp:719-763 | while connected the host, once the messages on their way are handled, has what the game last asked for, whether it was asked before this connection or after |
| HostPosts.PostsArriveInOrder | src/Render/WebView2HostWebRenderer.cpp:1196-1203 | while connected what the host has handled and what is on its way to it is every page message posted to an existing view since the last restart, in order, none lost or repeated, whether posted before the connection or after |
| HostPosts.ConnectedExactlyWhen | src/Render/WebView2HostWebRenderer.cpp:719-763 | a connection becomes the running one if and only if one is being made, the queue is open and the snapshot of 5 messages, 3 a view and the input target fits; only a stop, restart, loss, failed delivery or full queue ends it |
| HostPosts.ConnectionSettlesAsAsked | src/Render/WebView2HostWebRenderer.cpp:719-763 | a connection queues for every view its visibility under the current epoch with its cold-open flag as last asked for |
| HostPresentation.ShownPresentationArrives | tools/webview2_host/HostApp.cpp:419-503 | once both queues are empty and no reveal is pending, the host renders under the game's epoch, unless the view whose show began it is no longer visible |
| HostPresentation.NeverPresentedExactlyWhen | tools/webview2_host/HostApp.cpp:335-360 | in every reachable connected state no future of this connection presents the current epoch if and only if the host does not render under it, no undelivered message in either queue offers it and no pending reveal leads to it |
| HostPresentation.OfferIsLostExactlyWhen | tools/webview2_host/HostApp.cpp:419-503 | a step of a lasting connection makes that so if and only if it takes the last lead to the epoch away: a hide replaces the show at the back of the game's queue, or on delivery at the back of the host's, or a hide, destruction or older show is handled before the paint |
| HostPresentation.ShowThenHideIsNeverPresented | src/Render/WebView2HostWebRenderer.cpp:1321-1339 | it happens: show then hide, with another view visible and nothing undelivered, leaves frames accepted only under an epoch that is never presented |
| HostPresentation.StepKeepsStage | tools/webview2_host/HostGraphics.inl:343-388 | every step of game, pipe, host and page keeps the invariant behind these |
| HostRendererObjects.HostRenderer.FindView | src/Render/WebView2HostWebRenderer.cpp:375-381 | the first view with that id, or none |
| HostRendererObjects.HostRenderer.RecomputeAllHidden | src/Render/WebView2HostWebRenderer.cpp:384-393 | true exactly when no view is visible |
| HostRendererObjects.HostRenderer.SetViewHidden | src/Render/WebView2HostWebRenderer.cpp:1321-1339 | every case of show, hide and settling, with the epoch sent |
| HostRendererObjects.HostRenderer.EraseViews | src/Render/WebView2HostWebRenderer.cpp:1356-1357 | keeps the other records in order |
| HostRendererObjects.HostRenderer.DestroyView | src/Render/WebView2HostWebRenderer.cpp:1350-1366 | record, input target, visibility and message |
| HostRendererObjects.HostRenderer.SnapshotViews | src/Render/WebView2HostWebRenderer.cpp:745-751 | three messages a view, in creation order |
| HostRendererObjects.HostRenderer.Connect | src/Render/WebView2HostWebRenderer.cpp:719-763 | the whole snapshot, published under the state lock |
| HostRendererObjects.HostRenderer.PublishConnected | src/Render/WebView2HostWebRenderer.cpp:350-357 | prepends before running, and fails when stopped meanwhile |
| BridgeSettlement.SettledExactlyOnce | src/Bridge/MessageBridge.cpp:234-376 | every dispatched request has at most one answer on the wire or one token, never both; with neither it is the one being handled, has no view to answer, or its document is gone |
| BridgeSettlement.NoUnsolicitedSettlement | src/Bridge/MessageBridge.cpp:286-376 | every reply or error on the wire answers a request that view made under that id |
| BridgeSettlement.AnswerReachesTheAskingDocument | src/Bridge/MessageBridge.cpp:487-510 | an answer reaches the document that asked if and only if the request's own handler did not retire that document first |
| BridgeSettlement.HandlerThatReplacesItsPageAnswersTheNewOne | src/Bridge/MessageBridge.cpp:286-301 | the run in which it does not |
| BridgeSettlement.AtMost64Pending | src/Bridge/MessageBridge.cpp:247-254 | no view ever has more than 64 deferred requests |
| BridgeSettlement.AccountsAreFinal | src/Bridge/MessageBridge.cpp:340-376 | what is settled stays settled the same way, and a token stays with its request |
| BridgeSettlement.TokenIsNew | src/Bridge/MessageBridge.cpp:321-338 | a token handed out was never issued before |
| BridgeAnswers.SettledExactlyAsAsked | src/Bridge/MessageBridge.cpp:234-376 | a step settles a request if and only if its action does (a handler's answer to the open request, an answer to its token, a rejection of all, a tick past the deadline it was deferred with, a refusal, a handler that ended without answering), with the envelope that action carries, to the view and document then asking |
| BridgeAnswers.AnsweredExactlyAsCarried | src/Bridge/MessageBridge.cpp:286-376 | after any run a request has been answered by an envelope if and only if some step settled it and its action carries that envelope: the payload in a reply, the code of a rejection, "no-response", "internal" or the refusal's code in an error |
| BridgeAnswers.DeadlinesHold | src/Bridge/MessageBridge.cpp:321-338 | every pending token waits for the deadline it was deferred with |
| BridgeAnswers.GreetedExactlyWhenHelloSaid | src/Bridge/MessageBridge.cpp:264-284 | a view is greeted if and only if its current document has said hello |
| BridgeAnswers.PublishedExactlyToTheGreeted | src/Bridge/MessageBridge.cpp:426-449 | a hello is answered by ready and a publication reaches a view if and only if its document has said hello; nothing else sends either |
| BridgeGates.ReadyComesFirst | src/Bridge/MessageBridge.cpp:264-284 | in one document's life state and events come after ready, and the gate is greeted exactly when ready was sent |
| BridgeGates.EventsArriveInOrder | src/Bridge/MessageBridge.cpp:410-424 | none before the gate opens; then the newest 64 emitted while it was closed, after the whole hello replay; then every later one in order, none lost or repeated |
| BridgeGates.SecondHelloRepeatsNothing | src/Bridge/MessageBridge.cpp:264-284 | an open gate stays open and a second hello delivers no event |
| BridgeGates.HelloOpensAGreetedGateExactlyWhen | src/Bridge/MessageBridge.cpp:264-284 | in every run a hello that ends opens its view's gate, and the open gate is a greeted one if and only if no document of that view was created or destroyed between its start and its end |
| BridgeGates.GreetedExactlyUntilRetired | src/Bridge/MessageBridge.cpp:271-279 | at every moment inside a hello its document is still greeted if and only if the hook has not retired it so far |
| BridgeGates.EveryDocumentSeesItsEventsInOrder | src/Runtime/Runtime.cpp:93 | with hooks that retire no document they greet, as the one installed, every document of every view sees ready first and its events complete and in order |
| BridgeGates.HookThatReplacesItsPageOvertakesReady | src/Bridge/MessageBridge.cpp:264-284 | the run, with a hook the program does not install, in which a document sees an event and no ready |
| MessageBridges.MessageBridge.RejectAll | src/Bridge/MessageBridge.cpp:512-522 | one error for every pending request and none left |
| MessageBridges.MessageBridge.Tick | src/Bridge/MessageBridge.cpp:524-548 | one error for exactly the expired requests |
| MessageBridges.MessageBridge.CollectExpired | src/Bridge/MessageBridge.cpp:529-537 | splits off exactly the expired requests, each once |
| MessageBridges.MessageBridge.Emit | src/Bridge/MessageBridge.cpp:383-424 | sent when open, else queued with the oldest of 64 dropped |
| MessageBridges.MessageBridge.ReapPending | src/Bridge/MessageBridge.cpp:500-509 | erases exactly the retiring view's requests |
| MessageBridges.MessageBridge.BeginRequest | src/Bridge/MessageBridge.cpp:234-254 | refusals before the handler: wrong kind, unknown, over capacity |
| MessageBridges.MessageBridge.CountOwned | src/Bridge/MessageBridge.cpp:247-249 | the number of the view's pending requests |
| MessageBridges.MessageBridge.EndHello | src/Bridge/MessageBridge.cpp:275-284 | opens the gate and sends the backlog in order |
| RetainedStateProofs.RetainedStateIsCoherent | src/Bridge/RuntimeBridge.cpp:107-174 | in every reachable state a document that has said hello holds the store's latest value of each entry of its mod, under address and bare key, if the entry's key does not spell the view list's address and no key sharing one of its two cells was sent to that document since it was sent the entry |
| RetainedStateProofs.EntryHeldExactlyWhen | web/osfui.js:227-231 | for all keys and every run: it holds the entry under both if and only if what else was written to those two cells since the entry, if anything, ended with the same value |
| RetainedStateProofs.ListOverwritesItsKey | src/API/BridgeApi.cpp:176-187 | the run in which it does not: a page says hello, its mod publishes a key spelled like the view list's address, the list changes |
| RetainedStateProofs.SetKeepsEntries | src/Bridge/RetainedStateStore.cpp:25-43 | a known key is replaced where it stands, a new one goes last, the others and their order stay |
| RetainedStateProofs.SetKeepsStore | src/Bridge/RetainedStateStore.cpp:7-44 | bounds hold, other mods are untouched, refused values leave the bucket alone |
| RetainedStateProofs.KeptKeepsOrder | src/Bridge/RetainedStateStore.cpp:56 | clearing keeps exactly the entries that are not session-scoped, each once and in their order |
| RetainedStateProofs.ClearKeepsStore | src/Bridge/RetainedStateStore.cpp:52-59 | the same over all mods, within bounds |
| RetainedStateProofs.EntrySurvivesExactlyWhen | web/osfui.js:227-231 | publishing another key of the same mod leaves what a page holds of an entry, bare key and address, alone if and only if the value is the same or neither key spells the other's address |
| RetainedStateProofs.EntrySurvivesTheListExactlyWhen | src/Bridge/RuntimeBridge.cpp:134-154 | a view list leaves what a page holds of an entry alone if and only if the key does not spell the list's address or the list is its value |
| RetainedStateProofs.SharedCellsOverwrite | web/osfui.js:227-231 | both forms of it do overwrite: the longer key takes the shorter one's address, the shorter one's address takes the longer key |
| RetainedStateProofs.StoreStaysOk | src/Bridge/RetainedStateStore.cpp:7-59 | over every run, for all keys, the store stays within its bounds with one entry a folded key |
| RetainedLastValues.StoreFollowsThePublications | src/Bridge/RetainedStateStore.cpp:7-59 | a publication is retained, under its own spelling and scope, if and only if its mod and key are held already or there is room for them; a session change drops exactly the session-scoped entries |
| RetainedLastValues.StoreHoldsTheLastPublished | src/Bridge/RetainedStateStore.cpp:7-44 | after any run every entry of the store is the one last published under its mod and key |
| RetainedStates.RetainedStateStore.Set | src/Bridge/RetainedStateStore.cpp:7-44 | retained or refused, and the store after it |
| RetainedStates.RetainedStateStore.Find | src/Bridge/RetainedStateStore.cpp:46-50 | the mod's entries, whatever the case |
| RetainedStates.RetainedStateStore.EraseSessionScoped | src/Bridge/RetainedStateStore.cpp:56 | one bucket without its session entries |
| RetainedStates.RetainedStateStore.ClearSessionScoped | src/Bridge/RetainedStateStore.cpp:52-59 | every bucket so, empty ones erased |
| RetainedStates.RetainedRuntime.InstantiatedViewsOfMod | src/Bridge/RuntimeBridge.cpp:107-119 | exactly the mod's instantiated views |
| RetainedStates.RetainedRuntime.PublishModState | src/Bridge/RuntimeBridge.cpp:121-132 | reaches exactly the greeted ones |
| RetainedStates.RetainedRuntime.Publish | src/Runtime/RuntimeFrame.cpp:26-45 | retains, then publishes |
| RetainedStates.RetainedRuntime.Greet | src/Bridge/RuntimeBridge.cpp:156-174 | the view list, then each retained entry in order |
| LegacyStateProofs.PumpConverges | src/Compat/V1/PapyrusAdapter.cpp:460-504 | after any interleaving of set, session reset, suspension, navigation, reload in place behind an open gate, pump and hello, suspended or not, an unsuspended pump leaves every page that has said hello outside a suspension holding exactly its mod's current values |
| LegacyStateProofs.PumpConvergesExactlyWhen | src/Compat/V1/PapyrusAdapter.cpp:460-525 | over the same runs, for every greeted page, whatever it said and when: an unsuspended pump leaves it with exactly its mod's current values if and only if each of them was still due to it or already there |
| LegacyStateProofs.SuspendedHelloConvergesExactlyWhen | src/Compat/V1/PapyrusAdapter.cpp:516-525 | in any run, for a hello during a suspension with the resume and a pump next: whether the page then converges is decided at its hello, by the same condition |
| LegacyStateProofs.SuspendedHelloLosesAValue | src/Compat/V1/PapyrusAdapter.cpp:519 | it happens: a run of eight steps ends with an unsuspended pump that leaves the page that said hello during a suspension without a current value |
| LegacyStateProofs.PumpLeavesOnlyOpenRequests | src/Compat/V1/PapyrusAdapter.cpp:505-514 | after an unsuspended pump exactly the unanswered requests in time, still known to the bridge, are left |
| LegacyStateProofs.SessionChangeCancelsEveryRequest | src/Compat/V1/PapyrusAdapter.cpp:388-401 | a session change rejects every request the bridge still holds with "game-load" at the next pump and keeps none |
| LegacyStateProofs.FirstAnswerWins | src/Compat/V1/PapyrusAdapter.cpp:240-253 | the first answer in time is what the pump sends; a second is refused |
| LegacyLastValues.StoreHoldsTheLastValuesSet | src/Compat/V1/PapyrusAdapter.cpp:230-239 | after any run each address the store has holds the value of the last valid, unsuspended set to it since the last session change, read off the calls; an address set but not held means a store of 1024 others |
| LegacyLastValues.StoreFollowsTheActions | src/Compat/V1/PapyrusAdapter.cpp:230-239 | a set is admitted if and only if the address is held or fewer than 1024 are, and then overwrites; nothing but a session change takes a value away |
| LegacyLastValues.PumpedPageHoldsTheLastValuesSet | src/Compat/V1/PapyrusAdapter.cpp:460-504 | after any interleaving an unsuspended pump leaves in every page that has said hello only last values set, and each of them unless the store was full |
| LegacyLastValues.PageHoldsExactlyTheLastValuesSet | src/Compat/V1/PapyrusAdapter.cpp:460-504 | with fewer than 1024 values held it holds exactly those |
| LegacyRequests.RequestsMeetTheirFates | src/Compat/V1/PapyrusAdapter.cpp:240-253 | over any run of asks, answers, session changes, closes, suspensions and pumps the adapter holds exactly the requests whose fate, read off the calls, is still open or untold |
| LegacyRequests.PumpSettlesExactlyWhatIsOwed | src/Compat/V1/PapyrusAdapter.cpp:505-514 | a pump sends the bridge exactly what those fates owe: the first answer in time, a session change's cancellation, or a timeout |
| LegacyStates.LegacyAdapter.Set | src/Compat/V1/PapyrusAdapter.cpp:230-239 | dirty and undelivered under the folded address, unless invalid, suspended or full |
| LegacyStates.LegacyAdapter.ResetSession | src/Compat/V1/PapyrusAdapter.cpp:388-401 | values become resets, requests cancellations |
| LegacyStates.LegacyAdapter.WithdrawFrom | src/Compat/V1/PapyrusAdapter.cpp:477-488 | the view's reset keys, their values no longer delivered to it |
| LegacyStates.LegacyAdapter.EmitResets | src/Compat/V1/PapyrusAdapter.cpp:472-492 | the resets sent drop exactly those keys from each greeted page |
| LegacyStates.LegacyAdapter.PublishOne | src/Compat/V1/PapyrusAdapter.cpp:496-502 | one value to each target that lacks it |
| LegacyStates.LegacyAdapter.PublishDirty | src/Compat/V1/PapyrusAdapter.cpp:493-504 | every dirty value so, and clean afterwards |
| LegacyStates.LegacyAdapter.ReplayState | src/Compat/V1/PapyrusAdapter.cpp:516-525 | a greeting page gets every value of its mod |
| LegacyStates.LegacyAdapter.Reply | src/Compat/V1/PapyrusAdapter.cpp:240-253 | accepted or refused, and the record after it |
| LegacyStates.LegacyAdapter.SettleRequests | src/Compat/V1/PapyrusAdapter.cpp:505-514 | the settlements sent are one for each settled request, in order and none twice, and the requests left are the others |
| LegacyStates.LegacyAdapter.Pump | src/Compat/V1/PapyrusAdapter.cpp:460-515 | resets first, then values due, and their effect on any page; then one settlement for each request that leaves |
| LegacyStates.LegacyAdapter.CloseView | src/Compat/V1/PapyrusAdapter.cpp:526-535 | rejects what the bridge still holds, each request once, and forgets the view's requests |
| LegacyStates.LegacyPage.OnMessage | src/Compat/V1/web/osfui.js:233-268 | the page's cache after a reset or a value |
| ViewOpenProofs.LaunchAnsweredOnce | src/Runtime/Runtime.cpp:209-403 | every launcher request that entered has been answered exactly once unless the pending menu is its own and not yet prepared; nothing else is answered |
| ViewOpenProofs.LaunchAnsweredByDeadline | src/Runtime/Runtime.cpp:374-403 | at the first tick thirty seconds after it entered, the answer has been given |
| ViewOpenProofs.PreparingExactlyWhilePending | src/Runtime/Runtime.cpp:357-444 | the frame state is preparing exactly while a pending menu is past loading |
| ViewOpenProofs.ActivationOpensItsOwnMenu | src/Runtime/Runtime.cpp:405-417 | a delayed activation opens only the retained menu of its own request, which was told ready; any other changes nothing |
| ViewOpenProofs.LayersFollowPresentation | src/Views/ViewPresentationController.cpp:99-148 | at most one menu is visible, above every HUD; a HUD exactly when shown, stacked by its manifest's order; nothing while suspended; something exactly when the overlay is meant to be visible |
| ViewLives.LivesAreAsAsked | src/Runtime/Runtime.cpp:209-470 | after any run which views exist, are loaded, wait, are pending, shown and active, and whether menus are suspended, is what rules on the calls alone give |
| ViewLives.CloseCloses | src/Runtime/Runtime.cpp:222-227 | after a close the view is neither the active menu nor a shown HUD, neither pending nor waiting, and every other view is as open as before |
| ViewLives.ClosedUntilAskedFor | src/Runtime/Runtime.cpp:222-227 | it stays so until an open asks for it again |
| ViewLives.ClosedIsOffScreen | src/Runtime/Runtime.cpp:471-519 | and the next commit with a renderer, if no open for it came between, leaves it off the screen |
| ViewLives.CommitShowsExactlyTheReadyHuds | src/Runtime/Runtime.cpp:432-444 | a commit shows exactly the HUDs shown before or waiting with their page there, the others go on waiting; unless suspended they are on screen |
| ViewLives.AskedMenuIsPendingExactlyWhen | src/Runtime/Runtime.cpp:289-355 | a launcher's or plain open of a menu makes it the pending one if and only if it is allowed and its page exists or can be created; a refused one changes nothing |
| ViewLives.ReadyMenuIsRendered | src/Runtime/Runtime.cpp:432-444 | the commit that finds its page loaded, with the input it captures, starts preparing its frame |
| ViewLives.PreparedMenuIsActiveExactlyWhen | src/Runtime/Runtime.cpp:374-417 | a plain menu whose frame is prepared is opened, and is active and on screen if and only if the policy does not forbid menus |
| ViewLives.PlainOpenOpensTheMenu | src/Runtime/Runtime.cpp:289-444 | so an open whose page loads, is committed and has its frame prepared ends with the menu active and on screen |
| ViewLives.ToldReadyExactlyWhenPrepared | src/Runtime/Runtime.cpp:374-403 | over every run a launcher has been told "ready" if and only if some tick found the frame of its pending menu prepared |
| ViewFrames.CommittedExactlyUntilDrawn | src/Runtime/Runtime.cpp:405-417 | the frame state is committed from the opening of a prepared menu until the frame is drawn or the next menu starts preparing |
| ViewFrames.GivenUpMenuLeavesTheScreen | src/Runtime/Runtime.cpp:357-372 | a menu given up while its frame is prepared is hidden at once |
| ViewScreenProofs.ScreenFollowsPresentation | src/Runtime/Runtime.cpp:471-519 | in every reachable state with nothing left to publish the renderer shows exactly the shown HUDs and one menu, the one whose first frame is being prepared or else the active one, above every HUD, each HUD at its manifest's order |
| ViewScreenProofs.NothingOnScreenWhileSuspended | src/Runtime/RuntimeFrame.cpp:15-24 | suspended with nothing left to publish, no view is visible |
| ViewScreenProofs.CommitPublishes | src/Runtime/RuntimeFrame.cpp:83-90 | a commit with a renderer leaves nothing to publish |
| ViewScreen.NoGapWhilePublishing | src/Runtime/Runtime.cpp:508-519 | at every moment of a publication all that was visible still is, or all that will be visible already is |
| ViewScreen.CallsPublish | src/Runtime/Runtime.cpp:490-519 | replaying the messages gives every instantiated view the visibility and order the policy wants, and touches no other |
| ViewOpens.ViewPresentationController.DesiredLayers | src/Views/ViewPresentationController.cpp:127-148 | one layer for each instantiated view |
| ViewOpens.ViewOpenCoordinator.TakeReadyHuds | src/Views/ViewOpenCoordinator.cpp:38-48 | takes exactly the ready HUDs and drops the missing ones |
| ViewOpens.ViewOpenCoordinator.TakeReady | src/Views/ViewOpenCoordinator.cpp:35-54 | those, then the menu when it has loaded |
| ViewOpens.OpenRuntime.FailPending | src/Runtime/Runtime.cpp:357-372 | drops the pending menu, its preparation and its launcher's wait |
| ViewOpens.OpenRuntime.ApplyPolicy | src/Runtime/Runtime.cpp:471-519 | nothing without a renderer; else a menu stays only with the input it needs, and a changed presentation is published |
| ViewOpens.OpenRuntime.PublishLayers | src/Runtime/Runtime.cpp:490-519 | every order, then every show, then every hide, leaving each instantiated view at the renderer as the policy wants it |
| ViewOpens.OpenRuntime.PrepareViewOpen | src/Runtime/Runtime.cpp:289-355 | every refusal and every way an open begins |
| ViewOpens.OpenRuntime.UpdatePending | src/Runtime/Runtime.cpp:374-403 | readiness lost, frame prepared, or deadline passed |
| ViewOpens.OpenRuntime.DrivePending | src/Runtime/Runtime.cpp:432-444 | ready HUDs are shown, a ready menu starts preparing |
| PipeProofs.HandlesCloseExactlyOnce | tools/webview2_shared/Wv2Pipe.cpp:152-172 | under any interleaving every handle ever created is closed exactly once, or is still owned and not closed |
| PipeProofs.NoCloseUnderACall | tools/webview2_shared/Wv2Pipe.cpp:453-476 | published handles are closed only while no call is active, never under an outstanding operation |
| PipeProofs.OneOfEachKind | tools/webview2_shared/Wv2Pipe.cpp:40-63 | at most one thread opens, one accepts, one reads |
| PipeProofs.NothingBeginsWhileClosing | tools/webview2_shared/Wv2Pipe.cpp:79-89 | once closing no call begins until a PrepareForOpen finishes |
| PipeProofs.CloseWaitsForOthersOnly | tools/webview2_shared/Wv2Pipe.cpp:453-482 | a close waits only for other threads, and while it waits one of them can take a step that brings it closer to leaving its call |
| PipeProofs.ClosingStep | tools/webview2_shared/Wv2Pipe.cpp:65-89 | while the pipe closes a step moves no other thread, and every step of a call takes its own thread closer to leaving it |
| PipeProofs.CallsRunOut | tools/webview2_shared/Wv2Pipe.cpp:453-482 | so over any stretch of a run in which the pipe closes, a thread takes at most as many call steps as it is away from leaving, at most three |
| PipeProofs.FailureReleasesFirst | tools/webview2_shared/Wv2Pipe.cpp:190-194 | a failed call ends itself before it closes |
| PipeAdmission.CallBeginsExactlyWhen | tools/webview2_shared/Wv2Pipe.cpp:40-63 | a call begins if and only if the pipe is not shut and: to open, nothing is published and no other thread opens; to accept, it is published without a client and no other accepts; to read, it has a client and no other reads; to write, it has a client; read off the threads' steps |
| PipeAdmission.PipeIsSo | tools/webview2_shared/Wv2Pipe.cpp:453-482 | over every run the pipe is shut from a close until one that reopens it finishes, holds the handles published last in the order created, and has a client exactly since an open or accept on this very pipe |
| Pipes.Pipe.BeginCall | tools/webview2_shared/Wv2Pipe.cpp:40-63 | admitted or refused, and the fields after it |
| Pipes.Pipe.Detach | tools/webview2_shared/Wv2Pipe.cpp:465-471 | hands the handles to the closer and clears the fields |
| Framing.DecodeUndoesEncode | tools/webview2_shared/Wv2Pipe.cpp:380-408 | the four little-endian length bytes decode to the length |
| Framing.ParseUndoesFrame | tools/webview2_shared/Wv2Pipe.cpp:373-414 | one frame reads back as its payload and the rest of the stream |
| Framing.FramesRoundTrip | tools/webview2_shared/Wv2Pipe.cpp:373-414 | a stream of frames reads back as its payloads, in order |
| Framing.LostConnectionDeliversWholeMessages | tools/webview2_shared/Wv2Pipe.cpp:319-391 | a stream cut anywhere yields exactly the messages complete by then |
| Framing.Reader.ReadExact | tools/webview2_shared/Wv2Pipe.cpp:319-371 | whatever the split of the reads, success fills the buffer with exactly the next bytes |
| Framing.Reader.ReadMessage | tools/webview2_shared/Wv2Pipe.cpp:373-391 | the next frame's payload, or failure |
| Framing.Reader.ReadAll | tools/webview2_shared/Wv2Pipe.cpp:373-391 | repeated reads give the stream's messages |
| Framing.Writer.WriteAll | tools/webview2_shared/Wv2Pipe.cpp:416-451 | all bytes, or a proper prefix when the pipe fails |
| Framing.Writer.WriteMessage | tools/webview2_shared/Wv2Pipe.cpp:393-414 | a whole frame, a proper prefix of it, or nothing for an invalid payload |
| Framing.Exchange | tools/webview2_shared/Wv2Pipe.cpp:319-451 | any payloads written and read back, however both sides split their operations, arrive equal and in order |
| LocalUri.NormalExactlyWithoutDots | tools/webview2_shared/Wv2LocalUri.h:35-64 | remove_dot_segments of RFC 3986 section 5.2.4 leaves a path alone if and only if no segment is "." or ".." |
| LocalUri.DecodeSegment | tools/webview2_shared/Wv2LocalUri.h:50-56 | the in-place loop decodes every %2e of a segment |
| LocalUri.HasDotSegments | tools/webview2_shared/Wv2LocalUri.h:46-63 | the segment loop finds a dot segment exactly when the decoded path has one |
| LocalUri.IsSafeVirtualPath | tools/webview2_shared/Wv2LocalUri.h:35-64 | accepts exactly the paths that encode no slash and that RFC 3986 normalisation leaves unchanged |
| LocalUri.ParsedParts | tools/webview2_shared/Wv2LocalUri.h:67-98 | host and path are where the URL syntax puts them, with no user information, port or backslash |
| LocalUri.IsTrustedViewDocumentUri | tools/webview2_shared/Wv2LocalUri.h:106-117 | accepts exactly safe URLs of the host under the view's root |
| LocalUri.TrustedStaysUnderItsRoot | tools/webview2_shared/Wv2LocalUri.h:106-117 | after normalisation such a document still lies under its view's root and has no dot segment |
| SettingsCodec.TranslateSettings | src/Compat/V1/SettingsCodec.cpp:28-101 | the definition read from schema and saved document, or failure |
| SettingsCodec.EncodeSettings | src/Compat/V1/SettingsCodec.cpp:103-113 | preserved entries, written values and versions, in any order of the values |
| SettingsCodec.ReadAllFails | src/Compat/V1/SettingsCodec.cpp:45-75 | reading succeeds if and only if the keys are well-formed and distinct, types known and defaults there |
| SettingsCodec.ReadAllResult | src/Compat/V1/SettingsCodec.cpp:75-92 | each authored setting's default and value, and exactly the unclaimed entries preserved |
| SettingsCodec.OutputOf | src/Compat/V1/SettingsCodec.cpp:103-113 | a value equal to its default is omitted, any other is written, key settings by name |
| SettingsCodec.SettingsRoundTrip | src/Compat/V1/SettingsCodec.cpp:28-113 | reading what was written gives back preserved entries, versions, defaults and, for each setting, the same value if and only if not (it is at its default and the first of its aliases that names a version entry or a written setting names one whose current value is valid for it and not its default); current values may be the defaults themselves |
| SettingsCodec.CapturedIsOverridden | src/Compat/V1/SettingsCodec.cpp:77-92 | that condition on schema and current values is the one the reader meets in the written document |
| SettingsCodec.DisjointAliasesCaptureNothing | src/Compat/V1/SettingsCodec.cpp:77-83 | with aliases apart from authored keys and version entries every value comes back |
| SettingsCodec.AliasOfAnAuthoredKeyCaptures | src/Compat/V1/SettingsCodec.cpp:77-83 | the failure end to end: a schema and current values that are encoded, translated again and come back different |
| KeyNames.KeyNameRoundTrip | src/Compat/V1/KeyNames.cpp:47-103 | naming a code and reading the name gives the code back if and only if it is one of the named codes (mouse, function, digit, letter, table) or the unbound code |
| KeyNames.FunctionKeyRoundTrip | src/Compat/V1/KeyNames.cpp:57-89 | F1 to F24 both ways |
| KeyNames.MouseRoundTrip | src/Compat/V1/KeyNames.cpp:49-85 | MOUSE1 to MOUSE5 both ways |
| KeyNames.CharacterRoundTrip | src/Compat/V1/KeyNames.cpp:66-93 | digits and letters both ways |
| GamepadProofs.ScrollWithinOneNotch | src/Input/GamepadSession.cpp:149-164 | over an uninterrupted segment the wheel total is whole notches and within one notch of the exact sum |
| GamepadProofs.ExactScrollOfHeldStick | src/Input/GamepadSession.cpp:149-164 | for a stick held still the exact sum is 8 notches a second times its deflection times the time elapsed, however the time is sampled |
| GamepadProofs.RateChangesAtMostOneNotch | src/Input/GamepadSession.cpp:72-76 | two update rates over the same time give a held stick wheel totals at most one notch apart |
| GamepadProofs.InterruptionEmptiesTheAccumulator | src/Input/GamepadSession.cpp:86-92 | leaving the dead zone or entering raw mode drops the remainder |
| GamepadProofs.PulsesShareOneDirection | src/Input/GamepadNavigation.h:19-50 | every pulse of a hold has the engaged direction |
| GamepadProofs.NextPulseComesExactlyAfterTheGap | src/Input/GamepadNavigation.h:23-31 | the next pulse comes at the first sample at least 0.55 s after the engaging one, 0.13 s after any other |
| GamepadProofs.PulsesAreSpaced | src/Input/GamepadNavigation.h:23-48 | any two pulses of a hold are at least that far apart |
| GamepadProofs.EdgesAreTheChanges | src/Input/GamepadSession.cpp:93-107 | the edges are exactly the reported buttons that changed, with their new state |
| GamepadReports.FrameReportsTheChanges | src/Input/GamepadSession.cpp:80-108 | over every run of samples in any modes the first frame reports no button and each later one exactly the reported buttons pressed or released since the sample before, a press outside raw mode with its action |
| GamepadReports.ReportedAxesAreNear | src/Input/GamepadSession.cpp:110-120 | a frame marks its axes as changed exactly when they are more than 0.04 off what was last reported, so a listener is never further off |
| GamepadReports.EngagedIsTheLargerAxis | src/Input/GamepadNavigation.h:36-49 | a stick engages its larger deflection from 0.55 on, the vertical one on a tie |
| GamepadReports.DpadPressMovesOnce | src/Input/GamepadSession.cpp:141-147 | a D-pad press moves by its own edge and not by a pulse of the same frame; one held as the session begins moves nothing in the first frame |
| GamepadReports.OtherwiseThePulseMoves | src/Input/GamepadSession.cpp:127-147 | any other frame outside raw mode moves exactly by the pulse from the hold the samples of this mode have left; entering a mode leaves none |
| GamepadReports.EnteringScrollsNothing | src/Input/GamepadSession.cpp:72-91 | the frame that enters a mode turns no wheel and keeps no remainder |
| GamepadReports.DpadSteers | src/Input/GamepadSession.cpp:127-141 | with the stick out of the way a single D-pad button steers its own way |
| Gamepads.GamepadNavigation.Update | src/Input/GamepadNavigation.h:19-50 | pulse and latch |
| Gamepads.GamepadSession.ButtonEdges | src/Input/GamepadSession.cpp:93-107 | one edge a changed button, in the masks' order |
| Gamepads.GamepadSession.Update | src/Input/GamepadSession.cpp:67-167 | frame and session after one sample |
| Gamepads.GamepadSession.Scrolled | src/Input/GamepadSession.cpp:149-164 | whole notches out, the rest kept |
| Gamepads.GamepadSession.End | src/Input/GamepadSession.cpp:169-183 | everything forgotten, once |

## Left out

- SharedFrameProofs.AcknowledgementSafety: serials, epochs, fence values and use counts are unbounded; 64-bit wrap-around is not modelled.
- SharedFrames.SharedFrameState.Release: a shared_ptr control block is an entry in a table of use counts; a frame is identified by its view and generation, which the proofs show to be unique among live frames.
- OverlayProofs.ExecutionSafe: fence values, handle imports and signal outcomes are parameters; a command list is executed at most once for each recording; the compositor's teardown is not modelled.
- OverlayObjects.SharedFrameConsumer.Record: of the locked wrappers only those that do more than delegate are written out.
- HostReplicationProofs.HostConvergesToTheRenderer: view ids are not empty; the cold-open flag is sent but not part of the mirror, since a coalesced message takes its own with it; the announced epoch is the one last carried by a message, which epoch the host renders under being HostPresentation's subject; the host's rejection of malformed view ids and its limits on pending page messages are not modelled.
- HostPresentation.NeverPresentedExactlyWhen: the host is modelled on values, one message at a time; whether a view can report a paint, and when it does or times out, is a parameter; a failure of the host's capture devices ends the host, which is a lost connection here; the settling of a cold open and the capture of frames are not modelled.
- HostPosts.PostsArriveInOrder: runs in which a message was too large to write since the last restart are apart, as the source drops it; the page's own queue behind the host is not modelled.
- Stopping and failing the renderer are one step each; the process, its threads and the handshake before the snapshot are not modelled.
- BoundedQueues.BoundedQueue.TryPop: WaitPop is its effect once the wait has ended.
- BridgeSettlement.SettledExactlyOnce: messages do not nest, so a handler does not feed another message in; the order in which hash maps are walked is a parameter; protocol faults, traces and fallback endpoints are not modelled beyond what kind a name resolves to.
- BridgeGates.ReadyComesFirst: as in EventsArriveInOrder, a view whose hello hook retired the document it greets is excluded until its next document; EveryDocumentSeesItsEventsInOrder has no such exclusion for hooks that retire nothing. A late hello of an old document cannot be told from the new document's.
- RetainedStateProofs.RetainedStateIsCoherent: entries whose cells were written by another key or by the view list since are excluded, as EntryHeldExactlyWhen says they must be; the page's lower-casing is taken on ASCII, and state keys are short enough not to be truncated on the wire.
- LegacyStateProofs.PumpConverges: the pumped list holds every greeted legacy view; a page whose only hello came during a suspension is not among those that have said hello, and PumpConvergesExactlyWhen is about it; keys other publishers also send to a page are apart; the pump is not called from within a hello.
- LegacyStates.LegacyAdapter.Set: validity of ids, keys and values is one flag; forms are values like any other.
- LegacyStates.LegacyAdapter.Pump: hotkeys, listeners, dispatch into the Papyrus VM and the deadline clock are not modelled.
- LegacyRequests.RequestsMeetTheirFates: which listener a request goes to and the caps on requests in flight are not modelled; a request is asked under a key of its own.
- ViewOpenProofs.LaunchAnsweredOnce: launcher ids are not zero and not reused; compositor, host, input integration and settings answers are parameters.
- ViewOpens.OpenRuntime.ApplyPolicy: what follows the layer messages is left out: input target, pointer ownership, capture, the reveal gate and the lifecycle events of the shown view.
- PipeProofs.HandlesCloseExactlyOnce: system calls succeed or fail as an action says; error texts and deadlines are not modelled, a timeout being a failure.
- Framing.Writer.WriteMessage: the write lock makes it one step; what the other side has not yet read is one sequence of bytes.
- LocalUri.TrustedStaysUnderItsRoot: mod ids and view names hold no percent sign, as their id checks guarantee.
- SettingsCodec.TranslateSettings: groups are one list of settings; titles, labels and the translated schema are left out, and any JSON error reads as failure.
- SettingsCodec.EncodeSettings: a key setting's value is a 32-bit code, as the callers check before saving; JSON numbers compare as reals.
- GamepadProofs.ScrollWithinOneNotch: floats and doubles are reals, so rounding is not modelled.
- Gamepads.GamepadSession.Update: a button word is the set of its bits.
- Direct3D, WebView2, capture and shader code, Win32 hooks, cursor, text input and device polling: calls into foreign code.
- The file system, process launch, logging and diagnostics: input and output.
- View load tracking, input grants, the reveal gate, language tags, mouse buttons and geometry packing: small helpers that each hold a flag, a table or a number. The properties need from them only whether a view has loaded and whether input is available, which every run takes as a free parameter.
- Methods not listed above that only assign what their model function says: they verify in the class files, and the properties of the functions are those listed.
- Memory ordering below the level of atomic steps, and the DOM navigation script.
