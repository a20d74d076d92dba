# kmwarp verification model

kmwarp lets one keyboard and mouse, attached to a Mac (the server), drive a
Windows machine (the client) over a framed TCP protocol. This project models the
parts of it where a mistake strands the user, leaves a key stuck, or corrupts
what is transferred, and proves what they keep over every input, every run and
every interleaving.

* **Handing over control.** `Edge` is the edge-crossing state machine, `Brain`
  the server's event loop around it (coordinate rewriting, modifier remap,
  held-key tracker, swallow flag), `OutQueues` its bounded queue, `Injector` and
  `CursorWatch` the client's two loops. `BrainRuns` proves what the server keeps
  over every run and over several sessions; `Handoff` puts both programs, the two
  FIFO streams between them and the drain at a session's end into one transition
  system of atomic steps (a tracker update under its lock, one enqueued frame, one
  store to the active flag), in which any queue may drop any message it is sent;
  `Liveness` proves that control comes back and says exactly what prevents it;
  `SessionEnd` says what the drains release; `DrainRuns` and `StrandedRuns` give
  the runs in which a drain misses a key and in which control is lost. `InputPath`
  follows captured input to the client's sink, with every code written out.
* **The wire.** `Codec` says what a frame is and what a payload decodes to, and
  `WireLayout` writes the bytes of every frame out; `CodecProofs` and `Framing`
  prove that encoding and decoding undo each other, that the accepted frames are
  exactly those, and that a stream means the same in whatever pieces it arrives;
  `Refusals` says what is refused and why; `FrameCodec` and `Connection` are the
  encoder, the decoder and the read and write loops as they update their buffers.
* **The clipboard.** `Clipboard` is the chunker, the reassembler and the echo
  guard, `ClipboardTasks` the two tasks that use them; `ClipboardDelivery` and
  `ClipboardWire` prove what arrives; `Echo` runs two machines, polling Macs or
  notified Windows ones, against each other, `EchoLedger` accounts for every
  payload they send, and `PingPong` gives the runs that go wrong.
* **Pairing.** `Pairing` is both flows, `PairingLanguage` the exact set of
  conversations each accepts, `PairingVerdicts` what every other one ends with,
  `PairingLockstep` the two against each other.
* **Supporting refinements.** `StuckKeys`, `ModMap`, `Convert`, `Tap`, `Display`, `Utf8`.

Objects the program updates in place are classes whose methods are proved
against a step function on values (`Value()` or `Contents()` gives the value);
the theorems about runs are stated over those step functions. Environment
decisions (timestamps, cursor positions, which queue is full, how reads are cut,
who is scheduled) are parameters. SPAKE2, HMAC-SHA256 and SHA-256 are functions
about which nothing is assumed.

## Where the code and its comments differ

* `crates/server/src/net/pairing.rs:26-28` says a half-completed pairing leaves
  the disk clean. The pin is stored before the peer's own acceptance is read:
  `PairingLanguage.HalfPairedIff` says exactly when a failed flow leaves a pin.
* `crates/server/src/net/pairing.rs:76-79` says every failure is announced with
  `PairRejected`. `PairingLanguage.RefusalIff` says exactly which conversations
  are answered with one; `PairingLanguage.SilentFailures` gives two that are not.
* `crates/client/src/net/pump.rs:345-348` says the server's cooldown can drop a
  `ReleaseControl`. It does not apply to it
  (`crates/core/src/edge/mod.rs:245-252`); `Liveness.ControlReturns` holds for
  every cooldown.
* `crates/core/src/edge/mod.rs:35-36` says crossings are dropped for the cooldown
  after any transition. A transition in millisecond 0 switches the cooldown off
  (`BrainRuns.CooldownHoldsIff`, `BrainRuns.CooldownOffAtZero`), so `BrainRuns.CrossingRate` asks for positive
  timestamps.
* `crates/core/src/edge/mod.rs:32-34` protects only the warp on entry. The warp
  on return parks the cursor where the next report crosses again as soon as the
  cooldown has passed (`BrainRuns.ReturnWarpRetriggersAfterCooldown`).
* `crates/server/src/app.rs:1615-1616` says a payload cut short may show up as a
  truncated paste. Nothing of it is delivered
  (`ClipboardDelivery.WholeTextsArrive`); it is the inbound queue, which drops
  single chunks and carries on, that can deliver a wrong text;
  `ClipboardDelivery.AnotherTextIff` says exactly when it does.
* `crates/client/src/net/pump.rs:79-82` says the echo guard prevents the
  ping-pong. It does exactly as long as a text is remembered while nothing is
  waiting that only the older hash would recognise (`Echo.PromptIff`), and, on
  Windows, no report of it is checked between the write and the remembering
  (`Echo.PromptStep`). Windows remembers after it writes, and its listener and
  outbound task run meanwhile: `PingPong.WindowsBounces` is the run in which the
  text goes straight back. With three texts it can go on for ever
  (`PingPong.LoopIsReachable`, `PingPong.PingPongForever`). Even without that,
  either platform can send one copy twice (`PingPong.CopyReportedTwice`), even one
  that was an echo (`PingPong.EchoSentTwice`). `EchoLedger.CopySentOnceIff` says
  exactly when a copy adds at most one payload whatever is received afterwards,
  `EchoLedger.OnceByOwnLoopsIff` when it does if nothing is;
  `EchoLedger.SendsAtMostCopies` bounds the payloads of a whole run by the copies
  and their further reports, and `EchoLedger.AtMostCopiedIffMacs` says between
  which machines, acting without interruption, there are none of the latter.
* `crates/server/src/platform/macos/clipboard.rs:156-157` says a poll emits one
  event when the count moves. The count and the text are two reads (182-185): if
  the count had moved, a change between them is reported by this poll and again by
  the next.
* `crates/core/src/wire/mod.rs:123-124` describes the flags of ClipboardText as
  "more chunks follow" and zero for a single chunk. They are FIRST and LAST, and
  a single chunk carries both (`Clipboard.Split`); a frame with neither delivers
  nothing (`ClipboardDelivery.DeliversIff`).
* `crates/core/src/wire/mod.rs:166-168` lists reject codes 1 to 4; the flows send
  1, 2 and 5.
* The shipped remap sends Cmd and Ctrl to one key, so releasing either releases
  both at the peer (`BrainRuns.DefaultRemapLosesAKey`). `BrainRuns.LosesNoKeyIff`
  says exactly when a history loses no key, `BrainRuns.NeverLosesAKeyIff` which
  remaps never do.
* `crates/server/src/app.rs:665-668` drains the held keys before the sibling
  tasks are stopped, and the brain tracks a key (1350-1352) before it enqueues the
  frame (1358). So the brain can forward a press behind the drain
  (`DrainRuns.PressBehindTheDrain`), a release can come after a new press
  (`DrainRuns.LateRelease`), and a release can go out before the press it is to
  undo, which leaves the client with a key that nothing tracks
  (`DrainRuns.ReleaseOvertakesPress`). `SessionEnd.DisconnectDrainReleasesAll`
  says what the client is left with, `SessionEnd.OrphansNoneIff` when a drain
  cannot leave it an untracked key.
* `crates/client/src/platform/windows/cursor_watch.rs:102-113` sends
  ReleaseControl before it clears the active flag. A TakeControl handled in
  between is undone, and the token with it, though nothing was dropped
  (`StrandedRuns.UndoneWithoutADrop`); and a watcher that meets a closed queue
  ends with the client still active (`StrandedRuns.ClosedQueueStrands`).
  `Liveness.ControlReturnsIff` and `Liveness.CanReturnIffTokenLeft` say exactly
  when control comes back, and when it can.
* `crates/server/src/app.rs:1362` is the only place that shows the cursor: a
  session that ends in RemoteActive leaves it hidden
  (`BrainRuns.CursorAcrossSessions`).

## Model

| member | source | states |
|---|---|---|
| `Handoff.OneOwner` | crates/client/src/net/pump.rs:342-352 | In every run, whatever the queues drop, disconnect drains and latency replies included: at most one control token exists and none in LocalActive; the client drives only in RemoteActive with no control frame anywhere, and, once the brain has finished its turn, the Mac then swallows its input with the cursor hidden; and the keys down at the client's sink are the tracked ones. |
| `Handoff.TokenAndMirror` | crates/server/src/app.rs:1334-1395 | In every run that drops nothing: every key the server tracks and no late release let go, and every orphan, will be down at the client, and no other but those whose drained release is still to come; and TakeControl on its way plus client driving plus ReleaseControl in flight equals 1 in RemoteActive and 0 in LocalActive, if and only if no TakeControl was handled that the watcher, about to clear the active flag, undid. |
| `Handoff.MirrorIsEqual` | crates/server/src/app.rs:1341-1358 | Before a disconnect drain has started, the keys the client will hold are exactly those the server tracks. |
| `Handoff.KeyLossIff` | crates/server/src/app.rs:1481-1491 | Key by key, for every step of any run, drops included: the mirror of a key survives exactly when the step does not drop a frame for it that no later frame or drained release overrules and that would have changed whether the client holds it, and no drain gives up on its release while it will be down at the client and is no longer tracked. |
| `Handoff.KeyMirrored` | crates/server/src/app.rs:1350-1358 | So in any run in which no step loses what the client should learn about a key, whatever else is dropped, the client will hold that key exactly as expected. |
| `Handoff.TokenLossIff` | crates/server/src/app.rs:1481-1491 | A step loses the control token exactly when it drops a control frame, or handles a TakeControl that the watcher, about to clear the active flag, undoes. |
| `Handoff.TokenConservedIff` | crates/server/src/app.rs:1481-1491 | Over every run, drops included: there is a token in RemoteActive and none in LocalActive if and only if no step so far lost it. |
| `Handoff.NoStuckKeys` | crates/server/src/app.rs:1377-1382 | After any number of crossings, with the Mac in control and everything arrived, the client does not drive and no key is down there but orphans and those whose release a disconnect drain is about to push; none in a run without such a drain. |
| `Handoff.ProbesAreAnswered` | crates/server/src/app.rs:876-955 | A latency probe at the front of either stream is answered on the other with its timestamp if there is room, and is gone either way. |
| `Handoff.StepKeepsSafe` | crates/server/src/app.rs:1230-1303 | Every step of either program, with any drops, keeps the safety invariant. |
| `Handoff.StepKeepsFaithful` | crates/client/src/net/pump.rs:213-224 | Every step without a drop, a drain's included, keeps the key mirror and the watcher running. |
| `SessionEnd.DisconnectDrainReleasesAll` | crates/server/src/app.rs:590-609 | With the brain running on beside it, once the drain is through the client will hold exactly the keys pressed since it started and still tracked, less those whose drained release came after the new press, and those whose drained release came before the press it was to undo; so none exactly when there are neither. |
| `SessionEnd.OrphansNoneIff` | crates/server/src/app.rs:686-739 | A drain that starts now orphans no key, whatever either program does from then on and whatever is dropped, if and only if the brain has no press tracked whose frame it has still to enqueue. |
| `SessionEnd.OrphansNone` | crates/server/src/app.rs:1350-1358 | In a run whose drains all start at such a moment no key is ever orphaned. |
| `DrainRuns.PressBehindTheDrain` | crates/server/src/app.rs:599-609 | A crossing, the drain, a press of any key: the drain is through and the client holds that key. |
| `DrainRuns.LateRelease` | crates/server/src/app.rs:718-720 | A key pressed again before the drain pushes its release: the client holds nothing, the server tracks the key. |
| `DrainRuns.ReleaseOvertakesPress` | crates/server/src/app.rs:1350-1358 | The drain takes a tracked key and pushes its release before the brain enqueues the press: the client holds a key that nothing tracks. |
| `SessionEnd.CutDrainLeaves` | crates/server/src/app.rs:714-739 | An undisturbed drain that gives up after some releases leaves the client with exactly the keys whose turn had not come and those whose press the brain had yet to enqueue; with none if and only if it got through and there was no such press. |
| `SessionEnd.ExitDrainReleasesAll` | crates/client/src/net/pump.rs:192-208 | If the client ends instead, at any moment and after any drops, its drain leaves no key down. |
| `Liveness.RankFalls` | crates/client/src/platform/windows/cursor_watch.rs:77-113 | In RemoteActive the rank (where the token is, how many frames are ahead of it) falls with each step that moves the token on and stays the same under every other; it is zero only with the Mac in control. |
| `Liveness.ControlReturns` | crates/core/src/edge/mod.rs:241-264 | On every infinite fair run that drops nothing and in which no TakeControl is undone by a watcher clearing the active flag, from every moment on, the Mac gets control back, whatever the cooldown. |
| `Liveness.ControlReturnsIff` | crates/client/src/platform/windows/cursor_watch.rs:102-113 | On every infinite fair run that drops nothing, the Mac gets control back from every moment on if and only if no TakeControl is so undone. |
| `Liveness.StrandedForever` | crates/client/src/platform/windows/cursor_watch.rs:102-113 | Once the token is lost in RemoteActive, or is not on its way back when the watcher ends, no sequence of steps brings control back. |
| `Liveness.StrandedIsReachable` | crates/server/src/app.rs:1481-1486 | One crossing at any edge while the outbound queue is full ends there. |
| `StrandedRuns.UndoneWithoutADrop` | crates/client/src/platform/windows/cursor_watch.rs:102-113 | Crossing, back, and across again after the cooldown, before the watcher clears the flag: nothing is dropped, and no continuation brings control back. |
| `StrandedRuns.ClosedQueueStrands` | crates/client/src/platform/windows/cursor_watch.rs:107-110 | A watcher that meets a closed queue: the client drives on, and no continuation brings control back. |
| `Liveness.CanReturnIffTokenLeft` | crates/client/src/platform/windows/cursor_watch.rs:102-113 | In any run, drops included, some continuation gives control back if and only if the Mac has it, or it is on its way back, or the token is elsewhere and the watcher still runs. |
| `Liveness.WayHome` | crates/core/src/edge/mod.rs:241-264 | From every state with a token and a running watcher, an explicit continuation ends in LocalActive. |
| `Liveness.DrainIsCompleteIff` | crates/server/src/app.rs:1438-1448 | A drain releases everything exactly when none of its frames is dropped. |
| `BrainRuns.StepShape` | crates/server/src/app.rs:1230-1303 | Every brain step is an entry, a return, a forward or nothing, with exactly the frames, cursor calls and state change of that case. |
| `BrainRuns.StepEffect` | crates/server/src/app.rs:1334-1395 | One step keeps the brain's invariant, changes hides minus shows by the change of state, and tracks exactly what it enqueues. |
| `BrainRuns.RunBalanced` | crates/server/src/app.rs:1361-1383 | Over every run: swallow is exactly RemoteActive, the cursor is hidden once more than shown exactly then, nothing is held in LocalActive, the tracker is the fold of everything enqueued, and every warp lands one or `back_warp_px` pixels left of a right edge. |
| `BrainRuns.DecoupledInRemote` | crates/server/src/platform/macos/inject.rs:61-120 | Over every run, and whichever warps fail, the cursor is decoupled from the mouse exactly in RemoteActive: every warp and every show couple it again, so the crossing must warp before it hides. |
| `BrainRuns.WireLogGrammar` | crates/server/src/app.rs:1334-1395 | What the brain enqueues over any run is TakeControl, forwarded input, ascending releases, over and over, with at most one open stay, open exactly in RemoteActive; the drain on entry emits nothing. |
| `BrainRuns.SegmentIsKeyBalanced` | crates/server/src/app.rs:1402-1449 | A completed stay leaves no key down, and its releases are exactly the keys whose last event in it was Down, each once, ascending. |
| `BrainRuns.NoPhantomKeys` | crates/server/src/app.rs:1341-1358 | In every run, every tracked key is the remap of a key pressed and not released in this stay; and all of those are tracked if and only if each was pressed after the last release of any key folded with it. |
| `BrainRuns.LosesNoKeyIff` | crates/core/src/modmap.rs:87-95 | The same condition for any history of key events: tracking the remapped events gives the image of the pressed keys exactly then. |
| `BrainRuns.TrackedIff` | crates/core/src/modmap.rs:87-95 | A key is tracked after a remapped history exactly when the last event in it of a key sent there was a press. |
| `BrainRuns.NeverLosesAKeyIff` | crates/core/src/modmap.rs:52-95 | No history loses a key exactly when the two configured targets leave each modifier itself or swap them. |
| `BrainRuns.TracksEveryKeyIff` | crates/server/src/app.rs:1341-1358 | On any Mac with a right edge, every run tracks every pressed key exactly when the remap folds no two keys. |
| `BrainRuns.FoldedPairLosesAKey` | crates/core/src/modmap.rs:87-95 | For any two keys a remap folds: Down a, Down b, Up b leaves a pressed and nothing tracked. |
| `BrainRuns.FoldedPairInARun` | crates/server/src/app.rs:1341-1358 | The same in a run of the brain, from the crossing on. |
| `BrainRuns.FoldUnderRemap` | crates/core/src/modmap.rs:87-95 | Tracking remapped events never yields more than the image of tracking the events, and yields the image when the remap is injective on them. |
| `BrainRuns.DefaultRemapLosesAKey` | crates/core/src/modmap.rs:61-68 | Under the shipped remap, in a run on any Mac with a right edge: after Cmd down, Ctrl down, Ctrl up, Cmd is pressed and nothing is tracked. |
| `BrainRuns.EntriesSpaced` | crates/core/src/edge/mod.rs:270-275 | Over nondecreasing positive timestamps consecutive entries are at least one cooldown apart. |
| `BrainRuns.CrossingRate` | crates/core/src/edge/mod.rs:187-206 | N further entries take at least N cooldowns. |
| `BrainRuns.CooldownHoldsIff` | crates/core/src/edge/mod.rs:268-275 | A report at the edge within the cooldown is dropped if and only if the last transition was not in millisecond 0. |
| `BrainRuns.CooldownOffAtZero` | crates/core/src/edge/mod.rs:271-273 | Two entries in millisecond 0, whatever the cooldown and wherever the edge. |
| `BrainRuns.DisplaysHaveEdges` | crates/server/src/app.rs:1237-1249 | Every display of a disjoint arrangement has such an edge. |
| `BrainRuns.EntryIff` | crates/server/src/app.rs:1237-1275 | A position report enters RemoteActive exactly in LocalActive, after the cooldown, at the right edge of the display it is on or beyond the global one. |
| `BrainRuns.BackWarpDoesNotRetrigger` | crates/server/src/app.rs:1237-1291 | With pairwise disjoint displays, a crossing warps the cursor `back_warp_px` (2 or more) left of the display's right edge, and if the display reaches that far, no later state takes that point for a crossing. |
| `BrainRuns.WideDisplaysDoNotRetrigger` | crates/server/src/app.rs:1237-1291 | Every display wider than `back_warp_px`, or as wide with whole-pixel edges, reaches that far. |
| `BrainRuns.ReturnWarpRetriggersAfterCooldown` | crates/server/src/app.rs:1282-1289 | After a return, whatever the peer's exit height, the next report from where the cursor is parked crosses again if and only if the cooldown has passed and that point is at an edge. |
| `BrainRuns.HomeMoves` | crates/server/src/app.rs:1220-1266 | The home display moves with a report at the right edge of a display, to that display, and with no other input. |
| `BrainRuns.ReturnsWhereItLeft` | crates/server/src/app.rs:1279-1303 | After a crossing at the right edge of a display, whatever happens during the stay, the return warps to the last column of that very display at the height the peer names. |
| `BrainRuns.ActionEffect` | crates/server/src/app.rs:1319-1395 | Every action tracks exactly what it enqueues, both switches let go of every held key, and each other action sends its frame or makes its cursor call and nothing else. |
| `BrainRuns.CursorAcrossSessions` | crates/server/src/app.rs:1361-1362 | Over any number of sessions the cursor has been hidden once more than shown for each that ended in RemoteActive, so it is visible exactly when none did. |
| `Display.DisplayContaining` | crates/server/src/app.rs:1072-1076 | The result contains the point, and there is none exactly when no display does. |
| `Display.FindsTheDisplay` | crates/server/src/app.rs:1039-1046 | With disjoint displays the one containing the point is found, whatever the order of the list. |
| `Display.WideEnough` | crates/server/src/app.rs:1035-1047 | Which displays contain the column some pixels left of their truncated right edge. |
| `Display.RightEdgeInPixels` | crates/server/src/app.rs:1035-1037 | A right edge loses its fraction toward zero and is cut to 32 bits. |
| `Display.ContainsItsPixels` | crates/server/src/app.rs:1039-1046 | A display at whole pixels contains exactly its own columns and rows. |
| `Brain.EdgeBrain.Process` | crates/server/src/app.rs:1230-1303 | One pass of the loop changes state, offered frames, frames in the queue and cursor calls exactly as the brain's step function and the queue's losses say. |
| `Brain.EdgeBrain.Rewrite` | crates/server/src/app.rs:1233-1266 | The coordinate rewriting, including when the home display moves. |
| `Brain.EdgeBrain.Perform` | crates/server/src/app.rs:1277-1302 | The action loop with its warp rewriting. |
| `Brain.EdgeBrain.ExecuteAction` | crates/server/src/app.rs:1319-1395 | Every action's effect on queue, tracker, cursor and swallow flag. |
| `Brain.EdgeBrain.DrainHeldToPeer` | crates/server/src/app.rs:1402-1449 | The drain offers one release per held key in ascending order and leaves none. |
| `Brain.EdgeBrain.Enqueue` | crates/server/src/app.rs:1481-1491 | The frame is offered; it is in the queue unless that was full or closed. |
| `Brain.EdgeBrain.Forward` | crates/server/src/app.rs:1341-1359 | An event is tracked and offered as the peer will see it. |
| `OutQueues.OutQueue.TrySend` | crates/server/src/app.rs:1482-1490 | An offer that meets a full queue leaves it alone. |
| `OutQueues.SurvivorsConcat` | crates/server/src/app.rs:1481-1491 | Which messages get through in two goes is what gets through in one. |
| `Brain.EdgeBrain.EnqueueReleases` | crates/server/src/app.rs:1438-1448 | The drain's loop offers one Up per key in the order given. |
| `Brain.EdgeBrain.constructor` | crates/server/src/app.rs:1207-1225 | The brain's initial state: Mac in control, nothing held, home at the global right edge. |
| `Brain.ExecuteAllAppends` | crates/server/src/app.rs:1277-1302 | Executing actions only appends to what was logged before. |
| `Edge.StateMachine.constructor` | crates/core/src/edge/mod.rs:157-166 | The initial state. |
| `Edge.StateMachine.OnLocalEvent` | crates/core/src/edge/mod.rs:179-229 | State and actions after a local event, cooldown and edge test included. |
| `Edge.StateMachine.OnWireMessage` | crates/core/src/edge/mod.rs:232-266 | State and actions after a frame; only a ReleaseControl in RemoteActive does anything, and no cooldown applies. |
| `Edge.CrossingInNumbers` | crates/core/src/edge/mod.rs:179-206 | In LocalActive a report crosses exactly at or past the right edge once the cooldown has passed; then it announces its height cut to 0 to 65535, warps `back_warp_px` left of the edge, hides and swallows, in this order. |
| `Edge.ReturnInNumbers` | crates/core/src/edge/mod.rs:232-266 | A ReleaseControl in RemoteActive stops swallowing, shows the cursor and warps it one pixel left of the edge at the height named; in LocalActive it does nothing. |
| `Edge.RemembersLastCursor` | crates/core/src/edge/mod.rs:146-189 | The machine remembers the last position reported, at first the middle of the screen. |
| `Edge.StateMachine.HasCooldownElapsed` | crates/core/src/edge/mod.rs:270-275 | The cooldown test with its saturating difference and its zero case. |
| `Injector.InjectorGuard.TrackKeyInHeld` | crates/client/src/net/pump.rs:213-224 | Down inserts, Up removes, anything else leaves the set alone. |
| `Injector.InjectorGuard.Dispatch` | crates/client/src/net/pump.rs:300-390 | The whole effect of one frame on tracker, sink, active flag, queue (full or not) and clipboard (writable or not). |
| `InputPath.FramesReachTheSink` | crates/client/src/net/pump.rs:300-390 | Over any frames: every input frame and every TakeControl makes exactly its call, code by code, in order, and no other frame makes one; each probe that meets room is answered with its timestamp; a TakeControl activates; the tracked keys are the fold of the frames. |
| `InputPath.TextsReachTheClipboard` | crates/client/src/net/pump.rs:401-437 | The texts written are exactly those the receiver completes, and the last of them is what the echo guard knows. |
| `InputPath.UnwritableTextIsDropped` | crates/client/src/net/pump.rs:414-419 | A text that cannot be written changes neither clipboard nor guard. |
| `InputPath.InputReachesTheSink` | crates/server/src/app.rs:1341-1359 | Over any run in RemoteActive, every captured event, in order, becomes exactly its call at the client, and nothing else does. |
| `InputPath.ForwardedBytes` | crates/server/src/app.rs:1319-1359 | The bytes of every forwarded event, button and state codes included; a key other than Option and Command carries the code that was pressed. |
| `InputPath.RemapInNumbers` | crates/core/src/modmap.rs:87-95 | The remap touches the four Option and Command codes, each side for itself, and no other key. |
| `InputPath.MaskInNumbers` | crates/core/src/modmap.rs:104-122 | The remapped modifier byte, bit by bit. |
| `InputPath.EntersAtTheHeight` | crates/core/src/edge/mod.rs:193-196 | A crossing sends TakeControl at the height of the report, cut to 16 bits. |
| `InputPath.TakesOverAtTheHeight` | crates/client/src/net/pump.rs:342-352 | The client puts its cursor at that height, 40 pixels from the left, and is active. |
| `InputPath.ReturnsAtTheHeight` | crates/client/src/platform/windows/cursor_watch.rs:92-113 | A poll at some height says that height, and the server warps its cursor there. |
| `Injector.InjectorGuard.HandleClipboardText` | crates/client/src/net/pump.rs:401-437 | A completed text that can be written is written and remembered; otherwise neither changes. |
| `Injector.InjectorGuard.Drop` | crates/client/src/net/pump.rs:192-208 | The drop releases every held key in ascending order and clears the echo guard. |
| `Injector.InjectorGuard.constructor` | crates/client/src/net/pump.rs:161-168 | A new session starts with nothing held and no payload in progress. |
| `Injector.InjectorGuard.Release` | crates/client/src/net/pump.rs:198-200 | The drop's loop injects one Up per key in the order given. |
| `Injector.InjectorGuard.HandleFrames` | crates/client/src/net/pump.rs:277-291 | The loop without the drop. |
| `Injector.InjectorGuard.InjectorLoop` | crates/client/src/net/pump.rs:262-292 | The loop handles frames up to and including a Bye, then drops the guard. |
| `Injector.SinkMatchesTracker` | crates/client/src/net/pump.rs:300-318 | For every frame sequence, unknown state bytes included, the keys down at the sink are the tracked keys. |
| `Injector.UpCallsRelease` | crates/client/src/net/pump.rs:198-200 | Injecting Up for some keys takes exactly those off the keys that are down. |
| `Injector.DropReleasesEverything` | crates/client/src/net/pump.rs:192-208 | Wherever a session ends, the drop emits one Up for exactly the keys that are down, ascending, and afterwards no key's last injected event is a Down. |
| `CursorWatch.Poll` | crates/client/src/platform/windows/cursor_watch.rs:77-129 | One poll: an active client at the left edge sends ReleaseControl, becomes inactive and parks the cursor, even if the queue was full; a closed queue ends the watcher, a failed cursor query does nothing. |
| `CursorWatch.WatchInNumbers` | crates/client/src/platform/windows/cursor_watch.rs:77-113 | Only an active client at x = 0 or left of it gives control back; it says its height, cut to 0 to 65535, unless the queue is full, and nothing changes if the queue is closed. |
| `StuckKeys.HeldKeys.Insert` | crates/core/src/stuck_keys.rs:35-37 | The set gains the key. |
| `StuckKeys.HeldKeys.Remove` | crates/core/src/stuck_keys.rs:39-41 | The set loses the key. |
| `StuckKeys.HeldKeys.Observe` | crates/core/src/stuck_keys.rs:57-62 | Down inserts, Up removes. |
| `StuckKeys.HeldKeys.Drain` | crates/core/src/stuck_keys.rs:82-85 | Every key once, strictly ascending, and none is left. |
| `StuckKeys.HeldKeys.IsEmpty` | crates/core/src/stuck_keys.rs:51-53 | True exactly when nothing is held. |
| `StuckKeys.AscendingUnique` | crates/core/src/stuck_keys.rs:64-85 | A set has one strictly ascending enumeration, so the drain order is determined by the set. |
| `Wire.FoldMeaning` | crates/client/src/net/pump.rs:210-224 | A key is tracked after a stream exactly when its last Down or Up in it is a Down, or it has none and was tracked before. |
| `Platform.KeysDownMeaning` | crates/core/src/platform.rs:138 | A key is down at a sink exactly when the last call naming it pressed it. |
| `Codec.LeInverse` | crates/core/src/wire/codec.rs:443-463 | Reading little-endian bytes back gives the number. |
| `Codec.FromLeInverse` | crates/core/src/wire/codec.rs:443-463 | Writing a read number back gives the bytes. |
| `WireLayout.KeyFrame` | crates/core/src/wire/codec.rs:85-100 | The seven bytes of every KeyEvent frame. |
| `WireLayout.MouseFrames` | crates/core/src/wire/codec.rs:55-84 | The bytes of every mouse frame; signed fields modulo 2^16. |
| `WireLayout.ControlFrames` | crates/core/src/wire/mod.rs:1-64 | The bytes of every TakeControl, ReleaseControl and Bye frame. |
| `WireLayout.HeartbeatFrame` | crates/core/src/wire/codec.rs:132-140 | The bytes of every Heartbeat frame. |
| `WireLayout.EchoFrames` | crates/core/src/wire/codec.rs:150-167 | The bytes of every latency-probe frame. |
| `WireLayout.HelloFrames` | crates/core/src/wire/codec.rs:22-54 | The bytes of every handshake frame. |
| `WireLayout.ClipboardFrame` | crates/core/src/wire/codec.rs:101-113 | The bytes of every ClipboardText frame. |
| `WireLayout.ElementFrames` | crates/core/src/wire/codec.rs:168-189 | The bytes of every SPAKE2 element frame. |
| `WireLayout.CertFrame` | crates/core/src/wire/codec.rs:190-203 | The bytes of every certificate frame. |
| `WireLayout.VerdictFrames` | crates/core/src/wire/codec.rs:204-220 | The bytes of PairAccepted and of every PairRejected. |
| `Codec.DecodeFrame` | crates/core/src/wire/codec.rs:233-252 | A decoded frame has consumed something. |
| `CodecProofs.DecodesOwnPayload` | crates/core/src/wire/codec.rs:255-404 | For all 18 variants, an encoded payload followed by anything decodes to its message. |
| `CodecProofs.DecodedIsCanonical` | crates/core/src/wire/codec.rs:255-404 | Whatever decodes begins with the encoding of the message it decodes to, and has its type byte. |
| `CodecProofs.DecodeIff` | crates/core/src/wire/codec.rs:255-404 | A payload decodes to a message if and only if the type byte is the message's and the payload starts with its encoding. |
| `Refusals.RefusedIff` | crates/core/src/wire/codec.rs:255-404 | For all 256 type bytes, which payloads are refused, and for which reason. |
| `Refusals.FrameRefusedIff` | crates/core/src/wire/codec.rs:233-252 | A buffer is refused exactly when its first frame is there in full and its payload is refused, and asks for more exactly when that frame is not there in full. |
| `Refusals.TooLongIff` | crates/core/src/wire/codec.rs:407-423 | Which messages fit a frame, by the length of their variable part, and the error for the others. |
| `Utf8.ValidIff` | crates/core/src/wire/codec.rs:260-264 | The accepted strings are exactly the encodings of sequences of Unicode scalar values. |
| `Framing.DecodesOwnFrame` | crates/core/src/wire/codec.rs:233-252 | A frame decodes to its message and leaves any suffix intact. |
| `Framing.FrameIff` | crates/core/src/wire/codec.rs:233-252 | The accepted frames, exactly, and what is left over. |
| `Framing.DecodeStable` | crates/core/src/wire/codec.rs:225-232 | More bytes behind a decided frame change neither the message nor the refusal. |
| `Framing.CutFrame` | crates/core/src/wire/codec.rs:229-230 | Every proper prefix of a frame asks for more bytes. |
| `Framing.FragmentationIndependence` | crates/server/src/net/connection.rs:100-110 | Any bytes, well-formed or not, arriving in any pieces behind any buffered ones, give the messages, residue and error of decoding the whole at once. |
| `Framing.StreamThenTail` | crates/core/src/wire/codec.rs:20-252 | Whole frames followed by anything decode to their messages, then whatever the rest decodes to. |
| `Framing.TornStream` | crates/server/src/net/connection.rs:93-110 | A stream torn after any number of bytes yields exactly the messages wholly through, and no error. |
| `Framing.ArrivesWhole` | crates/server/src/net/connection.rs:100-110 | Whole frames in any pieces come out whole and in order with nothing left over. |
| `Framing.ArrivesTorn` | crates/server/src/net/connection.rs:93-110 | The same for a connection lost after any number of bytes: a prefix, and no error. |
| `Framing.StreamInjective` | crates/core/src/wire/codec.rs:20-223 | Messages that fit and produce the same bytes are the same messages. |
| `FrameCodec.EncodeFrame` | crates/core/src/wire/codec.rs:20-223 | Encoding appends one frame, or leaves the buffer alone with the saturated length in the error, and that exactly when the payload exceeds 65535 bytes. |
| `FrameCodec.EncodeText` | crates/core/src/wire/codec.rs:22-113 | The same for Hello and ClipboardText. |
| `FrameCodec.EncodeBlob` | crates/core/src/wire/codec.rs:168-203 | The same for the SPAKE2 elements and the certificate exchange. |
| `FrameCodec.EncodeInput` | crates/core/src/wire/codec.rs:55-100 | Mouse and key events always fit. |
| `FrameCodec.EncodeControl` | crates/core/src/wire/codec.rs:114-220 | The remaining fixed-size messages always fit. |
| `FrameCodec.CheckPayloadLen` | crates/core/src/wire/codec.rs:407-423 | The length check and its error. |
| `FrameCodec.PayloadReader.ReadBytes` | crates/core/src/wire/codec.rs:465-470 | A read moves past what it read; one that fails moves nothing. |
| `FrameCodec.PayloadReader.ReadU8` | crates/core/src/wire/codec.rs:437-441 | The same for one byte. |
| `FrameCodec.PayloadReader.ReadU16Le` | crates/core/src/wire/codec.rs:443-446 | The same for a 16-bit number. |
| `FrameCodec.PayloadReader.ReadI16Le` | crates/core/src/wire/codec.rs:448-451 | The same for a signed 16-bit number. |
| `FrameCodec.PayloadReader.ReadU32Le` | crates/core/src/wire/codec.rs:453-456 | The same for a 32-bit number. |
| `FrameCodec.PayloadReader.ReadU64Le` | crates/core/src/wire/codec.rs:458-463 | The same for a 64-bit number. |
| `FrameCodec.DecodePayloadBytes` | crates/core/src/wire/codec.rs:255-404 | The cursor-driven decoder computes the payload's meaning, errors included. |
| `FrameCodec.DecodeFrameFrom` | crates/core/src/wire/codec.rs:233-252 | The buffer moves past a frame exactly when one was decoded, and is untouched otherwise. |
| `Connection.ReadFrame` | crates/server/src/net/connection.rs:100-110 | The read loop's message or error depends only on the unread bytes, buffered and on the way, and on whether the stream then ends or fails; it consumes exactly one frame or nothing. |
| `Connection.Connection.ReadNext` | crates/client/src/net/connection.rs:60-70 | The same for a connection during the handshake. |
| `Connection.Connection.WriteFrame` | crates/server/src/net/connection.rs:86-91 | Exactly one frame goes out, or nothing of a message that does not fit, or as much as the socket takes before it breaks. |
| `Connection.Connection.IntoSplit` | crates/server/src/net/connection.rs:129-140 | The reader's unread bytes are the connection's: none lost, none read twice. |
| `Connection.FrameReader.ReadNext` | crates/server/src/net/connection.rs:151-161 | The read loop of the read half. |
| `Connection.FrameReader.ReadAll` | crates/server/src/app.rs:876-955 | Reading to a Bye or to the end hands on exactly what the stream decodes to, up to the Bye, and stops for the reason its decoding stops. |
| `Connection.FrameWriter.WriteFrame` | crates/server/src/net/connection.rs:173-178 | The same, whatever was left in the scratch buffer. |
| `Connection.EncoderLoop` | crates/server/src/net/pump.rs:29-40 | Queued messages leave in order up to the first that does not fit or that the socket does not take whole; of that one at most a part is out. |
| `Connection.WriterMeetsReader` | crates/server/src/net/connection.rs:93-110 | Whatever a writer got out before it stopped, in whatever pieces it arrives, the reader gets exactly the messages sent whole, and no error. |
| `Clipboard.Split` | crates/core/src/clipboard.rs:61-86 | The loop produces the payload's consecutive 4096-byte slices, flagged FIRST and LAST. |
| `Clipboard.Reassembler.IngestFrame` | crates/core/src/clipboard.rs:122-160 | The reassembler's new state and result. |
| `Clipboard.EchoGuard.IsEchoOfRemote` | crates/core/src/clipboard.rs:219-225 | True exactly for a text with the remembered hash. |
| `Clipboard.EchoGuard.RememberRemoteWrite` | crates/core/src/clipboard.rs:212-214 | The last remote text's hash is remembered. |
| `Clipboard.EchoGuard.Clear` | crates/core/src/clipboard.rs:229-231 | Nothing is remembered. |
| `ClipboardTasks.ClipboardOut.HandleChange` | crates/server/src/app.rs:1592-1626 | An echo is suppressed; otherwise the frames before the first that meets a queue without room go in; a full queue ends the payload, a closed one the task. |
| `ClipboardTasks.ClipboardOut.Offer` | crates/server/src/app.rs:1610-1626 | The inner loop: the frames in order, as many as there is room for. |
| `ClipboardTasks.ClipboardOut.HandleEvents` | crates/server/src/app.rs:1585-1657 | With the inbound task setting the guard in between, the queue holds the frames of exactly the changes that were no echo when their turn came, each whole or cut to a prefix. |
| `ClipboardTasks.ForwardsExactly` | crates/server/src/app.rs:1592-1626 | In terms of the events alone: exactly the changes whose text has another hash than the latest text written before them are sent, in order, each with as many frames as there is room for, up to the first that meets a closed queue. |
| `ClipboardTasks.ClipboardIn.HandleFrames` | crates/server/src/app.rs:1643-1668 | The inbound loop delivers what the receiver function says, and the guard knows the last text written. |
| `ClipboardDelivery.PiecesJoin` | crates/core/src/clipboard.rs:61-86 | The chunks joined are the payload, none exceeds 4096 bytes, and none is empty unless the payload is. |
| `ClipboardDelivery.NoiseIsIgnored` | crates/core/src/clipboard.rs:122-130 | Other frames in between change nothing. |
| `ClipboardDelivery.HoldsTheOpenPayload` | crates/core/src/clipboard.rs:122-160 | After any clipboard frames whatever, the buffer is exactly the bytes since the latest FIRST as long as no LAST came since, and is empty otherwise. |
| `ClipboardDelivery.DeliversIff` | crates/core/src/clipboard.rs:122-160 | For any clipboard frames whatever, the last one delivers a text if and only if it completes a payload whose bytes are that text. |
| `ClipboardDelivery.RefusesIff` | crates/core/src/clipboard.rs:128-157 | A frame is refused for a missing FIRST exactly when it has none and no payload is open, and for its encoding exactly when it completes a payload that is not UTF-8. |
| `ClipboardDelivery.FlagsAreBits` | crates/core/src/clipboard.rs:122-147 | FIRST and LAST are bits 1 and 2 of the flags, whatever the others are. |
| `ClipboardDelivery.FramesInNumbers` | crates/core/src/clipboard.rs:61-86 | The frames of any payload: slices of 4096 bytes, flagged 1 first, 2 last, 3 when alone. |
| `ClipboardDelivery.FeedPrefix` | crates/core/src/clipboard.rs:122-160 | What the receiver has after any number of a payload's chunks, whatever was in progress. |
| `ClipboardDelivery.WholeTextsArrive` | crates/server/src/app.rs:1603-1626 | Any texts, each whole or cut short, interleaved with any frames, come out as exactly the whole texts in order, without an error. |
| `ClipboardDelivery.ArrivesIffNothingDropped` | crates/server/src/app.rs:925-934 | When the inbound queue drops single chunks, whatever the receiver was in the middle of, the text arrives if and only if none was dropped, or its missing first chunk was made up for by the rest of an earlier payload. |
| `ClipboardDelivery.AnotherTextIff` | crates/server/src/app.rs:925-934 | Whatever chunks are dropped and whatever the receiver was in the middle of, a text other than the one sent is delivered if and only if a payload was begun, its last chunk came, and the bytes piled up by then are UTF-8 and not that text. |
| `ClipboardDelivery.MiddleDropDeliversAnotherText` | crates/server/src/app.rs:925-934 | A drop between first and last chunk delivers a shorter text nobody sent, without an error, whenever the rest is UTF-8. |
| `ClipboardDelivery.MiddleDropExample` | crates/server/src/app.rs:925-934 | Of 12288 letters the middle 4096 are lost and 8192 are delivered. |
| `ClipboardWire.TextsCrossTheWire` | crates/core/src/clipboard.rs:61-160 | Chunking, framing, any fragmentation, decoding and reassembly together deliver exactly the whole texts; no byte is left, no frame refused. |
| `ClipboardWire.LostConnectionDeliversAPrefix` | crates/server/src/net/connection.rs:93-110 | A connection lost at any byte delivers a prefix of the whole texts, without an error. |
| `ClipboardWire.FramesFit` | crates/core/src/clipboard.rs:28 | Every chunk fits a frame. |
| `Echo.MacClipboard.ReadCount` | crates/server/src/platform/macos/clipboard.rs:180-182 | The first half of a poll: the change count is read. |
| `Echo.MacClipboard.ReadText` | crates/server/src/platform/macos/clipboard.rs:183-205 | The second half: the text as it is by then is reported once if the count had moved, or nothing when there is no text. |
| `Echo.MacClipboard.CheckOne` | crates/server/src/app.rs:1585-1602 | One report is forwarded unless it is an echo. |
| `Echo.MacClipboard.Remember` | crates/server/src/app.rs:1651 | The first half of receiving a text on the Mac. |
| `Echo.MacClipboard.Write` | crates/server/src/app.rs:1656 | The second half. |
| `Echo.WindowsClipboard.OnClipboardUpdate` | crates/client/src/platform/windows/clipboard.rs:217-240 | Each update message reports the clipboard as it is by then. |
| `Echo.WindowsClipboard.CheckOne` | crates/client/src/net/pump.rs:96-109 | One report is forwarded unless it is an echo. |
| `Echo.WindowsClipboard.Write` | crates/client/src/net/pump.rs:414-419 | The first half of receiving a text on Windows. |
| `Echo.WindowsClipboard.Remember` | crates/client/src/net/pump.rs:420-424 | The second half. |
| `EchoLedger.CopySentOnceIff` | crates/server/src/platform/macos/clipboard.rs:180-205 | Under every continuation at its machine, any received texts included, a copy adds at most one to the payloads of own texts the machine could still send, if and only if no report of an earlier change will show it, or those reports were of an own text already; for any hash that tells some two texts apart. |
| `EchoLedger.OnceByOwnLoopsIff` | crates/client/src/net/pump.rs:96-109 | As long as nothing is received, a copy adds at most one to the payloads the machine's two loops would have sent, if and only if it is an echo itself, or no report of an earlier change will show it, or those reports would have caused payloads anyway. |
| `EchoLedger.EveryPayloadHasASource` | crates/server/src/app.rs:1585-1657 | In every run of any pair of machines: payloads sent, and own texts that could still be sent, are at most the texts users copied, plus the further reports of those copies, plus texts bounced back. |
| `Echo.RecognisedIff` | crates/core/src/clipboard.rs:209-225 | The guard recognises everything a peer's text caused that is still to be checked, if and only if nothing the machine's own two loops can do next sends a peer's text back. |
| `Echo.PromptIff` | crates/core/src/clipboard.rs:209-225 | Remembering a text is prompt if and only if after it nothing the machine's own two loops can do sends a peer's text back. |
| `Echo.PromptStep` | crates/client/src/net/pump.rs:414-424 | A prompt move bounces nothing and keeps the guards good; a check between Windows' write and its remembering that is not prompt bounces a text. |
| `EchoLedger.SendsAtMostCopies` | crates/client/src/net/pump.rs:96-109 | Between a Mac and a Windows machine, or any other pair: when every move is prompt, nothing bounces and never more payloads are sent than texts copied by the users and reported again, under any interleaving and for any hash function. |
| `EchoLedger.Quiesces` | crates/client/src/net/pump.rs:96-128 | Once the users stop, an explicit measure bounds the remaining prompt steps, and when none is left nothing is pending. |
| `EchoLedger.AtomicActsNeverPingPong` | crates/server/src/platform/macos/clipboard.rs:160-206 | When each machine checks a change as soon as it reports it and takes a text in without interruption, under every interleaving and without a condition: nothing bounces, two Macs never send more payloads than their users copied texts, other pairs no more than copies and further reports, and the machines come to rest. |
| `EchoLedger.AtMostCopiedIffMacs` | crates/client/src/platform/windows/clipboard.rs:217-240 | Then never more payloads are sent than texts copied, whatever the acts, if and only if both machines poll. |
| `PingPong.WindowsBounces` | crates/client/src/net/pump.rs:414-424 | A report checked between Windows' write and its remembering: two payloads for one copy. |
| `PingPong.CopyReportedTwice` | crates/server/src/platform/macos/clipboard.rs:180-205 | On either platform a user's copy right behind a received text can be sent twice: three payloads for two copies, and nothing bounced. |
| `PingPong.EchoSentTwice` | crates/core/src/clipboard.rs:209-225 | An echo copied behind the received text, and a further text that comes in before the checks: four payloads for three copies, and nothing bounced. |
| `PingPong.OvertakingSendsBack` | crates/core/src/clipboard.rs:209-225 | A received text that overtakes an unchecked report makes either machine send the older text back. |
| `PingPong.PingPongForever` | crates/client/src/net/pump.rs:79-82 | Then three texts circulate for any number of rounds without a user, between any two machines. |
| `PingPong.LoopIsReachable` | crates/client/src/net/pump.rs:79-82 | Three user copies are enough to get there from rest, for any three distinct hashes. |
| `Pairing.RunServerPairingFlow` | crates/server/src/net/pairing.rs:86-191 | Verdict, pin, frames sent and frames left unread, for every inbound sequence and ending, on any disk and on a socket that breaks at any frame. |
| `Pairing.RunClientPairingFlow` | crates/client/src/net/pairing.rs:141-247 | The same for the client. |
| `Pairing.CheckCert` | crates/server/src/net/pairing.rs:142-176 | Verifying the tag, storing the pin and accepting. |
| `Pairing.ExchangeCerts` | crates/client/src/net/pairing.rs:188-246 | From the derived key on, both flows do the same. |
| `Pairing.AwaitPeer` | crates/server/src/net/pairing.rs:141-190 | Everything after our certificate went out. |
| `Pairing.Link.SendReject` | crates/server/src/net/pairing.rs:209-218 | One PairRejected goes out if the socket still takes it. |
| `Pairing.PinStore.Store` | crates/core/src/tls/pin.rs:59-69 | The pin on disk changes if and only if the store succeeds. |
| `Pairing.ReadAck` | crates/server/src/net/pairing.rs:177-190 | Waiting for the peer's acceptance. |
| `PairingLanguage.Ending` | crates/server/src/net/pairing.rs:100-191 | How every flow ends: by the last frame after the peer verified, or given up before with the pin untouched. |
| `PairingLanguage.AcceptedLanguage` | crates/server/src/net/pairing.rs:107-190 | Either flow succeeds if and only if it read the peer's element, the peer's verified certificate and PairAccepted, and its own three frames went out; it then sent no others and read no more. |
| `PairingLanguage.PinIffVerified` | crates/client/src/net/pairing.rs:198-229 | The pin changes exactly when the certificate's tag is its HMAC under the derived key, and then to that certificate's hash. |
| `PairingLanguage.HalfPairedIff` | crates/server/src/net/pairing.rs:166-190 | A flow fails with a pin on disk exactly when the certificate verified and the two acceptances were not both exchanged. |
| `PairingLanguage.HalfPaired` | crates/server/src/net/pairing.rs:166-190 | An input for which it does. |
| `PairingLanguage.RefusalIff` | crates/server/src/net/pairing.rs:112-190 | Which refusal goes out, exactly, in terms of what the flow starts from and the frames it reads: for an element no key comes of, a certificate with a wrong tag, or a first or second frame out of place. |
| `PairingLanguage.SilentFailures` | crates/server/src/net/pairing.rs:166-190 | Two failures the peer is not told of: an unwritable pin file, and any third frame that is neither acceptance nor rejection. |
| `PairingVerdicts.VerdictIs` | crates/client/src/net/pairing.rs:141-247 | Every conversation of either flow ends in the error of the first thing that goes wrong, with no frame behind it read, and in success when nothing does. |
| `PairingVerdicts.SentIs` | crates/server/src/net/pairing.rs:86-218 | Everything either flow sends in any conversation on any socket: element, certificate, acceptance and at most one refusal, with code 1, 2 or 5. |
| `PairingLockstep.Progress` | crates/client/src/net/pairing.rs:141-247 | Whatever codes, keys, certificates, disks or sockets, no reachable state is a deadlock and every move uses up work. |
| `PairingLockstep.ExchangeEnds` | crates/server/src/net/pairing.rs:86-191 | Every exchange ends within eight moves, with both flows returned. |
| `PairingLockstep.Lockstep` | crates/server/src/net/pairing.rs:107-190 | Under every interleaving, verdicts and pins of two ready sides depend only on which tags verify; no frame is unexpected. |
| `PairingLockstep.SameKeyPairs` | crates/client/src/net/pairing.rs:157-246 | With the same key both succeed, each with the hash of the other's certificate. |
| `PairingLockstep.WrongCodeFails` | crates/core/src/pairing/mod.rs:142-158 | With tags that disagree both fail and neither stores a pin. |
| `Tap.TapState.TranslateFlagsChanged` | crates/server/src/platform/macos/tap.rs:595-634 | The toggled bitmap and the event it reports. |
| `Tap.ToggleOne` | crates/server/src/platform/macos/tap.rs:595-634 | Toggling one key's bit moves that bit and no other. |
| `Tap.ReportedAs` | crates/server/src/platform/macos/tap.rs:643-656 | Which nine key codes are tracked, and the HID usage each is reported as. |
| `Tap.BitmapIsParity` | crates/server/src/platform/macos/tap.rs:595-656 | The bitmap is exactly the keys seen an odd number of times, with no bit beyond the nine. |
| `Tap.EventsAlternate` | crates/server/src/platform/macos/tap.rs:595-634 | Each modifier's events alternate strictly, starting with Down, one per report. |
| `Tap.TrackerFollowsBitmap` | crates/core/src/stuck_keys.rs:57-62 | Tracking the reported events gives the HID image of the bitmap. |
| `ModMap.ApplyToModmask` | crates/core/src/modmap.rs:104-122 | The accumulation over the set bits. |
| `ModMap.RemapIsHomomorphic` | crates/core/src/modmap.rs:87-122 | For every set of held keys, the mask of the remapped keys is the remapped mask of the keys. |
| `ModMap.InjectiveIff` | crates/core/src/modmap.rs:87-95 | Exactly which remaps never fold two keys into one; the shipped one does. |
| `Convert.TwoStageRemapAgrees` | crates/core/src/wire/convert.rs:73-118 | Converting first and remapping the message afterwards, as the server does, is the one-stage conversion on every event. |
| `Convert.ApplyKeyToSink` | crates/core/src/wire/convert.rs:131-150 | The sink calls of a key frame; an unknown state byte causes none. |
| `Convert.ApplyMouseToSink` | crates/core/src/wire/convert.rs:163-190 | The sink calls of a mouse frame; unknown bytes cause none. |
| `Convert.EventReachesSink` | crates/core/src/wire/convert.rs:21-190 | A captured event and the call it causes at the other end agree in every field, up to reserved modifier bits. |
| `Convert.WireMaskRoundTrip` | crates/core/src/platform.rs:74-88 | A mask survives the wire up to its reserved bits. |

## Left out

- CursorWatch.Poll: one poll without interruption; an injector that sets the active flag between its send and its reset is part of `Handoff` (`WatcherTick`, `WatcherClears`).
- Handoff.OneOwner: the cursor calls and the swallow flag at the end of one brain turn are one step.
- Echo.MacClipboard.Write: clearing the pasteboard and setting the text are one step; a poll between the two sees no text, which loses a report and adds none.
- BrainRuns.DecoupledInRemote: hiding and showing the cursor are taken to succeed.
- Injector.InjectorGuard.Dispatch: status publication to the tray is not modelled.
- Brain.EdgeBrain.Rewrite: display coordinates are real numbers, so the rounding of floating-point sums is not modelled; differences of coordinates do not overflow 32 bits.
- Echo.WindowsClipboard.Write: a text that cannot be written is not taken in here (`Injector` models the failure), and lossy UTF-16 conversion is not modelled.
- Connection.FrameReader.ReadAll: where the server's reader routes each frame is part of `Handoff.Next`.
- Mouse buttons: the program does not track or drain them, so a button held during a crossing is not covered by any stuck-key result.
- Events dropped by a full brain queue: a dropped local event is an event that does not occur, a dropped ReleaseControl is modelled.
- The Hello and HelloAck handshake, heartbeats, the silence deadline, reconnecting, latency probes: timers and one-shot checks.
- `read_raw`, `write_raw` and `move_cursor_norm`: not used by the flows modelled.
- The HID tables beyond the nine modifier keys the tap tracks: finite tables.
- UTF-8 decoding: a string is its bytes under the grammar of section 4 of RFC 3629.
- Sockets, TLS, mDNS, window-system calls, menus, configuration and logging.
- Poisoned locks and cancellation inside a step.
