# Grove client core: a verified model

Grove is a deterministic multiplayer engine. A client predicts the player's own entities ahead of the server, takes the
prediction back whenever authoritative state arrives, and replays the unacknowledged input over it. This project models
that layer and the data structures under it in Dafny 4.11 and proves what they are for. `dafny verify dfyconfig.toml`
checks everything.

| file | what it models |
|---|---|
| `ActionStates.dfy`, `InputRing.dfy`, `Coalescing.dfy` | the input fold both endpoints share, the unacknowledged ring with its horizon, and how a flush frames its edges |
| `Prediction.dfy`, `Carrying.dfy`, `Session.dfy` | rewind, capture and replay, incremental stepping against resimulation, and the joined session that drives them over whole runs |
| `Clock.dfy` | the tick accumulator and the two-level controller of the input lead |
| `Mirror.dfy`, `Chunks.dfy` | identity maps with deferred unmapping, the two-channel join by tick, snapshot reassembly |
| `Forest.dfy`, `Hierarchy.dfy`, `RenderBridge.dfy`, `Corrections.dfy`, `Flatten.dfy` | the render bridge's maps beside the renderer's scene, display corrections, and the group flattener |
| `Envelopes.dfy`, `Reconcile.dfy`, `Deliveries.dfy`, `Placing.dfy`, `Journals.dfy` | from an envelope's structural ops through the mirrored world to what the bridge is told and draws, over whole runs of envelopes; template groups; and the same journal as the index reads it |
| `SlotTable.dfy`, `SlotReuse.dfy` | generational handles and the slot allocator with capture and restore, and the order in which slots are reused |
| `Templates.dfy` | the template graph check |
| `Random.dfy` | the seeded generator on 32-bit words |
| `Limiter.dfy` | the fixed-window request limiter |
| `Shared.dfy`, `Wrappers.dfy` | limits and types the others share |

Objects the code updates in place are classes whose methods are proved against functions of their abstract value, and say
their effect outright beside that; the theorems are lemmas over those functions, for every input and every run.

## What is abstract

* What one tick of a game does, what an envelope does to the mirrored world and which entities a player owns are
  parameters of every prediction theorem (`Predictions.Simulation`). Two promises are asked of them: a scoped tick writes
  only scoped entities and the hosts prediction captures, and mints or drops none (`Framed`); an envelope keeps the
  world's tick and the depicted tick equal (`TicksFollow`). `PromisesCanBeKept` shows the promises are consistent.
  Handlers run outside the tick loop are taken to write no simulated state.
* `ActionStates` is a held set, the non-neutral axis values, and one-tick-wide pressed and released sets, folded as
  `packages/core/src/runtime/action-states.ts` folds them.
* The renderer is its nodes ever minted, the nodes alive and their parents; its verdict on an attach, and the nodes it
  mints, arrive as arguments of the bridge's methods, tied to that scene by their `requires`.
* Times, round trips, batches of envelopes and raw input are arguments. A time that is not finite is `None`.
* Seconds, leads and positions are exact reals: rounding is not modelled.
* Iteration order over sets and maps is left open, so each loop over one is proved for every order.

## Where the code does not do what is expected of it

Each of these is stated as a lemma, with the exact condition or bound, and a concrete case where that helps.

* Re-asserting the horizon turns an action held at a neutral axis into axis 1, because neutral axes are filtered and the
  press is bare. The replay then disagrees with the authority until that action is written again (`ReplayAgreesIff`,
  `HeldNeutralDiverges`).
* Coalescing keeps the first position, so press, release, press within one flush reaches the wire as press, release. The
  wire keeps what is held if and only if the batch does not return to the phase it began with (`CoalescingKeepsHeldIff`);
  `CoalescingKeepsAxisIff` says when it keeps the axis.
* A focus-loss flush may be stamped on a tick already stepped; the carried world then lacks what a resimulation has. And
  a resimulation past 48 ticks skips the oldest, which frames of a few ticks each have long stepped. Carrying and
  resimulating agree in every game if and only if carrying has stepped at most 48 ticks since the baseline, no edge comes
  so late and no flush moves the seed (`CarryMatchesIff`, with `LateFlushDiverges` as the instance).
* The deferred unmap drops the pairing of a netId that one envelope destroys and spawns again (`DeferralAgreesIff`).
* A correction of distance zero is skipped without clearing an outstanding offset, so the drawn entity moves by that
  offset (`DrawnUnmovedIff`, `ZeroDistanceJumps`).
* Reparenting a linked entity under something without a node, or under its own subtree, unlinks it in the bridge and not
  in the renderer; over whole runs bridge and scene stay the same forest if and only if that never happens
  (`ReparentKeepsIff`, `RunKeepsForest`). The wire can ask for it when a netId is still mapped to something dead:
  `attachTo` then declines without a word, and the mirror reports the reparent regardless (`LoneReparentIff`). A destroy
  unmaps only the netId it names, and leaves its descendants' mapped to the dead (`DestroyLeavesNames`). A server that
  sends its whole journal names every descendant too; one that a send's budget cut in between, a leave-interest for the
  parent alone, or another peer, does not. Three such envelopes lead to a loop in the bridge's parents (`WireLoops`),
  inside which the worklist of a destroy never empties (`LoopNeverDrains`).
* The bridge creates newborns under the parents they end with and then replays every move from the start, so a move the
  world took can be refused by the bridge, which ends the session. With `a` below `b`, an envelope that spawns `x`, puts
  `b` under `x`, `a` at the root and `x` under `a` does it, in every session (`NewbornRefused`). For envelopes that move
  only the living, under the living, and destroy by name what they spawned and killed, the session survives with screen
  and world together if and only if no move is refused in the replay (`EnvelopeFollowsIff`, over whole runs
  `RunStaysFaithful`). None is refused when each newborn is placed before anything hangs from it (`PlacedIsSmooth`), as
  in every template group (`GroupIsPlaced`, `GroupIsDrawn`).
* Because the bridge replays moves before removals, an envelope that destroys a parent and then reparents a child to it
  takes a living child off the screen (`DyingParentTakesChild`). Such an envelope is harmless if and only if the child is
  dead already, or dies with the parent, or hung nowhere and the parent was long dead (`DestroyThenHangIff`).
* A lead correction cannot overshoot the half-tick band up to a simulation rate of 489.6 ticks per second, and does above
  it (`FrameNeverOvershoots`, `OvershootsAbove`).
* The limiter admits at most twice its quota less one in any span of one window (`SpanQuota`). A caller told to retry
  after n seconds need not be admitted then: a retry of its own past the old window's end opens a new one, and can use it
  up (`EarlyRetryRefused`, with the exact condition in `RetryAdmittedIff`).

## Model

| member | source | states |
|---|---|---|
| `ActionStates.AssertHeld` | packages/client/src/ring.ts:16-22 | the two loops leave every held action held, with its axis, or 1 when the axis was neutral, whatever order the sets are walked in, and no one-tick edge |
| `ActionStates.ReassertCopiesIff` | packages/client/src/ring.ts:11-22 | re-asserting into a fresh state copies held actions and axes if and only if no held action has a neutral axis, and says which axis comes back as what otherwise |
| `ActionStates.TickReads` | packages/core/src/runtime/action-states.ts:42-70 | a tick sees an action pressed or released if and only if one of that tick's own edges says so |
| `ActionStates.AxisByLast` | packages/core/src/runtime/action-states.ts:42-62 | the last edge that writes an axis decides it, a bare press at 1 and a bare release at 0 |
| `ActionStates.PersistentFold` | packages/core/src/runtime/action-states.ts:31-76 | held actions and axes after any edges do not depend on the one-tick-wide sets |
| `ActionStates.DifferenceFold` | packages/core/src/runtime/action-states.ts:31-76 | two states that agree on what is held differ, after any edges, on exactly the old axis differences no edge wrote |
| `InputRings.LeadingIsThrough` | packages/client/src/prediction.ts:203-216 | in send order, breaking at the first later frame visits every frame stamped at or before the depicted tick |
| `InputRings.FoldNextTick` | packages/client/src/passes.ts:54-62 | folding a tick's merged frames in one pass persists what folding them one by one in send order does |
| `InputRings.RunTicksIsFold` | packages/client/src/passes.ts:54-62 | folding tick by tick persists the fold of every frame stamped by then, in send order |
| `InputRings.ReplayAgreesIff` | packages/client/src/prediction.ts:203-230 | for any split of the sent frames into folded and retained, with the folded ones stamped by the tick asked about, replay and authority hold the same actions, and have the same axes if and only if each action held at neutral on the horizon was written since |
| `InputRings.ReplayIsAuthority` | packages/client/src/prediction.ts:203-230 | with nothing held at neutral on the horizon, the replay's whole state at each later tick is the authority's, one-tick edges included |
| `InputRings.HeldNeutralDiverges` | packages/client/src/ring.ts:16-22 | one frame after which the replay reads axis 1 and the authority 0 |
| `InputRings.InputRing.constructor` | packages/client/src/ring.ts:24-29 | starts with nothing sent and a neutral horizon |
| `InputRings.InputRing.Push` | packages/client/src/ring.ts:30-38 | the frame joins the sent history; at capacity the oldest is folded into the horizon and counted, so horizon and entries together are still every frame sent |
| `InputRings.InputRing.Ack` | packages/client/src/ring.ts:41-51 | prunes a leading run at or below the ack, returns its first entry, loses no frame from the history, and stops at the first newer entry |
| `InputRings.InputRing.FoldHead` | packages/client/src/ring.ts:100-107 | one entry moves from the ring to the horizon, which stays the fold of what was pruned |
| `InputRings.InputRing.Reset` | packages/client/src/ring.ts:93-98 | empties the ring and rebuilds the horizon from the live state when there is one |
| `InputRings.AckExact` | packages/client/src/ring.ts:41-51 | in send order the pruned entries are exactly the acknowledged ones |
| `InputRings.OverflowIsPast` | packages/client/src/ring.ts:30-38 | with one frame per tick and a clock no further ahead than a ring's length, the frame a full ring gives up on is already depicted; `Send` uses it to keep the horizon depicted |
| `Coalescing.Coalesce` | packages/client/src/client.ts:731-738 | the frame holds each key of the batch once, in the order the keys first occurred, each with the last edge put under it |
| `Coalescing.CoalescedIsFramed` | packages/client/src/client.ts:731-738 | the same of the insertion-ordered table, for every batch: distinct keys, the batch's keys and no others, by first occurrence, newest value |
| `Coalescing.DistinctUnchanged` | packages/client/src/client.ts:731-738 | a batch without a repeated phase goes out as it was played |
| `Coalescing.CoalescedButtons` | packages/client/src/client.ts:731-738 | an action's presses and releases reach the wire in the order of their first occurrences |
| `Coalescing.CoalescingKeepsHeldIff` | packages/client/src/client.ts:731-741 | the wire leaves an action held as the player did if and only if the batch does not return to the phase it began with |
| `Coalescing.CoalescingKeepsAxisIff` | packages/client/src/client.ts:731-741 | the wire leaves an action's axis as the player did if and only if the last edge of the phase that came in last carries what the last write carried |
| `Coalescing.DeciderExists` | packages/client/src/client.ts:731-741 | every batch has the deciding edge that condition speaks of, or none that writes |
| `Coalescing.ReturningPressDiverges` | packages/client/src/client.ts:731-741 | press, release, press: the player's axis ends at 1 and the wire's at 0 |
| `Predictions.RestoreUndoes` | packages/client/src/prediction.ts:180-196 | whatever ticks wrote within the scope, restoring the scoped capture gives back the captured world |
| `Predictions.CaptureHosts` | packages/client/src/prediction.ts:295-318 | captures each named host that has a record, with its values, and mints none |
| `Predictions.StateHosts` | packages/client/src/prediction.ts:195-200 | the keys captured are the game's, the local player's and one per entity in scope, no others, and just those are what `Framed` lets a tick write |
| `Predictions.RestoreHosts` | packages/client/src/prediction.ts:321-329 | every captured record is back to what was captured, and every other untouched |
| `Predictions.SpanWithinScope` | packages/client/src/prediction.ts:144-158 | any span of predicted ticks writes only where the capture can take it back |
| `Carrying.CarryIsResimulation` | packages/client/src/prediction.ts:128-152 | for frames whose flushes bear a new tick and none of which is capped alone, carrying gives the world and fold of one capped replay from the baseline as long as it has come at most 48 ticks, and past that the recording game tells them apart |
| `Carrying.CarryMatchesIff` | packages/client/src/prediction.ts:128-152 | over any number of frames without an envelope, with the cap of 48 on every advance and on the replay, carrying equals resimulating in every game and from every world if and only if carrying stepped at most 48 ticks, no edge was flushed for a tick already stepped and no flush moved the seed |
| `Carrying.PlansAgreeIff` | packages/client/src/prediction.ts:140-147 | the ticks stepped when carried, each with the edges it was given, are those of the one replay if and only if there are at most 48 and none got an edge late |
| `Carrying.RecordingShows` | packages/client/src/prediction.ts:138-147 | whatever the ring, horizon, scope and world with a player in it, a 49th tick or one edge flushed for a stepped tick separates carrying from resimulating in the game that records its ticks |
| `Carrying.MovedSeedShows` | packages/client/src/prediction.ts:203-216 | whatever else was flushed, a flush that moves the seed separates them too |
| `Carrying.SteppedUncapped` | packages/client/src/prediction.ts:140-147 | without a capped advance the ticks stepped are all those between the depicted tick and the one reached |
| `Carrying.LateFlushDiverges` | packages/client/src/client.ts:708-712 | the instance with one press, in every simulation at all: held when resimulated, not held when carried |
| `Predictions.SeedIsPrediction` | packages/client/src/prediction.ts:203-216 | a seed from a faithful horizon is the authority's input state at the depicted tick |
| `Predictions.PredictSpan` | packages/client/src/prediction.ts:140-146 | stepping on the ring gives the authoritative world stepped, tick for tick, on the authority's own input |
| `Predictions.PredictionIgnoresLater` | packages/client/src/client.ts:742-749 | a frame stamped past a tick changes nothing predicted by then |
| `Predictions.PromisesCanBeKept` | packages/client/src/prediction.ts:191-200 | some simulation keeps the promises the theorems ask for |
| `Sessions.Prediction.constructor` | packages/client/src/prediction.ts:87-102 | nothing predicted and no tick stepped |
| `Sessions.Prediction.Rewind` | packages/client/src/prediction.ts:114-125 | the mirror is again the authoritative one, prediction gone; doing it twice is doing it once |
| `Sessions.Prediction.SeedActions` | packages/client/src/prediction.ts:203-216 | the re-asserted horizon followed by the retained frames up to the depicted tick |
| `Sessions.Prediction.Step` | packages/client/src/prediction.ts:154-159 | one tick: the world stepped at it on the fold with its one-tick edges emptied and on that tick's merged edges, or on none for a roster without the player; it is a first run exactly when the tick is beyond every tick stepped before |
| `Sessions.Prediction.StepRange` | packages/client/src/prediction.ts:146-146 | the loop is the span of ticks, and the first runs stay strictly increasing |
| `Sessions.Prediction.StepTo` | packages/client/src/prediction.ts:138-147 | exactly the ticks still to go, and no more than 48 whatever the distance, a capped start counted |
| `Sessions.Prediction.Retake` | packages/client/src/prediction.ts:129-135 | scope and baseline retaken over the authoritative mirror, the fold the seed of horizon and ring at the depicted tick, exact when the seed is faithful |
| `Sessions.Prediction.Carry` | packages/client/src/prediction.ts:136-147 | steps exactly the span left, only over a standing prediction and within what the baseline takes back, and keeps an exact prediction exact when no cap applies and no unstepped frame was folded |
| `Sessions.Prediction.Advance` | packages/client/src/prediction.ts:128-152 | the whole call: a resimulating one leaves exactly the capped replay, any other the capped span on top of what stood; authority recoverable, at most 48 ticks, each first run once and in increasing order, exact under the stated conditions |
| `Sessions.Prediction.CarryAll` | packages/client/src/prediction.ts:128-152 | frames of flushes and advances, capped or not, while the ring has room, compute the carried world that `CarryMatchesIff` is about |
| `Sessions.MatchingEdges` | packages/client/src/prediction.ts:218-230 | every edge stamped with the tick, in send order |
| `Sessions.Session.constructor` | packages/client/src/client.ts:596-655 | a session over a join snapshot with nothing predicted and a resimulation due |
| `Sessions.Session.Land` | packages/client/src/client.ts:656-661 | an envelope is applied to the fold of all earlier ones over the snapshot |
| `Sessions.Session.Acknowledge` | packages/client/src/client.ts:663-668 | a higher ack number leaves exactly the entries past it in the ring and notes the time; another changes nothing; no sent frame is lost from the history |
| `Sessions.SettledIsSettles` | packages/client/src/client.ts:663-668 | over any envelopes, with the ring in send order, the acknowledged number is the highest seen, the time noted moves only with it, and the entries left are exactly those past it, in order |
| `Sessions.Session.Receive` | packages/client/src/client.ts:656-678 | the envelope and then its ack, with the sent history intact and the ring pruned by it |
| `Sessions.Session.Dispatch` | packages/client/src/client.ts:447-465 | the batch lands in order up to whatever ends the session, each landed envelope's ack with it |
| `Sessions.LandingExact` | packages/client/src/client.ts:447-465 | what lands of a batch is every authoritative envelope with nothing up to it that ends the session, and nothing else, in batch order |
| `Sessions.Session.DispatchOne` | packages/client/src/client.ts:468-504 | an authoritative envelope lands, one that ends the session ends it, and any other leaves mirror, ring and record alone |
| `Sessions.Session.Drain` | packages/client/src/client.ts:434-466 | one rewind ahead of a batch with authority in it; after it the mirror is the fold of everything landed, a batch without authority leaves the prediction standing, the acks are settled, and any batch resets the drought |
| `Sessions.WatchedIs` | packages/client/src/client.ts:440-440 | a batch resets the drought whenever there is one, and the ack's time exactly when a higher number came |
| `Sessions.Session.Flush` | packages/client/src/client.ts:720-751 | a frame stamped with the clock's tick and the next number joins the history, or nothing does; exactness is lost only when the tick was already stepped |
| `Sessions.Session.Send` | packages/client/src/client.ts:742-750 | sent frames stay strictly increasing in number and nondecreasing in tick; with one frame per tick and the clock within a ring of the depicted tick, overflow included, the horizon stays depicted |
| `Sessions.Session.Predict` | packages/client/src/client.ts:415-423 | while live: a resimulation leaves scope, world and fold those of the capped replay over the authority, any other frame those of the capped span on top of what stood, and the predicted tick is the clock's unless it is ahead of it or there is none to start from; while not live nothing moves; the request is spent either way |
| `Sessions.Session.Judge` | packages/client/src/client.ts:846-872 | stalled if and only if nothing arrived for a second, or waiting input met sixty ticks of the session's rate without a new ack; live otherwise, in both directions |
| `Sessions.Session.Play` | packages/client/src/client.ts:367-375 | with a new tick while live the pending edges go out as one frame under it, without one nothing is sent, and a live session's prediction then catches up with the clock; when the frame ends timely an exact prediction stays exact, and one due for resimulation becomes exact |
| `Sessions.Session.Frame` | packages/client/src/client.ts:357-391 | one display frame, whole: the batch folded on, the pending edges sent or not, the prediction retaken or carried on to the clock while live, the acks and times settled; no leak, ordered input, first runs increasing, at most 48 ticks; when it ends timely an exact prediction is exact still, and one resimulated while live is exact whatever it was |
| `Sessions.Happen` | packages/client/src/client.ts:703-717 | a frame or a focus loss does that and keeps the invariant, lands exactly the envelopes it delivers, keeps an exact prediction exact unless the frame is not timely or the flush is late, and makes it exact again on a timely live resimulation |
| `Sessions.Run` | packages/client/src/client.ts:357-391 | over any interleaving of frames, batches, stalls, recoveries and focus losses each envelope met the fold of all before it, and every moment follows from the one before as its event says: authority, sent input, clock and prediction; a live resimulation over a depicted tick the clock has reached brings the prediction to the clock; from an exact start, and again from every timely live resimulation, the predicted world is the authority's stepped on the authority's own input until the next untimely frame or late flush |
| `Sessions.LandedNext` | packages/client/src/client.ts:434-466 | landing on the fold of the earlier envelopes extends the record of no leak by one |
| `Clocks.ClientClock.constructor` | packages/client/src/clock.ts:39-47 | both leads at the round trip held between one tick and a quarter second, one tick when it is not finite; the first tick the least one that leads the snapshot by it |
| `Clocks.ClientClock.NudgedStep` | packages/client/src/clock.ts:111-116 | the tick length is nominal inside the half-tick band, two per cent shorter above it and longer below it, and positive |
| `Clocks.ClientClock.Spend` | packages/client/src/clock.ts:97-106 | the accumulator loop issues contiguous ticks, leaves less than a step, and moves the lead by the time not taken |
| `Clocks.ClientClock.Advance` | packages/client/src/clock.ts:83-108 | one frame's whole effect in plain arithmetic: time that ran back counts for nothing, a long frame for a tenth of a second, one step length by the lead error, as many contiguous ticks as the time pays for, and the lead moved by what they did not take |
| `Clocks.ClientClock.Frames` | packages/client/src/clock.ts:83-108 | over any frame times the stamped ticks run on without gap or repeat |
| `Clocks.ClientClock.Sample` | packages/client/src/clock.ts:119-129 | a sample moves the target only, by a quarter of what is missing to two ticks of headroom with undelivered lead counted in, held between one tick and a quarter second |
| `Clocks.ClientClock.BumpEpoch` | packages/client/src/clock.ts:78-80 | a new epoch, and nothing else moved |
| `Clocks.LeadIsConserved` | packages/client/src/clock.ts:83-108 | over any frames and samples the change of the lead is the ticks issued at nominal length less the clamped time spent |
| `Clocks.FrameNeverOvershoots` | packages/client/src/clock.ts:74-116 | up to 489.6 ticks per second no frame increases the lead error or crosses the band, inside the band it stays put, and outside it falls by two per cent of a tick per tick |
| `Clocks.OvershootsAbove` | packages/client/src/clock.ts:83-116 | above that rate a clock just made, given three frames and two samples, ends on the far side of the band |
| `Clocks.LeadConverges` | packages/client/src/clock.ts:83-116 | the same over any run of frames: the error never grows, and until the band is reached it falls with every tick |
| `Clocks.LeadReachesBand` | packages/client/src/clock.ts:83-116 | enough ticks, counted from the initial error, put the lead in the band |
| `Clocks.SampleContracts` | packages/client/src/clock.ts:119-142 | for headroom that is lead at send less a constant delay, one sample shrinks the distance to the clamped fixed point to three quarters, whatever lead was delivered, and the target stays legal |
| `Clocks.TargetConverges` | packages/client/src/clock.ts:119-142 | any number of samples contract geometrically, with no windup |
| `Mirrors.BindKeepsInverseIff` | packages/client/src/index-map.ts:13-18 | binding keeps the two maps inverse if and only if the handle is unmapped or already this netId's |
| `Mirrors.UnbindKeepsInverse` | packages/client/src/index-map.ts:35-40 | unbinding keeps the two maps inverse |
| `Mirrors.MirrorIndex.Set` | packages/client/src/index-map.ts:13-18 | both maps updated together, the netId's old handle forgotten |
| `Mirrors.MirrorIndex.Delete` | packages/client/src/index-map.ts:35-40 | both directions of one pairing gone, and no other |
| `Mirrors.EnvelopeMaps` | packages/client/src/mirror.ts:205-212 | between envelopes the index is a bijection, and maps exactly the netIds mapped or spawned and not destroyed, given fresh handles |
| `Mirrors.DeferralAgreesIff` | packages/client/src/mirror.ts:371-440 | the deferred unmap maps a netId as an immediate one would if and only if the envelope does not destroy it and leave it spawned again |
| `Mirrors.ImmediateMaps` | packages/client/src/mirror.ts:371-440 | what unmapping at once would leave mapped |
| `Mirrors.JoinHolds` | packages/client/src/mirror.ts:197-235 | with each channel in increasing tick order, no transform is written before a state envelope of its tick, written ticks increase, a held one lies beyond the applied state, and every transform received is written, held or counted superseded |
| `Mirrors.Mirror.ApplyOp` | packages/client/src/mirror.ts:299-312 | a plausible spawn maps its netId to its handle, a destroy of a mapped one queues it to unmap, and each refusal is counted |
| `Mirrors.Mirror.ApplyStructural` | packages/client/src/mirror.ts:205-212 | the op loop and the deferred unmaps, leaving nothing pending |
| `Mirrors.Mirror.ApplyState` | packages/client/src/mirror.ts:197-223 | a state envelope moves the depicted tick and releases a held transform of its tick or earlier |
| `Mirrors.Mirror.ApplyTransforms` | packages/client/src/mirror.ts:227-235 | a transform ahead of the applied state is held, superseding an older one, and written otherwise |
| `Chunks.InPlaceIffComplete` | packages/client/src/handshake.ts:223-224 | sorted chunks pass the index test if and only if the held indices are exactly 0 to n-1 |
| `Chunks.AnyOrderRestores` | packages/client/src/handshake.ts:219-229 | any arrival order of consecutive pieces sorts back to the pieces |
| `Chunks.SnapshotChunks.Offer` | packages/client/src/handshake.ts:193-206 | held, and its bytes counted, unless the join was answered, 256 are held or 16 MiB would be passed, and counted dropped otherwise |
| `Chunks.SnapshotChunks.Clear` | packages/client/src/handshake.ts:209-212 | forgets what is held and keeps the count of what was dropped |
| `Chunks.SnapshotChunks.FoldInto` | packages/client/src/handshake.ts:215-232 | succeeds if and only if the expected number is held with indices 0 to n-1; the welcome then gets lists of which the chunks are the consecutive stretches by index, in front of what it carried; a short set stays held, a gapped one is discarded, and the welcome changes only on success |
| `Chunks.Reassemble` | packages/client/src/handshake.ts:193-232 | two lists cut at any points, one chunk to a pair of stretches, offered in any order within the caps, come back as the very lists that were cut, in front of what the welcome carried |
| `Chunks.Rejoins` | packages/client/src/handshake.ts:225-230 | chunks in place give back the lists they are the stretches of |
| `Forests.LinkKeepsForestIff` | packages/renderer/src/core/renderer-core.ts:484-486 | a new link keeps a forest if and only if its parent is not already below its child |
| `Hierarchies.ThrowsIff` | packages/renderer/src/core/renderer-core.ts:471-490 | the renderer refuses exactly a parent that is the entity or one of its descendants |
| `Hierarchies.CreateKeeps` | packages/client/src/bridge.ts:389-402 | a fresh node for a new entity keeps bridge and scene the same forest, under its parent when that is drawn |
| `Hierarchies.ReparentKeepsIff` | packages/client/src/bridge.ts:461-470 | a reparent keeps bridge and scene the same forest if and only if it does not strand a linked entity |
| `Hierarchies.RemoveKeeps` | packages/client/src/bridge.ts:483-510 | a destroy keeps them the same forest, and the nodes that die are exactly those of the subtree |
| `Hierarchies.SweepKeeps` | packages/client/src/bridge.ts:364-374 | clearing leaves no node the bridge made alive |
| `Hierarchies.RunKeepsForest` | packages/client/src/bridge.ts:180-185 | over every run of creates, reparents, destroys and clears with fresh nodes, the bridge is at every point a forest, one live node per entity, hung the same way in the scene, if and only if no reparent strands a linked entity |
| `Hierarchies.StrandedLoops` | packages/client/src/bridge.ts:461-480 | a whole bridge, one stranding reparent, a destroy and a reparent later, holds a loop |
| `Hierarchies.LoopNeverDrains` | packages/client/src/bridge.ts:489-495 | inside a loop the growing worklist always has an entry left to visit |
| `Hierarchies.CutNext` | packages/client/src/bridge.ts:365-365 | destroying nodes one after the other takes exactly what hangs from any of them, handles already dead included |
| `Hierarchies.CutIsSwept` | packages/client/src/bridge.ts:364-374 | in whatever order the nodes are destroyed, the scene is the same |
| `Envelopes.SpawnHangs` | packages/client/src/mirror.ts:371-440 | a spawn maps and adds one living newborn, under its parent exactly when that is named and alive, and moves no other link |
| `Envelopes.ReparentHangs` | packages/client/src/mirror.ts:313-327 | a reparent of the living under the living outside its subtree, or to the root, moves that one link and reports it |
| `Envelopes.MidwayAll` | packages/client/src/mirror.ts:299-327 | in the middle of any tidy envelope, newborns reparented or not, the dead are exactly the entities below some removal so far, the parents are a forest, and newborns never moved hang from what came before them |
| `Reconciling.ThrowsIffRough` | packages/client/src/bridge.ts:180-185 | drawing a tidy envelope throws if and only if the replay, creates under final parents and then the moves in order, meets a move whose parent is at that point the child or below it |
| `Reconciling.EnvelopeKeepsStep` | packages/client/src/mirror.ts:197-224 | an envelope whose ops are tidy, newborns reparented included, and none of whose moves the replay refuses draws without a throw and leaves the bridge drawing exactly the living entities, each under its own parent, with the scene to match |
| `Deliveries.EnvelopeFollowsIff` | packages/client/src/client.ts:451-458 | after a tidy envelope the session lives with screen and world together if and only if the replay refuses no move |
| `Deliveries.RunStaysFaithful` | packages/client/src/bridge.ts:180-185 | over every run of tidy envelopes no envelope ends the session if and only if none of them has a refused move, and then the screen is the world |
| `Placing.PlacedIsSmooth` | packages/client/src/bridge.ts:180-185 | if each newborn's first reparent finds nothing under it, now or by an earlier move, the replay refuses no move of a tidy envelope |
| `Placing.PlacedRunFollows` | packages/client/src/bridge.ts:180-185 | so over every run of such envelopes the session lives and the screen is the world |
| `Placing.HangNewborn` | packages/sim/src/replicate.ts:268-283 | a spawn without a parent and, behind it, a reparent under anything living is always such an op pair |
| `Placing.GroupIsPlaced` | packages/core/src/world/templates.ts:144-162 | behind any tidy, placed ops a template's group of any size and shape, spawn by spawn with each reparent after it, is tidy and placed, and every node hangs from its own parent |
| `Placing.GroupIsDrawn` | packages/client/src/mirror.ts:205-224 | a group as an envelope of its own ends no session: every node lives, hangs as the template says, and is drawn so |
| `Placing.NewbornRefused` | packages/client/src/bridge.ts:180-185 | with a below b, in every session, spawning x, then b under x, a to the root and x under a is tidy and ends the session |
| `Deliveries.LoneReparentIff` | packages/client/src/mirror.ts:313-327 | a reparent on its own keeps screen and world together if and only if it does not put a linked child under a netId still mapped to something dead, which the world declines and the mirror reports all the same |
| `Deliveries.DeclinedIsReported` | packages/core/src/runtime/entity.ts:218-222 | a reparent the world declines changes nothing in it and is reported |
| `Deliveries.DestroyLeavesNames` | packages/client/src/mirror.ts:434-440 | a destroy takes the whole subtree and unmaps only the netId it names, so a descendant's netId stays mapped to the dead |
| `Deliveries.DestroyThenHangIff` | packages/client/src/bridge.ts:180-185 | for every session and any two mapped netIds, destroying one and putting the other under it leaves session and screen whole if and only if the child is dead already, or properly below the parent, or the parent is long dead and the child hung nowhere |
| `Deliveries.DyingParentTakesChild` | packages/client/src/bridge.ts:180-185 | otherwise, with both alive and neither below the other, the child lives on in the world and is gone from the screen |
| `Deliveries.WireStrands` | packages/client/src/mirror.ts:313-327 | where a dead netId is still mapped, three envelopes report a move onto it, a removal and a move onto a child |
| `Deliveries.StaleIsFaithful` | packages/client/src/mirror.ts:434-440 | such a world, one dead name left over, with screen and world together |
| `Deliveries.WireLoops` | packages/client/src/bridge.ts:461-480 | from that session, delivering the three envelopes throws nowhere and ends with a loop in the bridge's parents |
| `Journals.EnvelopeNames` | packages/client/src/mirror.ts:205-212 | for every envelope of plausible spawns, the netIds mapped after it, and to what, are the same in the world of `Envelopes` and in the index of `Mirrors` |
| `RenderBridges.RenderBridge.constructor` | packages/client/src/bridge.ts:133-141 | six empty maps over a renderer |
| `RenderBridges.RenderBridge.Create` | packages/client/src/bridge.ts:389-402 | a node for a new entity, named both ways, hung under its parent when that is drawn and the renderer does not refuse; a drawn entity is left alone |
| `RenderBridges.NameKeepsInverseIff` | packages/client/src/bridge.ts:395-397 | a node for a new entity keeps the two maps inverse if and only if no other entity has it, as every second one does before the renderer is ready |
| `RenderBridges.RenderBridge.Attach` | packages/client/src/bridge.ts:447-459 | linked both ways, or not at all without both nodes or when the renderer throws |
| `RenderBridges.RenderBridge.Reparent` | packages/client/src/bridge.ts:461-470 | unlinked first, then detached or attached, so a throw leaves it unlinked here |
| `RenderBridges.RenderBridge.Unlink` | packages/client/src/bridge.ts:473-481 | out of its parent's set, no empty set left, its own subtree intact |
| `RenderBridges.Doom` | packages/client/src/bridge.ts:489-495 | for an entity that is not its own ancestor, the worklist that grows while it is walked ends, and lists the entity and its descendants, each once |
| `RenderBridges.RenderBridge.Destroy` | packages/client/src/bridge.ts:483-510 | exactly the entity and its descendants leave all six maps |
| `RenderBridges.RenderBridge.Forget` | packages/client/src/bridge.ts:497-506 | the doomed leave every map, the rest staying inverse and converse |
| `RenderBridges.RenderBridge.Clear` | packages/client/src/bridge.ts:364-374 | six empty maps, and every node the bridge made destroyed, one after the other in any order |
| `RenderBridges.RenderBridge.Correct` | packages/client/src/bridge.ts:231-241 | the offset replaces an outstanding one and its time starts over |
| `RenderBridges.RenderBridge.ClearCorrection` | packages/client/src/bridge.ts:244-246 | the correction is gone and no other |
| `RenderBridges.RenderBridge.Decay` | packages/client/src/bridge.ts:327-350 | one frame takes its time from every correction and the same share from its offset, and drops those with no more left; a clock that ran back, a time that is not finite and a first frame take nothing, a long frame a tenth of a second |
| `RenderBridges.RenderBridge.Age` | packages/client/src/bridge.ts:335-349 | each correction ages on its own, in any order, and the expired are deleted |
| `RenderBridges.DrawFrames` | packages/client/src/bridge.ts:191-193 | over any frames each correction is where its own decay puts it |
| `RenderBridges.Poses.Record` | packages/client/src/prediction.ts:233-244 | the pose on screen, simulated position plus outstanding offset, of each living scoped entity |
| `RenderBridges.Poses.Measure` | packages/client/src/prediction.ts:247-265 | each recorded entity still alive keeps its correction where nothing is off, loses it past 64 units, and otherwise gets the difference eased over a tenth of a second; no other is touched, snaps are counted, and the record is cleared |
| `RenderBridges.Poses.Resimulate` | packages/client/src/prediction.ts:233-265 | recorded and measured across a replay, each entity is drawn where it was if and only if it neither snaps nor keeps an offset where nothing is left to correct |
| `Corrections.DrawnUnmovedIff` | packages/client/src/prediction.ts:249-262 | the drawn position is unchanged if and only if the distance is within the snap bound and, at distance zero, no offset was outstanding |
| `Corrections.ZeroDistanceJumps` | packages/client/src/prediction.ts:255-255 | when the authority lands where the screen was, the screen moves off by the outstanding offset |
| `Corrections.DecayIsLinear` | packages/client/src/bridge.ts:327-350 | however the frames fall, the offset is the initial one times the share of its life left, and nothing past it |
| `Corrections.ElapsedIsTime` | packages/client/src/bridge.ts:327-350 | over frames that go on by at most a tenth of a second each, the time elapsed is the time on the clock |
| `Corrections.FreshDecay` | packages/client/src/bridge.ts:231-241 | from a new correction: initial times remaining over a tenth of a second, gone once that much clamped time has passed |
| `Corrections.EasesHome` | packages/client/src/bridge.ts:262-270 | an eased entity crosses from where it was drawn to the simulated position in proportion to clamped time, and arrives |
| `Flattening.FlattenGroup` | packages/client/src/bridge.ts:543-546 | accepts if and only if every list a walk down the tree reaches is a list, not below the eighth level, of groups and textured sprites only, and the nodes are at most 64; the batch is then the preorder |
| `Flattening.SoundIffEverywhere` | packages/client/src/bridge.ts:549-571 | the recursive refusals are those, said of paths from the root |
| `Flattening.Flattener.PushChildren` | packages/client/src/bridge.ts:549-571 | one level with everything below it, refused exactly when unsound or past the node bound, however early that is noticed |
| `Flattening.Flattener.PushChild` | packages/client/src/bridge.ts:562-570 | one child and its own children, appended as its preorder block |
| `Flattening.FlattenRebuilds` | packages/client/src/bridge.ts:543-571 | rebuilding from parent indices alone gives back the tree, absent and empty lists alike |
| `Flattening.ParentsComeFirst` | packages/client/src/bridge.ts:549-571 | every entry but the root names an earlier one |
| `Flattening.DescReadsBack` | packages/client/src/bridge.ts:574-602 | a desc carries all that is drawn of a child: spelled out as a wire child, it gives the same desc |
| `Flattening.RereadIsDrawn` | packages/client/src/bridge.ts:574-602 | what a wire child states outright, field by field, is what its desc holds |
| `Flattening.DefaultsAre` | packages/client/src/bridge.ts:574-602 | a sprite is drawn with what it states; an unstated coordinate is zero, the unstated half of an anchor the middle, a scale of both axes, and a layer that is not finite is dropped |
| `Flattening.GroupDefaultsAre` | packages/client/src/bridge.ts:574-582 | the same of a group's place and layer |
| `Handles.PackUnpacks` | packages/math/src/handle.ts:19-31 | every handle is a positive safe integer that unpacks to its index and generation |
| `Handles.UnpackPacks` | packages/math/src/handle.ts:19-31 | every positive safe integer is the handle of what it unpacks to |
| `SlotTables.CreateOk` | packages/math/src/slot-table.ts:58-78 | after a create the freelist still lists exactly the free unretired slots, once each, and live counts the occupied |
| `SlotTables.ReleaseOk` | packages/math/src/slot-table.ts:122-130 | the same after a release, the slot at the last generation retired instead of listed |
| `SlotTables.ClearOk` | packages/math/src/slot-table.ts:151-172 | the same after a clear |
| `SlotTables.MintsFresh` | packages/math/src/slot-table.ts:58-78 | a minted handle was never issued before and is valid after |
| `SlotTables.IssuedExactly` | packages/math/src/slot-table.ts:58-172 | each operation issues the handle it mints and no other |
| `SlotTables.SpentForever` | packages/math/src/slot-table.ts:81-172 | an issued handle that is no longer valid stays so under every operation |
| `SlotTables.IssuedIsMinted` | packages/math/src/slot-table.ts:58-172 | over any run from empty, the handles the generations account for are exactly those minted |
| `SlotTables.NoHandleMintedTwice` | packages/math/src/slot-table.ts:58-130 | over any run of create, release and clear no handle is minted twice, and each is a positive safe integer |
| `SlotTables.RejectedForever` | packages/math/src/slot-table.ts:81-172 | a minted handle once rejected is rejected after any further run, through reuse, clear and retirement |
| `SlotTables.ReleaseSpends` | packages/math/src/slot-table.ts:117-130 | releasing a valid handle spends it |
| `SlotReuse.LastFreedFirst` | packages/math/src/slot-table.ts:58-130 | after releasing any distinct occupied slots with generations to go, the next creates mint on them in reverse order of release, each handle one generation on, and put their records there |
| `SlotReuse.LowestFirst` | packages/math/src/slot-table.ts:151-172 | after a clear the next creates mint on the slots not retired, lowest first, at the generation moved on where the slot was in use, and then append |
| `SlotReuse.CreatesMint` | packages/math/src/slot-table.ts:58-78 | any number of creates there is room for pop the freelist from its end and then append, one handle and one record each |
| `SlotTables.SlotTable.IndexOf` | packages/math/src/slot-table.ts:81-90 | an index is given if and only if the handle is a positive safe integer whose low 24 bits name an occupied slot and whose rest is that slot's generation, and it is that slot; fractions and the null handle give -1 |
| `SlotTables.SlotTable.Create` | packages/math/src/slot-table.ts:58-78 | the slot on top of the freelist is popped and refilled, else one is appended at generation 1; it fails only when the freelist is empty and all 2^24 slots exist |
| `SlotTables.SlotTable.ReleaseAt` | packages/math/src/slot-table.ts:122-130 | an occupied slot is emptied, its generation moved on by one and the slot pushed on top of the freelist, or retired at the last generation; any other index does nothing |
| `SlotTables.SlotTable.Release` | packages/math/src/slot-table.ts:117-119 | a release by handle; a stale one does nothing |
| `SlotTables.SlotTable.Clear` | packages/math/src/slot-table.ts:151-172 | every record dropped, occupied slots' generations moved on, the freelist rebuilt so that low slots are reused first |
| `SlotTables.SlotTable.CaptureInto` | packages/math/src/slot-table.ts:187-198 | the snapshot's own arrays are refilled in place and its records cloned: it has the table's whole value and shares no array and no record with it |
| `SlotTables.SlotTable.Apply` | packages/math/src/slot-table.ts:201-206 | the table takes the snapshot's whole value on newly made arrays and records |
| `SlotTables.Numbers.Refill` | packages/math/src/slot-table.ts:231-234 | an array overwritten in place with the contents of another |
| `SlotTables.CaptureApply` | packages/math/src/slot-table.ts:175-206 | capture, any further mutations of table, arrays and records, apply: the table is what it was, so every later run is what it would have been |
| `Templates.Closer.Close` | packages/project/src/validate.ts:245-270 | accepts if and only if no walk along child edges visits more than eight nodes, every height recorded is the longest walk, and each refusal names a real cycle or a real deep walk |
| `Templates.Closer.Measure` | packages/project/src/validate.ts:249-267 | the memoised recursion ends on every graph, a height returned is the longest walk and fits under the open path, and a failure is justified |
| `Templates.Closer.Tallest` | packages/project/src/validate.ts:258-262 | the child loop finds the tallest child |
| `Templates.NodeHeight` | packages/project/src/validate.ts:258-266 | one more than the tallest child is the length of the longest walk |
| `Templates.CyclePumps` | packages/project/src/validate.ts:250-250 | a cycle has walks longer than any bound |
| `Templates.AcceptedIsAcyclic` | packages/project/src/validate.ts:241-270 | an accepted graph has no cycle |
| `Randoms.SplitmixInverts` | packages/math/src/random.ts:9-15 | the seed mixer has an explicit inverse, so distinct seeds mix to distinct words |
| `Randoms.SplitmixIs` | packages/math/src/random.ts:9-15 | the mixer step by step, sums and products in integers modulo 2^32 and shifts bit by bit |
| `Randoms.SeededIs` | packages/math/src/random.ts:27-37 | the four words are the mixer's of n, n + g, n + 2g and n + 3g modulo 2^32, for the golden constant g |
| `Randoms.StepBits` | packages/math/src/random.ts:42-51 | one draw's state, bit by bit of the four words before it |
| `Randoms.PreviousOfStep` | packages/math/src/random.ts:39-54 | the state transition has a left inverse |
| `Randoms.StepOfPrevious` | packages/math/src/random.ts:39-54 | and that inverse is a right inverse too: the transition is a bijection |
| `Randoms.SeedNotZero` | packages/math/src/random.ts:27-37 | no seed gives the all-zero state |
| `Randoms.SeedWordsDistinct` | packages/math/src/random.ts:27-37 | the four seeding inputs differ, and so do the four words of the state |
| `Randoms.ZeroIsIsolated` | packages/math/src/random.ts:39-54 | only the all-zero state ever draws into it |
| `Randoms.NeverStuck` | packages/math/src/random.ts:23-54 | for every seed and any number of draws the state is never all zero |
| `Randoms.SeedsNeverMerge` | packages/math/src/random.ts:23-54 | different seeds never reach the same state after the same number of draws |
| `Randoms.Fraction` | packages/math/src/random.ts:42-53 | the output in integers on the second word: times 5, rotated by 7, times 9, all modulo 2^32, over 2^32; it lies in [0, 1) |
| `Randoms.OutputInverts` | packages/math/src/random.ts:42-42 | the output scrambler has an explicit inverse, so each output word comes from one second state word only |
| `Randoms.IndexFor` | packages/math/src/random.ts:60-62 | a pick's index is in range and is the scaled output rounded down |
| `Randoms.SeededRandom.constructor` | packages/math/src/random.ts:23-37 | the state is that of the seed reduced to 32 bits, and not all zero |
| `Randoms.SeededRandom.Next` | packages/math/src/random.ts:39-54 | that fraction of the old state, and the state moved on in place as the bits say |
| `Randoms.SeededRandom.Pick` | packages/math/src/random.ts:60-62 | one draw decides the element; an empty list gives none |
| `Randoms.CaptureRestore` | packages/math/src/random.ts:69-76 | restoring a capture after any draws reproduces the whole stream from there |
| `Words.RotationInverts` | packages/math/src/random.ts:5-7 | rotating on by the rest of the width undoes a rotation |
| `Words.ImulInverts` | packages/math/src/random.ts:9-15 | multiplying by the inverse undoes a 32-bit multiplication |
| `Words.XorShrInverts` | packages/math/src/random.ts:9-15 | the shift-and-xor of the mixer can be undone |
| `Words.XorShlInverts` | packages/math/src/random.ts:43-50 | the shift-and-xor of the transition can be undone, from either side |
| `Limiters.Limiter.Allow` | libs/go-grove/httpx/middleware.go:164-178 | a window opened at now with one hit, or one more hit on the open one, no other key touched; admitted exactly up to the maximum, and refused with the whole seconds that just outlast the window |
| `Limiters.Limiter.EvictBefore` | libs/go-grove/httpx/middleware.go:195-204 | the keys left are exactly those whose window began at the cutoff or later, unchanged, in any order of the map |
| `Limiters.SweepForgets` | libs/go-grove/httpx/middleware.go:181-204 | after any run, a sweep takes exactly the keys whose window began more than a window before it |
| `Limiters.SweptTableIsRecent` | libs/go-grove/httpx/middleware.go:181-204 | so on a table that began empty every key a sweep leaves asked within the last window |
| `Limiters.SweepInvisible` | libs/go-grove/httpx/middleware.go:164-204 | for nondecreasing times, sweeps inserted anywhere change no verdict |
| `Limiters.AdmittedWithoutSweeps` | libs/go-grove/httpx/middleware.go:164-204 | sweeps inserted anywhere change no admission either |
| `Limiters.WindowQuota` | libs/go-grove/httpx/middleware.go:164-204 | with sweeps or without, what an open window still admits bounds what it does admit |
| `Limiters.OpenedWindowQuota` | libs/go-grove/httpx/middleware.go:164-204 | with sweeps or without, a window admits at most max(1, max) requests from its opening on |
| `Limiters.SpanQuota` | libs/go-grove/httpx/middleware.go:164-204 | with sweeps or without, any half-open span of one window admits at most twice that, less one |
| `Limiters.RetryAdmittedIff` | libs/go-grove/httpx/middleware.go:164-178 | a refused key back at the advertised time, after any requests and sweeps, is admitted if and only if none of its retries fell past the window it was refused in, or the last window they opened has rolled, or fewer than the quota fell in that one |
| `Limiters.EarlyRetryRefused` | libs/go-grove/httpx/middleware.go:164-178 | refused and told two seconds, a key that retries after one and a half is refused again at two |
| `Limiters.RetryIsTight` | libs/go-grove/httpx/middleware.go:164-178 | anyone back more than a second before the advertised time is refused again |

## Left out

- The authority's own input handling (late frames, stale holds released) in `packages/sim`: the authority of the replay theorems is one that folds every frame sent on its tick.
- What a game's tick, script or timer computes: abstract, under the two promises above; that a replayed tick's suppressed one-shot handlers leave the world alone is part of them.
- Bundle loading, which suspends a batch, and the join that opens the next session after a resync: a session here ends where one of those begins.
- `#checkNotBehind` and the deadlines, which end a session early: runs here include those that would have been ended.
- Sessions.Session.Acknowledge: the headroom sample taken with an ack is not tied to the session; the clock's own theorems treat every sample.
- Rounding: clock, corrections and outputs of the generator are exact reals.
- Hierarchies.RunKeepsForest: requires fresh nodes, as below; the inner nodes of a group's subtree are not entities and are left to the renderer.
- RenderBridges.RenderBridge.Create: before the renderer's `init` every node is the same null handle; a fresh node is required here, and `NameKeepsInverseIff` says what happens otherwise.
- RenderBridges.RenderBridge.Destroy: requires the entity not to be its own ancestor, in which case the worklist does not end (`LoopNeverDrains`).
- Reconciling.EnvelopeKeepsStep: requires a tidy envelope, for which `EnvelopeFollowsIff` is exact; one that is not tidy can still come out right. `LoneReparentIff` and `DestroyThenHangIff` are exact for the untidy ones they speak of.
- Placing.PlacedIsSmooth: one way only; an envelope that uses a newborn before placing it can still be smooth, and `ThrowsIffRough` is exact for it.
- Ops with an implausible netId and oversized groups, which the mirror drops whole, are taken to be out of an envelope's ops already in `Envelopes`.
- Interpolation tracks: only which entities have one is kept.
- Mirrors.Mirror.ApplyOp: spawn and destroy only; reparents are in `Envelopes`, and tags, players, scripts and state fields do not touch the index.
- Mirrors.Mirror.ApplyState: the index, the ticks and the held transform; state fields are not written.
- `between` and `chance` of the generator, `easing`, `vec3`, `scalar` and the bounds helpers: they would add only easy members.
- `deterministic-math.ts`: its claims are about IEEE-754 bit patterns.
- The rest of the manifest checks, envelope narrowing, transports, device input, the HUD, camera, assets and renderer backends, and the services, fleet and user interface.
