# Verified models of the Ramulator prediction stack

This project states and proves what the repository's most intricate code does. It covers

- **the Opus reservation timeline** (`results/models/opus_*`): integer-time column and ACT calendars, per-bank row
  windows, in-place repair (slip, window extension) and a posted-write buffer whose drain policy is replayed lazily.
  `OpusTypes`, `OpusCalendar`, `OpusSlots`, `OpusSlip`, `OpusBanks`, `OpusTimeline`, `OpusTimelineProofs` and
  `OpusPolicy` define one admission and whole runs on values; `OpusConservation` ties the write log to the calendar,
  `OpusColumns` places column commands in row windows, `OpusHorizons` keeps the read horizons, `OpusAnswers` and
  `OpusDrains` say what the answers, the replay and the drains mean, `OpusExamples` and `OpusPruneExample` hold runs
  from power-up. The class `OpusModel.ReservationModel` updates fields with the source's searches and loops and is
  proved to compute exactly that. The single-core model is the multicore one with window extension, active-first,
  trigger hits and drain join switched off;
- **the gem5 wrapper** (`ramulator2_base.cc`): `WrapperClock` and `WrapperService` prove that the event-driven service
  admits, refuses and completes requests exactly as clock-edge-first polling does; `WrapperProtocol` is the admission,
  response and drain protocol, one method per action of the surroundings;
- **the other immediate-response models**: `GeminiBus`/`GeminiModel` (turnaround-aware bus list), `DeepSeekBus`
  (bounded first-fit calendar in two arrays), `AstraEnvelope` (fluid work clocks, recency table); `GeminiExample` and
  `AstraExample` are short runs of them;
- **fast forms against simple ones**: `MessController` (nearest-curve table and feedback loop), `QueueWindow`
  (windowed M/G/1), `Occurrence`/`RequestMatch`/`RequestPayload`/`RequestSymmetry` (request matching, the payload
  and its validator),
  `CandidateSelection` (one-pass Pareto choice). `Basics` and `RealFacts` hold what they share.

`dafny verify dfyconfig.toml` checks everything. `hide` statements only keep definitions a proof does not need out of its
context.

## Hypotheses

- Opus: all timings are nonnegative, tCCD_S <= tCCD_L, tCCD_S_WR <= tCCD_L_WR, tWTR_S <= tWTR_L,
  tRP + rp_adjust >= 0, row ids are nonnegative. `kNever` is a separate value above every time. `OpusColumns` also
  takes tRTP and the write recovery to be at least one cycle.
- Wrapper clock: the memory system keeps its idle contract: an idle count is an exact countdown of cycles that complete
  nothing and change no acceptance, fast-forward within it equals ticking, a rejection changes nothing. One more clause
  is assumed, in either of two forms: accepting a request never makes room for one rejected before it; or an admission
  that leaves the memory system idle was made to an idle one and makes no such room (`WrapperClock.BusyRoomIsHonest`).
  It cannot be dropped (`WrapperClock.RoomMatters`). A port's peer answers a retry by sending its rejected request again
  inside that call. A retry rejected once more leaves no event in the compared history: polling makes such calls on idle
  edges and the event-driven service does not.
- Wrapper protocol: a peer that refuses a response has not, inside the same call, caused another response to be
  scheduled on its port; `sendResponse` asserts this. Drain is not called inside an admission.
- Gemini: positive gaps, nonnegative row ids. DeepSeek: positive burst lengths. Astra: nondecreasing time, positive
  nRC, nonnegative nRCD, burst, bus scale and write tax. Mess: positive unit conversions, so curves are given in
  converted units; a window's span is the source's unsigned 64-bit difference.
- Doubles are modelled as reals; where a division by zero gives infinity (a Mess window within one cycle) that case is
  explicit.

## Properties that hold only under a condition

- `slip_from` stops at the first read that already fits. Its promise that later bookings see the true bus use holds for
  read-only calendars if and only if nothing may be squeezed or tCCD_L <= max(2 tCCD_S, 1)
  (`OpusSlip.BandwidthConserved`, counterexample in `OpusSlip.SlipStopsTooEarly`, reached from power-up in
  `OpusExamples.SlipLeavesTight`).
- A PRE follows every read of its window by tRTP when window hits are off or hold their windows open
  (`OpusColumns.ReachableColumns`); without extension a run reaches a read one cycle before its PRE
  (`OpusExamples.HitBreaksRecovery`).
- Calendars are pruned at the admission's cycle before the replay issues commands from before it. Pruning is invisible
  from two cycles before the admission on and, for ACTs, only then (`OpusDrains.PruneInvisible`,
  `OpusDrains.PruneExact`); a run replays an ACT too close to a pruned one (`OpusPruneExample.ReplayPassesPrunedAct`).
- Gemini's bus slot is the least pairwise-legal one if and only if the gaps satisfy the triangle inequality
  (`GeminiBus.SlotIsLeastLegal`). The values the class starts from do not: tWTR_L = 24 exceeds tWTR_S + tCCD_S = 18, and
  five admissions reach a disturbed list (`GeminiExample.DisturbedRun`).
- A simulator waiting for a drain is left without its signal by a rejected admission, if and only if the requests that
  complete during that admission free everything that was outstanding (`WrapperProtocol.RejectedAdmission`, a run in
  `WrapperProtocol.UnsignalledDrain`). No other action of the protocol leaves it so: the invariant keeps that a stranded
  simulator was stranded by a rejection.

## Model

| member | source | states |
|---|---|---|
| `OpusPolicy.ReachableWindows` | `results/models/opus_multicore/model.cpp:694-773` | in every state reachable from power-up by any requests, each bank's row windows are in order with PRE-ACT >= tRAS, next ACT-PRE >= tRP + rp_adjust and ACT-ACT >= tRC; the one unclosed window is the last and is the open row |
| `OpusColumns.ReachableColumns` | `results/models/opus_multicore/model.cpp:661-692` | over every run each live column command is inside a row window of its bank, tRCD after the ACT; before the PRE by tRTP for reads when window hits are off or hold their windows open, by the write recovery when they are off, and by one cycle otherwise (no slips, active-first or trigger hits) |
| `OpusColumns.ApplyBookLocated` | `results/models/opus_multicore/model.cpp:661-692` | a booking, window extension included, keeps every column command of its bank inside a window with its margin |
| `OpusColumns.ExtendedLocated` | `results/models/opus_multicore/model.cpp:730-746` | a window extension moves exactly the column commands of the windows it moves |
| `OpusColumns.StarvePlaced` | `results/models/opus_multicore/model.cpp:499-510` | writes let pass between a read's ACT and RD leave the bank with a row whose ACT is tRCD before the RD |
| `OpusExamples.HitBreaksRecovery` | `results/models/opus_multicore/model.cpp:663-680` | without window extension three reads from power-up, answered at 20, 48 and 31, reach one that is a cycle, not tRTP, before its PRE |
| `OpusExamples.SlipLeavesTight` | `results/models/opus_multicore/model.cpp:806-830` | with tCCD_L above 2 tCCD_S four reads from power-up, answered at 20, 120, 122 and 119, reach a calendar the slip leaves too tight |
| `OpusPolicy.ReachableSpacing` | `results/models/opus_single_core/model.cpp:656-719` | over every run all live ACT pairs keep tRRD_S/L (no window extension), all live column pairs keep their directional gap less col_squeeze between reads (col_slip off), and with slipping, reads only and covering gaps the whole gap |
| `OpusPolicy.ReachableWrites` | `results/models/opus_single_core/model.cpp:518-568` | over any run, admitted writes = buffered + booked, each exactly once |
| `OpusConservation.EveryWriteOnBus` | `results/models/opus_single_core/model.cpp:518-568` | over any run and for every bank, the WR commands on the calendar and those pruned from it are exactly as many as the writes booked |
| `OpusConservation.PredictBalanced` | `results/models/opus_multicore/model.cpp:394-528` | one admission adds to the calendar exactly the WR commands of the writes it books |
| `OpusConservation.AdvanceBalanced` | `results/models/opus_multicore/model.cpp:571-608` | the replay adds to the calendar exactly the WR commands of the writes it books |
| `OpusPolicy.Run` | `results/models/opus_multicore/model.cpp:394-528` | every run from power-up keeps the whole state invariant (banks, calendars, buffer, flags, conservation) |
| `OpusPolicy.Advance` | `results/models/opus_multicore/model.cpp:571-608` | the replay ends for every state (measure: buffered writes, open rows, forced flag), keeps the invariant, only adds bookings, and every booking it adds departs before the replay limit |
| `OpusAnswers.AdvanceIssuesAllDue` | `results/models/opus_multicore/model.cpp:571-608` | the replay leaves nothing due: no write is buffered, or write mode cannot begin before the limit, or it is on, still wanted, and no buffered write's first command precedes the limit |
| `OpusAnswers.CaughtUp` | `results/models/opus_multicore/model.cpp:571-572` | an access meets a state in which nothing is due before its cycle, or in it with same_cycle_writes |
| `OpusPolicy.NextOk` | `results/models/opus_multicore/model.cpp:588-603` | one replay command commits a write or closes an open row, so it is strictly closer to the end, and keeps the invariant |
| `OpusPolicy.PickIsEarliest` | `results/models/opus_multicore/model.cpp:611-622` | the drained write has the least first-command time of all buffered writes, the oldest among equals |
| `OpusPolicy.DrainDown` | `results/models/opus_multicore/model.cpp:442-445` | draining to the low mark keeps the invariant and changes nothing but the timeline, the buffer and the bookings |
| `OpusPolicy.DrainDownLeaves` | `results/models/opus_multicore/model.cpp:442-445` | a drain leaves exactly min(n, max(0, wq_low - expected - 1)) writes |
| `OpusPolicy.ReadEndsWriteMode` | `results/models/opus_single_core/model.cpp:355-372` | a read that ends write mode leaves exactly min(n, wq_low - expected - 1) buffered writes, expected being below wq_low |
| `OpusPolicy.EndWriteMode` | `results/models/opus_multicore/model.cpp:433-456` | write mode is over, the invariant kept, and the read starts after its admission cycle |
| `OpusPolicy.CommitWriteOk` | `results/models/opus_multicore/model.cpp:624-628` | committing one buffered write keeps the invariant and removes exactly that write |
| `OpusPolicy.Starve` | `results/models/opus_multicore/model.cpp:499-510` | draining writes between a read's ACT and RD ends and keeps the invariant |
| `OpusPolicy.StarvedReadOk` | `results/models/opus_multicore/model.cpp:495-512` | the pushed RD is at least tRCD after the ACT and its booking keeps the invariant |
| `OpusPolicy.BookRead` | `results/models/opus_multicore/model.cpp:489-515` | a read's booking keeps the invariant and its RD is not before the earliest allowed time |
| `OpusPolicy.ServeRead` | `results/models/opus_multicore/model.cpp:433-528` | a read not forwarded keeps the invariant and completes at least one cycle plus the read latency after admission (where its RD is: `OpusAnswers.PredictAnswers`) |
| `OpusAnswers.PredictAnswers` | `results/models/opus_multicore/model.cpp:394-528` | a write is acknowledged; a read is answered at forward_latency if and only if a write to its address is buffered after the replay; any other completes read_latency after an RD of its bank and bank group that the calendar then holds |
| `OpusAnswers.EveryAnswer` | `results/models/opus_multicore/model.cpp:394-528` | every completion of every run from power-up means that, at its own admission |
| `OpusAnswers.BookedAsEarlyAsPossible` | `results/models/opus_multicore/model.cpp:681-707` | an access that hits no earlier window gets the least legal column time of its open row, or PRE, ACT and column command each as early as the one before, the bank (pre_wait after reads only) and the calendars allow |
| `OpusAnswers.HitIsUsable` | `results/models/opus_multicore/model.cpp:663-680` | the window search finds a window and a slot if and only if that window is of the row, open when the access can issue, followed only by open windows of other rows, and has that least legal slot before its PRE |
| `OpusAnswers.ExtensionExact` | `results/models/opus_multicore/model.cpp:730-746` | a read hit delays its window's PRE to exactly RD + tRTP + pre_wait, never earlier, and every later window keeps its distance from it |
| `OpusAnswers.ReadWaitsForDrain` | `results/models/opus_multicore/model.cpp:433-456` | a read that drains starts after every drained write has left, earlier only by the shift of a joined drain, and no later than that or the next cycle |
| `OpusAnswers.ReadWaitsForBookedDrain` | `results/models/opus_multicore/model.cpp:454-456` | outside write mode a read waits exactly for a booked drain still under way, and otherwise starts in the next cycle |
| `OpusHorizons.ReachableHorizons` | `results/models/opus_multicore/model.cpp:516-518` | over every run no live read command is past its horizon: RDs the column horizon, reads' ACTs the ACT and departure horizons, row hits the departure horizon when slips keep it in step |
| `OpusHorizons.ExtendCovered` | `results/models/opus_multicore/model.cpp:749-758` | a window extension raises the horizons with the commands it moves |
| `OpusDrains.StarveTakesAll` | `results/models/opus_multicore/model.cpp:499-510` | while an activated read waits, every buffered write whose WR would precede the RD and that starts before the next read is taken, and only such ones |
| `OpusDrains.DrainsEarliestFirst` | `results/models/opus_multicore/model.cpp:611-622` | a drain for a read books first the buffered write that can start first |
| `OpusDrains.HighMarkForces` | `results/models/opus_multicore/model.cpp:404-419` | a write forces write mode exactly when the buffer reaches wq_high outside a forced drain, which then starts after the admission |
| `OpusDrains.ForcedDrainFollowsReads` | `results/models/opus_multicore/model.cpp:412-416` | in every run a forced drain starts after all frozen reads: after their RDs, departures or ACTs as drain_after_reads says |
| `OpusDrains.TriggerHitExact` | `results/models/opus_multicore/model.cpp:632-648` | a buffered write is a row hit of the trigger if and only if its row is not the open one and the last window activated by then is of its row and not yet closed |
| `OpusDrains.TriggerHitPlan` | `results/models/opus_multicore/model.cpp:646-654` | such a write takes the least legal WR from tRCD after that window's ACT and opens nothing |
| `OpusDrains.PruneInvisible` | `results/models/opus_multicore/model.cpp:895-903` | pruning forgets no command that could decide the legality of a time from two cycles before the admission on |
| `OpusDrains.PruneExact` | `results/models/opus_multicore/model.cpp:895-903` | for ACTs that bound is exact: every calendar is unaffected if and only if the time is not before it |
| `OpusPruneExample.ReplayPassesPrunedAct` | `results/models/opus_multicore/model.cpp:394-403` | three admissions from power-up after which the replay has booked an ACT one cycle after a pruned one, with tRRD_S 2 |
| `OpusPolicy.Predict` | `results/models/opus_multicore/model.cpp:394-528` | one admission keeps the invariant, records an admitted write exactly once, and returns write_ack, forward_latency or a completion not before the read latency |
| `OpusPolicy.BufferKeepsOk` | `results/models/opus_multicore/model.cpp:401-421` | buffering a write, forcing a drain at the high mark or not, keeps the invariant |
| `OpusPolicy.PruneOk` | `results/models/opus_multicore/model.cpp:895-903` | pruning both calendars keeps the invariant |
| `OpusSlots.ColSlotIsLeast` | `results/models/opus_multicore/model.cpp:850-871` | the column slot is exactly the least time >= t compatible with every live entry, squeeze slack and active exemption included |
| `OpusSlots.ActSlotIsLeast` | `results/models/opus_multicore/model.cpp:873-888` | the ACT slot is exactly the least time >= t at the activation gap from every live entry |
| `OpusSlots.ColJump` | `results/models/opus_multicore/model.cpp:858-867` | jumping past one conflicting entry strictly advances and loses no legal time, so the search ends |
| `OpusSlots.ActJump` | `results/models/opus_multicore/model.cpp:879-884` | the same for ACTs |
| `OpusSlots.FarColIsClear` | `results/models/opus_multicore/model.cpp:853-855` | an entry outside the searched window never conflicts |
| `OpusSlots.ActInsertKeepsSpacing` | `results/models/opus_multicore/model.cpp:723-723` | inserting an ACT at a legal time keeps all pairs spaced |
| `OpusSlots.ColInsertKeepsSpacing` | `results/models/opus_multicore/model.cpp:792-792` | inserting a column command at a legal time keeps all pairs spaced, less the squeeze between reads |
| `OpusCalendar.StableSortSorts` | `results/models/opus_multicore/model.cpp:759-761` | re-sorting orders the calendar and keeps its commands |
| `OpusCalendar.StableSortIdentity` | `results/models/opus_multicore/model.cpp:831-833` | re-sorting a sorted calendar changes nothing |
| `OpusCalendar.StableSortKeepsKeys` | `results/models/opus_multicore/model.cpp:759-761` | re-sorting keeps every command's identity |
| `OpusSlip.LeastAfterIsLeast` | `results/models/opus_multicore/model.cpp:809-814` | the needed time is the least one legal after every earlier command |
| `OpusSlip.SlippedPlaces` | `results/models/opus_multicore/model.cpp:806-830` | exactly the reads up to the stop move, each to the least time legal after all its moved predecessors; the pass stops at a write or at a read already far enough |
| `OpusSlip.SlippedKeepsCommands` | `results/models/opus_multicore/model.cpp:806-830` | no write moves, no read moves earlier, every command keeps its identity |
| `OpusSlip.SlippedOrder` | `results/models/opus_multicore/model.cpp:831-833` | the re-sort is needed if and only if the last moved read passed the booked write that stopped the pass |
| `OpusSlip.SlipRestoresSpacing` | `results/models/opus_multicore/model.cpp:799-834` | with reads only and tCCD_L <= 2 tCCD_S a slip restores the full spacing of the whole calendar |
| `OpusSlip.BandwidthConserved` | `results/models/opus_multicore/model.cpp:796-834` | every squeezed read leaves the whole calendar fully spaced if and only if nothing may be squeezed or two short gaps cover a long one |
| `OpusSlip.SlipStopsTooEarly` | `results/models/opus_multicore/model.cpp:815-815` | otherwise a concrete calendar and read for which the slip stops one read too early |
| `OpusBanks.FindHitIssuesInWindow` | `results/models/opus_multicore/model.cpp:663-680` | a row hit inside an earlier window issues after that window's ACT + tRCD and before its PRE, at a legal column time |
| `OpusBanks.PlanOpenLegal` | `results/models/opus_multicore/model.cpp:694-707` | the planned PRE and ACT respect the bank's limits, each other and the ACT calendar |
| `OpusBanks.OpenedOk` | `results/models/opus_multicore/model.cpp:710-724` | opening a row as planned keeps the bank invariant |
| `OpusBanks.PrechargedOk` | `results/models/opus_multicore/model.cpp:765-773` | a write-mode PRE closes the open window and keeps the bank invariant |
| `OpusBanks.ExtendedOk` | `results/models/opus_multicore/model.cpp:730-743` | shifting a window's PRE and everything after it keeps the bank invariant |
| `OpusTimelineProofs.SlipFromOk` | `results/models/opus_multicore/model.cpp:806-834` | a slip keeps banks, windows and calendars in order |
| `OpusTimelineProofs.PlaceColumnSpaced` | `results/models/opus_multicore/model.cpp:786-793` | with nothing but reads and slipping, placing a read keeps the calendar fully spaced |
| `OpusTimelineProofs.PlaceColumnOk` | `results/models/opus_multicore/model.cpp:786-793` | placing a column command at a legal time keeps the timeline invariant |
| `OpusTimelineProofs.ExtendWindowOk` | `results/models/opus_multicore/model.cpp:730-746` | a window extension keeps the timeline invariant |
| `OpusTimelineProofs.OpenRowOk` | `results/models/opus_multicore/model.cpp:710-724` | opening a row keeps the timeline invariant |
| `OpusTimelineProofs.ApplyBookOk` | `results/models/opus_multicore/model.cpp:661-692` | a committed booking keeps the timeline invariant |
| `OpusTimelineProofs.ApplyWriteOk` | `results/models/opus_multicore/model.cpp:644-657` | a committed write keeps the timeline invariant |
| `OpusTimelineProofs.PlanBookOrder` | `results/models/opus_multicore/model.cpp:661-692` | a booking's commands are in order: earliest <= first <= leave <= column, with tRCD after an ACT |
| `OpusTimelineProofs.BookingAddsOneColumn` | `results/models/opus_multicore/model.cpp:661-692` | a committed booking adds exactly its one column command and, if it opens a row, its one ACT; every other command keeps its identity |
| `OpusTimelineProofs.WriteAddsOneColumn` | `results/models/opus_multicore/model.cpp:644-657` | the same for a buffered write; a row hit at the trigger adds its WR only |
| `OpusTimelineProofs.PrechargeClosesRow` | `results/models/opus_multicore/model.cpp:600-603` | a write that starts without departing has its bank's row open, so the precharge branch closes one |
| `OpusTimelineProofs.PrechargeOk` | `results/models/opus_multicore/model.cpp:765-773` | a write-mode precharge keeps the timeline invariant |
| `OpusModel.LowerBound` | `results/models/opus_multicore/model.cpp:853-854` | binary search finds the first entry at or after a time |
| `OpusModel.UpperBound` | `results/models/opus_multicore/model.cpp:890-893` | binary search finds the first entry after a time |
| `OpusModel.ReservationModel.FindColSlot` | `results/models/opus_multicore/model.cpp:850-871` | the windowed scan returns the least legal column time |
| `OpusModel.ReservationModel.FindActSlot` | `results/models/opus_multicore/model.cpp:873-888` | the windowed scan returns the least legal ACT time |
| `OpusModel.ReservationModel.NeedAt` | `results/models/opus_multicore/model.cpp:809-814` | the backward scan that stops early returns the least time legal after all predecessors |
| `OpusModel.ReservationModel.SlipFromIndex` | `results/models/opus_multicore/model.cpp:806-834` | the in-place slip equals its specification |
| `OpusModel.ReservationModel.Place` | `results/models/opus_multicore/model.cpp:786-793` | placing a column command equals its specification |
| `OpusModel.ReservationModel.ShiftBank` | `results/models/opus_multicore/model.cpp:749-762` | a bank's later entries are shifted, the calendar sorted again and the horizons raised |
| `OpusModel.ReservationModel.ExtendWindowAt` | `results/models/opus_multicore/model.cpp:730-746` | the in-place window extension equals its specification |
| `OpusModel.ReservationModel.PlanOpening` | `results/models/opus_multicore/model.cpp:694-707` | the planned opening equals its specification |
| `OpusModel.ReservationModel.OpenRowAt` | `results/models/opus_multicore/model.cpp:710-724` | opening a row equals its specification |
| `OpusModel.ReservationModel.FinishColumnAt` | `results/models/opus_multicore/model.cpp:778-794` | finishing an access's column command equals its specification |
| `OpusModel.ReservationModel.SearchWindows` | `results/models/opus_multicore/model.cpp:663-680` | the backward window search equals its specification |
| `OpusModel.ReservationModel.Book` | `results/models/opus_multicore/model.cpp:661-692` | a probe changes nothing and returns the same booking a commit would; a commit applies it |
| `OpusModel.ReservationModel.BookWrite` | `results/models/opus_multicore/model.cpp:644-657` | the same for a buffered write, row hits at a drain's trigger included |
| `OpusModel.ReservationModel.CommitWriteAt` | `results/models/opus_multicore/model.cpp:624-628` | one write leaves the buffer and is booked |
| `OpusModel.ReservationModel.PickWrite` | `results/models/opus_multicore/model.cpp:588-597` | probing every write finds the one with the earliest first command and leaves the timeline as it was |
| `OpusModel.ReservationModel.PrechargeBank` | `results/models/opus_multicore/model.cpp:765-773` | a write-mode precharge equals its specification |
| `OpusModel.ReservationModel.AdvanceRound` | `results/models/opus_multicore/model.cpp:573-603` | one round of the loop returns the replay's result or gets strictly closer to it |
| `OpusModel.ReservationModel.AdvanceTo` | `results/models/opus_multicore/model.cpp:571-608` | the replay loop ends with the replay's result |
| `OpusModel.ReservationModel.DrainToLowMark` | `results/models/opus_multicore/model.cpp:442-445` | the drain loop books the writes its specification books and finds their latest departure |
| `OpusModel.ReservationModel.FinishWriteMode` | `results/models/opus_multicore/model.cpp:433-456` | ending write mode equals its specification |
| `OpusModel.ReservationModel.StarveRead` | `results/models/opus_multicore/model.cpp:498-510` | the starvation loop equals its specification |
| `OpusModel.ReservationModel.BookReadAt` | `results/models/opus_multicore/model.cpp:489-515` | a read's booking equals its specification |
| `OpusModel.ReservationModel.BufferWrite` | `results/models/opus_multicore/model.cpp:401-421` | buffering a write equals its specification |
| `OpusModel.ReservationModel.Admit` | `results/models/opus_multicore/model.cpp:394-528` | one admission computes the specified state and completion time |
| `OpusModel.ReservationModel.AdmitAll` | `results/models/opus_multicore/model.cpp:394-528` | a whole sequence of admissions computes the specified run and every completion time |
| `WrapperService.EventDrivenMatchesPolling` | `ramulator/resources/gem5_wrappers/ramulator2_base.cc:261-365` | for every nondecreasing arrival sequence and every memory system meeting the contract, the event-driven and the polling wrapper produce the same history: same controller state at each accepted admission, same arrivals refused, every completion at the same time |
| `WrapperClock.RoomMatters` | `ramulator/resources/gem5_wrappers/ramulator2_base.cc:346-356` | the clause on admissions is needed: a memory system with exact countdowns, and two arrivals after which the edge to be skipped admits a retry, so that skipping it changes the history |
| `WrapperClock.BusyRoomIsHonest` | `ramulator/resources/gem5_wrappers/ramulator2_base.cc:346-356` | an admission may make room if it leaves work behind: such a memory system meets the contract |
| `WrapperClock.QuietStep` | `ramulator/resources/gem5_wrappers/ramulator2_base.cc:262-278` | stepping a certified-idle edge only ticks the controller: nothing completes, nobody retried gets in |
| `WrapperClock.SkipIsCatchUp` | `ramulator/resources/gem5_wrappers/ramulator2_base.cc:273-277` | fast-forwarding over k idle edges equals stepping them one by one |
| `WrapperClock.TicksCountDown` | `ramulator/resources/gem5_wrappers/ramulator2_base.cc:273-277` | after k idle cycles the countdown is exactly k shorter |
| `WrapperClock.StepKeepsBlocked` | `ramulator/resources/gem5_wrappers/ramulator2_base.cc:346-356` | after any step that leaves the controller idle, every port still owed a retry would be rejected again |
| `WrapperClock.OfferKeepsBlocked` | `ramulator/resources/gem5_wrappers/ramulator2_base.cc:432-500` | an offer that leaves the controller idle leaves blocked ports blocked |
| `WrapperClock.CatchUpTwice` | `ramulator/resources/gem5_wrappers/ramulator2_base.cc:281-300` | catching up in two stages equals catching up once |
| `WrapperClock.SpanIsProduct` | `ramulator/resources/gem5_wrappers/ramulator2_base.cc:272-277` | k edges span k periods |
| `WrapperService.ServiceWrapper.SkipIdleCycles` | `ramulator/resources/gem5_wrappers/ramulator2_base.cc:262-278` | skipping moves to the same state as catching up edge by edge and leaves the first edge with work, or the first after now |
| `WrapperService.ServiceWrapper.SynchronizeClock` | `ramulator/resources/gem5_wrappers/ramulator2_base.cc:281-300` | every edge up to now is finished before an admission; the missed-edge and boundary-timestamp panics cannot fire |
| `WrapperService.ServiceWrapper.ScheduleService` | `ramulator/resources/gem5_wrappers/ramulator2_base.cc:303-328` | the service event is armed at the first edge with work and never in the past |
| `WrapperService.ServiceWrapper.Tick` | `ramulator/resources/gem5_wrappers/ramulator2_base.cc:331-365` | a service leaves the state of catching up to now, with the next edge after now and the event re-armed |
| `WrapperService.ServiceWrapper.ReceiveRequest` | `ramulator/resources/gem5_wrappers/ramulator2_base.cc:394-510` | a request meets the controller state of the reference at its arrival |
| `WrapperService.ServiceWrapper.RunTo` | `ramulator/resources/gem5_wrappers/ramulator2_base.cc:331-365` | running the queued services up to a time changes nothing a catch-up to that time would not |
| `WrapperService.ServiceWrapper.Deliver` | `ramulator/resources/gem5_wrappers/ramulator2_base.cc:394-510` | delivering arrivals in time order equals the reference |
| `WrapperService.ServiceWrapper.Finish` | `ramulator/resources/gem5_wrappers/ramulator2_base.cc:331-365` | by any later time everything the reference observes has been observed |
| `WrapperProtocol.ReadIsInOnePlace` | `ramulator/resources/gem5_wrappers/ramulator2_base.cc:431-465` | every read admitted and not rejected is in exactly one place: outstanding, one position of its port's queue, one position among its port's sent responses, or completed without a response |
| `WrapperProtocol.PlacesAreDistinct` | `ramulator/resources/gem5_wrappers/ramulator2_base.cc:524-555` | no position of a port holds two reads |
| `WrapperProtocol.OfferAccounted` | `ramulator/resources/gem5_wrappers/ramulator2_base.cc:433-438` | a fresh token keeps the accounting |
| `WrapperProtocol.RejectAccounted` | `ramulator/resources/gem5_wrappers/ramulator2_base.cc:458-465` | withdrawing a rejected read keeps the accounting |
| `WrapperProtocol.SettledAccounted` | `ramulator/resources/gem5_wrappers/ramulator2_base.cc:446-453` | a completion moves a read from outstanding to answered or dropped and keeps the accounting |
| `WrapperProtocol.SendAccounted` | `ramulator/resources/gem5_wrappers/ramulator2_base.cc:181-193` | taking the front response keeps the accounting |
| `WrapperProtocol.RejectedAdmission` | `ramulator/resources/gem5_wrappers/ramulator2_base.cc:430-506` | a rejected admission during which other requests complete leaves a waiting simulator without a signal if and only if those completions free everything that was outstanding |
| `WrapperProtocol.UnsignalledDrain` | `ramulator/resources/gem5_wrappers/ramulator2_base.cc:477-506` | a run that does: the last outstanding request is a posted write that completes inside an admission that is then rejected |
| `WrapperProtocol.RequestProtocol.StartAdmission` | `ramulator/resources/gem5_wrappers/ramulator2_base.cc:430-438` | a token never used before is entered before the request is offered |
| `WrapperProtocol.RequestProtocol.CompleteRead` | `ramulator/resources/gem5_wrappers/ramulator2_base.cc:444-455` | a completed read leaves the outstanding set and joins its port's queue; drain is signalled exactly when nothing is left and no admission is open, so it never strands the simulator |
| `WrapperProtocol.RequestProtocol.CompleteWrite` | `ramulator/resources/gem5_wrappers/ramulator2_base.cc:477-484` | a completed write leaves the outstanding set; drain is signalled under the same condition |
| `WrapperProtocol.RequestProtocol.AcceptAdmission` | `ramulator/resources/gem5_wrappers/ramulator2_base.cc:487-506` | an accepted admission ends, a deferred signal going out exactly with nothing outstanding, so it never strands the simulator |
| `WrapperProtocol.RequestProtocol.RejectRead` | `ramulator/resources/gem5_wrappers/ramulator2_base.cc:458-465` | a rejected read is withdrawn, once, and its port owed a retry; the simulator is stranded if and only if it was waiting and this was the one thing outstanding |
| `WrapperProtocol.RequestProtocol.RejectWrite` | `ramulator/resources/gem5_wrappers/ramulator2_base.cc:491-498` | the same for a write |
| `WrapperProtocol.RequestProtocol.SendRetry` | `ramulator/resources/gem5_wrappers/ramulator2_base.cc:346-355` | a port owed a retry is told once, and nothing else changes |
| `WrapperProtocol.RequestProtocol.AccessAndRespond` | `ramulator/resources/gem5_wrappers/ramulator2_base.cc:524-556` | a response joins the end of its port's queue and exactly one thing will send it |
| `WrapperProtocol.RequestProtocol.BeginSend` | `ramulator/resources/gem5_wrappers/ramulator2_base.cc:171-180` | the front response is offered, first in first out; the source's two assertions hold |
| `WrapperProtocol.RequestProtocol.SendSucceeded` | `ramulator/resources/gem5_wrappers/ramulator2_base.cc:181-193` | the front response leaves, a further one is scheduled, drain is signalled only with nothing left |
| `WrapperProtocol.RequestProtocol.SendRefused` | `ramulator/resources/gem5_wrappers/ramulator2_base.cc:194-200` | a refused response stays in front awaiting the peer's retry |
| `WrapperProtocol.RequestProtocol.MaybeSignalDrainDone` | `ramulator/resources/gem5_wrappers/ramulator2_base.cc:246-259` | drain is signalled with nothing outstanding and no admission open, and deferred during one |
| `WrapperProtocol.RequestProtocol.EndAdmission` | `ramulator/resources/gem5_wrappers/ramulator2_base.cc:233-243` | a deferred signal is sent if still nothing is outstanding, and none otherwise |
| `WrapperProtocol.RequestProtocol.Drain` | `ramulator/resources/gem5_wrappers/ramulator2_base.cc:560-564` | the simulator need not wait exactly when no request is outstanding and every response queue is empty; told to wait, it is waiting with something left to signal it |
| `GeminiBus.SlotFits` | `results/models/gemini_multicore/model.cpp:246-260` | the chosen slot is separated from both its neighbours and not before the earliest departure |
| `GeminiBus.SlotNeverLate` | `results/models/gemini_multicore/model.cpp:246-260` | the slot is never later than any pairwise-legal one |
| `GeminiBus.SlotIsLeastLegal` | `results/models/gemini_multicore/model.cpp:246-260` | the slot disturbs no booked burst, for every list and burst, if and only if the gaps satisfy the triangle inequality; then it is the least legal slot |
| `GeminiBus.CoverIsTriangle` | `results/models/gemini_multicore/model.cpp:233-244` | seven comparisons of the timings decide the triangle inequality of the directional gaps |
| `GeminiBus.NeighboursSuffice` | `results/models/gemini_multicore/model.cpp:233-271` | under it, separated neighbours mean all pairs are separated |
| `GeminiBus.SlotDisturbs` | `results/models/gemini_multicore/model.cpp:246-260` | without it, a list and a burst whose slot disturbs a booked burst |
| `GeminiExample.DisturbedRun` | `results/models/gemini_multicore/model.cpp:99-230` | with the values the class starts from, five admissions reach a list in which a drained write and a read two places later are closer than their turnaround |
| `GeminiBus.ScheduledSpaced` | `results/models/gemini_multicore/model.cpp:262-271` | scheduling keeps the list sorted and every adjacent pair separated by its directional turnaround |
| `GeminiModel.ServedActs` | `results/models/gemini_multicore/model.cpp:198-229` | consecutive activations of a bank are at least nRC apart, whatever the bus does to the column command |
| `GeminiModel.CommandIsLeast` | `results/models/gemini_multicore/model.cpp:198-211` | the column command time is the least the bank allows: its limits on an open row, tRCD after a legal ACT otherwise, tRP after a legal PRE when another row is open |
| `GeminiModel.ServedRecovers` | `results/models/gemini_multicore/model.cpp:198-224` | every activation of a bank is at least rp after each earlier command of it has recovered (RD + rtp, write burst + wr, ACT + ras, block drain + wr), and column commands to an open row are nCCD_L apart |
| `GeminiModel.FlushedRecovers` | `results/models/gemini_multicore/model.cpp:118-121` | a block drain counts as a command the next activation must wait for |
| `GeminiModel.DrainBlockExact` | `results/models/gemini_multicore/model.cpp:115-121` | a block drain leaves each bank it writes to with the row of the last write, held until that has recovered, and every other bank alone |
| `GeminiModel.DrainKeepsBusyRow` | `results/models/gemini_multicore/model.cpp:315-361` | opportunistic draining never closes the row of a bank with a burst still to send |
| `GeminiModel.DrainedStops` | `results/models/gemini_multicore/model.cpp:315-361` | it stops only with the queue empty, its front not startable, or a drained burst past the limit |
| `GeminiExample.ConflictRun` | `results/models/gemini_multicore/model.cpp:198-224` | with the values the class starts from, a read and a later conflicting read of one bank answer 77 and 1111 |
| `GeminiModel.DrainedConserves` | `results/models/gemini_multicore/model.cpp:315-361` | opportunistic draining moves writes oldest first from the queue to the bus, one burst each, and keeps all booked bursts |
| `GeminiModel.Model.FindBusSlot` | `results/models/gemini_multicore/model.cpp:246-260` | the loop computes the slot |
| `GeminiModel.Model.ScheduleBurst` | `results/models/gemini_multicore/model.cpp:262-271` | the list stays spaced and holds the new burst at its slot |
| `GeminiModel.Model.Serve` | `results/models/gemini_multicore/model.cpp:273-313` | an access keeps the invariant (bus spacing, nRC, precharge recovery, nCCD_L on an open row) and its commands join the bank's history |
| `GeminiModel.Model.DrainOpportunistic` | `results/models/gemini_multicore/model.cpp:315-361` | the loop drains exactly the writes its specification drains and keeps the invariant |
| `GeminiModel.Model.PredictWrite` | `results/models/gemini_multicore/model.cpp:108-126` | a write joins the bounded queue; at the high mark the oldest are flushed in one block |
| `GeminiModel.Model.PredictRead` | `results/models/gemini_multicore/model.cpp:130-229` | a read drains, prunes and is served, keeping the invariant; its RD, the last command of its bank, is t_hit before the completion, which follows any block drain |
| `DeepSeekBus.PassIsEarliest` | `results/models/deepseek_single_core/model.cpp:175-185` | one left-to-right pass finds the earliest free window |
| `DeepSeekBus.ReservedIsCalendar` | `results/models/deepseek_single_core/model.cpp:187-206` | reserving a free window keeps the calendar sorted, disjoint and within 128 entries, with exactly the one evicted missing |
| `DeepSeekBus.InsertedIsCalendar` | `results/models/deepseek_single_core/model.cpp:197-205` | inserting a free window at its place keeps the calendar sorted and disjoint |
| `DeepSeekBus.BusCalendar.Reserve` | `results/models/deepseek_single_core/model.cpp:175-185` | the earliest time >= ready whose interval is disjoint from all remembered reservations, full window included |
| `DeepSeekBus.BusCalendar.Insert` | `results/models/deepseek_single_core/model.cpp:187-206` | the two arrays shifted in place hold the specified calendar |
| `DeepSeekBus.BusCalendar.MakeRoom` | `results/models/deepseek_single_core/model.cpp:197-202` | later reservations move up one place, leaving the new one's place free |
| `DeepSeekBus.BusCalendar.DropEarliest` | `results/models/deepseek_single_core/model.cpp:188-196` | the earliest reservation is dropped |
| `AstraEnvelope.MaxPlusStep` | `results/models/astra_multicore/model.cpp:184-186` | the transfer clock's update computes the max-plus closed form of the longer admission history |
| `AstraEnvelope.MaxPlusIsMaximum` | `results/models/astra_multicore/model.cpp:184-186` | the clock is the maximum over admissions of arrival plus all service from it on |
| `AstraEnvelope.TouchKeepsRecency` | `results/models/astra_multicore/model.cpp:93-102` | updating the table keeps eight distinct rows with their latest times, any absent row last seen no later than every kept one |
| `AstraEnvelope.ServiceEnvelope.constructor` | `results/models/astra_multicore/model.cpp:28-62` | fresh clocks and empty tables meet the invariant |
| `AstraEnvelope.ServiceEnvelope.FindSlot` | `results/models/astra_multicore/model.cpp:93-101` | the row's own entry, or a least recently seen one when absent |
| `AstraEnvelope.ServiceEnvelope.LookUp` | `results/models/astra_multicore/model.cpp:93-102` | a batch hit exactly when the row is kept, recent enough and the bank backlogged; the row is then the most recent |
| `AstraEnvelope.ServiceEnvelope.ChargeChannel` | `results/models/astra_multicore/model.cpp:184-187` | both channel clocks advance; the transfer clock stays the closed form and never exceeds the work clock |
| `AstraEnvelope.ServiceEnvelope.ChargeActivation` | `results/models/astra_multicore/model.cpp:153-163` | the rank and group activation clocks stay the max-plus closed form of the activations charged to them, and the access waits just until both have served the earlier ones |
| `AstraEnvelope.ClocksStep` | `results/models/astra_multicore/model.cpp:160-162` | charging one of several clocks keeps every one the closed form of its history |
| `AstraEnvelope.ReadyBounds` | `results/models/astra_multicore/model.cpp:164-179` | bank readiness is at least the row cost after now, the charge after the old readiness, the group clock and the transfer clock, and the work clock unless it is a read hit |
| `AstraEnvelope.DemandFloor` | `results/models/astra_multicore/model.cpp:108-111` | an access that activates is charged at least rtp + rp + rcd after a read, and the row cycle less the row's age, the whole row cycle otherwise; a hit at least ccd, a write hit twice that; all scaled |
| `AstraEnvelope.WriteRecoveryCharged` | `results/models/astra_multicore/model.cpp:117-138` | on an idle bank a conflicting access pays the preceding write's whole recovery, a later read of its row the write-to-read time |
| `AstraEnvelope.RowCostExact` | `results/models/astra_multicore/model.cpp:72-77` | a hit costs nothing, a first row its activation, another row the precharge less the admission overlap too |
| `AstraEnvelope.DisplacedRowCost` | `results/models/astra_multicore/model.cpp:89-92` | a read back to the row a write displaced costs between nothing and the full cost, with both ends characterised by the backlog |
| `AstraEnvelope.StreakCounts` | `results/models/astra_multicore/model.cpp:140-141` | the streak is the column time of the read hits in a row, up to a row cycle |
| `AstraEnvelope.RunIsAge` | `results/models/astra_multicore/model.cpp:142-196` | at bank scale 1 each read hit ages its row by exactly as much as it moves the bank's readiness on, up to a row cycle |
| `AstraEnvelope.ServiceEnvelope.ChargeGroup` | `results/models/astra_multicore/model.cpp:188-188` | the group clock stays the max-plus closed form of the column work charged to it, and every other group keeps its own |
| `AstraExample.MixedRun` | `results/models/astra_multicore/model.cpp:63-199` | four admissions of a fresh model (a read, a conflicting read, a write, a read back) answer 38, 86, 56 and 85 |
| `AstraEnvelope.ServiceEnvelope.Predict` | `results/models/astra_multicore/model.cpp:63-199` | an admission keeps the invariant, extends the histories of its clocks by itself only, moves bank readiness by at least the least service of `DemandFloor` and the row cost, touches no other bank, and completes a fixed latency after that readiness |
| `MessController.NearestCurves` | `ramulator/ext/mess/mess_mem_ctrl.cpp:474-503` | the two sweeps map every read percentage to a present curve at minimal distance, ties to the lower |
| `MessController.CloserIsNearest` | `ramulator/ext/mess/mess_mem_ctrl.cpp:494-503` | the nearer of the two neighbours is nearest of all curves |
| `MessController.SweepLeft` | `ramulator/ext/mess/mess_mem_ctrl.cpp:482-486` | the nearest present percentage on the left of every slot |
| `MessController.SweepRight` | `ramulator/ext/mess/mess_mem_ctrl.cpp:487-491` | the nearest present percentage on the right of every slot |
| `MessController.FindPoint` | `ramulator/ext/mess/mess_mem_ctrl.cpp:595-615` | a curve of several points never ends at its first; the walk finds the only bracket of the bandwidth |
| `MessController.InterpolationBetween` | `ramulator/ext/mess/mess_mem_ctrl.cpp:617-626` | above the curve's lowest bandwidth the latency lies between those of the two bracketing points |
| `MessController.InterpolationExact` | `ramulator/ext/mess/mess_mem_ctrl.cpp:617-626` | at a measured bandwidth the curve gives the measured latency |
| `MessController.StepBounded` | `ramulator/ext/mess/mess_mem_ctrl.cpp:566-660` | every window keeps 0 <= estimated bandwidth <= global maximum, the overflow factor >= 0 and the latency at or above the lead-off |
| `MessController.SteadyLoadConverges` | `ramulator/ext/mess/mess_mem_ctrl.cpp:566-593` | under a steady load below every saturation point the estimate's error shrinks by the fixed factor each window and no window enters the penalty branch |
| `MessController.SteadyRunConverges` | `ramulator/ext/mess/mess_mem_ctrl.cpp:549-661` | the same for every run of measured windows of the controller, whose overflow penalty then never grows |
| `MessController.SteadyLatencyConverges` | `ramulator/ext/mess/mess_mem_ctrl.cpp:595-651` | under a settled load the smoothed latency's distance from the curve's latency at that load, inflated by the remaining penalty, shrinks by the fixed factor each window; at a measured load that latency is the measured one |
| `MessController.SteadyPenaltyDrains` | `ramulator/ext/mess/mess_mem_ctrl.cpp:634-636` | below every saturation point the penalty falls by 0.01 a window, down to a last hundredth |
| `MessController.OverloadGrows` | `ramulator/ext/mess/mess_mem_ctrl.cpp:569-584` | under sustained overload the estimate converges to the peak, the penalty grows by 0.02 a window, and the latency moves the fixed fraction towards the worst one inflated by it |
| `MessController.Controller.constructor` | `ramulator/ext/mess/mess_mem_ctrl.cpp:411-503` | lead-off is the least latency (at most 100000), the maximum bandwidth the greatest peak, and the table the nearest-curve table |
| `MessController.Controller.Follow` | `ramulator/ext/mess/mess_mem_ctrl.cpp:569-647` | the raw latency and the penalty's update, in both branches |
| `MessController.Controller.Search` | `ramulator/ext/mess/mess_mem_ctrl.cpp:549-661` | one window's feedback computes the specified estimates |
| `MessController.Controller.Access` | `ramulator/ext/mess/mess_mem_ctrl.cpp:701-727` | only a full window changes the latency; over every run the bounds hold and the estimates are those of replaying all full windows from the start |
| `MessController.Percent` | `ramulator/ext/mess/mess_mem_ctrl.cpp:552-557` | the read share rounded half up to a whole percentage in [0, 100] |
| `QueueWindow.WindowedQueue.ComputeQueueDelay` | `ramulator/ext/sniper_wmg1/queue_model_windowed_mg1.cc:22-54` | in-order arrivals are charged exactly the delay recomputed from all history entries no older than the window; the delay lies in [0, window]; out-of-order ones keep the counters exact too |
| `QueueWindow.WindowedQueue.RemoveItems` | `ramulator/ext/sniper_wmg1/queue_model_windowed_mg1.cc:66-76` | the loop leaves exactly the entries not older than the cutoff, with the counters their folds |
| `QueueWindow.WindowedQueue.AddItem` | `ramulator/ext/sniper_wmg1/queue_model_windowed_mg1.cc:57-63` | the multimap gains the item, the counters stay its folds |
| `QueueWindow.CoversStep` | `ramulator/ext/sniper_wmg1/queue_model_windowed_mg1.cc:27-47` | trimming and appending keep the window equal to the recent part of the whole history |
| `QueueWindow.CountsDrop` | `ramulator/ext/sniper_wmg1/queue_model_windowed_mg1.cc:71-73` | the three counters follow a removal modulo 2^64 |
| `QueueWindow.CountsInsert` | `ramulator/ext/sniper_wmg1/queue_model_windowed_mg1.cc:59-62` | the three counters follow an insertion modulo 2^64 |
| `QueueWindow.CountsExact` | `ramulator/ext/sniper_wmg1/queue_model_windowed_mg1.cc:59-62` | a counter is the exact fold if and only if the fold fits |
| `QueueWindow.RecentIsFilter` | `ramulator/ext/sniper_wmg1/queue_model_windowed_mg1.cc:66-76` | the recent part of a history is the multiset of its entries not older than the cutoff |
| `QueueWindow.Delay` | `ramulator/ext/sniper_wmg1/queue_model_windowed_mg1.cc:29-45` | the delay lies in [0, window] and is 0 with at most one arrival |
| `QueueWindow.DelayFormula` | `ramulator/ext/sniper_wmg1/queue_model_windowed_mg1.cc:29-45` | over whole numbers: n q / (2 (W - s)) rounded down, with q the truncated mean square and s the service time in the window W, until s reaches 0.99 W; from there 50 n q / W; at most W |
| `Occurrence.OccIndex` | `chia-loop/src/ramulator_chia/eval/matchlib.py:118-131` | stable sort, running maximum and scatter give every entry the number of equal entries before it |
| `Occurrence.Accumulate` | `chia-loop/src/ramulator_chia/eval/matchlib.py:125-127` | the running maximum turns run heads into run starts |
| `Occurrence.RankIsCount` | `chia-loop/src/ramulator_chia/eval/matchlib.py:128-130` | in stable order the distance from a run's start is the number of earlier equal entries |
| `Occurrence.ArgSort` | `chia-loop/src/ramulator_chia/eval/matchlib.py:120-120` | positions in order of value, equal values in order of position |
| `RequestMatch.JoinExact` | `chia-loop/src/ramulator_chia/eval/matchlib.py:140-140` | an inner join holds a pair exactly when its two rows share a key |
| `RequestMatch.JoinOneToOne` | `chia-loop/src/ramulator_chia/eval/matchlib.py:149-157` | distinct keys on both sides make the join one-to-one |
| `RequestMatch.LegacyPairsExact` | `chia-loop/src/ramulator_chia/eval/matchlib.py:134-140` | occurrence pairing is one-to-one and pairs the k-th read of a place with the k-th; a read is paired exactly when the other trace visits its place often enough |
| `RequestMatch.StablePairsExact` | `chia-loop/src/ramulator_chia/eval/matchlib.py:143-158` | identity pairing is one-to-one and holds exactly the pairs of equal identities |
| `RequestMatch.EligibleIsFilter` | `chia-loop/src/ramulator_chia/eval/matchlib.py:144-145` | the eligible reads are exactly those with an identity, each as often as in the trace |
| `RequestMatch.EligibleConcat` | `chia-loop/src/ramulator_chia/eval/matchlib.py:144-145` | and in its order: cutting the trace cuts them alike |
| `RequestMatch.ConsistentIsFilter` | `chia-loop/src/ramulator_chia/eval/matchlib.py:204-212` | the filter keeps exactly the pairs of one address, each as often as it was paired |
| `RequestMatch.MatchSound` | `chia-loop/src/ramulator_chia/eval/matchlib.py:171-298` | every successful match has consistent counts and mode fields: whole populations, eligible ones, identity mode exactly when both traces carry identities and one is eligible, the filter policy exactly when asked for |
| `RequestMatch.ScoresOnlyConsistent` | `chia-loop/src/ramulator_chia/eval/matchlib.py:204-212` | a stable match never scores a pair whose reads went to different addresses, filtered or not |
| `RequestPayload.MatchScores` | `chia-loop/src/ramulator_chia/eval/metrics.py:334-402` | a match yields a payload the validator accepts if and only if it paired something, some oracle read took time, and scope and timebase are named |
| `RequestPayload.TracesScore` | `chia-loop/src/ramulator_chia/eval/metrics.py:334-402` | the same from two loaded traces |
| `RequestPayload.BuildCounts` | `chia-loop/src/ramulator_chia/eval/metrics.py:154-187` | the validator's population, error and coverage checks pass on every payload built from a match |
| `RequestPayload.BuildMode` | `chia-loop/src/ramulator_chia/eval/metrics.py:189-206` | its match-mode checks pass |
| `RequestPayload.BuildFilter` | `chia-loop/src/ramulator_chia/eval/metrics.py:207-223` | its eligibility and physical-filter checks pass |
| `RequestPayload.PayloadFigures` | `chia-loop/src/ramulator_chia/eval/metrics.py:25-31` | multiplied out, a payload's mean is that of all oracle reads, and mae and sgn are the total magnitude and the total of the matched errors |
| `RequestPayload.PayloadErrors` | `chia-loop/src/ramulator_chia/eval/metrics.py:25-31` | -mae <= sgn <= mae; mae is the size of sgn if and only if no two errors have opposite signs; mae is 0 if and only if every error is |
| `RequestSymmetry.SwapNegates` | `chia-loop/src/ramulator_chia/eval/matchlib.py:171-298` | exchanging the traces matches again, pairs the same reads and negates every error: same total magnitude, opposite total |
| `RequestSymmetry.SwapScores` | `chia-loop/src/ramulator_chia/eval/metrics.py:334-402` | so the two payloads have the same unnormalised mae and opposite unnormalised sgn |
| `CandidateSelection.Select` | `chia-loop/src/ramulator_chia/core.py:162-194` | no candidate of the whole list Pareto-dominates the winner; the winner is the first or dominates it; the log records every comparison; failure exactly on an empty list or an invalid figure |

## Left out

- Opus heuristics that only choose between bookings: expected writebacks (`pending_writebacks`), the next read's
  arrival (Little's law, `RecentSamples`), `mean_latency` and `write_share` are arbitrary inputs of each admission.
- Opus spacing of columns once writes follow slipped reads: not promised by the code; `OpusPolicy.ReachableSpacing`
  names the settings under which live pairs keep their gaps.
- The row of an Opus column command: calendar entries carry none, so `OpusColumns.ReachableColumns` speaks of the bank's
  windows; a write drained between a read's ACT and RD may open another row of the same bank before that RD.
- An upper bound on the Opus write buffer: the code has none.
- Parameter parsing, hardware lookup, default constants, plug-in entry points and the exceptions constructors raise on
  invalid arguments (a nonpositive WMG1 window, malformed Mess curves): these are preconditions of the constructors.
- Gemini's congestion polynomial: an arbitrary nonnegative delay of each read. Its block drain opens rows without an
  activation, as the source does, so nRC is proved between activations only. `last_bus_depart` and `last_was_read` are
  never read and have no counterpart.
- DeepSeek's bank update in `predict`, its rounding and its multicore variant; disjointness from evicted reservations.
- Single-core Astra and Gemini, and the near-duplicate models.
- gem5 mode switching, atomic and functional access, statistics, packet memory and event-queue internals beyond events
  firing in time order.
- The Ramulator controller, scheduler and DRAM command code: a parameter with a contract.
- Mess curve parsing and unit conversion, `GetQsMemLoadCycleLimit` and the 32-bit cast of the returned latency.
- WMG1 totals kept for statistics; overflow of the floating-point delay's conversion to 64 bits.
- Trace loading, observation windows, percentile computation (the 99th percentile is an input), tail thresholds and the
  metric cache; a payload field that is not a finite number is not modelled.
- Campaign drivers, archives, plotting, LLM sessions and process launching: plumbing.
- WrapperProtocol.RequestProtocol.SendRefused: requires that no response was scheduled on the port while its front was
  being offered; the source asserts the same, so a peer that breaks it stops the simulation.
- GeminiModel.Model.PredictRead: the congestion delay is an input, so its contract bounds the completion below only
  through it.
