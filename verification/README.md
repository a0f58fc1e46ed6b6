# Verified model of the sniper

This project models the parts of a Solana launch sniper where a fast or concurrent form has to agree with a
simple one, and proves that it does:

* **Reassembly.** Data shreds arrive in any order; a tracker per slot cuts them into segments at
  DATA_COMPLETE flags, publishes whole segments, and is recycled by clearing only the touched prefix. A second
  path grows a partial buffer per segment, searches only its new bytes for instruction discriminators, and walks
  the serialized entry vector by its length fields, so only matching transactions are decoded.
* **The fire protocol.** Create and buy events are delivered many times; each launch has a watcher that counts
  confirming buys; a gate of two atomics and a queue lets one position be open at a time; a tracker thread
  waits for a buy to land and to close.
* **Arithmetic.** Constant-product pricing with floor division, fees and `u64` casts, and base58 decoding.
* **Leaving and sending.** The exit ladder with its per-position lock, and the compiled transaction that is
  patched in place per launch and stamped per provider.

## Layout

| file | models |
|---|---|
| `Prelude.dfy`, `Arith.dfy` | shared vocabulary; products and floor quotients as opaque terms |
| `WireFormat.dfy` | an encoder and a reference decoder for the entry vector: bincode lengths, compact-u16 arrays, legacy and version-0 messages |
| `Wire.dfy` | the length-field walk of `wire.rs` |
| `Scan.dfy`, `PumpFilter.dfy`, `Detection.dfy` | discriminator search, the create and buy filters, and both together |
| `Tracker.dfy`, `EarlyDetect.dfy`, `Reassembly.dfy` | one tracker, one partial segment, and whole runs of `deshred.rs` |
| `Watch.dfy`, `Sniper.dfy`, `History.dfy` | one launch's watcher, the confirm-mode protocol over redelivered events, and what it accepts and counts read off the events alone |
| `Gate.dfy`, `LiveCycle.dfy` | the position gate under every interleaving, and the tracker's wait |
| `Curve.dfy`, `Selection.dfy`, `Base58.dfy` | pricing, sizing, key decoding |
| `Ladder.dfy`, `Seller.dfy` | leg sizes, and a position sold over interleaved timers, replies and landings |
| `Placeholders.dfy`, `Template.dfy`, `BodyRing.dfy` | offsets, patches, provider stamping, the shared bodies |

Code that updates state in place is a class or a method with loops, and each such method is proved equal to a
function on values; theorems over whole runs are then about those functions.

## Modelling decisions

* Recovery of a FEC set adds arbitrary data shreds; deshredding is concatenation of payloads.
* The clock, RPC answers, prices, wallet balance, and whether seller, nonce and gate let a fire through, are
  inputs of the events, so every theorem holds for all of them.
* Signing is an arbitrary function; keys are numbers or 32-byte strings.
* Concurrency is interleaving of the atomic actions. Reorderings that relaxed loads permit beyond that are not
  modelled; the claim itself is a compare-and-exchange.
* `clamp` panics on reversed bounds, so the watcher requires ordered size bounds. The builder panics on a
  missing or repeated placeholder; the model returns `None` there.
* Where a law fails, a lemma names an input and another states exactly when it holds:

  | law | fails at | holds exactly when |
  |---|---|---|
  | a booked inflow is the greatest the request and the pledge allow | `Watch.NeedCanTruncate` | `Watch.NetIsGreatestInflow` |
  | one launch per creator and day | constructed inside the next | `Sniper.DailyLimitIffNoDayReturns` |
  | the cost of a budget's tokens is its fee-free part | `Selection.CostCanExceedBudget` | `Selection.CostIsExactIff` |
  | the cap sent covers the budget | `Curve.WrappedCapGoesEitherWay` | `Curve.CapCoversBudgetExactly`, `Curve.CapCoversBudgetIffItFits` |
  | a landed force-out leaves nothing | `Seller.UnsettledForceOutCanFail` | `Seller.ForceOutLeavesNothingIff` |
  | both token-program copies read back | `Placeholders.TouchingCopiesAreAccepted` | `Template.TokenProgramReadsBackIff` |
  | the gate can always be freed again | constructed inside the next | `Gate.AlwaysFreedIffDelivered` |
  | non-overlapping search finds every occurrence | constructed inside the next | `Scan.GreedyCompleteIffUnbordered` |

  Selling straight back gains at most one lamport on the live curve at any depth (`Curve.LiveRoundTrip`); for
  any other curve `Curve.RoundTripAtAnyDepth` gives the bound and `Curve.RoundTripBoundIsReached` reaches it.

Where code and comment disagree, the code is followed. The comment at
`shred-sniper/proxy/src/deshred.rs:379-383` says a segment whose start was guessed keeps its deserialization
signal. The guard that should keep it has no effect: a payload without discriminators that the first branch
passes over is accepted by the second (`Reassembly.GuessedStartsArePublishedAlike`), and a segment that does
not deserialize is published from a guessed start (`Reassembly.UnmarkedIsPublishedUnread`).

## Model

| member | source | states |
|---|---|---|
| WireFormat.SegmentRoundTrip | shred-sniper/sniper/src/wire.rs:1-20 | decoding an encoded entry vector, whatever bytes follow it, gives the vector back |
| WireFormat.TransactionDecoded | shred-sniper/sniper/src/wire.rs:61-102 | whatever the reference decoder accepts is the encoding of the transaction it returns, and ends where that encoding ends |
| WireFormat.TransactionLocal | shred-sniper/sniper/src/wire.rs:61-102 | a transaction decodes in a prefix of a buffer exactly when it decodes in the buffer and ends within the prefix |
| WireFormat.FormatsByExample | shred-sniper/sniper/src/wire.rs:20-45 | numbers go low byte first, and compact lengths take one, two or three bytes without a spare one |
| WireFormat.AllTransactionsConcat | shred-sniper/sniper/src/wire.rs:108-137 | the transactions of a vector are those of its entries, in order |
| Wire.ReadCompactU16 | shred-sniper/sniper/src/wire.rs:22-37 | the shifting loop agrees with the reference decoder on every input, malformed ones included |
| Wire.CompactIsCanonical | shred-sniper/sniper/src/wire.rs:22-37 | a value is read exactly when its canonical encoding stands there: padded and oversized forms are refused |
| Wire.TransactionEnd | shred-sniper/sniper/src/wire.rs:61-102 | skipping by length fields stops exactly where a full decode would, and refuses exactly what it refuses |
| Wire.TransactionsAt | shred-sniper/sniper/src/wire.rs:108-137 | the walk returns the transactions whose span holds a hit, in order, or none where the walk cannot pass the last hit |
| Wire.WalkIsFullDecode | shred-sniper/sniper/src/wire.rs:108-137 | on a segment that deserializes, the walk visits exactly the transactions of the full decode, in order |
| Wire.WholeSegmentAnswers | shred-sniper/sniper/src/wire.rs:108-137 | on a whole segment with at least one hit there is an answer, and it is the hit transactions |
| Wire.PrefixAnswersExactly | shred-sniper/sniper/src/wire.rs:108-137 | on any prefix the answer is none or exactly the transactions of the whole that the hits select |
| Wire.AnswersOnceComplete | shred-sniper/sniper/src/wire.rs:108-137 | as soon as the transaction holding the last hit is complete in the prefix, there is an answer |
| Scan.GreedyFindsAll | shred-sniper/proxy/src/deshred.rs:756-770 | non-overlapping search for a needle without self-overlap finds every occurrence |
| Scan.GreedyCompleteIffUnbordered | shred-sniper/proxy/src/deshred.rs:740-770 | such a search is complete on all inputs if and only if no proper prefix of the needle is its suffix |
| Scan.DiscriminatorsAreUnbordered | shred-sniper/sniper/src/pumpfun.rs:57-61 | all searched discriminators are eight bytes, without self-overlap, and different |
| Scan.MarksAre | shred-sniper/proxy/src/deshred.rs:756-768 | outside confirm mode only the two create discriminators are searched for, in it also the three of buys |
| Scan.CreateOffsetsInto | shred-sniper/proxy/src/deshred.rs:756-770 | the searches' shifted results are appended to the given hits and the whole is sorted |
| Scan.CreateOffsets | shred-sniper/proxy/src/deshred.rs:745-749 | one scan of a payload yields every discriminator offset once, in order |
| Scan.RescanFinds | shred-sniper/proxy/src/deshred.rs:927-940 | merging the hits of the new bytes and a seven-byte overlap into the old hits gives the hits of the whole buffer |
| PumpFilter.CreatorOffset | shred-sniper/sniper/src/pumpfun.rs:288-296 | the loop over three length-prefixed strings ends just past the third, or refuses what does not fit |
| PumpFilter.ParseCreate | shred-sniper/sniper/src/pumpfun.rs:180-231 | found exactly when some instruction is a create and every create can be read; then the last create's fields with the last developer buy |
| PumpFilter.ReadCreateInfo | shred-sniper/sniper/src/pumpfun.rs:243-278 | the accounts, creator, token program and flags of one create instruction, or none where an account or the creator is missing |
| PumpFilter.CreateDataReadsBack | shred-sniper/sniper/src/pumpfun.rs:288-354 | for all strings and any trailing bytes, creator, flags and launch-bot host are read back as they were written |
| PumpFilter.ParseBuy | shred-sniper/sniper/src/pumpfun.rs:132-173 | found exactly when no instruction is a create and the first buy can be read; then that buy's fields |
| PumpFilter.BuyDataReadsBack | shred-sniper/sniper/src/pumpfun.rs:152-163 | a classic buy's tokens and cap, and an exact-sol buy's lamports and floor, are read back in their own order |
| PumpFilter.CreateIxReadsBack | shred-sniper/sniper/src/pumpfun.rs:243-278 | a create instruction written account by account is read back into the right fields, in both versions, with the version's own defaults and flags |
| PumpFilter.LastCreateIsLast | shred-sniper/sniper/src/pumpfun.rs:189-231 | of several creates the last is taken |
| PumpFilter.LastDevBuyIsLast | shred-sniper/sniper/src/pumpfun.rs:213-231 | of several developer buys the last that says its amount is taken, and zero without one |
| PumpFilter.WrittenCreateIsFound | shred-sniper/sniper/src/pumpfun.rs:180-231 | an instruction written as a create, under either discriminator, makes its transaction wanted |
| PumpFilter.WrittenBuyIsFound | shred-sniper/sniper/src/pumpfun.rs:132-173 | the first instruction written as a buy, under any of three discriminators, makes its transaction wanted in confirm mode only |
| PumpFilter.KeepConcat | shred-sniper/proxy/src/deshred.rs:725-737 | filtering decides each transaction on its own and keeps their order; buys stay in confirm mode only |
| PumpFilter.WantedIsMarked | shred-sniper/sniper/src/pumpfun.rs:132-240 | every wanted transaction holds a searched discriminator inside its own encoded bytes |
| Detection.CreatesInPayload | shred-sniper/proxy/src/deshred.rs:716-738 | walk and filter together compute the wanted transactions among those hit, or none |
| Detection.FastPathIsFullDecode | shred-sniper/proxy/src/deshred.rs:716-738 | on every segment that deserializes the fast path yields exactly the wanted transactions of the full decode |
| Detection.FastPathOnEncoded | shred-sniper/proxy/src/deshred.rs:1783-1860 | the same for every well-formed entry vector, encoded, with any bytes after it |
| Detection.HandOversExtend | shred-sniper/proxy/src/deshred.rs:927-961 | of two answers on a growing buffer the later extends the earlier |
| Detection.EarlyIsInFullDecode | shred-sniper/proxy/src/deshred.rs:927-961 | what a prefix yields early is a prefix of what the full decode wants |
| Tracker.ShredsStateTracker.Clear | shred-sniper/proxy/src/deshred.rs:71-78 | clearing only up to the high-water mark makes any clean-above tracker equal to a new one |
| Tracker.ShredsStateTracker.MarkTouched | shred-sniper/proxy/src/deshred.rs:61-69 | the mark rises to the index and nothing else changes |
| Tracker.ShredsStateTracker.UpdateStateTracker | shred-sniper/proxy/src/deshred.rs:660-681 | a data shred is stored unless its FEC set is recovered or its place is taken; the whole new state |
| Tracker.ShredsStateTracker.FindSegment | shred-sniper/proxy/src/deshred.rs:602-656 | the two index walks compute the segment function on the tracker's value |
| Tracker.ShredsStateTracker.FindStart | shred-sniper/proxy/src/deshred.rs:847-866 | the backward walk computes the start function on the tracker's value |
| Tracker.ShredsStateTracker.MarkDeshredded | shred-sniper/proxy/src/deshred.rs:469-481 | marks the segment's shreds published and their FEC sets recovered, and raises the high-water mark over both |
| Tracker.ResetIsFresh | shred-sniper/proxy/src/deshred.rs:61-106 | after any history that keeps entries above the mark at their defaults, reset equals new |
| Tracker.UpdateIsSound | shred-sniper/proxy/src/deshred.rs:660-681 | accepting a shred keeps the tracker invariant |
| Tracker.MarkRecoveredIsSound | shred-sniper/proxy/src/deshred.rs:312-317 | marking a FEC set recovered keeps the tracker invariant |
| Tracker.GetIndexesIsExact | shred-sniper/proxy/src/deshred.rs:602-656 | a segment is returned exactly when it ends at the first DATA_COMPLETE, starts at a boundary and is unpublished; both directions |
| Tracker.StartsAgree | shred-sniper/proxy/src/deshred.rs:847-866 | the early path's start equals the segment's known start, and is none when the start is unknown |
| Tracker.SegmentStartIsBoundary | shred-sniper/proxy/src/deshred.rs:847-866 | the early path's start is 0 or the index just after a DATA_COMPLETE shred |
| Tracker.SegmentStartIsExact | shred-sniper/proxy/src/deshred.rs:847-866 | for an unpublished index the early start is s if and only if s is a known boundary and only unfinished shreds lie between; nothing to the right is asked for |
| Tracker.OpenPlacesTake | shred-sniper/proxy/src/deshred.rs:660-681 | a data shred whose set is open and whose place is free is stored with its flag |
| Tracker.ClosedSetsRefuse | shred-sniper/proxy/src/deshred.rs:662-664 | of a closed FEC set no shred is taken |
| Tracker.PublishingClosesSets | shred-sniper/proxy/src/deshred.rs:469-481 | publishing closes exactly the FEC sets of the shreds it publishes |
| Tracker.SegmentIsHeld | shred-sniper/proxy/src/deshred.rs:349-353 | every shred of a returned segment is present, so the unwrap over the range never fails |
| Tracker.PublishIsSound | shred-sniper/proxy/src/deshred.rs:469-481 | publishing keeps the invariant: a published shred that does not end its segment has a published successor |
| EarlyDetect.GrowExtends | shred-sniper/proxy/src/deshred.rs:895-925 | growing a buffer that is the concatenation of shreds from its start keeps it so, up to the first gap or end flag |
| EarlyDetect.GrowIsMaximal | shred-sniper/proxy/src/deshred.rs:903-925 | growth stops exactly at the first published, missing or unreadable shred or past the first end flag, and says which |
| EarlyDetect.EarlySegment.Append | shred-sniper/proxy/src/deshred.rs:895-925 | appends exactly the bytes of the newly contiguous shreds |
| EarlyDetect.EarlySegment.Rescan | shred-sniper/proxy/src/deshred.rs:927-940 | scanning only new bytes leaves the hit list equal to a scan of the whole buffer |
| EarlyDetect.EarlySegment.Advance | shred-sniper/proxy/src/deshred.rs:870-975 | one pass over a segment: its new state, and the hand-over equal to the fast path on the whole grown buffer |
| Reassembly.PrefilterIsRedundant | shred-sniper/proxy/src/deshred.rs:150-233 | a shred that the cheap prefilter drops would not have changed the state |
| Reassembly.TrackersOfRunsAreSound | shred-sniper/proxy/src/deshred.rs:126-525 | in every run all trackers satisfy the invariant and a pooled tracker is as new |
| Reassembly.NoShredPublishedTwice | shred-sniper/proxy/src/deshred.rs:334-482 | over every run with recovery, eviction and recycling, no data shred is in two published segments |
| Reassembly.EvictedStaysOut | shred-sniper/proxy/src/deshred.rs:484-525 | once evicted, a slot is never tracked again |
| Reassembly.HandOversOnlyExtend | shred-sniper/proxy/src/deshred.rs:870-975 | over every run, successive hand-overs of one segment only extend the list |
| Reassembly.EarlyIsInPublished | shred-sniper/proxy/src/deshred.rs:334-482 | over every run, a hand-over that shares a shred with a published segment, guessed start or not, is a prefix of what the fast path finds in it and of what its full decode wants |
| Reassembly.RunsKeepOut | shred-sniper/proxy/src/deshred.rs:903-925 | over every run, no early segment or hand-over reaches into a published segment from before its start |
| Reassembly.ArrivalIsStored | shred-sniper/proxy/src/deshred.rs:150-233 | a data shred of a slot at most 50 behind is held from its arrival on, its FEC set noted, unless the set is closed or the place taken |
| Reassembly.EarlyPassHandsOver | shred-sniper/proxy/src/deshred.rs:887-970 | a pass over an unfinished segment with new bytes hands over what the fast path finds in all its shreds so far |
| Reassembly.UnfinishedSegmentIsHandedOver | shred-sniper/proxy/src/deshred.rs:870-975 | a run hands over all wanted transactions of a segment whose end has not arrived |
| Reassembly.RecoveryStores | shred-sniper/proxy/src/deshred.rs:287-310 | a recovered data shred that was missing is held afterwards and counts as new |
| Reassembly.RecoveryClosesTheSet | shred-sniper/proxy/src/deshred.rs:312-317 | a recovery closes its FEC set exactly when some shred was new |
| Reassembly.NothingNewIsNoRecovery | shred-sniper/proxy/src/deshred.rs:287-317 | a recovery without anything new changes nothing |
| Reassembly.BatchEndEvictsExactly | shred-sniper/proxy/src/deshred.rs:484-525 | past 150 slots exactly those more than 50 behind the highest are evicted, otherwise none |
| Reassembly.BoundedSegmentIsPublished | shred-sniper/proxy/src/deshred.rs:334-482 | a readable unpublished segment from a boundary to an end flag is published at the next attempt if it deserializes or, with the filter on, holds nothing searched for |
| Reassembly.OneShredSegmentIsPublished | shred-sniper/proxy/src/deshred.rs:334-482 | publication does occur: a one-shred segment is published unchanged by the attempt after its arrival |
| Reassembly.GuessedStartsArePublishedAlike | shred-sniper/proxy/src/deshred.rs:379-455 | through all three branches, whether a payload is published does not depend on whether its start was a guess; with the filter on it is published exactly when the fast path answers |
| Reassembly.UnmarkedIsPublishedUnread | shred-sniper/proxy/src/deshred.rs:379-440 | a run publishes, from a guessed start, a non-empty segment that does not deserialize |
| Curve.DeeperPaysAtMostOneMore | shred-sniper/sniper/src/pumpfun.rs:439-458 | landing deeper never pays more than one raw unit extra, despite flooring, the reserve cap and saturation |
| Curve.DeeperCanPayOneMore | shred-sniper/sniper/src/pumpfun.rs:439-458 | the extra unit occurs with the live parameters |
| Curve.PurchasesTelescope | shred-sniper/sniper/src/pumpfun.rs:454-458 | splitting an inflow in two buys the same total, for all `u64` amounts, saturation included |
| Curve.FreshRoundTrip | shred-sniper/sniper/src/position.rs:631-646 | buying on a fresh curve and selling back never returns more than was paid |
| Curve.RoundTripAtAnyDepth | shred-sniper/sniper/src/position.rs:631-646 | from any depth, at most as many lamports are gained as the sol side holds token sides, rounded up; nothing comes back once the curve is sold out or the cap binds |
| Curve.DeepRoundTrip | shred-sniper/sniper/src/position.rs:631-646 | with the sol side no larger than the token side that is at most one lamport |
| Curve.LiveRoundTrip | shred-sniper/sniper/src/position.rs:631-646 | on the live curve the sol side is the smaller one until the reserve cap binds, so at most one lamport is gained at any depth |
| Curve.DeepRoundTripCanGainOne | shred-sniper/sniper/src/position.rs:631-646 | that lamport is gained with the live parameters |
| Curve.RoundTripBoundIsReached | shred-sniper/sniper/src/position.rs:631-646 | with two token sides of sol, a gain of two occurs |
| Curve.SellProceedsAreExact | shred-sniper/sniper/src/position.rs:631-646 | a sell pays exactly the drop of the sol side at the new token side less the fee, each rounded against the seller |
| Curve.FindLeastInflow | shred-sniper/sniper/src/pumpfun.rs:547-560 | the bisection finds the least inflow that buys an amount at a depth |
| Curve.PlanBuyFitsBudget | shred-sniper/sniper/src/pumpfun.rs:477-505 | the least inflow buying the planned amount, plus fees, is within the budget, whatever the margins |
| Curve.PlanBuyIsExact | shred-sniper/sniper/src/pumpfun.rs:477-505 | the amount is the most any affordable inflow buys at that depth with the haircut shaved off, and the cap is the budget raised by the slippage where it fits |
| Curve.CapCoversBudgetExactly | shred-sniper/sniper/src/pumpfun.rs:477-505 | at any slippage the cap covers the budget if and only if the slippage is worth what the cast to `u64` drops |
| Curve.CapCoversBudgetIffItFits | shred-sniper/sniper/src/pumpfun.rs:477-505 | up to 100% slippage that is if and only if the cap fits `u64` |
| Curve.WrappedCapGoesEitherWay | shred-sniper/sniper/src/pumpfun.rs:477-505 | beyond 100% a wrapped cap can cover the budget, or not |
| Curve.ExactSolInFloorIsReachable | shred-sniper/sniper/src/pumpfun.rs:510-528 | the token floor is within what the budget buys at the priced depth |
| Curve.PlanExactSolInIsExact | shred-sniper/sniper/src/pumpfun.rs:510-528 | the whole budget goes in, and the floor is the most it affords at that depth with the slippage shaved off |
| Selection.TokensForBudgetAnswers | rust-native/src/selection.rs:245-261 | when a budget buys tokens and how many, with the fee-free part given by inequalities |
| Selection.CostForTokensAnswers | rust-native/src/selection.rs:264-272 | when tokens have a cost, and which |
| Selection.CostIsExactIff | rust-native/src/selection.rs:233-272 | where both calls answer, the cost of a budget's tokens is its fee-free part if and only if one more lamport on the curve would leave fewer tokens |
| Selection.BudgetAndCostAgree | rust-native/src/selection.rs:233-272 | up to the square root of K the cost of a budget's tokens is its fee-free part exactly, and with fee within one lamport of the budget |
| Selection.BudgetIsNeverUndercharged | rust-native/src/selection.rs:245-272 | at every depth the cost is at least the fee-free part |
| Selection.CostCanExceedBudget | rust-native/src/selection.rs:245-272 | beyond the square root, 72 tokens bought with 80 lamports cost 81 |
| Base58.Decode32 | rust-native/src/selection.rs:342-368 | succeeds exactly on strings of alphabet characters whose base-58 value is below 2^256, with that value's 32 big-endian bytes |
| Base58.MulAdd | rust-native/src/selection.rs:352-364 | the column loop multiplies the number by 58 and adds a digit; what does not fit is the carry |
| Base58.DigitTable | rust-native/src/selection.rs:343-350 | the table maps every ASCII byte to its digit or to none |
| Watch.LaunchWatch.constructor | shred-sniper/sniper/src/confirm.rs:346-357 | a watcher opens at 30 SOL plus the developer's net |
| Watch.LaunchWatch.FireNow | shred-sniper/sniper/src/confirm.rs:368-382 | closes the watcher and fires unless the curve is at the cap; the whole new state |
| Watch.LaunchWatch.OnBuy | shred-sniper/sniper/src/confirm.rs:393-457 | one buy takes the watcher's value to the next and answers as the step function says |
| Watch.PledgeIsDiscounted | shred-sniper/sniper/src/confirm.rs:413-415 | the pledge booked is the amount less pad and less the 125 bps fee, bounded from both sides |
| Watch.PledgeIsBookedOtherwise | shred-sniper/sniper/src/confirm.rs:416-430 | exact-sol buys, buys of nothing and requests at or over the curve book the whole pledge |
| Watch.NeedIsGreatestInflow | shred-sniper/sniper/src/confirm.rs:422-428 | the inflow computed for a classic buy is the greatest that draws no more tokens than asked for |
| Watch.NetIsGreatestInflow | shred-sniper/sniper/src/confirm.rs:413-431 | the booked inflow is the greatest within request and pledge if and only if the `u64` cast keeps the need or leaves it at the pledge |
| Watch.NeedCanTruncate | shred-sniper/sniper/src/confirm.rs:425-428 | a request for all but one token makes the cast lose bits and the inflow is booked too low |
| Watch.InflowWithinPledges | shred-sniper/sniper/src/confirm.rs:413-434 | over any buys the booked inflow is at most the pledged net |
| Watch.LedgerIsExact | shred-sniper/sniper/src/confirm.rs:393-457 | until settled, the watcher equals 30 SOL plus developer net plus all booked nets, clipped only where `u64` ends, with exact count and avoid flag |
| Watch.AnswersAreTheVerdict | shred-sniper/sniper/src/confirm.rs:393-457 | every buy's answer from the history alone: watching before the first trigger, the verdict at it, dead after |
| Watch.FiresAtMostOnce | shred-sniper/sniper/src/confirm.rs:368-457 | over any buys at most one fires |
| Watch.MainFireIsEarned | shred-sniper/sniper/src/confirm.rs:446-455 | a main fire has both thresholds, no listed buyer so far, depth under the cap, budget within bounds, and exact prior flow |
| Watch.BudgetIsProportional | shred-sniper/sniper/src/confirm.rs:451-453 | a size above the lower bound is at most the ratio of the flow, and one a step under the upper bound is less than a step below it |
| Watch.BudgetWithinBounds | shred-sniper/sniper/src/confirm.rs:451-453 | clamping, snapping to a tenth of a SOL and the lower bound leave the size within bounds |
| Sniper.Session.DevIsFresh | shred-sniper/sniper/src/confirm.rs:486-499 | fresh exactly when unseen this UTC day and not in a loaded historical table; the creator is marked either way |
| Sniper.HotSniper.SealOldSlots | shred-sniper/sniper/src/lib.rs:770-785 | on a later slot, launches two or more slots old go and an overfull dedup set is cleared; otherwise nothing |
| Sniper.HotSniper.ConfirmRegister | shred-sniper/sniper/src/lib.rs:600-693 | a create takes the whole state to the next as the step function says |
| Sniper.HotSniper.TakeBuy | shred-sniper/sniper/src/lib.rs:698-765 | a buy takes the whole state to the next as the step function says |
| Sniper.RedeliveryIsNoOp | shred-sniper/sniper/src/lib.rs:600-785 | repeating a create delivered before, or a buy delivered while its launch waited, changes no state and fires nothing |
| Sniper.RedeliveriesAreInvisible | shred-sniper/sniper/src/lib.rs:600-785 | a run with any number of redeliveries ends in the same state, with the same registrations and fires, as the run without them |
| Sniper.SeenIsMints | shred-sniper/sniper/src/lib.rs:609-615 | up to 50,000 launches, the dedup set is exactly the launches delivered |
| Sniper.OneLaunchPerCreatorAndDay | shred-sniper/sniper/src/confirm.rs:484-499 | while no day returns after another, two launches accepted for one creator are on different UTC days, whatever is cleared |
| Sniper.DailyLimitIffNoDayReturns | shred-sniper/sniper/src/confirm.rs:484-499 | all runs with given clock readings keep that limit if and only if no day returns in the readings |
| Sniper.EachLaunchFiresOnce | shred-sniper/sniper/src/lib.rs:600-785 | up to 50,000 launches, each is accepted at most once and fires at most once |
| Sniper.FireRestsOnDistinctBuys | shred-sniper/sniper/src/lib.rs:698-765 | a fire by a buy is the watcher's answer to distinct signatures, all of the launch and of the slot its create came in |
| Sniper.MainFireIsConfirmed | shred-sniper/sniper/src/lib.rs:698-765 | a main fire has the required number of distinct unlisted confirming buys and their sum behind it, and its plan is priced on top of all of that flow |
| Sniper.MainFirePaysWithinBounds | shred-sniper/sniper/src/lib.rs:728-748 | what a main fire asks for costs, at the depth of all the flow counted ahead of it and with fees, at most the upper size bound |
| Sniper.CreateFireIsPriced | shred-sniper/sniper/src/lib.rs:658-682 | a fire on the create plans the configured amount behind the developer's buy, priced exactly, and is sent if and only if allowed and not empty |
| Sniper.BuyFireIsPriced | shred-sniper/sniper/src/lib.rs:725-748 | a fire on a buy plans the watcher's budget behind all the flow it counted, priced exactly, and is sent if and only if allowed and not empty |
| Sniper.GraceEnds | shred-sniper/sniper/src/lib.rs:770-777 | moving on to a later slot leaves no launch waiting from two or more slots back |
| Sniper.RegistrationThins | shred-sniper/sniper/src/lib.rs:684-692 | registering keeps all other launches, except that past 4,096 those of older slots go |
| Sniper.MemoryIsBounded | shred-sniper/sniper/src/lib.rs:614-616 | at most 50,000 launches are remembered, and a later slot leaves at most 4,097 buys marked |
| Sniper.FollowedBuyFires | shred-sniper/sniper/src/lib.rs:698-765 | a followed buyer in the create's slot fires a selected launch if and only if the depth reached stays below the cap |
| History.AcceptedExactly | shred-sniper/sniper/src/lib.rs:600-693 | from the events alone and whatever the clock does, exactly which creates are accepted: first delivery, the creator's first since the day began, unknown to the loaded history, and every selection gate passed |
| History.SessionOfRuns | shred-sniper/sniper/src/confirm.rs:484-499 | the session's creators are exactly those with a launch delivered since the day began |
| History.UsedUpOnUnbrokenDays | shred-sniper/sniper/src/confirm.rs:484-499 | where no day returns, that is any earlier launch of the creator on that day |
| History.LaunchWaitsThroughGrace | shred-sniper/sniper/src/lib.rs:767-785 | a registered launch keeps waiting through its slot and the next, until its counted buys settle it |
| History.EveryConfirmingBuyCounts | shred-sniper/sniper/src/lib.rs:698-725 | a buy in the create's slot, delivered after it while the launch is unsettled, is counted, now or by an earlier delivery: reordering by one slot undercounts nothing |
| History.BuyFiresExactly | shred-sniper/sniper/src/lib.rs:698-765 | a buy fires if and only if it counts, settles its launch, and the verdict on all the launch's counted buys is a fire; it then fires that verdict |
| Gate.PositionGate.MayFire | shred-sniper/sniper/src/position.rs:134-144 | true exactly when armed and, in sync mode, not busy |
| Gate.PositionGate.Claim | shred-sniper/sniper/src/position.rs:149-156 | wins exactly when free, and then holds the slot |
| Gate.PositionGate.Opened | shred-sniper/sniper/src/position.rs:160-167 | queues the position, or lowers `busy` when the queue is full |
| Gate.OnePositionAtATime | shred-sniper/sniper/src/position.rs:123-307 | under every interleaving `busy` holds exactly while one position is in flight, the latest claimed; all before it are closed |
| Gate.HandOverAlwaysFits | shred-sniper/sniper/src/position.rs:160-167 | the queue never exceeds one and is empty at every hand-over |
| Gate.DisarmedThreadsClaimOnce | shred-sniper/sniper/src/position.rs:134-156 | after disarming, a thread completes at most one claim, and only if its load of `armed` came before |
| Gate.ClaimMayFollowDisarm | shred-sniper/sniper/src/position.rs:134-156 | that claim does occur |
| Gate.TestSessionIsBounded | shred-sniper/sniper/src/position.rs:284-305 | a test session never completes more trips than configured plus one per detect thread |
| Gate.ArmedExactly | shred-sniper/sniper/src/position.rs:250-305 | the gate is armed if and only if no landed live position closed under the bankroll floor and, in a test session, fewer trips landed than configured |
| Gate.SoleThreadNeverLosesItsClaim | shred-sniper/sniper/src/lib.rs:871-877 | with one detect thread the slot is still free at its claim |
| Gate.WedgedForGood | shred-sniper/sniper/src/lib.rs:949-952 | without providers, outside ghost mode, a claim is never released and no further one succeeds |
| Gate.AlwaysFreedIffDelivered | shred-sniper/sniper/src/lib.rs:919-966 | from every reachable state the gate can be freed, if and only if in ghost mode or with a provider |
| LiveCycle.Cycle | shred-sniper/sniper/src/position.rs:317-436 | the loop stops at the first poll that settles the position, with its verdict, and otherwise keeps turning |
| LiveCycle.LandedWasSeen | shred-sniper/sniper/src/position.rs:380-435 | landed is reported only after the account was seen and never on an RPC error; lost only if it was never seen; gone after seen always settles |
| LiveCycle.LandedExactly | shred-sniper/sniper/src/position.rs:404-430 | landed exactly when seen before and gone now, or still there longer than the hold ceiling after first seen |
| LiveCycle.LostExactly | shred-sniper/sniper/src/position.rs:345-435 | lost exactly when never seen and past the buy timeout, or six seconds past an accepted nonce kill tried once after its delay |
| LiveCycle.ErrorsAfterLandingAreIgnored | shred-sniper/sniper/src/position.rs:380-401 | leaving out every failed poll after the landing changes no verdict |
| Ladder.DecideLegSize | src/pumpFun/ladder.ts:53-83 | within the balance; final exactly when it sells all; otherwise leaves more than dust; force-out and stop sell all; a stop-check sells nothing |
| Ladder.DecideLegSizeCurve | src/pumpFun/ladder.ts:104-133 | within the balance; final exactly when it sells all; otherwise leaves more than dust; force-out sells all |
| Ladder.FixedLegSells | src/pumpFun/ladder.ts:60-82 | above the stop a leg sells its fraction of the original, the moon fraction at or above the moon, and everything rather than leave dust |
| Ladder.CurveLegSells | src/pumpFun/ladder.ts:104-133 | each price tier's share, of the original or of the remainder, with everything rather than dust |
| Ladder.DearerSellsLess | src/pumpFun/ladder.ts:104-133 | above the stop a dearer position never sells more |
| Seller.OpenPosition.Begin | src/pump.ts:322-332 | takes the lock exactly when the position is tracked, open and unlocked |
| Seller.OpenPosition.Resume | src/pump.ts:333-367 | after the reads: the whole new record, and a sell within the balance that closes exactly when it sells all |
| Seller.OpenPosition.Answered | src/pump.ts:384-423 | after the reply: the whole new record, with the lock released and retries capped |
| Seller.TokensAreConserved | src/pump.ts:296-456 | under every interleaving the lock is held by exactly the one suspended call, so one send at most is in flight, and retries stop after nine failures; the chain's own ledger stays balanced |
| Seller.KeptUntilClosedOrStuck | src/pump.ts:408-423 | over every run a position is given up if and only if a check found it closed or nine final sells failed, and failures are counted exactly |
| Seller.FixedLegSubmits | src/pump.ts:350-364 | above the stop a leg submits its share of the original position |
| Seller.CurveLegSubmits | src/pump.ts:350-364 | a price-conditional leg submits what its tier says of the original position and the balance read |
| Seller.FinalLegIsChecked | src/pump.ts:368-370 | an answered final sell marks the position done and has the account checked |
| Seller.CheckReopens | src/pump.ts:426-445 | a check that still finds more than dust reopens the position and starts a force-out; any other gives it up |
| Seller.SettledSellsFit | src/pump.ts:333-423 | if sells are settled before each read, the one undecided sell always fits the account |
| Seller.LandedSellsAreExact | src/pump.ts:333-423 | then a landed sell moves exactly its tokens: a final one leaves nothing, any other more than dust |
| Seller.ForceOutLeavesNothingIff | src/pump.ts:333-367 | a force-out on an account above dust leaves nothing, however undecided sells are decided ahead of it, if and only if each of those would fail, sell nothing or sell everything |
| Seller.LandedForceOutLeavesNothing | src/pump.ts:296-365 | a force-out that reads and lands sells all and closes the account |
| Seller.HonestRepliesKeepTheBooks | src/pump.ts:333-423 | if submits are answered truthfully, then however many balance reads fail the record agrees with the account and every sell fits it |
| Seller.UnsettledForceOutCanFail | src/pump.ts:333-423 | a read before the last sell is decided can size a force-out that the chain refuses |
| Placeholders.FindAll | shred-sniper/sniper/src/template.rs:457-467 | every offset of the needle, overlapping ones included, in order |
| Placeholders.FindUnique | shred-sniper/sniper/src/template.rs:470-483 | the only offset; none when missing or repeated |
| Placeholders.Find | shred-sniper/sniper/src/template.rs:256-258 | a field's offset in the transaction, none exactly when it does not stand there once |
| Placeholders.FindPair | shred-sniper/sniper/src/template.rs:259-268 | the two offsets of a placeholder, none exactly when it does not stand there twice |
| Placeholders.Locate | shred-sniper/sniper/src/template.rs:256-288 | an offset table exactly when every placeholder stands once and the token program twice |
| Placeholders.BytesNameTheirField | shred-sniper/sniper/src/template.rs:100-118 | placeholders are written in disjoint alphabets |
| Placeholders.FieldsNeverOverlap | shred-sniper/sniper/src/template.rs:256-288 | ranges of different fields never overlap, whatever else the message holds |
| Placeholders.CopiesOverlapIffAdjacent | shred-sniper/sniper/src/template.rs:259-268 | the two token-program copies overlap exactly when their offsets differ by one |
| Placeholders.CompiledCopiesAreApart | shred-sniper/sniper/src/template.rs:243-268 | in a compiled message with one copy among the account keys and one in instruction data, the copies are at least 64 bytes apart |
| Placeholders.TouchingCopiesAreAccepted | shred-sniper/sniper/src/template.rs:256-288 | the search accepts some message whose two copies overlap |
| Template.PatchBytes | shred-sniper/sniper/src/template.rs:302-322 | the range takes the bytes and everything else keeps its own |
| Template.BuyTemplate.PatchLaunch | shred-sniper/sniper/src/lib.rs:846-864 | a fire's patches in source order leave the bytes that the patch list describes |
| Template.PatchesCommute | shred-sniper/sniper/src/template.rs:302-322 | patches over different ranges commute |
| Template.LaunchReadsBack | shred-sniper/sniper/src/lib.rs:846-864 | after a fire every launch field reads back |
| Template.TokenProgramReadsBackIff | shred-sniper/sniper/src/template.rs:313-317 | both copies read back for every launch if and only if their offsets do not differ by one |
| Template.FireOwesNothingToThePast | shred-sniper/sniper/src/lib.rs:846-864 | the bytes after a fire are the same whatever was fired before, even with overlapping ranges |
| Template.Stamp | shred-sniper/sniper/src/sender.rs:991-1014 | the reused buffer holds exactly the stamped and signed body on its length, with no trace of earlier jobs; impossible lengths are skipped |
| Template.ProvidersAgree | shred-sniper/sniper/src/sender.rs:999-1004 | two providers' messages of one launch agree at every byte outside tip account, tip and compute-unit price |
| Template.SentTransactionIsComplete | shred-sniper/sniper/src/sender.rs:999-1014 | what is sent carries every value of its own launch, the nonce included |
| Template.SentFields | shred-sniper/sniper/src/sender.rs:999-1014 | field by field at its own offset, numbers decoded: what is sent carries its launch's fifteen fields and its provider's tip account, tip and price |
| Template.CompiledTransactionIsComplete | shred-sniper/sniper/src/sender.rs:999-1014 | in a compiled message that holds for every field, both token-program copies included |
| Template.ProviderFieldsAreSent | shred-sniper/sniper/src/sender.rs:999-1004 | and its own provider's tip account, tip and price |
| Template.SignatureCoversMessage | shred-sniper/sniper/src/sender.rs:1010-1011 | the signature sent is that of the message sent |
| BodyRing.Ring.FillBody | shred-sniper/sniper/src/lib.rs:518-538 | the body handed out holds the template; every body a sender still holds keeps its bytes |

## Left out

- Reed-Solomon recovery, merkle proofs, shred parsing and `Shredder::deshred`: external code.
- That every complete segment is eventually published: the code does not guarantee it, so only safety is proved.
- Reassembly.NoShredPublishedTwice: runs are over values; the aliasing of trackers inside the slot map is not modelled. The order of stages within a batch is generalised: any order of possible events.
- Sniper.EachLaunchFiresOnce: one detect thread and at most 50,000 launches; past that the source clears its set.
- Sniper.RedeliveriesAreInvisible: at most 50,000 launches and 4,096 buy signatures, the sizes at which the source clears its sets.
- Sniper.HotSniper.ConfirmRegister: the whitelist path and metrics; the rug coefficient is compared as a real, without float rounding.
- History.EveryConfirmingBuyCounts: at most 4,096 launches, so that the source does not thin out its waiting launches, and no other launch's buy sharing the eight signature bytes kept.
- History.LaunchWaitsThroughGrace: at most 4,096 launches, past which the source thins out waiting launches of older slots.
- Watch.LaunchWatch.OnBuy: the buy counter is unbounded, where the source's `u32` would overflow after four billion buys of one launch.
- Gate.OnePositionAtATime: a live tracker; a stop request that drops a queued position is not modelled.
- LiveCycle.Cycle: whether the loop ever ends; under endless RPC errors after a landing the source does not bound it.
- Ladder.DecideLegSize: fractions and multiples are reals, so floating-point rounding is not modelled; `valueMultiple` and `parseLegs` are inputs.
- Seller.TokensAreConserved: orphan reconciliation, which registers a new position for a bag found on chain, and the termination of retries when submits succeed but never land.
- Template.BuyTemplate.PatchLaunch: key derivation and the vault cache; the launch's keys are given.
- The ghost cycle's pricing, the bankroll balance read, seed tables, tips sized from a floor feed.
- Sockets, TLS, HTTP, gRPC, RPC clients, redis, telegram, raydium and jito wrappers, configuration, logging, `rust-native/src/strategy.rs`: no logic of this kind, or an older copy of what is modelled.
