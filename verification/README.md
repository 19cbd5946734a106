# Order book and Smart Intents: a Dafny model

This project models two machines of the exchange back end and the integer arithmetic between them,
and proves what they promise.

**The desk.** `OrderBookService` keeps price-time sorted books in memory and mirrors every change
into order rows and a trade log. Fills come from market orders, from reconciliation of on-chain
transactions and from a block watcher that may scan blocks again. `Levels`, `Sweep`, `Desk`,
`Coherence`, `DeskOutcomes`, `TimePriority` and `Rehydration` describe books, operations, what they keep
and what they leave; `OrderBooks` is the service and its repository as they run. `Placement`,
`OrdersPlacement`, `Acceptance` and `Amounts` cover the way from a signed 0x order to a resting level,
`Quotes` what a quote is made of, `Resubmission` the same signed order handed in twice,
`DelegatedSpend` the estimate of what a sweep costs. `FillScan`, `FillWatcher`, `CancelScan` and
`CancelWatcher` are the two block watchers, `WatchedFills`, `FillsOnce` and `CancelEffects` say what
fills and cancels seen on chain leave behind, `Floors` and `Signatures` are the cancel-pair floors and
the stored signature bytes.

**Smart Intents.** An intent row moves by guarded updates only. `Intents` and `IntentStore` hold
those updates, `Sea` and `SeaServices` the service calls, monitor and sweepers, `IntentFiring` and
`Readiness` the two ways an intent is carried out, `FiredOrders` what a fired one guarantees its owner,
`OwnerConsent` and `IntentRules` the exact conditions of every call and tick, `Tokens` the keyed hashes. `Protocol` is the
timed machine in which a call and its clock reading are one step; `ProtocolSafety` and
`ProtocolTheorems` prove its invariant and guarantees, `ProtocolRuns` shows runs in which they end,
`Reverts` follows reverted transactions through both machines. `Interleaving` and `InterleavingSafety`
take the same calls apart into single database operations and prove what survives every interleaving;
`SerialCalls` shows that a call that runs alone is the whole operation again, and `MissWindow` says when
marker and watcher miss each other.

Conventions. Every method states the new state as an operation on values (`CancelOp`,
`LockWalletOp`, `TickOp`, ...), and the lemmas are about those operations. Times are milliseconds;
order timestamps, trades and rows carry what later decisions read. HMAC-SHA-256 (section 2 of
RFC 2104) is an ideal hash: equal outputs only for equal keys and messages, text in base64url
(section 5 of RFC 4648). A presented token is assumed unforged: handed out before, or no hash under
the secret. Hashing, signature recovery, dates and provider answers are parameters.

Where the code falls short of its documentation the model follows the code and says exactly when:

- A tick-aligned price can be booked at another tick when one tick of the order's size is worth less
  than a quote unit (`Placement.NeverMisbookedIff`, `Placement.ThirteenIsBookedAtTen`).
- Placing a known hash breaks the agreement of book and row unless the row still has the same market,
  side, price and base, and a failed placement of it breaks it when the order rests under another market
  (`Coherence.PlaceKeepsIff`, `OrdersPlacement.PlacementKeepsIff`). The order endpoint looks for no row:
  an order filled in part and handed in again, unless it is passive and would cross, has its whole size
  back on the book (`Resubmission.ResubmittedAfterPartialFill`, `Resubmission.ResubmittedAsk`).
- The comment on wallet locks promises the same token to a repeated request; a request that spells
  the time differently from the service is refused instead (`ProtocolTheorems.RetryRepeatsIff`,
  `ProtocolRuns.RetryIsRefused`).
- The monitor and the marker may both act on a locked row from its expiry to the end of the marker's
  grace, since the marker never looks at the expiry, and at the last instant of the grace
  (`ProtocolRuns.BothMayActIff`, `ProtocolRuns.BothDoAct`).
- Two intents of one owner on one transaction: a fill closes one of them
  (`ProtocolTheorems.MarkThenWatchIff`, `ProtocolRuns.OneFillClosesOneIntent`).
- One database call at a time, marker and watcher miss each other when both look too early
  (`MissWindow.MarkerAndWatcherMissIff`, `InterleavingSafety.MarkerAndWatcherCanMiss`).
- The fill watcher's cursor goes back whenever a tick sees a head below it
  (`FillScan.CursorFollowsTheHeadDown`).
- An order filled in part does not come back after a restart (`Rehydration.SurvivesRestartIff`,
  `Rehydration.PartFilledIsLost`, `Rehydration.HalfSoldAskIsLost`).
- Placement puts no upper bound on an attached fee, so the spend estimate can fall short
  (`DelegatedSpend.WholeOrderCoveredIff`, `DelegatedSpend.AttachedFeeEscapes`).
- With signature checks skipped, firing looks up one hash and places under another, and may break that
  agreement too (`IntentFiring.FiringKeepsIff`, `IntentFiring.SkippedChecksBreakCoherence`).

## Model

| member | source | states |
|---|---|---|
| Levels.PushThenSort | apps/api/src/matching/orderbook.service.ts:52-65 | Pushing an order on a sorted side and re-sorting with the comparator is one stable insertion: equal orders keep arrival order |
| Levels.InsertSorted | apps/api/src/matching/orderbook.service.ts:52-65 | Insertion keeps the side sorted by price, then time |
| Sweep.PlanFillsExactly | apps/api/src/matching/orderbook.service.ts:430-488 | A capped quote fills exactly min(size, all depth at or better than the cap) |
| Sweep.EarlyBreakIsFilter | apps/api/src/matching/orderbook.service.ts:430-437 | Stopping at the first level past the cap equals filtering every level |
| Sweep.PlanIsOptimal | apps/api/src/matching/orderbook.service.ts:430-488 | No other allocation of the same base over the side is cheaper for a buyer or dearer for a seller, cap or no cap |
| Sweep.FlooredWithinFillCount | apps/api/src/matching/orderbook.service.ts:441-446 | The per-fill floored total loses less than one quote unit per fill against the exact notional |
| Sweep.ResidueConserves | apps/api/src/matching/orderbook.service.ts:504-555 | Order by order, what a sweep leaves plus what the quote fills is what was there |
| Sweep.ResidueGood | apps/api/src/matching/orderbook.service.ts:504-555 | A swept side stays sorted, with distinct ids and positive sizes |
| TimePriority.PlacedJoinsTheBack | apps/api/src/matching/orderbook.service.ts:344-396 | When no resting order claims to have come after now, an order accepted now is the last of its price on its side, and at every price of either side the others keep their order |
| TimePriority.PlacedLevel | apps/api/src/matching/orderbook.service.ts:365-390 | An accepted ticket leaves one level with its maker, side, price and size and the time now; every other level of the market stays |
| TimePriority.PlacedRow | apps/api/src/matching/persistence.repository.ts:286-340 | Its row is new with all its terms, placed now, or the old one with only the status reset; no other row and no trade changes |
| TimePriority.ClockStaysAhead | apps/api/src/matching/orderbook.service.ts:52-65 | Along any history whose clock does not run backwards no resting order of any market claims to have come after the clock |
| TimePriority.NewcomersWaitTheirTurn | apps/api/src/matching/orderbook.service.ts:52-65 | So after any such history the next accepted order is the last of its price |
| TimePriority.FrontIsServedFirst | apps/api/src/matching/orderbook.service.ts:430-488 | A sweep gives nothing to a level before every level in front of it is filled whole |
| Coherence.MarketRefinesQuote | apps/api/src/matching/orderbook.service.ts:504-555 | Market gives the fills and remainder of an unlimited quote on the same book and leaves the book minus those fills; requested is fills plus remainder |
| Coherence.MarketSettlesRows | apps/api/src/matching/orderbook.service.ts:504-555 | Every row gives up exactly what was filled against it; one trade per fill, in order |
| Coherence.OneHomePerId | apps/api/src/matching/orderbook.service.ts:344-396 | On a coherent desk an id rests in one market, on one side, once |
| Coherence.CancelKeeps | apps/api/src/matching/orderbook.service.ts:580-597 | Cancel keeps coherence and reports whether the order rested |
| Coherence.HydrateKeeps | apps/api/src/matching/orderbook.service.ts:168-203 | Injecting a level backed by its row keeps coherence |
| Coherence.AttachRawKeeps | apps/api/src/matching/orderbook.service.ts:123-166 | Attaching a raw order keeps coherence |
| Coherence.MarketKeeps | apps/api/src/matching/orderbook.service.ts:504-555 | A market order keeps coherence |
| Coherence.PlaceKeepsIff | apps/api/src/matching/orderbook.service.ts:344-396 | Placement keeps book and rows coherent if and only if the hash is new or its row already says the same |
| Coherence.ExternalFillKeepsIff | apps/api/src/matching/orderbook.service.ts:205-298 | An external fill keeps coherence if and only if the order does not rest under another market |
| Coherence.RetractKeepsIff | apps/api/src/matching/orders-placement.service.ts:276-293 | Cancelling book and row together keeps coherence if and only if the order does not rest under another market |
| Coherence.SweepExpiredKeeps | apps/api/src/matching/orderbook.service.ts:300-342 | The expiry sweep keeps coherence |
| Coherence.ReviveAllKeeps | apps/api/src/matching/lob-rehydrator.service.ts:26-56 | Reviving placed rows keeps coherence |
| Coherence.StepKeepsIff | apps/api/src/matching/orderbook.service.ts:168-396 | For each operation, the exact condition under which it keeps coherence |
| Coherence.HistoriesStayCoherent | apps/api/src/matching/orderbook.service.ts:168-396 | Any history of operations whose conditions hold stays coherent: no negative remaining, every resting order backed by a live row with equal side, price and size |
| Coherence.ReusedHashBreaksCoherence | apps/api/src/matching/persistence.repository.ts:286-340 | A filled hash placed again at its own terms does break it: the upsert resets only the status and leaves no base on the row |
| DeskOutcomes.FillLeavesTheRest | apps/api/src/matching/orderbook.service.ts:205-298 | After a watched fill the order rests exactly when base is left and it rested before or was still listed as placed |
| DeskOutcomes.AttachedExpiryIsSwept | apps/api/src/matching/orderbook.service.ts:300-342 | The sweep takes an order with an attached expiry off the book and expires its row exactly from that second on |
| DeskOutcomes.SweptFromItsExpiry | apps/api/src/matching/orderbook.service.ts:300-342 | A resting order is swept and its row expired exactly from the second of its expiry on, and never without one |
| DeskOutcomes.MarketRecordsFills | apps/api/src/matching/orderbook.service.ts:504-555 | A market order adds one trade for each fill, in order, with its market, order, price and size, no taker and no transaction; a row gives up what was filled of it and is FILLED exactly when nothing is left; no other market changes |
| DeskOutcomes.CancelMarksRow | apps/api/src/matching/orderbook.service.ts:580-597 | A book cancel sets the row to CANCELLED exactly when the order rested; no other row changes |
| DeskOutcomes.RestingFillRow | apps/api/src/matching/orderbook.service.ts:274-297 | After a watched fill of a resting order its row has max(0, remaining - filled) and is FILLED exactly when nothing is left; no other row changes; the status told is partial or full |
| DeskOutcomes.RestingFillBook | apps/api/src/matching/orderbook.service.ts:274-297 | The order keeps place, raw order and expiry with the size that is left, or leaves the book; nobody else moves |
| DeskOutcomes.StoredFillRow | apps/api/src/matching/orderbook.service.ts:205-273 | The same for the row of an order that is not in memory |
| DeskOutcomes.StoredFillBook | apps/api/src/matching/orderbook.service.ts:205-273 | What is left of a listed row comes back on the book with the row's maker, side and price; otherwise the book stays |
| DeskOutcomes.AttachedLevel | apps/api/src/matching/orderbook.service.ts:123-166 | Attaching a raw order changes the raw of that level, and its expiry when the raw order has one, and nothing else |
| OrderBooks.PersistenceRepository.UpsertOrderPlaced | apps/api/src/matching/persistence.repository.ts:286-340 | New row, or status reset of the existing one |
| OrderBooks.PersistenceRepository.DecreaseOrderRemaining | apps/api/src/matching/persistence.repository.ts:429-457 | Remaining and status of that row change, and whether it exists is reported |
| OrderBooks.PersistenceRepository.AttachRawToOrder | apps/api/src/matching/persistence.repository.ts:523-558 | A signature of no known shape or a missing row is refused and nothing changes; else the row carries the raw order and the packed signature |
| OrderBooks.PersistenceRepository.FindRawOrderByHash | apps/api/src/matching/persistence.repository.ts:569-587 | The stored raw order and the signature its bytes unpack to, or none |
| OrderBooks.PersistenceRepository.FindTradeByTxHashForIntent | apps/api/src/matching/persistence.repository.ts:404-427 | Finds a trade matching transaction, market and taker together, or shows there is none |
| OrderBooks.PersistenceRepository.ListPlacedBySymbol | apps/api/src/matching/persistence.repository.ts:127-160 | Placed rows of a market with base left, by placing time then hash, at most the cap |
| OrderBooks.OrderBookService.Quote | apps/api/src/matching/orderbook.service.ts:403-502 | The level loop returns the capped greedy plan with its running totals; only an empty book may be created |
| OrderBooks.SweepLevels | apps/api/src/matching/orderbook.service.ts:413-501 | The loop of quote computes fills, remainder, floored total and fees of the plan |
| OrderBooks.OrderBookService.Market | apps/api/src/matching/orderbook.service.ts:504-555 | The loop that eats heads is the market operation on book, rows and trades |
| OrderBooks.OrderBookService.Cancel | apps/api/src/matching/orderbook.service.ts:580-597 | Filters both sides and cancels the row only if something was removed |
| OrderBooks.OrderBookService.Place | apps/api/src/matching/orderbook.service.ts:344-396 | Refuses in the code's order; otherwise removes an earlier level, pushes, sorts and upserts |
| OrderBooks.OrderBookService.HydrateLevel | apps/api/src/matching/orderbook.service.ts:168-203 | Replaces any level with the hash by the given one, rows untouched |
| OrderBooks.OrderBookService.AttachRaw | apps/api/src/matching/orderbook.service.ts:123-166 | Overwrites the level's raw and expiry, or reports that it is missing |
| OrderBooks.OrderBookService.ApplyExternalFill | apps/api/src/matching/orderbook.service.ts:205-298 | Reconciles in the book if the order rests there, else in its row, re-hydrating a partial fill of a listed row |
| OrderBooks.OrderBookService.SweepExpired | apps/api/src/matching/orderbook.service.ts:300-342 | Removes expired orders of every market and expires exactly their rows |
| OrderBooks.OrderBookService.Rehydrate | apps/api/src/matching/lob-rehydrator.service.ts:26-56 | Revives each listed row in turn, with its raw order |
| Rehydration.RehydrateRebuilds | apps/api/src/matching/lob-rehydrator.service.ts:26-56 | After rehydration a side is the orders the listing does not name, as they stood, with the listed rows put among them by price, each behind those of its price |
| Rehydration.RehydrateIsIdempotent | apps/api/src/matching/lob-rehydrator.service.ts:26-56 | A second pass gives the same orders, sizes, raw payloads and queue positions, partially filled orders included |
| Rehydration.RehydrateRestoresFifo | apps/api/src/matching/lob-rehydrator.service.ts:26-56 | At each price the unlisted orders come first in their old order, then the listed ones in placing order |
| Rehydration.SurvivesRestartIff | apps/api/src/matching/persistence.repository.ts:127-150 | After a restart and a rehydration an order rests if and only if its row is PLACED with base left and fewer than ten thousand such rows of its market were placed before it; it keeps side, price and size, and a partially filled one is lost |
| Rehydration.PartFilledIsLost | apps/api/src/matching/persistence.repository.ts:127-150 | Any resting order filled in part by a watched fill still rests, and no longer after a restart and a rehydration |
| Rehydration.HalfSoldAskIsLost | apps/api/src/matching/persistence.repository.ts:127-150 | A concrete desk with one resting ask that has 60 of 100 left: after a restart its market is empty and the row still has 60 |
| Rehydration.CancelledStaysOff | apps/api/src/matching/orderbook.service.ts:580-597 | A cancelled order rests neither after the cancel nor after a restart and a rehydration |
| Rehydration.ReturnsAsStored | apps/api/src/matching/lob-rehydrator.service.ts:26-56 | A listed order comes back with its row's maker, side, price and remaining base, its raw order and that order's expiry |
| Rehydration.ListingInOrder | apps/api/src/matching/persistence.repository.ts:136-150 | The listing is ordered by placing time, then hash |
| Amounts.QuoteToWatcherRoundTrip | apps/api/src/public/match.controller.ts:257-265 | Quoting f base and reconciling the calldata gives e <= f, losing less than one unit of each token, and e = f for a whole order |
| Amounts.PartialFillsDust | apps/api/src/onchain/fill-watcher.service.ts:478-481 | n partial fills that use up the taker amount leave at most n - 1 base units |
| Amounts.GatesAgree | apps/api/src/sea/ai/intent-rules.util.ts:70-82 | The cross-multiplied and the floored notional gate accept the same orders |
| Amounts.MinSizeIsLeastAccepted | apps/api/src/sea/ai/intent-rules.util.ts:89-99 | A size passes the notional gate exactly when it is at least the suggested minimum |
| DelegatedSpend.SpendEstimateCovers | apps/web/src/lib/delegatedSpend.ts:47-83 | For BUY, the estimate covers the total of every sweep capped at the trigger, fees attached or by policy, for any book whose fees are at most the fee rate and any number of fills, when that rate is at most the whole amount |
| DelegatedSpend.CoversEveryFairBookIff | apps/web/src/lib/delegatedSpend.ts:47-83 | It covers all such books if and only if the fee rate is at most 10,000 basis points |
| DelegatedSpend.PolicyFeesCovered | apps/web/src/lib/delegatedSpend.ts:47-83 | Where no order carries a fee of its own, it covers every capped sweep at any fee rate |
| DelegatedSpend.AcceptedAskIsFair | apps/web/src/hooks/useOrderSigning.ts:162-168 | An accepted ask always has a fee attached, and one of at most what the front end signs makes the order fair at its booked price, whatever was filled of it since |
| DelegatedSpend.WholeOrderCoveredIff | apps/api/src/matching/orderbook.service.ts:448-478 | One accepted ask bought whole at its own price is covered if and only if its fee is at most ceil(takerAmount * (feeBps + 200) / 10000) |
| DelegatedSpend.AttachedFeeEscapes | apps/api/src/matching/orders-placement.service.ts:88-108 | An ask of 100 for 100 with an attached fee of 50 is accepted at fee rate zero, costs 150 and is estimated at 102 |
| Placement.TicksFromIff | apps/api/src/matching/orders-placement.service.ts:143-161 | A price is derived exactly when it makes the quote amount, unrounded, from the base amount |
| Placement.AcceptedNotionalIsSignedAmount | apps/api/src/matching/orders-placement.service.ts:143-161 | An accepted order's full-size notional is its signed quote amount |
| Placement.SignedPriceIsBookedAt | apps/web/src/hooks/useOrderSigning.ts:101-146 | For every tick-aligned signed price: recovered, booked lower by the floored loss, or rejected, with the exact case condition |
| Placement.NeverMisbookedIff | apps/web/src/hooks/useOrderSigning.ts:101-146 | No price of a size is booked at another tick if and only if one tick of that size is worth a quote unit |
| Placement.ThirteenIsBookedAtTen | apps/api/src/matching/orders-placement.service.ts:143-161 | A concrete price that is booked at another tick |
| Placement.CheckSignature | apps/api/src/sea/intent-validator.service.ts:651-695 | Signature and hash issues, none exactly for an authentic order |
| Placement.CheckPrice | apps/api/src/sea/intent-validator.service.ts:729-775 | Size and price issues, none exactly when the amounts match the intent to the unit |
| Placement.CheckUse | apps/api/src/sea/intent-validator.service.ts:777-809 | Expiry, duplicate and floor issues, none exactly when the order is usable |
| Placement.ValidateAtFire | apps/api/src/sea/intent-validator.service.ts:605-817 | No issue exactly when the intent may fire; the floor and duplicate issues appear exactly in their cases; a size issue comes first |
| Placement.FirePassesThenPlaces | apps/api/src/sea/intent-validator.service.ts:605-817 | A passing intent gets the same market, side, size and ticks from placement and no refusal but for a zero price, which a positive minimum notional rules out |
| OrdersPlacement.WouldCrossIff | apps/api/src/matching/orders-placement.service.ts:219-235 | Looking at the best opposite level decides whether any resting order would be met |
| OrdersPlacement.PostOnlyKeepsUncrossed | apps/api/src/matching/orders-placement.service.ts:219-235 | Post-only placement never crosses an uncrossed book |
| OrdersPlacement.RollbackUndoes | apps/api/src/matching/orders-placement.service.ts:260-297 | When the raw order cannot be stored, the book is what removing the hash leaves, its row is cancelled and everything else is as before |
| OrdersPlacement.AcceptedOrderRests | apps/api/src/matching/orders-placement.service.ts:237-302 | Acceptance leaves one order with the terms read off the amounts and its raw, and a placed row that carries the raw |
| OrdersPlacement.SettledCoherent | apps/api/src/matching/orders-placement.service.ts:237-302 | Acceptance under a safe hash keeps the desk coherent |
| OrdersPlacement.PlacementKeepsIff | apps/api/src/matching/orders-placement.service.ts:72-303 | A request to the placement service leaves a coherent desk coherent if and only if it is refused before the book, or stored under a hash that is new or whose row says the same, or taken back and resting under no other market |
| OrdersPlacement.NewHashKeepsCoherent | apps/api/src/matching/orders-placement.service.ts:72-303 | A placement under a hash no row knows keeps the desk coherent, accepted, refused or rolled back |
| OrdersPlacement.OrdersPlacementService.Place | apps/api/src/matching/orders-placement.service.ts:72-303 | All checks in order, then book, row and stored signature together, or none of them |
| OrdersPlacement.OrdersPlacementService.AttachOrUndo | apps/api/src/matching/orders-placement.service.ts:260-297 | Raw on level and row and the signature stored, or neither level nor live row |
| Acceptance.BookTakesIff | apps/api/src/matching/orderbook.service.ts:352-363 | The book takes a ticket if and only if size and price are positive, the size reaches the minimum and price times tick times size reaches the minimum notional, unrounded |
| Acceptance.FirstListedMarket | apps/api/src/matching/orders-placement.service.ts:110-135 | The market of a pair is the first listed one that trades it, in either orientation |
| Acceptance.AcceptedIff | apps/api/src/matching/orders-placement.service.ts:72-303 | A request is accepted if and only if its signature has a known shape, it pays the policy fee to the configured recipient, its pair has a market, its amounts make a price, no guard objects, it is passive only where it meets no resting order, it reaches the minimums and its raw order can be stored |
| Acceptance.AcceptedIsBooked | apps/api/src/matching/orders-placement.service.ts:237-302 | An accepted order rests with the request's maker, the derived side, price and size, the time now, its raw order and expiry; its row is placed and carries the raw order, a new one with all terms |
| Acceptance.AcceptedLeavesOtherLevels | apps/api/src/matching/orders-placement.service.ts:237-302 | No other level and no other market changes |
| Acceptance.AcceptedLeavesOtherRows | apps/api/src/matching/orders-placement.service.ts:237-302 | No other row and no trade changes |
| Acceptance.ExpiresWithItsOrder | apps/api/src/matching/orders-placement.service.ts:255-275 | An order accepted under a safe hash is swept and its row expired exactly from the second of the signed order's expiry on |
| Resubmission.ResubmittedAfterPartialFill | apps/api/src/public/orders.controller.ts:150-207 | For every order accepted under a new hash and then filled in part: handed in again it is refused if it is passive and would cross, else accepted, its whole size on the book over a row that has only the rest |
| Resubmission.ResubmittedAsk | apps/api/src/public/orders.controller.ts:192-207 | An ask of 100 filled for 40 and handed in again: 100 on the book, 60 on its row |
| Floors.CancelPairFloorRepository.UpsertFloor | apps/api/src/onchain/cancel-pair-floor.repository.ts:35-56 | Insert or greatest; the transaction follows only a strict rise |
| Floors.FloorIsTheMaximum | apps/api/src/onchain/cancel-pair-floor.repository.ts:35-56 | After any history on any stored table the floor is the greatest of the stored value and the events, with the transaction of the one that reached it |
| Floors.FloorIgnoresOrderAndDuplicates | apps/api/src/onchain/cancel-pair-floor.repository.ts:35-56 | Reordering and repeating events changes no floor |
| Floors.SaltBelowBoundaryIff | apps/web/src/hooks/useOrderSigning.ts:177-183 | A salt is below a boundary salt exactly when its second is earlier |
| Floors.OlderThanSparesTheRecent | apps/web/src/lib/salt.ts:6-15 | Cancelling everything older than a delay spares exactly the orders of that delay |
| Floors.CancelSplitsTime | apps/api/src/sea/intent-validator.service.ts:231-255 | A cancel at second T makes every earlier salt of the triple rejected for good, and none from T on unless something stored or seen went further |
| Floors.RejectionIsForever | apps/api/src/sea/intent-validator.service.ts:231-255 | No later event lifts a rejection |
| Signatures.HexToBytes | apps/api/src/matching/raw-order.util.ts:107-113 | The loop reads each pair of digits as one byte |
| Signatures.BytesToHex | apps/api/src/matching/raw-order.util.ts:136-142 | The loop writes each byte as two lower-case digits |
| Signatures.BytesRoundTrip | apps/api/src/matching/raw-order.util.ts:107-142 | Bytes written as hex read back the same |
| Signatures.HexRoundTrip | apps/api/src/matching/raw-order.util.ts:107-142 | Hex read as bytes is written back in lower case |
| Signatures.AcceptedTuplesAreFixed | apps/api/src/matching/raw-order.util.ts:52-83 | Exactly the valid tuples are ever returned, and each is accepted again unchanged |
| Signatures.FieldsAcceptedAs | apps/api/src/matching/raw-order.util.ts:64-83 | Exactly which fields are accepted and as what: recovery values 0 and 27 are 27, 1 and 28 are 28, types 2 and 3, none for 2 |
| Signatures.TextAcceptedAs | apps/api/src/matching/raw-order.util.ts:53-62 | Exactly which text is accepted, with or without 0x, and as which tuple |
| Signatures.TextRoundTrip | apps/api/src/matching/raw-order.util.ts:53-62 | The 65-byte text of an EIP-712 tuple is read back as that tuple |
| Signatures.TupleToPackedBytes | apps/api/src/matching/raw-order.util.ts:93-105 | The 66-byte layout type, r, s, v |
| Signatures.UnpackPacked | apps/api/src/matching/raw-order.util.ts:93-134 | Unpacking a packed tuple gives it back with r and s in lower case |
| Signatures.PackUnpacked | apps/api/src/matching/raw-order.util.ts:123-134 | Exactly the 66-byte buffers with known type and v are accepted, and each is what its tuple packs to |
| Signatures.StoredSignatureIsTheAcceptedOne | apps/api/src/matching/persistence.repository.ts:523-586 | What placement accepts is what a later read returns, type byte included, and is accepted again |
| Tokens.JoinInjective | apps/api/src/sea/execution-token.util.ts:66-74 | Bar-joined payloads of bar-free fields are equal only for equal field lists |
| Tokens.NonceBinds | apps/api/src/sea/execution-token.util.ts:76-87 | A nonce is bound to intent, owner and epoch |
| Tokens.TokenBinds | apps/api/src/sea/execution-token.util.ts:101-126 | A token is bound to intent, owner, lock end and epoch |
| Tokens.NonceIsNoToken | apps/api/src/sea/execution-token.util.ts:66-126 | No nonce is a token, even under one secret |
| Tokens.TokenBindsChain | apps/api/src/sea/execution-token.util.ts:101-126 | A token for another chain does not verify |
| Tokens.LockMessageBinds | apps/api/src/sea/intent-validator.service.ts:135-150 | A wallet-lock signature covers one intent, epoch and lock end |
| IntentStore.IntentRepository.LockWalletFromReady | apps/api/src/sea/intent.repository.ts:212-222 | Lock end set only on the READY row with the observed preparation time |
| IntentStore.IntentRepository.MarkExecutedFromReady | apps/api/src/sea/intent.repository.ts:231-244 | READY to EXECUTED with its transaction |
| IntentStore.IntentRepository.MarkFailedFromReady | apps/api/src/sea/intent.repository.ts:251-266 | READY to FAILED with transaction and reason |
| IntentStore.IntentRepository.MarkExecuting | apps/api/src/sea/intent.repository.ts:271-281 | READY to EXECUTING with its transaction |
| IntentStore.IntentRepository.MarkExecuted | apps/api/src/sea/intent.repository.ts:288-301 | EXECUTING to EXECUTED for that transaction only |
| IntentStore.IntentRepository.MarkFailedFromExecuting | apps/api/src/sea/intent.repository.ts:307-325 | EXECUTING to FAILED for that transaction only |
| IntentStore.IntentRepository.FindExecutingByTxHashForOwner | apps/api/src/sea/intent.repository.ts:379-393 | A waiting row of transaction, market and owner, or none exists |
| IntentStore.IntentRepository.SweepStaleExecuting | apps/api/src/sea/intent.repository.ts:340-372 | The stale rows up to the limit, longest untouched first, fail, each reported once, nothing else touched |
| IntentStore.IntentRepository.MarkReady | apps/api/src/sea/intent.repository.ts:399-414 | ACTIVE to READY with its snapshot time |
| IntentStore.IntentRepository.RearmFromReady | apps/api/src/sea/intent.repository.ts:421-433 | READY to ACTIVE, snapshot cleared, lock end kept |
| IntentStore.IntentRepository.MarkExpiredFromReady | apps/api/src/sea/intent.repository.ts:439-451 | READY to EXPIRED |
| IntentStore.IntentRepository.SetActiveCooldown | apps/api/src/sea/intent.repository.ts:460-466 | Cooldown of an ACTIVE row only |
| IntentStore.IntentRepository.ExpireDueIntents | apps/api/src/sea/intent.repository.ts:535-560 | The overdue drafts and active rows up to the limit, earliest expiry first, expire, each reported once, nothing else touched |
| IntentStore.IntentRepository.MarkPlaced | apps/api/src/sea/intent.repository.ts:567-577 | TRIGGERED to PLACED with its order |
| IntentStore.IntentRepository.TransitionStatus | apps/api/src/sea/intent.repository.ts:616-632 | From the named status only |
| SeaServices.IntentService.Cancel | apps/api/src/sea/intent.service.ts:128-172 | Owner's signature, cancellable status, then a guarded update and one event |
| SeaServices.IntentService.LockWallet | apps/api/src/sea/intent.service.ts:191-339 | Every guard in order; a live lock is answered or refused, never changed; a fresh lock stores the signed end and returns its token |
| SeaServices.IntentService.MarkExecuting | apps/api/src/sea/intent.service.ts:356-508 | Idempotency, lock window, token, then one of the three paths |
| SeaServices.IntentService.RecordMarker | apps/api/src/sea/intent.service.ts:429-507 | Known trade, reverted receipt or neither: row and events of that path |
| SeaServices.IntentMonitorService.TickCMRReady | apps/api/src/sea/intent-monitor.service.ts:212-275 | The READY rows up to the limit, earliest prepared first, each treated once |
| SeaServices.IntentMonitorService.TreatReady | apps/api/src/sea/intent-monitor.service.ts:217-288 | Hard expiry, then the lock's shield, then the time to live |
| SeaServices.TickTreatsEachAlone | apps/api/src/sea/intent-monitor.service.ts:212-275 | A tick treats each listed row by its own state at the start and touches no other |
| OwnerConsent.CancelIff | apps/api/src/sea/intent.service.ts:128-172 | A cancel succeeds if and only if the row is there, DRAFT, ACTIVE or READY, and the signature over the cancel message of this intent and owner recovers to the owner, or checks are off; it cancels that row, and otherwise nothing changes |
| OwnerConsent.CancelMessageBinds | apps/api/src/sea/intent-validator.service.ts:155-167 | A cancel message fixes intent, owner and chain |
| OwnerConsent.CancelIsNoLock | apps/api/src/sea/intent-validator.service.ts:135-167 | No cancel message is a wallet-lock message |
| OwnerConsent.CancelledByItsOwner | apps/api/src/sea/intent.service.ts:128-172 | In every run an intent that is CANCELLED was cancelled by a cancel step its owner signed |
| OwnerConsent.LockGrantedIff | apps/api/src/sea/intent.service.ts:191-339 | With no live lock, a lock is granted if and only if the quote is open and within its life, the nonce is that of this intent, owner and preparation, the end lies ahead, within the expiry and at most the configured length and ten seconds away, and the owner signed for it |
| OwnerConsent.GrantedLock | apps/api/src/sea/intent.service.ts:254-339 | A granted lock stores the end asked for, at most that far ahead, and is answered with the token of that lock and epoch |
| OwnerConsent.MarkAcceptedIff | apps/api/src/sea/intent.service.ts:384-427 | A READY row accepts a marker if and only if it is locked, at most forty-five seconds have passed since, and the token is the one its lock was answered with |
| OwnerConsent.MarkedRow | apps/api/src/sea/intent.service.ts:429-507 | EXECUTED when the owner's trade under the transaction is on record, else FAILED when the receipt shows a revert, else EXECUTING; under this transaction in any case |
| OwnerConsent.MarkAgain | apps/api/src/sea/intent.service.ts:363-378 | Marking again is answered with the row for the same transaction and a conflict for another, whatever the token |
| IntentRules.PreparesIff | apps/api/src/sea/intent.repository.ts:140-165 | Preparation touches exactly unexpired active market intents whose cool-down is over, once the trigger has fired: READY with time and life, or a debounce |
| IntentRules.MonitorTakesBackIff | apps/api/src/sea/intent-monitor.service.ts:217-288 | A READY row expires past its expiry, else is re-armed when its life, five to three hundred seconds and sixty by default, is over and no lock with its grace holds, else stays |
| IntentRules.RearmedWaits | apps/api/src/sea/intent-monitor.service.ts:252-288 | A re-armed intent can be prepared again exactly from the end of its cool-down to its expiry |
| IntentRules.ShortWaits | apps/api/src/sea/cmr-prepare.service.ts:147-247 | One found short, exactly from the end of its debounce |
| IntentRules.TakenUnderLimit | apps/api/src/sea/intent.repository.ts:340-372 | Under a limit every row is taken that has at most that many as early as itself, and none with as many before it |
| IntentRules.StaleSweepTakes | apps/api/src/sea/intent-executing-sweeper.service.ts:123-144 | What the sweep fails had waited untouched longer than the threshold; a row that stale is failed when the limit has room for all as stale as it |
| IntentRules.DueSweepTakes | apps/api/src/sea/intent-expiry-sweeper.service.ts:96-113 | What the sweep expires was a draft or active past its expiry; such a row is expired when the limit has room |
| IntentRules.LatchIff | apps/api/src/sea/intent-fire.service.ts:155-165 | The latch succeeds exactly on an active, unexpired limit intent |
| IntentRules.FreshQuoteIsLockable | apps/api/src/sea/sea.controller.ts:257-280 | The lock a fresh quote proposes, with its nonce and the owner's signature, is granted while the quote lives, the end lies ahead and no lock is live |
| SeaServices.IntentExecutingSweeperService.Tick | apps/api/src/sea/intent-executing-sweeper.service.ts:123-144 | The stale rows up to the limit, longest untouched first, fail, each with one event |
| SeaServices.IntentExpirySweeperService.Tick | apps/api/src/sea/intent-expiry-sweeper.service.ts:96-113 | The overdue rows up to the limit, earliest expiry first, expire, each with one event |
| IntentFiring.IntentFireService.Fire | apps/api/src/sea/intent-fire.service.ts:144-274 | Latch, validate against the rows and floors of the moment, place passively, record: what desk and intent look like after each outcome |
| IntentFiring.IntentFireService.FailIntent | apps/api/src/sea/intent-fire.service.ts:276-292 | Guarded failure and one event |
| IntentFiring.FiringKeepsIff | apps/api/src/sea/intent-fire.service.ts:144-274 | A latched fire call leaves a coherent desk coherent if and only if it stops before placement or what it asks for is safe to place |
| IntentFiring.FiringKeepsCoherent | apps/api/src/sea/intent-validator.service.ts:790-799 | With signatures checked, a fire call places only under a hash no row knows and keeps the desk coherent, whatever its outcome; with signatures skipped it does when the computed hash is new |
| IntentFiring.SkippedChecksBreakCoherence | apps/api/src/sea/intent-fire.service.ts:213-222 | With signatures skipped the declared hash is looked up and the computed one placed: a filled order can come back |
| IntentFiring.CancelledSaltNeverFires | apps/api/src/sea/intent-validator.service.ts:231-255 | Once a pair cancel at a second is in the history of floors, an intent whose order was salted earlier places nothing when it fires and ends failed |
| FiredOrders.PlacedMeans | apps/api/src/sea/intent-validator.service.ts:605-817 | An intent that ends PLACED had an order signed by its owner for exactly its size, price and direction, large enough, unused, outliving it by the grace and above the cancel floor; the order rests under the owner's name with the derived terms, its raw order and expiry |
| FiredOrders.OrderOutlivesIntent | apps/api/src/sea/intent-validator.service.ts:777-788 | No sweep before the intent's expiry plus the grace takes its order off the book |
| FiredOrders.RefusedMeans | apps/api/src/sea/intent-fire.service.ts:167-212 | A firing refused by validation fails with the code of the first failing check and touches no order |
| FiredOrders.RejectedMeans | apps/api/src/sea/intent-fire.service.ts:213-274 | One that validation lets through fails only by its signature's shape or a placement refusal, and is given that reason |
| IntentFiring.ValidIntentPlacesIff | apps/api/src/sea/intent-fire.service.ts:144-274 | A valid intent is placed under its canonical hash exactly when its price meets no resting order, else fails with would_cross_at_fire |
| ProtocolSafety.NextKeepsInv | apps/api/src/sea/intent.service.ts:191-508 | Every step of the timed machine keeps the invariant |
| ProtocolSafety.ReachableHasInv | apps/api/src/sea/intent.service.ts:191-508 | Every reachable world has it |
| ProtocolTheorems.AcceptedTokenWasMinted | apps/api/src/sea/intent.service.ts:384-427 | A marker is accepted only with a token a wallet lock handed out for this intent, owner, chain, stored lock and current epoch, on the owner's signature |
| ProtocolTheorems.TokensDieWithTheirEpoch | apps/api/src/sea/intent-monitor.service.ts:252-288 | After any later run a token of another epoch is of a strictly earlier one and no longer verifies, though the stale lock is kept |
| ProtocolTheorems.EpochsIncrease | apps/api/src/sea/intent.repository.ts:399-433 | Preparation times of an intent strictly increase |
| ProtocolTheorems.LockWindowIsSafe | apps/api/src/sea/intent.service.ts:397-408 | While lock plus grace lasts and the intent has not expired, no monitor step moves the row and the current token is served; no lock outlasts the intent |
| ProtocolTheorems.MonitorMovesIff | apps/api/src/sea/intent-monitor.service.ts:217-266 | Exactly when the monitor expires or re-arms a READY row; expiry beats any lock |
| ProtocolRuns.BothMayActIff | apps/api/src/sea/intent-monitor.service.ts:243-250 | Exactly when the monitor moves a locked READY row whose current token a marker would still be served on: from its expiry to the end of the grace, or unexpired at the last instant of the grace with the time to live over |
| ProtocolRuns.BothDoAct | apps/api/src/sea/intent-monitor.service.ts:217-266 | Both cases are met in reachable worlds |
| ProtocolTheorems.ProposalStaysInBounds | apps/api/src/sea/sea.controller.ts:257-260 | A proposal is within the lock's bounds at a later time exactly until its own time comes |
| ProtocolTheorems.ProposedLockIsGranted | apps/api/src/sea/intent.service.ts:254-339 | A lock asked for with proposal, nonce and signature is granted while the quote is fresh and no lock is live |
| ProtocolTheorems.LiveLockIsImmutable | apps/api/src/sea/intent.service.ts:267-296 | A live lock is refused or answered with a token already handed out, never changed |
| ProtocolTheorems.RetryRepeatsIff | apps/api/src/sea/intent.service.ts:267-296 | A repeated request gets the same token exactly when it spells the time canonically |
| ProtocolRuns.RetryIsRefused | apps/api/src/sea/intent.service.ts:267-296 | For every second spelling of a lock's end: in a reachable world the request is accepted, and in the one after it refused when it is repeated while its own lock lives, nothing changed |
| ProtocolTheorems.WatchThenMark | apps/api/src/sea/intent.service.ts:429-452 | Fill first, marker second: executed |
| ProtocolTheorems.MarkThenWatchIff | apps/api/src/onchain/fill-watcher.service.ts:610-647 | Marker first, fill second: executed whatever the lookup answers, if and only if the trade was known or no other intent of the owner waits on the transaction |
| ProtocolRuns.OneFillClosesOneIntent | apps/api/src/onchain/fill-watcher.service.ts:615-625 | In a reachable world two intents of one owner wait on one transaction, and one fill executes one and leaves the other waiting |
| Reverts.RevertedLeavesNoTrace | apps/api/src/onchain/fill-watcher.service.ts:512-581 | When every receipt read for a transaction shows a revert, under any schedule the trades and every row's remaining are those of the other transactions' fills, and no trade names it |
| Reverts.RevertedNeverExecutes | apps/api/src/onchain/fill-watcher.service.ts:512-581 | And no run of the protocol on the watcher's fills records a trade of it or executes an intent by it, whenever a marker names it |
| ProtocolTheorems.LogReplaysStatus | apps/api/src/sea/intent-fire.service.ts:155-165 | Replaying the event log gives the status, a latched row reading as active |
| InterleavingSafety.ActKeepsInv | apps/api/src/sea/intent.repository.ts:212-633 | Every database call keeps the invariant, in any interleaving |
| InterleavingSafety.InterleavingsAreSafe | apps/api/src/sea/intent.repository.ts:231-393 | EXECUTED implies the owner's trade under the row's transaction; limit and market intents never take each other's states; placed at most once; no fire call loses its row |
| InterleavingSafety.FiredRowHasOneOwner | apps/api/src/sea/intent-fire.service.ts:155-165 | From the latch on only the latching call moves the row, and no other call owns it |
| InterleavingSafety.EndsAreFinal | apps/api/src/sea/intent.repository.ts:231-393 | Terminal rows never change and a recorded transaction is never replaced |
| SerialCalls.CancelAlone | apps/api/src/sea/intent.service.ts:128-172 | A granted cancel taken apart into its database calls and run alone does to the rows what the whole call does |
| SerialCalls.LockAlone | apps/api/src/sea/intent.service.ts:191-339 | So does a granted lock |
| SerialCalls.LockKeepsToItsEpoch | apps/api/src/sea/intent.repository.ts:212-222 | Whatever ran in between, a lock checked in one epoch is never stored in another |
| SerialCalls.MarkerAlone | apps/api/src/sea/intent.service.ts:429-507 | So does an accepted marker, on each of its three paths |
| SerialCalls.MonitorAlone | apps/api/src/sea/intent-monitor.service.ts:217-288 | So does a monitor step that moves the row |
| SerialCalls.PrepareAlone | apps/api/src/sea/cmr-prepare.service.ts:86-262 | So does a preparation or a debounce |
| SerialCalls.StaleSweepAlone | apps/api/src/sea/intent.repository.ts:340-372 | So does the stale sweep of one row |
| SerialCalls.DueSweepAlone | apps/api/src/sea/intent.repository.ts:535-560 | So does the expiry sweep of one row |
| SerialCalls.FillAlone | apps/api/src/onchain/fill-watcher.service.ts:589-647 | A watched fill run alone adds its trade and closes the row the lookup found |
| SerialCalls.RevertAlone | apps/api/src/onchain/fill-watcher.service.ts:533-581 | A watched revert run alone fails the row the lookup found |
| SerialCalls.FireAlone | apps/api/src/sea/intent-fire.service.ts:144-274 | A fire call that validates and places ends in the row and the one placement of the whole call |
| SerialCalls.FireRefusedAlone | apps/api/src/sea/intent-fire.service.ts:276-292 | One that validation refuses ends in the failed row of the whole call |
| MissWindow.MarkerAndWatcherMissIff | apps/api/src/sea/intent.service.ts:429-507 | For one marker and one watched fill, their database calls in any order: the intent is left waiting beside its trade if and only if the marker looks before the trade is added and the watcher looks before the marker writes (`InterleavingSafety.MarkerAndWatcherCanMiss` is such a schedule); else it ends executed |
| ReadyGate.ReadyIffHeadCovers | apps/api/src/sea/cmr-prepare.service.ts:96-247 | READY exactly when the best opposite order alone covers the size within the trigger for the minimum notional |
| ReadyGate.FreshQuoteIff | apps/api/src/sea/sea.controller.ts:132-250 | Fresh quote passes exactly when the row is open and the same book predicate holds |
| ReadyGate.ReadyIntentIsQuoted | apps/api/src/public/match.controller.ts:166-217 | On that book a fill-or-kill quote is refused neither for liquidity nor for notional and is the head alone |
| ReadyGate.FillOrKillIsAllOrNothing | apps/api/src/public/match.controller.ts:166-217 | Exactly when a fill-or-kill quote is accepted |
| Quotes.QuoteKeepsToTheLimit | apps/api/src/public/match.controller.ts:124-217 | Whatever the time in force, an accepted quote takes only from resting orders at prices within a positive limit, fills the lesser of the size and all they offer, and reports the rest as remaining; its total is amount plus fee |
| Quotes.QuoteAcceptedIff | apps/api/src/public/match.controller.ts:156-217 | For GTC, IOC and FOK: accepted if and only if the size reaches the minimum, fill-or-kill finds it all on offer, and whatever fills is worth the minimum notional |
| Quotes.QuoteRefusals | apps/api/src/public/match.controller.ts:156-217 | Refused for size first, then liquidity, then notional |
| Quotes.FeeOfOneFill | apps/api/src/matching/orderbook.service.ts:448-478 | An order's own fee is charged pro rata of its maker amount, else the policy rate of notional or base, each rounded down by less than one unit |
| Quotes.FeesAddUp | apps/api/src/matching/orderbook.service.ts:413-501 | The fee of a quote is the sum over its fills |
| Quotes.RawFromLevelOrRow | apps/api/src/public/match.controller.ts:295-310 | Before calldata is made each fill keeps order, maker, price and size, and has its own raw order or the one stored on its row |
| Quotes.TriggeredIff | apps/api/src/sea/cmr-prepare.service.ts:97-118 | The best level decides: some order beyond the trigger, or every one, as reference and direction say; an empty side and a mid price never trigger |
| ReadyGate.ComputeQuoteNotionalQ | apps/api/src/sea/notional.util.ts:21-41 | The loop sums the floored notionals |
| ReadyGate.AvailableBase | apps/api/src/public/match.controller.ts:168-175 | The reduction sums the filled base |
| ReadyGate.CalldataAmounts | apps/api/src/public/match.controller.ts:295-342 | Taker amount per fill and their sum, missing raw orders taken from their rows, or nothing when some order has none in either place |
| Readiness.CmrPrepareService.EvaluateAndPrepare | apps/api/src/sea/cmr-prepare.service.ts:86-262 | Trigger, guarded preview, gates, then READY or a debounced wait |
| Readiness.MatchController.Quote | apps/api/src/public/match.controller.ts:150-217 | Minimum size, plan, fill-or-kill and notional gates |
| FillScan.AcceptedOrdersAreReadBack | apps/api/src/onchain/fill-watcher.service.ts:478-504 | A watched fill of an accepted order carries its booked price, its whole size for the whole taker amount, and never more than a quoted size |
| FillScan.EachKeyAtMostOnce | apps/api/src/onchain/fill-watcher.service.ts:485-492 | Under any schedule of failures, caps, malformed blocks, head regressions and changing block contents, no key takes effect twice within ten thousand effects |
| FillScan.EachFillExactlyOnce | apps/api/src/onchain/fill-watcher.service.ts:335-404 | Without malformed or changing blocks and within the memory, each fill up to the highest saved cursor takes effect exactly once |
| FillScan.EveryEffectIsOnChain | apps/api/src/onchain/fill-watcher.service.ts:408-453 | Nothing takes effect that is not a fill of a scanned transaction |
| FillScan.CursorFollowsTheHeadDown | apps/api/src/onchain/fill-watcher.service.ts:366-368 | After any schedule the next tick moves the cursor back if and only if it sees a head below it, and then to that head; the record of the highest cursor never goes back |
| FillScan.RecordIsAnUpperBound | apps/api/src/onchain/fill-watcher.service.ts:366-404 | No prefix of a schedule ends with the cursor above that record |
| FillScan.RecordIsReached | apps/api/src/onchain/fill-watcher.service.ts:366-404 | Some prefix ends with the cursor at it |
| WatchedFills.DecodedTrade | apps/api/src/onchain/fill-watcher.service.ts:455-510 | The recorded trade names the market of the pair, the order of the call, the sender as taker, or the zero address, and the transaction |
| WatchedFills.DecodedIff | apps/api/src/onchain/fill-watcher.service.ts:455-504 | Exactly which transactions are read as fills |
| WatchedFills.QuotedFillReadsBack | apps/api/src/public/match.controller.ts:257-342 | A quoted fill put in calldata reconciles to the unit against a bid or for a whole ask, and otherwise short by less than one unit of each token |
| WatchedFills.FillReachesItsOwner | apps/api/src/onchain/fill-watcher.service.ts:335-655 | When a tick goes through the block of an unremembered fill sent by an owner and not reverted, the desk gains the trade with the owner as taker, and the one intent of the owner waiting for it is executed; a reverted one fails it |
| WatchedFills.TickEnds | apps/api/src/onchain/fill-watcher.service.ts:362-404 | A tick goes through every readable block after the cursor up to the head, at most the cap, until one fails to load; the cursor moves to the end if and only if none failed, malformed ones are passed over |
| WatchedFills.MemoryAfter | apps/api/src/onchain/fill-watcher.service.ts:485-492 | What each transaction does to the memory of keys: a known key nothing, a reverted fill adds its own, a reconciled one also lets the oldest go past ten thousand |
| WatchedFills.NothingSkippedOnStart | apps/api/src/onchain/fill-watcher.service.ts:273-283 | Resuming a usable persisted cursor skips no block after it; without one the head itself is scanned first |
| FillsOnce.EachFillCountsOnce | apps/api/src/onchain/fill-watcher.service.ts:335-404 | Each fill up to the highest saved cursor whose receipts show success is, under any schedule, exactly one of the trades added, and its order gives up its size once beside what all other fills take |
| FillWatcher.EffectsDrainRows | apps/api/src/onchain/fill-watcher.service.ts:589-603 | Reconciling keeps coherence, adds exactly one trade per fill and leaves each order max(0, remaining - filled) |
| FillWatcher.FillWatcherService.Tick | apps/api/src/onchain/fill-watcher.service.ts:335-404 | Cooldown, deferred cursor, capped range: the machine's tick, and desk and intents after its new effects |
| FillWatcher.FillWatcherService.InitCursorFrom | apps/api/src/onchain/fill-watcher.service.ts:273-283 | Resume a usable persisted cursor, else start next to the head |
| FillWatcher.FillWatcherService.ScanRange | apps/api/src/onchain/fill-watcher.service.ts:368-404 | The block loop; stops on a failed fetch, passes over a malformed block |
| FillWatcher.FillWatcherService.ScanTransactions | apps/api/src/onchain/fill-watcher.service.ts:408-492 | The transaction loop with its memory of keys |
| FillWatcher.FillWatcherService.Handle | apps/api/src/onchain/fill-watcher.service.ts:512-655 | Reverted: only the waiting intent fails; otherwise trade, external fill, waiting intent executed, memory with eviction |
| FillWatcher.FillWatcherService.TellIntent | apps/api/src/onchain/fill-watcher.service.ts:541-578 | A row waiting on the transaction, market and taker is executed or failed with its event, none otherwise |
| CancelScan.PairCancelTakesExactly | apps/api/src/onchain/cancel-watcher.service.ts:440-500 | A pair cancel cancels exactly the maker's listed orders salted below the bound, on either side, and keeps coherence |
| CancelScan.FloorsSurviveAnySchedule | apps/api/src/onchain/cancel-watcher.service.ts:337-406 | From any stored floors, any schedule leaves them raised by one clean pass, at least up to the cursor |
| CancelScan.CursorNeverGoesBack | apps/api/src/onchain/cancel-watcher.service.ts:365-370 | The cursor never decreases |
| CancelEffects.SingleCancelWithdraws | apps/api/src/onchain/cancel-watcher.service.ts:593-617 | After a single cancel the order rests nowhere in its market and its row is CANCELLED, every other level, market, row and trade as before; coherence is kept if and only if it rests under no other market |
| CancelEffects.PairCancelWithdraws | apps/api/src/onchain/cancel-watcher.service.ts:440-500 | A pair cancel withdraws exactly the maker's listed orders whose stored salt is below the bound |
| CancelEffects.SingleCancelsAreCarriedOut | apps/api/src/onchain/cancel-watcher.service.ts:337-406 | Without malformed blocks, under any schedule, every order a block up to the cursor cancels is withdrawn |
| CancelEffects.PairCancelsRaiseFloors | apps/api/src/onchain/cancel-watcher.service.ts:337-406 | And every pair cancel of such a block has raised the floor of its maker and ordered pair to its bound at least |
| CancelEffects.CancelTickEnds | apps/api/src/onchain/cancel-watcher.service.ts:360-406 | A head above the cursor moves it to the head, at most by the cap, if and only if no block on the way failed to load; any other tick leaves it |
| CancelWatcher.CancelWatcherService.Tick | apps/api/src/onchain/cancel-watcher.service.ts:337-370 | Cooldown, deferred cursor, guard, capped range: the machine's tick |
| CancelWatcher.CancelWatcherService.ScanRange | apps/api/src/onchain/cancel-watcher.service.ts:372-406 | The block loop |
| CancelWatcher.CancelWatcherService.HandleTx | apps/api/src/onchain/cancel-watcher.service.ts:428-617 | Pair cancel with its floor, single cancel, or nothing |
| CancelWatcher.CancelWatcherService.CollectDoomed | apps/api/src/onchain/cancel-watcher.service.ts:457-479 | The maker's placed orders salted below the bound |
| CancelWatcher.CancelWatcherService.Retract | apps/api/src/onchain/cancel-watcher.service.ts:594-617 | Off the book, row cancelled either way |

## Left out

- Letter case of hashes and addresses: hashes are the numbers they denote, addresses are lower-case text.
- Market ids and symbols: a market is named by its symbol, and the two are identified.
- Order events, sockets, metrics, logging, cursor files and environment parsing: no state the claims read.
- Database failures inside a handler and updates of missing rows that throw: a missing row is left as it is.
- Interleaving inside one order-book method or overlapping watcher ticks: each call is one step, although the code awaits inside them.
- The balance guard and shadow checks of placement: one optional refusal decided by the caller.
- EIP-712 hashing, EIP-191 recovery, ABI encoding and decoding: functions or decoded values given to the model.
- Malformed numeric text in stored or decoded orders: amounts are natural numbers.
- A fee of a raw order whose text is not a number: a fee is a number or absent.
- SELL quotes: the returned total is a quote notional and fee proration mixes units in the code; only BUY totals are claimed.
- Intent creation checks (`validateAtCreate`): size and notional gates are those proved for firing; only freshness of ids and expiry are modelled.
- The delegated module, the draft assistant and its provider, React components and HTTP clients.
- Which of two rows with equal times a limited tick or sweep takes first: either.
- Decimal text conversion of stored floors: a floor is a natural number.
- The READ_ONLY and PROFILE switches, which make preparation and firing do nothing.
- Fill watcher restarts: one process lifetime, since the memory of keys is not stored.
- InterleavingSafety.InterleavingsAreSafe: clocks are arbitrary there, so lock windows are claimed only for the timed machine; the stale sweep's age check may hold at any time.
- ProtocolTheorems.LogReplaysStatus: assumes an update and its event are one step; events lost or appended after a crash are not modelled.
- FillScan.EachFillExactlyOnce: needs a hash to name one transaction, blocks that keep their contents and at most 10,001 effects, the reach of the key memory.
- Reverts.RevertedLeavesNoTrace: takes fills to name the market their order was placed in, which the order's own hash makes sure of.
- FillsOnce.EachFillCountsOnce: needs what `FillScan.EachFillExactlyOnce` and `Reverts.RevertedLeavesNoTrace` need.
- MissWindow.MarkerAndWatcherMissIff: the two calls run alone; with other calls in between only the safety results are claimed.
- OrderBooks.PersistenceRepository.AttachRawToOrder: the expiry and salt columns repeat the raw order and are not kept apart.
- OrdersPlacement.OrdersPlacementService.Place: the two ways raw persistence can fail are one parameter, since both end in the same rollback.
