# bolt-v2: verified model of the trading core

This project models the deterministic core of the bolt-v2 trading bot in Dafny and proves what its
state machines, order-book sweeps and evidence formats promise. `dafny verify dfyconfig.toml` checks it.

| file | component |
|---|---|
| `CapitalReservation.dfy` | the ledger of reserved, unfilled capital: reserve, revalue, release, rollback, removal, carry |
| `LedgerDecisions.dfy` | exactly when each ledger operation accepts, what it then does, and which reason each refusal gives |
| `CapitalAdmission.dfy`, `RebuildOrder.dfy` | the admission gate over that ledger: rebuild from evidence, when its order matters, closing, admission of one intent |
| `AdmissionDecisions.dfy` | exactly when an admission is accepted, its liability in closed form, and which reason each refusal gives |
| `BookLevels.dfy`, `BookSizing.dfy`, `ExecutableCost.dfy` | the delta-maintained book and the three sweeps over it |
| `RestingTerms.dfy` | refreshing the economics of a resting order on unchanged terms |
| `RestingMeaning.dfy`, `RestingRefresh.dfy` | what the same-terms relation means, and exactly which outcome a refresh has |
| `KillSwitch.dfy`, `HaltId.dfy`, `KillSwitchCancel.dfy`, `KillSwitchFlatten.dfy` | the halt machine, the bytes that name a halt, its durable record, and the two outcome aggregators |
| `BasketAdmission.dfy` | submit claims against scanned legs, and the open-basket table under interleaving |
| `EvidenceNovelty.dfy`, `RegistryDocument.dfy` | the build-time state registry, its document, and the per-episode bitmap indexed by it |
| `ConfigBundle.dfy` | the bytes hashed into a configuration fingerprint |
| `BinarySettlement.dfy` | settling binary lots at 0/1 |
| `Common.dfy`, `ByteStrings.dfy` | options, results, permutations, checked decimals, product facts over reals, byte strings |

How values are modelled. A `Decimal` is an exact real bounded by 2^96 - 1 whose checked operations give
nothing outside that range, so overflow and saturation are kept and rounding at 28 digits is not. An `f64`
is an exact real. Nanosecond clocks are naturals and are parameters. A 64-bit word is its 64 bits.
Where the source updates an object, the model has a class whose methods are tied to a step function on
values; the theorems are about the steps and about whole runs of them.

## Findings

Each is a property the code does not meet, with an input and the exact condition under which it does.

- Revalue budget. A revalue checks its budget against a live sum that saturates, so an accepted revalue can leave
  the true total past the budget (`RevalueOverrunExample`, a run from the empty ledger). `RevalueSoundExactly`
  gives the condition. Reserve does not have this gap, and runs without carries stay within their budgets
  (`RunStaysWithinBudgets`).
- Rebuild order. With carried reservations among open orders the order of the evidence can decide acceptance
  (`CarriedEvidenceOrderMatters`). `OrderIsIrrelevantExactly` says when it cannot.
- Free intents. An intent with zero fee and slippage allowances that is a sell, or a buy at a limit price of zero,
  is quoted at zero, which no ledger reserves, so it is never admitted (`FreeIntentExamples`,
  `FreeIntentIsNeverAdmitted`). `LiabilityPositiveExactly` and `SomeLedgerAdmitsExactly` give the conditions.
- Full slippage. A sale allowed to slip by 10000 basis points or more has a limit of zero or less. It may take the
  whole book and is given nothing (`FullSlippageSaleExample`, `SizeFromTouch`); the two cost sweeps refuse it alike
  (`DepthLimit`, `RefusedSaleHasWholeDepth`).
- Stale owners. A basket released explicitly and admitted again under one id is removed by the drop of the first,
  stale permit (`StalePermitRemovesReadmittedBasket`), or by the failed submit of the first admission even when it
  is marked stuck (`StaleFailureRemovesStuckBasket`). `StrandsExactly` gives the steps that do this and
  `InterleavingsStrandExactly` the interleavings that never do.
- Quantity source. The side and size of a flatten command do not depend on the order of the position proofs; the
  recorded source of its size can (`SourceOrderExample`). `CommandsIgnoreOrderExactly` gives the condition.
- Halt ids. Triggers that differ only in their loss reason, or whose sources hold zero bytes, can share a halt id's
  bytes (`SharedHaltExample`). `SharesBytesExactly` gives the condition.
- Same terms. The resting-terms relation is not reflexive (`MismatchWithItself`); `TermsMatchReflexiveExactly` says
  on which admissions it is.
- Missing quotients. Amounts are compared per unit by checked quotients, and two quotients that do not exist count as
  equal. An interval effect of a position of size zero can therefore change at will and still match
  (`ZeroQuantityMatchesAnything`, `FlatPositionExample`), and so can amounts whose quotients overflow.
  `MatchesAreEqualExactly` gives the quantities for which a match means equal per unit.

Two more results are about code that has no effect. The transition function never enters the states Cancelling and
Flattening that the cancel and flatten planners insist on (`PlannerStatesAreUnreachable`). In the exact-notional
sweep the final depth check can never fail, and in the VWAP-capped sweep neither the clamp nor the guard on a
non-positive slope takes effect (`AverageInside`, `PartialQuantity`).

## Model

| member | source | states |
|---|---|---|
| `CapitalReservation.ReserveAcceptsExactly` | src/bolt_v3_capital_reservation.rs:133-246 | a reserve is accepted exactly when every guard passes and the true live total plus the request leaves the headroom, although the code works with checked subtraction and a saturating sum |
| `CapitalReservation.ReserveKeepsBudget` | src/bolt_v3_capital_reservation.rs:140-236 | after an accepted reserve the budget less the true new total is at or above zero and the floor, is the reported remainder, and other pools are unchanged |
| `CapitalReservation.RevalueKeepsBudget` | src/bolt_v3_capital_reservation.rs:374-445 | the same for an accepted revalue while the live total is representable |
| `CapitalReservation.RevalueFitsExactly` | src/bolt_v3_capital_reservation.rs:417-437 | the checked budget test of a revalue in exact arithmetic over the saturated sum |
| `CapitalReservation.RevalueSoundExactly` | src/bolt_v3_capital_reservation.rs:417-437 | exactly when the revalue budget test is sound for an entry, whatever liability is asked |
| `CapitalReservation.RevalueOverrunExample` | src/bolt_v3_capital_reservation.rs:281-445 | a run from the empty ledger, carrying only what it looked up, after which an accepted revalue leaves the true total past the budget |
| `CapitalReservation.RevalueTotal` | src/bolt_v3_capital_reservation.rs:374-445 | an accepted revalue moves its pool by the change it reports and no other pool |
| `CapitalReservation.ReserveThenRollback` | src/bolt_v3_capital_reservation.rs:133-253 | rolling back an accepted reserve restores the exact list, order included, and reports the liability |
| `CapitalReservation.StepFaithful` | src/bolt_v3_capital_reservation.rs:133-445 | every ledger operation keeps (pool, request id) unique and liabilities positive, and moves each pool's true total by exactly what its answer reports |
| `CapitalReservation.RunConserves` | src/bolt_v3_capital_reservation.rs:133-445 | over every run a pool's true total is its start plus accepted reserves, carries and revalue changes minus releases, removals and rollbacks |
| `CapitalReservation.RunStaysWithinBudgets` | src/bolt_v3_capital_reservation.rs:133-445 | without carries a pool's true total never passes the largest budget less headroom that a reserve or revalue of the pool was decided against |
| `CapitalReservation.RunWithoutCarryStaysRepresentable` | src/bolt_v3_capital_reservation.rs:133-445 | in particular a representable pool total never overflows |
| `CapitalReservation.RetainedExactly` | src/bolt_v3_capital_reservation.rs:281-296 | a lookup yields exactly the live entry of its key and group |
| `CapitalReservation.ReservationLedger.Retained` | src/bolt_v3_capital_reservation.rs:281-296 | the lookup in place; it succeeds exactly when such an entry is live |
| `CapitalReservation.Position` | src/bolt_v3_capital_reservation.rs:248-296 | the first entry with a key, or none: the lookup of rollback, removal, release and revalue |
| `CapitalReservation.ReservationLedger.Unreconciled` | src/bolt_v3_capital_reservation.rs:111-116 | an empty ledger with its gate closed |
| `CapitalReservation.ReservationLedger.Reconciled` | src/bolt_v3_capital_reservation.rs:118-123 | an empty ledger with its gate open |
| `CapitalReservation.ReservationLedger.InvalidateReconciliation` | src/bolt_v3_capital_reservation.rs:129-131 | closes the gate and keeps every entry |
| `CapitalReservation.ReservationLedger.LiveReservedLiability` | src/bolt_v3_capital_reservation.rs:238-246 | the running sum equals the true total of the pool, or MAX once that is past MAX |
| `CapitalReservation.ReservationLedger.FindPosition` | src/bolt_v3_capital_reservation.rs:255-262 | the search loop finds the first entry of a key, and none exactly when the key is absent |
| `CapitalReservation.ReservationLedger.Reserve` | src/bolt_v3_capital_reservation.rs:133-236 | performs the reserve step in place: the same new list and the same decision |
| `CapitalReservation.ReservationLedger.RollbackUncommitted` | src/bolt_v3_capital_reservation.rs:248-253 | performs the rollback step in place |
| `CapitalReservation.ReservationLedger.RemoveExisting` | src/bolt_v3_capital_reservation.rs:255-279 | performs the removal step in place |
| `CapitalReservation.ReservationLedger.CarryRetained` | src/bolt_v3_capital_reservation.rs:298-323 | performs the carry step in place, for any entry and so for every entry a lookup can yield |
| `CapitalReservation.ReservationLedger.Release` | src/bolt_v3_capital_reservation.rs:325-372 | performs the release step in place |
| `CapitalReservation.ReservationLedger.Revalue` | src/bolt_v3_capital_reservation.rs:374-445 | performs the revalue step in place |
| `LedgerDecisions.ReserveDecides` | src/bolt_v3_capital_reservation.rs:133-236 | a reserve is accepted exactly when its names are there, pool and request are fresh, it is positive and new, the ledger is reconciled and the true total with it leaves the floor; it then appends exactly its own entry and reports what is left |
| `LedgerDecisions.ReserveReasons` | src/bolt_v3_capital_reservation.rs:133-236 | which reason each refused reserve gives, in the order of the checks |
| `LedgerDecisions.ReleaseDecides` | src/bolt_v3_capital_reservation.rs:325-372 | a release is accepted exactly when serviceable for an older live entry of its key and group; it removes exactly that entry and reports its liability, else nothing changes |
| `LedgerDecisions.ReleaseReasons` | src/bolt_v3_capital_reservation.rs:325-372 | which reason a serviceable release that is refused gives |
| `LedgerDecisions.ServiceReasons` | src/bolt_v3_capital_reservation.rs:325-413 | which reason release and revalue give before they look for the entry |
| `LedgerDecisions.RevalueDecides` | src/bolt_v3_capital_reservation.rs:374-445 | a revalue is accepted exactly when serviceable for an older live entry with room; it rewrites that entry in place and reports both liabilities, else nothing changes |
| `LedgerDecisions.RevalueReasons` | src/bolt_v3_capital_reservation.rs:374-445 | which reason a serviceable revalue that is refused gives |
| `LedgerDecisions.RollbackDecides` | src/bolt_v3_capital_reservation.rs:248-253 | a rollback removes exactly the live entry of its key and reports its liability, or finds none |
| `LedgerDecisions.RemoveDecides` | src/bolt_v3_capital_reservation.rs:255-279 | a removal is accepted exactly for a live entry of the key and group, else it says which of the two is wrong |
| `LedgerDecisions.CarryDecides` | src/bolt_v3_capital_reservation.rs:298-323 | a carry appends the entry as it is exactly when its pool fits, it is named and positive, and its key is not live |
| `LedgerDecisions.ClosedLedgerRefuses` | src/bolt_v3_capital_reservation.rs:133-445 | a closed ledger answers reserve, release and revalue with the need to reconcile |
| `LedgerDecisions.OnlyInvalidateCloses` | src/bolt_v3_capital_reservation.rs:129-445 | invalidating closes the gate and keeps every entry; no other operation touches the gate |
| `AdmissionDecisions.QuoteDecides` | src/bolt_v3_capital_admission.rs:635-719 | a liability is quoted exactly when intent and fees are in order and it is representable and backed; it is the notional with fee and slippage allowances, spelled out |
| `AdmissionDecisions.NotionalDecides` | src/bolt_v3_capital_admission.rs:650-656 | an intent in order always has a notional: quantity times price for a buy, zero for a sell |
| `AdmissionDecisions.AllowancesDecide` | src/bolt_v3_capital_admission.rs:657-680 | the allowances are added, in range and against collateral or position, as the closed form says |
| `AdmissionDecisions.IntentReasons` | src/bolt_v3_capital_admission.rs:692-719 | which error an intent or fee policy out of order gets, in the order of the checks |
| `AdmissionDecisions.LiabilityReasons` | src/bolt_v3_capital_admission.rs:635-689 | which error an intent in order gets for its liability |
| `AdmissionDecisions.AdmissionDecides` | src/bolt_v3_capital_admission.rs:384-508 | an admission is accepted exactly when inputs and ledger are in order, spelled out; it appends one entry for the intent at the closed-form liability and reports what is left |
| `AdmissionDecisions.AdmissionReasons` | src/bolt_v3_capital_admission.rs:384-508 | which reasons a refusal reports before any liability is quoted |
| `AdmissionDecisions.LaterReasons` | src/bolt_v3_capital_admission.rs:384-508 | a refusal for want of a liability reports its error; one of the ledger reports its reason and the liability |
| `AdmissionDecisions.SomeLedgerAdmitsExactly` | src/bolt_v3_capital_admission.rs:384-508 | an intent is admitted by some ledger exactly when it is in order, worth something, named and fresh, and its liability fits the pool on its own |
| `CapitalAdmission.ValidationDecides` | src/bolt_v3_capital_admission.rs:333-343 | a decision is well formed exactly when it has a remainder and no reason if accepted, a reason and no remainder if not; else the error that applies |
| `CapitalAdmission.ReserveDecisionsAreWellFormed` | src/bolt_v3_capital_admission.rs:333-343 | no decision of the ledger is called malformed, and validation reads acceptance exactly when the ledger changed |
| `CapitalAdmission.StageAllExactly` | src/bolt_v3_capital_admission.rs:189-259 | a rebuild is accepted exactly when every item is valid for the pool, ids are distinct and each open order fits behind what precedes it; the result is the evidence in order |
| `CapitalAdmission.OpenOrderRebuildExactly` | src/bolt_v3_capital_admission.rs:189-259 | for open orders alone the running budget checks amount to one check of the grand total |
| `CapitalAdmission.OpenOrderRebuildIgnoresOrder` | src/bolt_v3_capital_admission.rs:189-259 | any order of open-order evidence is accepted alike and rebuilds the same multiset |
| `CapitalAdmission.CarriedEvidenceOrderMatters` | src/bolt_v3_capital_admission.rs:189-259 | two pieces of evidence, one carried, accepted in one order and refused in the other |
| `CapitalAdmission.RetainedRebuildRestores` | src/bolt_v3_capital_admission.rs:189-269 | looking every live entry of a pool up and rebuilding from the lookups gives the same list back in order, gate open, whatever the budget |
| `CapitalAdmission.StageInto` | src/bolt_v3_capital_admission.rs:206-240 | one turn of the staging loop: the ledger accepts the item, or the reason it is refused |
| `CapitalAdmission.RebuildAllOrNothing` | src/bolt_v3_capital_admission.rs:171-259 | a refused rebuild keeps every entry, closes the gate and stops at the first unacceptable prefix; an accepted one makes the ledger exactly the evidence, all in the pool |
| `CapitalAdmission.RefusalPoint` | src/bolt_v3_capital_admission.rs:189-259 | the reported index is the first prefix that cannot be staged |
| `CapitalAdmission.RefusalPersists` | src/bolt_v3_capital_admission.rs:189-259 | once a prefix is refused so is every extension, at the same place and for the same reason |
| `CapitalAdmission.StageOne` | src/bolt_v3_capital_admission.rs:189-245 | offering one item keeps the ledger invariant |
| `CapitalAdmission.BuyLiabilityIsWorstCase` | src/bolt_v3_capital_admission.rs:635-689 | the liability of a buy covers every fill within its size, limit, fee and slippage allowance, and fits the collateral allowance |
| `CapitalAdmission.AdmissionAddsExactlyOne` | src/bolt_v3_capital_admission.rs:384-508 | an accepted admission adds exactly one entry for the intent at the reported liability within the budget; a rejected one changes nothing; a broken invariant is never reported |
| `CapitalAdmission.AdmittedIntentIsBacked` | src/bolt_v3_capital_admission.rs:384-508 | an accepted buy fits the allowance and an accepted sell the position held, with positive liability |
| `CapitalAdmission.AdmissionAcceptsExactly` | src/bolt_v3_capital_admission.rs:384-508 | an admission is accepted exactly when preparation succeeds, every ledger guard passes and the true total with the liability leaves the headroom |
| `CapitalAdmission.LiabilityPositiveExactly` | src/bolt_v3_capital_admission.rs:635-689 | a quoted liability is positive exactly when not both allowances are zero with a sell or a zero limit price |
| `CapitalAdmission.FreeIntentIsQuotedAtZero` | src/bolt_v3_capital_admission.rs:635-719 | every such free intent that is otherwise in order is quoted at zero |
| `CapitalAdmission.FreeIntentIsNeverAdmitted` | src/bolt_v3_capital_admission.rs:384-508 | and is admitted by no ledger |
| `CapitalAdmission.FreeIntentExamples` | src/bolt_v3_capital_admission.rs:635-719 | a free sell and a free buy |
| `CapitalAdmission.GateStepKeepsValid` | src/bolt_v3_capital_admission.rs:167-307 | every gate operation keeps the ledger invariant |
| `CapitalAdmission.ClosedGateNeverRaisesLiability` | src/bolt_v3_capital_admission.rs:167-307 | while closed, no run of gate operations without an accepted rebuild reopens the gate, adds an entry or raises a pool |
| `CapitalAdmission.CapitalAdmissionGate.Unreconciled` | src/bolt_v3_capital_admission.rs:151-155 | a gate starts closed over an empty ledger |
| `CapitalAdmission.CapitalAdmissionGate.InvalidateReconciliation` | src/bolt_v3_capital_admission.rs:167-169 | closes the gate and keeps every entry |
| `CapitalAdmission.CapitalAdmissionGate.RebuildOpenOrderReservations` | src/bolt_v3_capital_admission.rs:171-259 | the staging loop replaces the live ledger exactly as the rebuild step says and never reports a malformed decision |
| `CapitalAdmission.CapitalAdmissionGate.EvaluateAndReserve` | src/bolt_v3_capital_admission.rs:281-293 | performs the admission step in place |
| `CapitalAdmission.CapitalAdmissionGate.Retained` | src/bolt_v3_capital_admission.rs:261-269 | performs the lookup on the live ledger |
| `CapitalAdmission.CapitalAdmissionGate.RemoveExisting` | src/bolt_v3_capital_admission.rs:271-279 | performs the removal step in place |
| `CapitalAdmission.CapitalAdmissionGate.RollbackUncommittedReservation` | src/bolt_v3_capital_admission.rs:299-306 | performs the rollback step in place |
| `RebuildOrder.EveryOrderExactly` | src/bolt_v3_capital_admission.rs:189-259 | every order of the evidence is accepted exactly when it is well formed and has no open order or its grand total fits |
| `RebuildOrder.SomeOrderExactly` | src/bolt_v3_capital_admission.rs:189-259 | some order is accepted exactly when it is well formed and has no open order or its open orders alone fit |
| `RebuildOrder.OrderIsIrrelevantExactly` | src/bolt_v3_capital_admission.rs:189-259 | acceptance ignores order exactly when the evidence is ill formed, or has no open order, or fits as a whole, or not even its open orders fit |
| `RebuildOrder.AcceptedOrdersAgree` | src/bolt_v3_capital_admission.rs:189-259 | two accepted orders rebuild the same multiset of entries |
| `BookLevels.AllocationMeans` | src/bolt_v3_book_sizing.rs:169-200 | an allocation takes from each level between nothing and its size, and nothing from a level without a positive price and size |
| `BookLevels.Exchange` | src/bolt_v3_book_sizing.rs:169-233 | against a greedy allocation every other allocation gains quantity only at prices no better than the last level taken |
| `BookSizing.MaxExecutionWithinVwapLimit` | src/bolt_v3_book_sizing.rs:169-233 | the sweep returns the largest execution of all allocations within the VWAP limit, for both sides, and nothing exactly when nothing is feasible |
| `BookSizing.LargestExecutionRespectsLimit` | src/bolt_v3_book_sizing.rs:169-233 | the average price of that execution respects the limit |
| `BookSizing.GreedyAtLimitIsLargest` | src/bolt_v3_book_sizing.rs:203-226 | stopping exactly on the limit at a level worse than it bounds every feasible allocation |
| `BookSizing.FullSweepIsLargest` | src/bolt_v3_book_sizing.rs:169-233 | taking every usable level bounds every allocation |
| `BookSizing.VwapWithinLimit` | src/bolt_v3_book_sizing.rs:190-202 | comparing the average price with the limit is the same as comparing notionals |
| `BookSizing.PartialQuantity` | src/bolt_v3_book_sizing.rs:203-219 | the part taken of the level that breaks the limit is proper, lands exactly on the limit and is never clamped |
| `BookSizing.FinishExecution` | src/bolt_v3_book_sizing.rs:221-232 | an empty total is no execution, otherwise its quantity and average price |
| `BookSizing.Ascending` | src/bolt_v3_book_sizing.rs:134-166 | a sorted price map lists its prices strictly ascending with their sizes |
| `BookSizing.AscendingCovers` | src/bolt_v3_book_sizing.rs:134-166 | and lists every price |
| `BookSizing.SortedLevelsInSweepOrder` | src/bolt_v3_book_sizing.rs:134-166 | asks ascending and bids descending are in sweep order |
| `BookSizing.LastWriterWins` | src/bolt_v3_book_sizing.rs:69-99 | a side and price holds what its last write, or a later clear, left behind |
| `BookSizing.UntouchedKeeps` | src/bolt_v3_book_sizing.rs:69-99 | a side and price no delta touches keeps what it held |
| `BookSizing.DeltasKeepSizesPositive` | src/bolt_v3_book_sizing.rs:69-99 | no batch leaves an empty or negative level |
| `BookSizing.BatchesCompose` | src/bolt_v3_book_sizing.rs:69-99 | two batches in sequence build the same levels as their concatenation |
| `BookSizing.MapTotalAdds` | src/bolt_v3_book_sizing.rs:101-113 | the liquidity figure is a sum over the map: each new price adds its size |
| `BookSizing.OutcomeBookState.constructor` | src/bolt_v3_book_sizing.rs:36-46 | a new book is empty with no touch and no liquidity figure |
| `BookSizing.OutcomeBookState.ApplyInPlace` | src/bolt_v3_book_sizing.rs:69-99 | one delta in place is one delta step |
| `BookSizing.OutcomeBookState.RefreshCache` | src/bolt_v3_book_sizing.rs:101-113 | the cached touch is the maximum bid and minimum ask and the cached liquidity the total size |
| `BookSizing.OutcomeBookState.UpdateFromDeltas` | src/bolt_v3_book_sizing.rs:69-114 | a batch applies its deltas in order and leaves the cache agreeing with the levels |
| `BookSizing.AllowedVwapSign` | src/bolt_v3_book_sizing.rs:134-166 | from a positive touch the limit is positive exactly for buys and for sells slipping by less than 10000 basis points |
| `BookSizing.LimitIsSlippage` | src/bolt_v3_book_sizing.rs:134-166 | respecting the computed limit means that what is paid over the touch, or given up below it, is at most so many basis points of the value at the touch |
| `BookSizing.LargestIsWithinAllowance` | src/bolt_v3_book_sizing.rs:134-233 | so the largest execution within the limit is the largest of all allocations within that slippage allowance |
| `BookSizing.SizeSide` | src/bolt_v3_book_sizing.rs:116-166 | one side of a book: sized from its best price when that is positive, and nothing otherwise |
| `BookSizing.NonPositiveLimitAllowsWholeBook` | src/bolt_v3_book_sizing.rs:134-233 | a sale with a limit of zero or less may take the whole book, and that is its largest execution |
| `BookSizing.SizeFromTouch` | src/bolt_v3_book_sizing.rs:134-166 | with a touch, what is returned is the largest execution within the slippage allowance, stated from the touch and the basis points, exactly for buys and for sells slipping by less than 10000 basis points; other sells get nothing |
| `BookSizing.FullSlippageSaleExample` | src/bolt_v3_book_sizing.rs:134-233 | one bid, wholly inside the limit of a sale slipping by 10000 basis points |
| `BookSizing.OutcomeBookState.MaxExecutionWithinVwapSlippageBps` | src/bolt_v3_book_sizing.rs:134-166 | the same from the asks for a buy and from the bids for a sell, and nothing without a touch on that side |
| `ExecutableCost.SweepExactNotional` | src/bolt_v3_executable_cost.rs:125-227 | success is a book prefix filled in full but for its last level, within tolerance of the request, that no allocation beats; each error is given exactly when it occurs |
| `ExecutableCost.SweepBoundedQuantity` | src/bolt_v3_executable_cost.rs:265-340 | success fills exactly the smaller of the request and the depth inside the limit, unbeaten; each error is given exactly when it occurs |
| `ExecutableCost.PriceExactSizeVwap` | src/bolt_v3_executable_cost.rs:97-227 | the exact-notional price of a quote: its depth limit or why there is none, then the sweep |
| `ExecutableCost.PriceBoundedQuantityVwap` | src/bolt_v3_executable_cost.rs:238-340 | the bounded-quantity price of a quote, likewise |
| `ExecutableCost.DepthLimit` | src/bolt_v3_executable_cost.rs:97-123 | the depth limit lies so many basis points of the touch above it for a buy and below it for a sell; there is one exactly for buys and for sells of less than 10000 basis points depth, and each error is given exactly when it applies |
| `ExecutableCost.Side` | src/bolt_v3_executable_cost.rs:103-123 | an order takes from exactly the levels of the other side, in sweep order |
| `ExecutableCost.RefusedSaleHasWholeDepth` | src/bolt_v3_executable_cost.rs:103-227 | at the limit such a refused sale would have, every bid lies inside it and none is unpriceable |
| `ExecutableCost.ConsumeExactNotionalLevel` | src/bolt_v3_executable_cost.rs:365-388 | one level gives its whole size or exactly the remaining notional |
| `ExecutableCost.RunExactNotional` | src/bolt_v3_executable_cost.rs:125-190 | the exact-notional loop ends filled, out of levels inside the limit, or at an unpriceable level |
| `ExecutableCost.RunBoundedQuantity` | src/bolt_v3_executable_cost.rs:265-320 | the bounded-quantity loop, likewise |
| `ExecutableCost.ReportFill` | src/bolt_v3_executable_cost.rs:191-227 | the reported fill describes its own legs and passes the final depth check |
| `ExecutableCost.AverageInside` | src/bolt_v3_executable_cost.rs:210-217 | the average price of legs inside the limit is inside it |
| `ExecutableCost.PrefixFillIsUnbeaten` | src/bolt_v3_executable_cost.rs:125-227 | a prefix fill is unbeaten by every allocation, in quantity and in notional |
| `ExecutableCost.InsideIsPrefix` | src/bolt_v3_executable_cost.rs:125-190 | the levels inside the depth limit are exactly the leading ones |
| `ExecutableCost.LegsAreGreedy` | src/bolt_v3_executable_cost.rs:125-190 | the legs of a prefix fill are a greedy allocation |
| `ExecutableCost.ToleranceIs` | src/bolt_v3_numeric.rs:53-55 | the slack is ten thousand machine epsilons of the request, whatever its sign |
| `RestingTerms.TermsMatchSymmetric` | src/bolt_v3_economics_runtime.rs:977-1253 | the same-terms relation is symmetric |
| `RestingTerms.TermsMatchTransitive` | src/bolt_v3_economics_runtime.rs:977-1253 | the same-terms relation is transitive |
| `RestingTerms.TermsMatchReflexiveExactly` | src/bolt_v3_economics_runtime.rs:977-1253 | an admission has its own terms exactly when it plans one leg, its derived figures agree and its interval effects name the position held |
| `RestingTerms.MismatchWithItself` | src/bolt_v3_economics_runtime.rs:977-1253 | any admission given two planned legs, or a liability below its basis, does not match itself |
| `RestingTerms.ComponentsMatchBackAndThrough` | src/bolt_v3_economics_runtime.rs:1104-1172 | matching of components is symmetric and transitive, per-unit amounts included |
| `RestingTerms.ScaledIntentIsProportional` | src/bolt_v3_economics_runtime.rs:925-944 | the scaled intent asks for the remaining quantity at the same basis per unit |
| `RestingTerms.RefreshContinues` | src/bolt_v3_economics_runtime.rs:880-971 | one refresh keeps the terms and the basis per unit, at exactly the remaining quantity, for no more basis |
| `RestingTerms.ChainContinues` | src/bolt_v3_economics_runtime.rs:880-971 | over every chain of refreshes the standing admission has the terms and basis per unit of the first and never more quantity |
| `RestingMeaning.TermsMatchMeans` | src/bolt_v3_economics_runtime.rs:977-1253 | the computed relation is the same-terms relation spelled out: equal price, authority, binding, policy, currency and basis identity, equal gross value, basis and amount per unit, figures that follow, and components pairwise the same |
| `RestingMeaning.ComponentsMean` | src/bolt_v3_economics_runtime.rs:1104-1172 | components match exactly when they agree in everything named and their estimate and bound come to the same per unit |
| `RestingMeaning.EffectsMean` | src/bolt_v3_economics_runtime.rs:998-1046 | effects match exactly when they have one currency, or one asset booked alike, and come to the same per unit of the order or of the position their interval names |
| `RestingMeaning.QuotientsMean` | src/bolt_v3_economics_runtime.rs:994-1046 | comparing two checked quotients is comparing cross products, or having no quotient on either side |
| `RestingMeaning.FiguresMean` | src/bolt_v3_economics_runtime.rs:1212-1228 | the derived figures are valid exactly when the net edge is gross value plus core total, its ratio is to the basis, and the liability is the basis plus any core debit |
| `RestingMeaning.CoreSplits` | src/bolt_v3_economics_runtime.rs:1104-1253 | the components compared are all but the forecasts, in order |
| `RestingMeaning.FlatPositionExample` | src/bolt_v3_economics_runtime.rs:998-1172 | an interval effect of a position of size zero may change at will and still match |
| `RestingMeaning.MatchesAreEqualExactly` | src/bolt_v3_economics_runtime.rs:998-1046 | measured by quantities other than zero, every match is equal per unit exactly when one of them is at least one in size |
| `RestingRefresh.EarlyOutcomes` | src/bolt_v3_economics_runtime.rs:880-940 | exactly when a refresh is complete, not due, or cancelled for a lost maker guarantee or an invalid state |
| `RestingRefresh.ScalingNeverFails` | src/bolt_v3_economics_runtime.rs:925-943 | a remainder within the planned leg can always be scaled to, and gives the intent in proportion |
| `RestingRefresh.ScaledIntentIsUnique` | src/bolt_v3_economics_runtime.rs:925-943 | there is only one such intent |
| `RestingRefresh.QuotedExactly` | src/bolt_v3_economics_runtime.rs:944-957 | an intent is admitted exactly when it is priced with an admitted edge and a representable liability, and as its quote |
| `RestingRefresh.RefreshDecides` | src/bolt_v3_economics_runtime.rs:880-971 | a due refresh is cancelled as unavailable exactly when the intent in proportion is not quoted; else it is refreshed when the quote has the same terms and cancelled for changed terms when not |
| `RestingRefresh.ChainKeepsTerms` | src/bolt_v3_economics_runtime.rs:880-971 | over every chain of refreshes the standing admission has the terms of the first, spelled out |
| `KillSwitchCancel.NewSnapshot` | src/bolt_v3_kill_switch_cancel.rs:143-169 | one candidate per order, the first seen, with every surface seen remembered; an error exactly for no candidates |
| `KillSwitchCancel.MergeAggregateResult` | src/bolt_v3_kill_switch_cancel.rs:741-757 | the merge cascade is the join of the severity order |
| `KillSwitchCancel.WorseOutcome` | src/bolt_v3_kill_switch_cancel.rs:781-792 | one of two outcomes, no less severe than either |
| `KillSwitchCancel.CollectWorst` | src/bolt_v3_kill_switch_cancel.rs:673-685 | the worst outcome per order, or an error for evidence of no candidate |
| `KillSwitchCancel.FromSnapshotOutcomes` | src/bolt_v3_kill_switch_cancel.rs:663-701 | the result is the severity join over the candidates, with missing evidence as outstanding risk; an error exactly for unknown evidence |
| `KillSwitchCancel.JoinIsUnique` | src/bolt_v3_kill_switch_cancel.rs:663-701 | so the result depends only on the set of evidence, not its order or repetition |
| `KillSwitchCancel.AllTerminalExactly` | src/bolt_v3_kill_switch_cancel.rs:663-701 | all-terminal exactly when every candidate has evidence and all of it is Expired or TerminalBeforeCancel |
| `KillSwitchCancel.AggregateMeans` | src/bolt_v3_kill_switch_cancel.rs:663-757 | failed exactly when some candidate's cancel was rejected; else reconciliation exactly when some was filled; else outstanding exactly when some is open or without evidence; else all terminal |
| `KillSwitchFlatten.ValidateNoConflictingPositionProof` | src/bolt_v3_kill_switch_flatten.rs:543-559 | accepts exactly the lists in which no two proofs of a position differ in side or size |
| `KillSwitchFlatten.NewSnapshot` | src/bolt_v3_kill_switch_flatten.rs:181-221 | the first proof per position, sorted into open, flat and unknown; an error exactly for conflicting proofs |
| `KillSwitchFlatten.SidesPartition` | src/bolt_v3_kill_switch_flatten.rs:181-221 | every position is in exactly one class |
| `KillSwitchFlatten.PlanIgnoresProofOrder` | src/bolt_v3_kill_switch_flatten.rs:455-478 | the positions to flatten, their order sides and sizes depend only on which proofs were given, and so does the whole command when each position's proofs agree on their source |
| `KillSwitchFlatten.CommandsIgnoreOrderExactly` | src/bolt_v3_kill_switch_flatten.rs:455-478 | the whole command, quantity source included, is the same in every order of the proofs exactly when the proofs of each open position agree on that source |
| `KillSwitchFlatten.SourceOrderExample` | src/bolt_v3_kill_switch_flatten.rs:455-478 | two agreeing proofs, cached and reported, whose order shows in the command |
| `KillSwitchFlatten.CommandsMean` | src/bolt_v3_kill_switch_flatten.rs:455-478 | exactly the positions proved long or short are flattened: a long one by a sell, a short one by a buy, each for the size every proof of it gives |
| `KillSwitchFlatten.SummarizeConcat` | src/bolt_v3_kill_switch_flatten.rs:661-705 | the cascade is a join homomorphism over concatenation |
| `KillSwitchFlatten.SummarizeIsWorst` | src/bolt_v3_kill_switch_flatten.rs:661-705 | a summary bounds each outcome and is one of them unless all flat |
| `KillSwitchFlatten.SummarizeSeesMembers` | src/bolt_v3_kill_switch_flatten.rs:661-705 | a summary depends only on which outcomes occur |
| `KillSwitchFlatten.SummarizeMeans` | src/bolt_v3_kill_switch_flatten.rs:661-705 | each class of a summary exactly by the outcomes that put it there; all flat exactly when every outcome saw a flat position |
| `KillSwitchFlatten.PlanIsFlatExactly` | src/bolt_v3_kill_switch_flatten.rs:661-819 | a plan is all flat exactly when every command has evidence and all evidence saw a flat position |
| `KillSwitchFlatten.PlanSummaryIsFlatSummary` | src/bolt_v3_kill_switch_flatten.rs:781-819 | the worst over commands equals the flat summary of all evidence plus one planned submit per command without evidence |
| `KillSwitchFlatten.CollectOne` | src/bolt_v3_kill_switch_flatten.rs:848-870 | recording one outcome keeps each command's worst equal to the summary of its evidence |
| `KillSwitchFlatten.CollectWorst` | src/bolt_v3_kill_switch_flatten.rs:790-803 | the collecting loop, or an error exactly for unknown evidence |
| `KillSwitchFlatten.WorstOverCommands` | src/bolt_v3_kill_switch_flatten.rs:805-815 | the summarising loop computes the worst over the commands |
| `KillSwitchFlatten.FromPlanOutcomes` | src/bolt_v3_kill_switch_flatten.rs:781-819 | the aggregation loops compute that flat summary; an error exactly for unknown evidence |
| `KillSwitch.HaltIdIsFixed` | src/bolt_v3_kill_switch.rs:221-331 | between leaving and re-entering Armed the halt id never changes |
| `KillSwitch.HaltIsNamedByItsTrigger` | src/bolt_v3_kill_switch.rs:221-331 | every halted state of a run stems from a trigger that left Armed, bears its name and was not re-armed since |
| `KillSwitch.HaltedNeedsDurableEvidence` | src/bolt_v3_kill_switch.rs:221-331 | a Halted or Flat state stems from a step that recorded the same halt durably, and Flat from a clean proof after it |
| `KillSwitch.RearmingNeedsCleanReset` | src/bolt_v3_kill_switch.rs:221-331 | between any halted state and a later armed one there is an authorised, valid, fresh and clean reset of a flat or failed halt |
| `KillSwitch.InputsTakeEffect` | src/bolt_v3_kill_switch.rs:221-331 | at every step of a run an input leads to the state spelled out for it, and otherwise leaves the state |
| `KillSwitch.TriggerTakesHold` | src/bolt_v3_kill_switch.rs:221-331 | a trigger met while armed halts the switch under its name, and it stays so until a clean reset, whatever else comes in |
| `KillSwitch.EveryHaltCanBeCleared` | src/bolt_v3_kill_switch.rs:221-331 | from every state of a run at most three inputs with everything in order re-arm the switch |
| `KillSwitch.RefusalsAreNamed` | src/bolt_v3_kill_switch.rs:221-331 | each error is given exactly when its guard is the first to fail |
| `KillSwitch.PlannerStatesAreUnreachable` | src/bolt_v3_kill_switch.rs:221-331 | no run enters Cancelling or Flattening |
| `HaltId.SameBytesExactly` | src/bolt_v3_kill_switch.rs:333-350 | two triggers hash the same bytes exactly when their kinds and tails agree; the loss reason never counts |
| `HaltId.ZeroFreeSourcesIdentify` | src/bolt_v3_kill_switch.rs:333-350 | with no zero byte in their sources, exactly when they agree on kind, source, timestamp and reason |
| `HaltId.SharesBytesExactly` | src/bolt_v3_kill_switch.rs:333-350 | a trigger shares its bytes with a different one exactly when its tail can be cut at another place than the end of its source |
| `HaltId.SharedHaltExample` | src/bolt_v3_kill_switch.rs:333-350 | two different triggers with the same bytes |
| `KillSwitchStore.RestorePnlMap` | src/bolt_v3_kill_switch_store.rs:594-608 | the restoring loop reads back every entry or gives up exactly when some entry is unreadable |
| `KillSwitchStore.PnlRoundTrip` | src/bolt_v3_kill_switch_store.rs:594-608 | a persisted profit map restores to itself |
| `KillSwitchStore.LossRoundTrip` | src/bolt_v3_kill_switch_store.rs:610-663 | a loss snapshot survives persisting exactly when it is well formed |
| `KillSwitchStore.StoreRoundTrip` | src/bolt_v3_kill_switch_store.rs:409-521 | any written state reloads as written, fail-closed exactly for Halting and FailedManualIntervention; an ill-formed snapshot is corrupt evidence |
| `KillSwitchStore.LoadDecides` | src/bolt_v3_kill_switch_store.rs:409-521 | exactly when each reason for staying closed is given and when the stored state is resumed |
| `KillSwitchStore.WrittenStateIsKept` | src/bolt_v3_kill_switch_store.rs:409-576 | a written state comes back as itself, held closed exactly when it is Halting or FailedManualIntervention |
| `KillSwitchStore.ResumedOnlyWhenSound` | src/bolt_v3_kill_switch_store.rs:409-521 | only a present, readable, current and resolved record with a valid snapshot is resumed |
| `KillSwitchStore.Store.constructor` | src/bolt_v3_kill_switch_store.rs:217-222 | a store starts without a file |
| `KillSwitchStore.Store.WriteStateWithLossSnapshot` | src/bolt_v3_kill_switch_store.rs:248-257 | an oversized record is refused and changes nothing; anything else replaces the file and loads back |
| `KillSwitchStore.Store.BootstrapInitialArmedLossSnapshot` | src/bolt_v3_kill_switch_store.rs:372-386 | bootstrap never overwrites existing evidence and loads back as Armed |
| `BasketAdmission.MatchIsBijection` | src/bolt_v3_basket_admission.rs:297-345 | matching claims pair claims and legs one to one by instrument |
| `BasketAdmission.IndexLegs` | src/bolt_v3_basket_admission.rs:305-321 | the leg index holds each leg's cost, or the legs are unusable or repeat an instrument |
| `BasketAdmission.ValidateSubmitClaims` | src/bolt_v3_basket_admission.rs:297-345 | claims are accepted exactly when they match the legs one to one, each positive and at most its leg's cost, with the total within the cap |
| `BasketAdmission.OverflowExceedsCap` | src/bolt_v3_basket_admission.rs:330-344 | an overflowing total is past every cap |
| `BasketAdmission.ReserveDecides` | src/bolt_v3_basket_admission.rs:347-374 | a basket is admitted exactly at a positive cost within the cap, under a new id, with room; the table gains exactly its reservation, and each error is given exactly when it applies |
| `BasketAdmission.ReleaseDecides` | src/bolt_v3_basket_admission.rs:212-234 | a release removes, holds or misses its basket, each exactly when, and touches no other |
| `BasketAdmission.DropDecides` | src/bolt_v3_basket_admission.rs:147-161 | a drop removes its basket exactly while it may be released on drop, and touches no other |
| `BasketAdmission.BasketAdmissionState.constructor` | src/bolt_v3_basket_admission.rs:164-175 | no basket is open at first |
| `BasketAdmission.BasketAdmissionState.Reserve` | src/bolt_v3_basket_admission.rs:347-374 | reserving is the table step: refused for cost, duplicate id or full table, else recorded |
| `BasketAdmission.BasketAdmissionState.ReleaseAfterFailedSubmit` | src/bolt_v3_basket_admission.rs:376-382 | a failed submit removes its basket and no other |
| `BasketAdmission.BasketAdmissionState.Release` | src/bolt_v3_basket_admission.rs:212-234 | a release removes the basket, or marks it stuck and keeps it, or reports it missing |
| `BasketAdmission.BasketAdmissionState.PermitDropped` | src/bolt_v3_basket_admission.rs:147-161 | a drop removes the basket only while it may be released on drop |
| `BasketAdmission.InterleavingsKeepLimits` | src/bolt_v3_basket_admission.rs:212-382 | under every interleaving the open count stays within its maximum and every basket within the cap |
| `BasketAdmission.InterleavingsBoundExposure` | src/bolt_v3_basket_admission.rs:212-382 | so the whole open exposure is within the count times the cap |
| `BasketAdmission.StuckBasketIsHeld` | src/bolt_v3_basket_admission.rs:147-234 | a stuck basket stays open, unchanged, through any interleaving without its release or a failed submit of it |
| `BasketAdmission.StepKeepsOwnedExactly` | src/bolt_v3_basket_admission.rs:147-382 | a step keeps every admission its basket, and baskets one owner, exactly when it is not the release of an owned basket |
| `BasketAdmission.InterleavingsKeepOwnership` | src/bolt_v3_basket_admission.rs:147-382 | the same throughout an interleaving, exactly when no step of it releases an owned basket |
| `BasketAdmission.StrandsExactly` | src/bolt_v3_basket_admission.rs:147-382 | a step takes a basket from an admission that goes on exactly when it is a drop or failure with a second owner of the id (a drop only of a releasable basket), or the release of an owned one |
| `BasketAdmission.InterleavingsStrandExactly` | src/bolt_v3_basket_admission.rs:147-382 | nothing is ever stranded exactly when no owned basket is released |
| `BasketAdmission.StaleFailureRemovesStuckBasket` | src/bolt_v3_basket_admission.rs:198-382 | a stale failed submit removes a basket admitted again, even one marked stuck |
| `BasketAdmission.StalePermitRemovesReadmittedBasket` | src/bolt_v3_basket_admission.rs:147-234 | with explicit releases a stale permit removes a basket admitted again |
| `EvidenceRegistry.CheckProducers` | build.rs:154-215 | accepts exactly well-formed producers with distinct kinds and owners |
| `EvidenceRegistry.CheckAllocations` | build.rs:217-273 | the loop with its expected start accepts exactly the chained allocations that end at the capacity |
| `EvidenceRegistry.AllocationsTile` | build.rs:217-273 | accepted allocations tile the capacity: each id below it is in exactly one, none beyond in any |
| `EvidenceRegistry.ScanStates` | build.rs:283-389 | one pass finds exactly whether every row is valid and no two share a variant, a mapping or an id |
| `EvidenceRegistry.CheckStates` | build.rs:275-389 | accepts exactly rows derived from their producer, inside their allocation and unique |
| `EvidenceRegistry.ParseRegistry` | build.rs:138-397 | a manifest read from its document is accepted exactly when it is well formed throughout |
| `EvidenceRegistry.IdsAreUniqueAndInRange` | build.rs:217-397 | in an accepted manifest every state id is below the capacity and no two states share one |
| `EvidenceRegistry.OwnerIsTheProducers` | build.rs:399-475 | in an accepted manifest a state is given the owner of the one producer of its kind |
| `EvidenceRegistry.WordCountIsCeiling` | build.rs:443-448 | the word count is the least number of 64-bit words that cover the capacity |
| `EvidenceRegistry.ProducerDecides` | build.rs:154-215 | a producer row is valid exactly when its names have their shapes and its dotted prefix starts with its kind |
| `EvidenceRegistry.StateDecides` | build.rs:283-389 | a row is valid exactly when its names have their shapes, it is derived from the one producer of its kind and its id lies in the one allocation it names |
| `EvidenceRegistry.StateNeedsBoth` | build.rs:283-389 | a row that names no producer or no allocation is refused |
| `EvidenceRegistry.DerivedExactly` | build.rs:283-389 | a row is derived exactly when its name is its producer's prefix, a dot and a part of its own that the variant spells after the producer's prefix |
| `EvidenceRegistry.CamelCaseIsAScan` | build.rs:513-526 | splitting, capitalizing and joining is one scan that drops separators and capitalizes what follows them |
| `EvidenceRegistry.UpperMeans` | build.rs:513-526 | the n-th lower-case letter becomes the n-th upper-case one |
| `EvidenceRegistry.SnakeCaseMeans` | build.rs:505-511 | which names are snake case |
| `EvidenceRegistry.CamelCaseMeans` | build.rs:532-536 | which names are upper camel case |
| `EvidenceRegistry.SplitRoundTrip` | build.rs:528-530 | splitting at a separator and joining again gives the name back |
| `EvidenceRegistry.PartsAreBetween` | build.rs:528-530 | no part holds the separator |
| `RegistryDocument.ParseDocument` | build.rs:117-397 | a document is accepted exactly when it has exactly the required keys and types and its manifest is well formed |
| `RegistryDocument.ManifestRoundTrip` | build.rs:117-397 | every manifest has a document that reads back as it |
| `RegistryDocument.ReadAll` | build.rs:154-388 | an array of tables is read exactly when every row can be, row by row |
| `EvidenceNovelty.MarkSetsOneBit` | src/bolt_v3_evidence_novelty.rs:199-214 | setting the bit of an id marks it and no other |
| `EvidenceNovelty.ClaimAddsOne` | src/bolt_v3_evidence_novelty.rs:199-214 | one claim adds exactly its own episode and state |
| `EvidenceNovelty.RepeatChangesNothing` | src/bolt_v3_evidence_novelty.rs:199-214 | claiming again changes nothing |
| `EvidenceNovelty.BitmapsRefineClaims` | src/bolt_v3_evidence_novelty.rs:168-214 | after any run the bitmaps hold exactly the ids of the states claimed in each episode |
| `EvidenceNovelty.NewExactlyOnFirstClaim` | src/bolt_v3_evidence_novelty.rs:199-214 | over any run a claim is new exactly when its episode and state were not claimed before |
| `EvidenceNovelty.CountIsCardinality` | src/bolt_v3_evidence_novelty.rs:240-245 | the sum of population counts is the number of ids marked |
| `EvidenceNovelty.CountIsDistinctClaims` | src/bolt_v3_evidence_novelty.rs:240-245 | over any run the population count is the number of distinct states claimed in the episode |
| `EvidenceNovelty.RegisteredEvidenceState` | src/bolt_v3_evidence_novelty.rs:248-261 | the search by producer and semantic state finds its one registration, or there is none |
| `EvidenceNovelty.EvidenceNoveltyGuard.constructor` | src/bolt_v3_evidence_novelty.rs:174-179 | a guard starts with no claims |
| `EvidenceNovelty.EvidenceNoveltyGuard.ClaimOnce` | src/bolt_v3_evidence_novelty.rs:199-232 | over any sequence of calls: refused exactly for another owner's state and then without effect, else true exactly when no earlier call claimed it in the episode; always in bounds |
| `EvidenceNovelty.EvidenceNoveltyGuard.EmitOnce` | src/bolt_v3_evidence_novelty.rs:185-196 | the emitter runs exactly on a first claim, and a failed emission stays claimed |
| `EvidenceNovelty.EvidenceNoveltyGuard.SeenStateCount` | src/bolt_v3_evidence_novelty.rs:240-245 | counts the distinct states the calls so far claimed in the episode |
| `ByteStrings.BigEndianInjective` | src/bolt_v3_config.rs:1590-1620 | numbers that fit their width have different encodings |
| `Words.MaskTest` | src/bolt_v3_evidence_novelty.rs:209-231 | a word meets the one-bit mask of an index exactly when it has that bit |
| `ConfigBundle.PreimageIdentifiesBundle` | src/bolt_v3_config.rs:1586-1623 | for distinct paths and lengths that fit, two bundles hash the same bytes exactly when their root bodies agree and their strategies are the same up to order |
| `ConfigBundle.PreimageDetermines` | src/bolt_v3_config.rs:1586-1623 | equal bytes come from the same root body and the same strategies, with or without distinct paths |
| `ConfigBundle.EntriesInjective` | src/bolt_v3_config.rs:1617-1623 | equally many entries with equal encodings are equal |
| `ConfigBundle.EntryParses` | src/bolt_v3_config.rs:1617-1623 | the first entry of an encoding is determined, whatever follows |
| `ConfigBundle.SortByPath` | src/bolt_v3_config.rs:1593-1594 | the sort is a permutation |
| `ConfigBundle.SortIsOrdered` | src/bolt_v3_config.rs:1593-1594 | and orders by path |
| `ConfigBundle.SortIgnoresOrder` | src/bolt_v3_config.rs:1593-1597 | every ordering of strategies with distinct paths sorts alike |
| `ConfigBundle.GeneratedLiveConfigBody` | src/bolt_v3_config.rs:1602-1615 | the scan with its moving offset returns what follows the first blank line of a generated file, else the text |
| `ConfigBundle.HeaderIsSkipped` | src/bolt_v3_config.rs:1602-1615 | non-blank lines, a blank one, then anything: the rest is kept whatever the lines were |
| `ConfigBundle.HeaderDoesNotMatter` | src/bolt_v3_config.rs:1586-1615 | regenerating the header never changes the fingerprinted bytes |
| `ConfigBundle.BodyKept` | src/bolt_v3_config.rs:1602-1615 | an unmarked file, and one without a blank line, is kept whole |
| `ConfigBundle.WhitespaceExactly` | src/bolt_v3_config.rs:1602-1615 | exactly the Unicode white-space characters count towards a blank line, each at its UTF-8 length |
| `ConfigBundle.BlankAscii` | src/bolt_v3_config.rs:1602-1615 | an ASCII line is blank exactly when it holds only spaces and control white space |
| `ConfigBundle.Layout` | src/bolt_v3_config.rs:1586-1623 | the bytes of a bundle with no strategy, written out |
| `ConfigBundle.LoadedPathsAreDistinct` | src/bolt_v3_config.rs:1520-1557 | strategies loaded without error have distinct paths |
| `ConfigBundle.CollectStrategies` | src/bolt_v3_config.rs:1520-1557 | loading aborts exactly for a file that is there and unusable; else there is no error exactly when every path is new and names a file, and then the strategies are the files in order |
| `BinarySettlement.NewPayout` | src/bolt_v3_binary_settlement.rs:22-28 | exactly the two terminal payouts are accepted |
| `BinarySettlement.SettleBinaryLots` | src/bolt_v3_binary_settlement.rs:118-127 | refused exactly when some lot is invalid, else the sum of the lots' settlements |
| `BinarySettlement.HedgeIdentity` | src/bolt_v3_binary_settlement.rs:79-127 | profit if YES wins less profit if NO wins is the net YES closed; every share pays in exactly one outcome; cash flow does not depend on the outcome |
| `BinarySettlement.HedgedExactly` | src/bolt_v3_binary_settlement.rs:79-127 | a book makes the same in both outcomes exactly when its net YES is zero |
| `BinarySettlement.LotMeans` | src/bolt_v3_binary_settlement.rs:90-115 | a buy pays quantity times price and makes its payout on top, a sell collects and pays out; the four signs of net YES |
| `BinarySettlement.InvalidLotIsRefused` | src/bolt_v3_binary_settlement.rs:90-115 | a lot is refused exactly for a quantity not above zero or a price outside zero to one |
| `BinarySettlement.BookMakes` | src/bolt_v3_binary_settlement.rs:90-127 | a bought book makes cash flow plus terminal value, a sold one cash flow less terminal value |
| `BinarySettlement.CounterpartyBalances` | src/bolt_v3_binary_settlement.rs:90-115 | the other side of every lot loses what this side makes |
| `BinarySettlement.BooksCombine` | src/bolt_v3_binary_settlement.rs:118-127 | books settle separately or together alike |
| `BinarySettlement.LotOrderIsIrrelevant` | src/bolt_v3_binary_settlement.rs:118-127 | the aggregate does not depend on lot order |
| `BinarySettlement.OrderKeepsValidity` | src/bolt_v3_binary_settlement.rs:118-127 | nor does whether the book can be settled |

## Left out

- Rounding: `Decimal` rounding at 28 digits, and `f64` rounding, NaN and infinities. The finite checks of the sums and products in the settlement and sweep code therefore always pass.
- Foreign code: the file system, fsync and atomic rename, JSON and TOML, SHA-256, mutex poisoning and the message bus. The kill-switch store takes its text formats as functions trusted to read back what they wrote.
- Capital state validation and the loss governor: their verdicts enter an admission as data.
- Evidence-source lists, display text and accessors of decisions.
- Provider pricing and quote aggregation: a function from an intent to a quote and a net edge, or to nothing.
- Forecast drift of a refreshed admission (src/bolt_v3_economics_runtime.rs:1255-1374): a diagnostic flag that does not decide the refresh.
- The guards of the cancel and flatten planners, the order-status check of outcome evidence, and the action router: straight-line checks.
- Basket admission guards other than cost and claims (grouping proof, retry budget, edge, freshness): straight-line checks made before the lock is taken. Submit slots enter as grants and failures.
- Rewriting unrepresentable trigger kinds inside a stored JSON tree: a predicate on the stored bytes.
- The rest of the maker inventory, the configuration structures, adapters and client wiring.
- The registry's rendering to Rust text, including the sort of the rendered table by id. The table order has no effect on lookups, which are by unique variant, mapping or id.
- Reading and parsing files: a function from a path to a text, to a file that cannot be used, or to nothing.
- The authority, scope and edge-basis guards of a sizing quote (src/bolt_v3_economics_runtime.rs:417-455): part of the pricing function, which gives nothing when one fails.
- The fields of a flatten command copied from its request, and SHA-256 itself: the halt id and the configuration fingerprint are modelled up to the bytes hashed.
- EvidenceRegistry.CamelCaseIsAScan: upper case is that of the ASCII letters, because every name that can be accepted is ASCII.
- BinarySettlement.SettleBinaryLots: does not model a refusal for a non-finite sum or product, because amounts are exact reals.
- BookSizing.OutcomeBookState.UpdateFromDeltas: does not model the metadata of a batch other than its observed instrument.
- ExecutableCost.SweepExactNotional: exact arithmetic makes the running remainder exact, so the tolerance only decides whether a shortfall is accepted.
- KillSwitchStore.Store.WriteStateWithLossSnapshot: does not model a crash during the write, because the atomic replacement is foreign code.
- CapitalAdmission.CapitalAdmissionGate.RebuildOpenOrderReservations: does not model the closures the source uses to convert venue open orders into evidence.
