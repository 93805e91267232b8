# Point of sale, catalog and vocabulary: a verified model

A retail back end sells over the counter and through a bot, keeps a stock journal and a price matrix, records cash in
sessions, and seeds an editorial vocabulary. This project models that logic in Dafny and proves what it promises:

- **Pricing.** A draft is cleared, repriced, evaluated by the promotion engine, discounted and pruned. The engine is
  modelled as it is written (specificity, buy-x-get-y, advanced rewards, order discount, capacity retries), so nothing about
  it is assumed. The bot's quote projects stacked lines back to the cart and splits the order discount by largest remainder.
- **Selling.** Charge, collection, cancellation, refund settlement and bot confirmation are transactions over stored rows.
  Any number of clients interleave them with idempotency keys, crashes, cash sessions, shipping quotes and stock
  adjustments; the main theorem holds in every state of every such run.
- **Stock.** First-expired-first-out allocation, the movement journal, the charge of a sale and its reversal.
- **Catalog.** Products, variants, lots and global price lists over any run of their operations, with the two-query batch
  price resolver proved equal to asking for each price alone.
- **Vocabulary.** The manifest is flattened into rows, compared with a stored graph and extended without loss; the report is
  sorted by canonical JSON, whose text is proved to determine the value, and depends on no order of its inputs.
- **Calendar.** Date enumeration over padded strings and the zero-filled series built on it.
- **Locks.** Lock programs of all these operations, counter updates and the key shares of inserted rows included, under a
  lock manager with PostgreSQL's four row lock modes; for each pair of sale operations that can deadlock, exactly when.

Objects the program updates in place are classes here (`SaleItems.SaleItem`, `Sales.Sale`, `SaleStock.StockPlan`,
`SalesDesk.Desk`, `CatalogTables.Tables`): each method is proved against a function of the old state, and the theorems are
about those functions. Loops the program runs are loops here. A database transaction is one function from rows to rows.

## Findings

Where a promise fails, the code is modelled as it is and the exact condition is proved.

- A fixed product discount is ranked capped at the unit price but emitted uncapped, so a line it reaches makes the whole
  recompute fail (`Recompute.FixedDiscountAbovePriceFails`; exact condition `Recompute.RecomputeSucceedsIff`; a condition on
  prices and promotions alone that rules it out, `Recompute.RecomputeSucceedsWhen`).
- Order discounts are taken on a subtotal that subtracts a per-unit discount once per line, not once per unit. Two units at
  1000 cents with 10% off each and 10% off the order get 190 cents off the order where 180 is right
  (`OrderDiscounts.OrderDiscountTooLarge`; exact conditions `EngineLaws.RankedSubtotalExactIff` for the subtotal and
  `OrderDiscounts.PercentOrderExactIff` for the amount).
- With no list bound, repricing applies tiers and the charge-time check does not (`Recompute.TieredLineFailsUnbound`; exact
  condition `Recompute.UnboundLinePassesChargeIff`).
- A charge that returns change can report a negative amount paid after its first payment (`Settlement.NegativeEventExample`;
  exact condition `Settlement.EventsNeverNegativeIff`).
- The cancellation key of a sale is fixed and is not given back when the transaction refuses, so the first refused
  cancellation is the last (exact condition `SaleHistory.FirstCancelDecides`, permanence `SaleHistory.BurnedForever`). Every
  draft is marked delivered (`PrematureCancel.DraftsStayDelivered`), and only a charge with the delivery flag makes the sale
  wait for delivery. A draft canceled too early and then charged is never canceled again, and that is the key's doing exactly
  when the charge had the flag: without it the delivery rule refuses the cancellation anyway
  (`PrematureCancel.PrematureCancelStrands`, witness `PrematureCancel.StrandedSale`).
- A product's first variant leaves its lot rows in place but makes their buckets unwritable, so a sale that drew from a lot
  can no longer be canceled (`PriceMatrix.ConversionStrandsSoldLots`; exact condition `SaleStock.ReverseSucceedsIff`).
- Operations that lock rows can wait for each other for good. In general that is so exactly when some of them form a ring of
  waits they reach without conflict (`Deadlocks.DeadlockIff`, for any number of transactions). For two operations:
  - A charge updates promotion counters before it locks stock rows, a cancellation after: exactly when they are about
    different sales with a promotion and a product in common (`LockCycles.ChargeAndCancelDeadlockIff`, witness
    `LockCycles.ChargeAndCancelCanDeadlock`).
  - A bot confirmation inserts its lines, and so shares their products, before it locks them. Two confirmations deadlock
    exactly when they have a product in common and no quoted customer or quote makes one wait for the other first
    (`LockCycles.TwoConfirmationsDeadlockIff`, witness `LockCycles.TwoConfirmationsCanDeadlock`: one product, no promotion).
  - A confirmation and a cancellation: exactly when, of the products in common, the one the cart names first is not the
    smallest (`LockCycles.ConfirmAndCancelDeadlockIff`, witness `LockCycles.ConfirmAndCancelCanDeadlock`). A confirmation and
    a charge: then, or when they have a promotion and a product in common (`LockCycles.ConfirmAndChargeDeadlockIff`).
  - A new price list shares every product in the order they are read, so it deadlocks with a charge, confirmation or
    cancellation exactly when, of that sale's products, the one read first is not the smallest
    (`LockCycles.PriceListDeadlockIff`).
  - Charges and collections of one sale that are bound to a cash session share the sale, through the slot they insert, before
    they lock it: exactly when both are bound, under different keys (`LockCycles.BoundRequestsDeadlockIff`, witness
    `LockCycles.TwoChargesCanDeadlock`).

  A mix of any number of operations is free of deadlock when counter updates are all on one side of the stock locks, bound
  requests are about different sales and nobody locks a row another one's insert refers to
  (`LockOrder.PeacefulMixFinishes`).
- The refusal of several entries with credit among them is unreachable behind the request normalization
  (`Settlement.CreditTravelsAlone`).

## Layout

| files | component |
|---|---|
| `Common.dfy`, `Strings.dfy`, `Permutations.dfy`, `Sorting.dfy`, `Json.dfy` | money arithmetic, sums, options and results; strings and numerals, permutations, sorting by rank, canonical JSON |
| `SaleItem.dfy`, `PromotionEngine.dfy`, `EngineLaws.dfy`, `OrderDiscounts.dfy`, `PriceResolver.dfy`, `Recompute.dfy`, `Sale.dfy` | pricing a draft |
| `LargestRemainder.dfy`, `BotQuote.dfy` | the bot's quote |
| `Settlement.dfy` | tender, change, debt, payment events and refunds |
| `StockJournal.dfy`, `Fefo.dfy`, `SaleStock.dfy`, `StockRemoval.dfy` | stock |
| `SaleStore.dfy`, `SaleInvariants.dfy`, `SaleLedger.dfy`, `SaleRuns.dfy`, `SaleHistory.dfy`, `PrematureCancel.dfy`, `SalesDesk.dfy`, `ChargePricing.dfy` | the sale protocol |
| `Catalog.dfy`, `PriceMatrix.dfy`, `CatalogTables.dfy` | product and price-list lifecycle |
| `Vocabulary.dfy`, `VocabularyConvergence.dfy`, `VocabularyRanks.dfy`, `VocabularyOrder.dfy`, `VocabularyReport.dfy`, `VocabularyManifest.dfy`, `ManifestOrder.dfy`, `VocabularyPlanner.dfy` | the vocabulary planner |
| `Calendar.dfy`, `Timeseries.dfy` | the daily series |
| `Locks.dfy`, `Deadlocks.dfy`, `LockOrder.dfy`, `SaleLocks.dfy`, `References.dfy`, `LockCycles.dfy` | row locks: the lock manager, rings of waits, the lock order, and the cycles there are |

## Model

| member | source | states |
|---|---|---|
| `SaleItems.DiscountAcceptedIff` | src/sales/domain/sale-item.entity.ts:394-428 | a per-unit discount is accepted exactly when it leaves at least one cent; then the base price is untouched and the unit price is between one cent and it |
| `SaleItems.SaleItem.ApplyDiscount` | src/sales/domain/sale-item.entity.ts:394-428 | the mutator reaches the specified state or reports the specified error and changes nothing |
| `SaleItems.SaleItem.ApplyReward` | src/sales/domain/sale-item.entity.ts:462-517 | a whole-line reward within the line's price is recorded at full unit price; any other is refused without a change |
| `SaleItems.SaleItem.RemoveDiscount` | src/sales/domain/sale-item.entity.ts:430-440 | the base price comes back and every discount column is reset |
| `SaleItems.SaleItem.Reprice` | src/sales/domain/sale-item.entity.ts:381-392 | the price, list and price source given are taken over unless the price is negative or the source is custom |
| `EngineLaws.PdWinnerIsMostSpecificBest` | src/promotions/application/pos-evaluate-promotions.use-case.ts:979-1101 | a line has a product discount exactly when one is eligible; none eligible is more specific than the winner, and none as specific saves more |
| `EngineLaws.EvaluateSound` | src/promotions/application/pos-evaluate-promotions.use-case.ts:441-815 | at most one result per item, none on a manually discounted line, every reward positive and within its line, after every capacity retry |
| `EngineLaws.EvaluateWithinCapacity` | src/promotions/application/pos-evaluate-promotions.use-case.ts:441-474 | the final selection is the selection without the excluded promotions and takes no more units of any promotion than it has left |
| `EngineLaws.EvaluatePruned` | src/promotions/application/pos-evaluate-promotions.use-case.ts:441-815 | dropping the opt-ins reported as untargetable changes nothing in the evaluation |
| `EngineLaws.RankedSubtotalExactIff` | src/promotions/application/pos-evaluate-promotions.use-case.ts:1666-1686 | the subtotal order discounts are ranked on is never below the real one, and equal to it exactly when no per-unit discount sits on a line of several units |
| `EngineLaws.EvaluateEarned` | src/promotions/application/pos-evaluate-promotions.use-case.ts:441-815 | every per-unit discount of an evaluation is that of a loaded product discount eligible on its line |
| `OrderDiscounts.PercentOrderExactIff` | src/promotions/application/pos-evaluate-promotions.use-case.ts:1130-1206 | the amount of a percentage order discount is the percentage of what the lines cost exactly when rounding to cents absorbs the overstated part of the subtotal |
| `OrderDiscounts.OrderDiscountTooLarge` | src/promotions/application/pos-evaluate-promotions.use-case.ts:1130-1206 | an evaluation of a concrete cart takes 190 cents off an order whose lines cost 1800, at 10% |
| `PriceResolver.EffectivePriceIsHighestTier` | src/products/products.service.ts:3138-3147 | the price is that of the highest positive tier the quantity reaches; the base price applies exactly when it reaches none |
| `PriceResolver.ValidateTierPrices` | src/products/products.service.ts:2485-2515 | accepts exactly the strictly ascending non-negative thresholds and otherwise names the first fault |
| `PriceResolver.TierOrderIsIrrelevant` | src/products/products.service.ts:3138-3147 | with unique thresholds the price does not depend on the order a query lists the tiers in |
| `PriceResolver.UniqueKeysAreUnambiguous` | prisma/schema.prisma:1356-1377 | unique keys with list ids disjoint from global ids make every lookup by either id unambiguous |
| `PriceResolver.BatchResolvePriceMap` | src/products/products.service.ts:2941-3115 | every input gets exactly the price it would get alone, whatever order the two queries return rows in, and nothing nobody asked for is recorded |
| `PriceResolver.ListPriceAgrees` | src/products/products.service.ts:3117-3136 | the list price at charge time is the resolver's, and fails exactly when the resolver has none |
| `Recompute.ApplyAllPointwise` | src/sales/sales.service.ts:727-800 | applying results one by one gives each line its own result and fails exactly when some line refuses its own |
| `Recompute.RecomputeSucceedsIff` | src/sales/sales.service.ts:693-856 | a recompute succeeds exactly when every winning per-unit discount leaves its line at least a cent |
| `Recompute.RecomputeSucceedsWhen` | src/sales/sales.service.ts:693-856 | it succeeds whenever every eligible product discount, winner or not, leaves the line's price a cent: a condition on promotions and prices alone |
| `Recompute.RecomputeKeeps` | src/sales/sales.service.ts:646-692 | manual discounts and custom base prices survive, identities, quantities and lists never change, no reward exceeds its line, opt-ins only shrink |
| `Recompute.RecomputeIsFixpoint` | src/sales/sales.service.ts:693-856 | recomputing a recomputed draft gives the same draft, the same demands and the same exclusions |
| `Recompute.TotalsConsistent` | src/sales/domain/sale.entity.ts:607-655 | totals of a recomputed draft lie within the subtotal and the discount is the difference |
| `Recompute.RepricedLinePassesChargeIff` | src/sales/sales.service.ts:2681-2745 | a repriced line with its own list or a bound sale list passes the charge-time check when the catalog prices it; otherwise exactly when nothing ever priced it and it still has the default base price |
| `Recompute.UnboundLinePassesChargeIff` | src/sales/sales.service.ts:2681-2745 | with no list bound it passes exactly when its tier price equals the default base price |
| `Recompute.TieredLineFailsUnbound` | src/sales/sales.service.ts:2681-2745 | two units at 300 with a tier of 250 and no list bound are repriced at 250 and fail the charge-time check |
| `Recompute.FixedDiscountAbovePriceFails` | src/promotions/application/pos-evaluate-promotions.use-case.ts:1071-1128 | a fixed discount of 500 on a line priced 300 fails the whole recompute |
| `Sales.Sale.RepriceNonStickyLines` | src/sales/sales.service.ts:919-1014 | through the batch resolver, in place, every non-sticky line the catalog prices takes that price |
| `Sales.Sale.ApplyResults` | src/sales/sales.service.ts:727-800 | the results land on the items exactly as applied one by one, or the first refusal is reported |
| `Sales.Sale.PruneOptIns` | src/sales/sales.service.ts:800-856 | exactly the targetable opt-ins stay |
| `Sales.Sale.RecomputePricingAndPromotions` | src/sales/sales.service.ts:693-856 | the pipeline in place ends in the state the fixpoint theorem is about, with its demands and exclusions |
| `LargestRemainder.ShareWithinLine` | src/sales/sales.service.ts:3521-3553 | no share of the order discount exceeds its line |
| `LargestRemainder.LargerLineLargerShare` | src/sales/sales.service.ts:3521-3553 | a strictly larger line never gets a smaller share |
| `LargestRemainder.FairSplitUnique` | src/sales/sales.service.ts:3521-3553 | floors plus extra cents by largest remainder, ties by position, leave exactly one possible split |
| `LargestRemainder.SortShares` | src/sales/sales.service.ts:3536-3545 | the shares in remainder order, none lost, sums kept |
| `LargestRemainder.SplitOrderDiscount` | src/sales/sales.service.ts:3521-3553 | sums to the discount; each share is the floor or the ceiling of its quota; only lines with a remainder get a cent, the largest first |
| `BotQuote.QuotedSaleIsQuotable` | src/sales/sales.service.ts:3564-3611 | stacking gives one line per product and variant whose quantity is what the cart wants of it, through seeding and recompute |
| `BotQuote.LineQuoteWithin` | src/sales/sales.service.ts:3481-3515 | every line's price before the order discount is between zero and its original price |
| `BotQuote.RewardFullyAllocated` | src/sales/sales.service.ts:3481-3515 | the cumulative floors of a whole-line reward over the cart add up to exactly that reward |
| `BotQuote.ProjectLines` | src/sales/sales.service.ts:3481-3515 | the projection of the stacked sale sums to its net lines and gives each cart line its part |
| `BotQuote.ChargeOrderDiscount` | src/sales/sales.service.ts:3521-3553 | the order discount is taken off the lines by the fair split, titles joined |
| `BotQuote.QuoteIsExact` | src/sales/sales.service.ts:3446-3562 | per line original is final plus discount and final is never negative; the finals sum to the total of the sale's preview |
| `BotQuote.BuildBotPricingSale` | src/sales/sales.service.ts:3564-3656 | the sale is stacked, bound to the customer's list, seeded with catalog prices and recomputed for the bot |
| `BotQuote.PreviewBotPricing` | src/sales/sales.service.ts:3446-3562 | every cart gets an exact quote, or fails for an unknown customer, a missing price or a refused discount |
| `Settlement.CreditTravelsAlone` | src/sales/sales.service.ts:308-370 | a normalized request has at most five entries, and one with credit has only that |
| `Settlement.SettlementBalances` | src/sales/sales.service.ts:3079-3134 | exactly which charges are accepted; then paid plus debt is the total, tendered is paid plus change, debt needs a customer, partial payment and change need cash |
| `Settlement.PublishPaymentReceivedEvents` | src/sales/sales.service.ts:1171-1216 | one event per payment with the running amounts of its position |
| `Settlement.EventsBalance` | src/sales/sales.service.ts:1171-1216 | every event's paid and debt add up to the total, the clamp never fires, and the last event reports the sale's own figures |
| `Settlement.EventsNeverNegativeIff` | src/sales/sales.service.ts:1171-1216 | no event reports a negative amount paid exactly when the first payment covers the change |
| `Settlement.NegativeEventExample` | src/sales/sales.service.ts:1171-1216 | an accepted charge whose first event reports minus 50 |
| `Settlement.BuildCancellationRefunds` | src/sales/sales.service.ts:242-277 | succeeds exactly for amounts the positive payments cover in supported methods; refunds follow payment order, each within its payment, all full but the last, and sum to the amount; the unsupported-method error exactly when such a payment is reached |
| `Settlement.GreedyIsSpread` | src/sales/sales.service.ts:242-277 | the greedy rules determine every refund |
| `Settlement.AcceptedChargeIsRefundable` | src/sales/sales.service.ts:384-432 | the payments stored for any accepted charge cover its paid amount in supported methods |
| `StockJournal.ChangedExactly` | src/inventory/domain/stock-plan.ts:81-227 | a change moves its own bucket by its delta and no other, and the product stays well formed |
| `StockJournal.ChangeSucceedsIff` | src/inventory/domain/stock-plan.ts:120-227 | exactly when a change is accepted, bucket kind by bucket kind |
| `StockJournal.ApplyChangesPosted` | src/inventory/infrastructure/stock-journal.writer.ts:49-65 | any batch moves every bucket by the sum of the movements it journals |
| `Fefo.AllocateSucceedsIff` | src/inventory/domain/fefo-allocator.ts:48-92 | an allocation exists exactly when unexpired lots and the untracked part cover a positive quantity |
| `Fefo.AllocationIsFefo` | src/inventory/domain/fefo-allocator.ts:48-92 | exact in total, only from unexpired lots, never from a lot while an earlier-expiring one has stock left, untracked stock last |
| `Fefo.Allocate` | src/inventory/domain/fefo-allocator.ts:48-92 | the loop computes that allocation |
| `SaleStock.ChargeItemSucceedsIff` | src/inventory/domain/stock-plan.ts:50-79 | exactly when a sale line can be charged |
| `SaleStock.ChargePosted` | src/inventory/infrastructure/stock-journal.writer.ts:67-96 | charging a sale moves exactly what it journals, all of it downwards |
| `SaleStock.ChargeDrawsLines` | src/inventory/infrastructure/stock-journal.writer.ts:67-96 | per product and variant the journal rows draw exactly the units on the sale's lines |
| `SaleStock.ReversePosted` | src/inventory/domain/sale-reversal.ts:8-42 | a reversal posts exactly what it gives back, bucket by bucket, redirecting vanished lots |
| `SaleStock.ReverseSucceedsIff` | src/inventory/infrastructure/stock-journal.writer.ts:98-166 | a reversal is refused exactly when a drawn lot is still on a product that has variants by now |
| `SaleStock.ReverseGivesBackExactly` | src/inventory/infrastructure/stock-journal.writer.ts:98-166 | after any activity that kept the rows, a cancellation gives every bucket back what the sale took |
| `SaleStock.ChargeThenReverse` | src/sales/sale-stock.service.ts:59-114 | charging a sale and reversing it is the identity on the whole stock |
| `SaleStock.StockPlan.Apply` | src/inventory/domain/stock-plan.ts:81-95 | the plan applies a change in place and records its movement, or refuses and stays as it was |
| `SaleStock.StockPlan.Charge` | src/inventory/domain/stock-plan.ts:50-79 | the plan charges one line in place as specified, or refuses it |
| `StockRemoval.RemovalEmpties` | src/products/infrastructure/product-stock-journal.ts:89-165 | removing a product's stock always works, journals all of it and leaves every bucket at zero |
| `SaleInvariants.PaymentKeepsMoney` | src/sales/sales.service.ts:4213-4400 | a collection lowers the debt by exactly what was tendered, never past zero, and every sale's money still adds up |
| `SaleInvariants.RefundsNeverFail` | src/sales/sales.service.ts:3340-3412 | the refunds of a stored confirmed sale never fail to add up |
| `SaleInvariants.ReversalNeverRefused` | src/sales/sales.service.ts:3340-3412 | in every reachable state of the protocol stock accepts the reversal of a sale |
| `SaleInvariants.RestoreNeverMismatches` | src/promotions/infrastructure/prisma-promotion-usage.repository.ts:136-189 | counters always cover the claims of a live confirmed sale |
| `SaleInvariants.CancelSucceedsIff` | src/sales/domain/sale.entity.ts:344-403 | with the invariants, a cancellation is accepted exactly by the status and delivery rules |
| `SaleInvariants.CancelKeepsRefunds` | src/sales/infrastructure/prisma-sale.repository.ts:1070-1124 | a canceled sale owes back exactly what was paid on it, every other sale nothing |
| `SaleInvariants.SettleKeepsRefunds` | src/sales/infrastructure/prisma-sale.repository.ts:2012-2084 | settlements of a refund never add up to more than it owes |
| `SaleLedger.BoundChargeBooksPaid` | src/cash-register/infrastructure/cash-adapter-ledger-movements.ts:21-64 | tenders minus change booked by a charge are exactly what the sale counts as paid |
| `SaleLedger.ChargeKeepsLedger` | src/cash-register/infrastructure/cash-adapter-ledger.ts:60-92 | after a charge every record still belongs to its session's owner, moves exactly the amount of the tender, change or settlement it names, and is the only one for it |
| `SaleLedger.PaymentKeepsLedger` | src/cash-register/infrastructure/cash-adapter-ledger.ts:60-92 | the same after a collection |
| `SaleLedger.SettleKeepsLedger` | src/cash-register/infrastructure/cash-adapter-ledger.ts:94-137 | the same after a settled refund |
| `SaleRuns.ConfirmedQuote` | src/sales/sales.service.ts:3851-3896 | the quote of a confirmed bot sale existed, was unexpired under its lock and backed no sale before |
| `SaleRuns.StepKeepsInv` | src/sales/sales.service.ts:2867-3443 | every step of every client keeps stock, promotion, money, refund, quote, ledger and outbox invariants together |
| `SaleRuns.RunKeepsInv` | src/sales/sales.service.ts:2867-3443 | in every run: stock on hand plus live sales is constant up to journaled adjustments, consumed units equal live claims, each sale is confirmed and canceled at most once, money and refunds add up, no quote backs two sales, every cash record is for exactly the money it names and for it alone |
| `SaleRuns.FreshInv` | src/sales/sales.service.ts:2867-3443 | an empty store with any well-formed stock satisfies the invariants |
| `SaleHistory.RunKeepsAnswers` | src/sales/infrastructure/prisma-sale.repository.ts:2563-2742 | a recorded answer is never changed or dropped by any run |
| `SaleHistory.ReplayForever` | src/sales/infrastructure/prisma-sale.repository.ts:2652-2721 | the same key and digest get the recorded answer in every later state and nothing changes, even after the session closed |
| `SaleHistory.ConflictForever` | src/sales/infrastructure/prisma-sale.repository.ts:2693-2721 | another digest under an answered key is refused in every later state |
| `SaleHistory.ReachableInv` | src/sales/infrastructure/prisma-sale.repository.ts:2563-2742 | in every run from an empty store tokens are never reused, a pending charge or cancellation holds its slot, and the store invariants hold with that |
| `SaleHistory.FirstCancelDecides` | src/sales/sales.service.ts:3289-3443 | the first cancellation of a sale cancels it exactly when the transaction accepts it, and otherwise burns its key |
| `SaleHistory.BurnedForever` | src/sales/infrastructure/prisma-sale.repository.ts:2388-2411 | a sale whose key is burned is not canceled in any later state |
| `PrematureCancel.DraftsStayDelivered` | src/sales/domain/sale.entity.ts:219-244 | in every run from an empty store every draft still carries the delivered mark it was created with |
| `PrematureCancel.PrematureCancelStrands` | src/sales/sales.service.ts:3289-3443 | a refused cancellation of a draft, then a charge: the sale is confirmed, no later run cancels it, and but for the burned key a cancellation would be accepted exactly when the charge was for delivery |
| `PrematureCancel.StrandedSale` | src/sales/sales.service.ts:3009-3013 | the same for one concrete draft with a customer and an address, paid 100 in cash and charged for delivery |
| `SaleHistory.StepBooks` | src/cash-register/infrastructure/cash-adapter-ledger.ts:42-58 | records are only appended, each in a session open and owned by its actor at that step |
| `SaleHistory.ClosedSessionIsFinal` | src/cash-register/infrastructure/cash-adapter-ledger.ts:42-58 | a session that stopped taking writes never gets another record |
| `SaleHistory.RunKeepsSales` | src/sales/sales.service.ts:2967-2998 | status only moves forward and what a confirmation wrote is never rewritten, in every run |
| `SalesDesk.Desk.ClaimForSale` | src/promotions/infrastructure/prisma-promotion-usage.repository.ts:28-102 | guarded increments succeed exactly when every claim fits and then add exactly the claims |
| `SalesDesk.Desk.RestoreForSale` | src/promotions/infrastructure/prisma-promotion-usage.repository.ts:136-189 | guarded decrements succeed exactly when every counter covers its claim and then give back exactly the claims |
| `SalesDesk.Desk.ChargeStock` | src/sales/sale-stock.service.ts:59-92 | the lines are charged through one plan, persisted only if all of them fit |
| `SalesDesk.Desk.ChargeDraft` | src/sales/sales.service.ts:2901-3287 | statement by statement with rollback, the charge commits the transaction's result or nothing |
| `SalesDesk.Desk.ChargeBound` | src/sales/sales.service.ts:2867-3287 | statement by statement, a session-bound charge inserts its slot, checks the session, charges and stamps in one transaction; on any failure slot and all are as before |
| `SalesDesk.Desk.ChargeUnbound` | src/sales/sales.service.ts:2867-3287 | an unbound charge commits its slot first and leaves it in flight when the transaction fails |
| `ChargePricing.OwnClaimsFitIff` | src/sales/sales.service.ts:3033-3074 | the claims of a recompute fit the counters it read exactly when no unlimited promotion's 32-bit counter would overflow |
| `ChargePricing.OwnPricingCharges` | src/sales/sales.service.ts:3033-3140 | a charge priced by its own recompute costs what the preview of the recomputed draft shows and, run alone, is refused for capacity only where such a counter would overflow |
| `SalesDesk.Desk.PersistCancellation` | src/sales/infrastructure/prisma-sale.repository.ts:1070-1124 | units, stock, refunds and the row go back together or not at all |
| `SalesDesk.Desk.CancelSale` | src/sales/sales.service.ts:3289-3443 | statement by statement with rollback, the cancellation commits the transaction's result or nothing |
| `SalesDesk.Desk.CancelWithKey` | src/sales/sales.service.ts:3289-3443 | a cancellation takes its fixed key first, and a refused one leaves it taken |
| `Catalog.CreateKeepsStock` | src/products/products.service.ts:366-531 | a new product's initial stock is journaled and the stock invariant holds |
| `Catalog.RemoveKeepsStock` | src/products/products.service.ts:1184-1192 | removing a product always works and leaves a journal that sums to the stock |
| `Catalog.ConvertedKeepsStock` | src/products/products.service.ts:1263-1295 | the first variant empties the parent through the journal before it takes over |
| `Catalog.AddVariantKeepsStock` | src/products/products.service.ts:1196-1295 | a variant starts at zero and its initial quantity is journaled |
| `Catalog.RemoveVariantKeepsStock` | src/products/products.service.ts:1470-1504 | a variant's row goes only at zero, and the flag falls with the last one |
| `Catalog.AddLotKeepsStock` | src/products/products.service.ts:1786-1880 | a lot's quantity comes in through the journal, and products keep covering their lots |
| `Catalog.RemoveLotKeepsStock` | src/products/products.service.ts:1896-1912 | a lot row goes only at zero |
| `PriceMatrix.CreateListFills` | src/price-lists/price-lists.service.ts:46-117 | a new list has a price for every product and every variant there is |
| `PriceMatrix.StepKeepsStock` | src/products/products.service.ts:366-1912 | every lifecycle operation keeps each bucket equal to its movements, non-negative, lots covered, variants flagged |
| `PriceMatrix.StepKeepsPrices` | src/products/products.service.ts:428-1790 | every lifecycle operation keeps one price row per product and list and every variant priced on the default list |
| `PriceMatrix.RunKeepsInvariants` | src/price-lists/price-lists.service.ts:28-183 | both invariants in every run of all product, variant, lot and list operations |
| `PriceMatrix.NewTenantInvariants` | src/price-lists/price-lists.service.ts:28-119 | a catalog with only the default list satisfies them |
| `PriceMatrix.ConversionStrandsSoldLots` | src/products/products.service.ts:1263-1295 | a sale that drew from a lot is reversible before the product's first variant and not after it |
| `CatalogTables.Tables.CreatePriceList` | src/price-lists/price-lists.service.ts:28-119 | the two fill loops write exactly one new column of the matrix |
| `CatalogTables.Tables.RemovePriceList` | src/price-lists/price-lists.service.ts:161-183 | the default list is protected; any other goes with its prices |
| `CatalogTables.Tables.AddVariant` | src/products/products.service.ts:1196-1295 | conversion, row, prices and initial stock commit together or not at all |
| `VocabularyManifest.CollectRows` | prisma/editorial-production-vocabulary-plan.ts:51-107 | the nested loops collect every row the manifest asks for and the rows come out sorted, none lost |
| `VocabularyManifest.CleanIffCoherent` | prisma/editorial-production-vocabulary-plan.ts:51-107 | the desired rows have no structural conflict exactly when codes are unique where they live and every binding, member and alias names something that exists |
| `VocabularyManifest.EmptyDatabasePlansIff` | prisma/editorial-production-vocabulary-plan.ts:117-260 | an empty database can be planned exactly when the manifest is coherent and a recorded version is its own |
| `VocabularyManifest.SeedsOnce` | prisma/editorial-production-vocabulary-plan.ts:109-260 | seeding an empty database gives exactly the manifest's rows and a second report is applicable and empty |
| `VocabularyPlanner.IndexConflicts` | prisma/editorial-production-vocabulary-plan.ts:131-141 | a duplicate is reported exactly for the identities that occur twice |
| `VocabularyPlanner.ValidateTargets` | prisma/editorial-production-vocabulary-plan.ts:152-197 | one pass over a row's references reports exactly its structural conflicts |
| `VocabularyPlanner.Merge` | prisma/editorial-production-vocabulary-plan.ts:209-248 | loops over fields and references find exactly the conflicts of one desired row and exactly what it lacks, references sorted |
| `VocabularyPlanner.PlanProductionVocabulary` | prisma/editorial-production-vocabulary-plan.ts:117-260 | the report for any snapshot and manifest: conflicts each once and in order, additions and preservations sorted, applicable exactly when there is no conflict |
| `VocabularyReport.ReportConverges` | prisma/editorial-production-vocabulary-plan.ts:109-260 | applying an applicable report gives a snapshot whose own report is applicable and empty |
| `VocabularyReport.ReportOnlyExtends` | prisma/editorial-production-vocabulary-plan.ts:109-260 | every stored row keeps its place, identity, id, field values and references |
| `Json.CanonicalInjective` | prisma/editorial-production-vocabulary-plan.ts:36-43 | two values have the same canonical text exactly when they are the same value, strings escaped and members in key order |
| `VocabularyRanks.IdentityInjective` | prisma/editorial-production-vocabulary-plan.ts:34-35 | the identity string determines kind, scope and code |
| `Sorting.SortForgetsOrder` | prisma/editorial-production-vocabulary-plan.ts:45-50 | under a rank that tells elements apart, two lists sort alike exactly when one is a permutation of the other |
| `VocabularyOrder.PlanIgnoresOrder` | prisma/editorial-production-vocabulary-plan.ts:117-248 | permuting the stored rows or any row's references changes no conflict and no addition, whether or not the plan is applicable |
| `VocabularyReport.PreservationsForgetOrder` | prisma/editorial-production-vocabulary-plan.ts:249-254 | the preservations of two snapshots are the same list exactly when these hold the same rows up to order, duplicates included |
| `VocabularyReport.ReportIgnoresOrder` | prisma/editorial-production-vocabulary-plan.ts:117-260 | the whole report, list by list, is the same exactly for the same stored rows up to order |
| `ManifestOrder.DesiredRowsForgetOrder` | prisma/editorial-production-vocabulary-plan.ts:51-107 | rearranging families, bindings, definitions, units, options, groups or aliases gives the same desired rows, row for row |
| `ManifestOrder.ReportIgnoresManifestOrder` | prisma/editorial-production-vocabulary-plan.ts:117-260 | rearranging the manifest, members of groups included, changes no conflict, preservation or verdict and gains, loses or alters no addition; the report is the same list by list unless two desired rows share a key |
| `Calendar.NextIsOneDayLater` | src/analytics/application/branch-sales-timeseries.service.ts:39-63 | the carry of day, month and year is exactly one day, leap years included |
| `Calendar.OrdinalOrders` | src/analytics/application/branch-sales-timeseries.service.ts:25-37 | day numbers order dates as the calendar does and tell them apart |
| `Calendar.StringOrderIsDateOrder` | src/analytics/application/branch-sales-timeseries.service.ts:31-37 | padded strings compare as their dates do, for years 1 to 9999 |
| `Calendar.ParseRoundTrip` | src/analytics/application/branch-sales-timeseries.service.ts:31-45 | parsing undoes formatting |
| `Calendar.EnumerateLocalCalendarDates` | src/analytics/application/branch-sales-timeseries.service.ts:39-63 | terminates with consecutive dates from the first, as many as the ordinal difference |
| `Calendar.EnumerationIsExact` | src/analytics/application/branch-sales-timeseries.service.ts:39-63 | strictly ascending and exactly the calendar dates in the half-open range |
| `Timeseries.IndexRows` | src/analytics/application/branch-sales-timeseries.service.ts:108-129 | rows are accepted exactly when their dates are distinct and in range |
| `Timeseries.GetTimeseries` | src/analytics/application/branch-sales-timeseries.service.ts:72-106 | one point per date, the row's figures where there is one and zeros elsewhere |
| `Timeseries.AverageWithinHalfCent` | src/analytics/application/branch-sales-timeseries.service.ts:86-100 | the rounded average is within half a cent of the exact one |
| `Timeseries.TotalsConserved` | src/analytics/application/branch-sales-timeseries.service.ts:72-106 | each metric summed over the points is its sum over the rows that fall on calendar dates, in any row order |
| `Timeseries.ImpossibleDateIsLost` | src/analytics/application/branch-sales-timeseries.service.ts:108-129 | the range check alone would accept a row on an impossible date, with its money on no point |
| `Locks.StepDecreases` | src/inventory/infrastructure/stock-journal.writer.ts:263-323 | every grant or commit is one step closer to the end, whatever the transactions |
| `Deadlocks.DeadlockIff` | src/inventory/infrastructure/stock-journal.writer.ts:263-323 | transactions with any lock programs can wait for each other for good exactly when some of them form a ring: at places they reach without conflict each waits for the next |
| `Deadlocks.PairDeadlockIff` | src/inventory/infrastructure/stock-journal.writer.ts:263-323 | two can exactly when their programs cross |
| `Deadlocks.TameNeverStuck` | src/products/products.service.ts:1198-1208 | programs that take their locks in one rank order never get stuck, locks apart that others want first of all |
| `LockOrder.ProgramsAreRanked` | src/inventory/infrastructure/stock-journal.writer.ts:263-323 | key shares apart, every modelled operation takes its locks in the rank order that fits where it updates its counters |
| `LockOrder.PeacefulMixFinishes` | src/promotions/infrastructure/prisma-promotion-usage.repository.ts:28-189 | any mix of operations with counters on one side, bound requests about different sales and no row referred to by one and locked by another runs to the end under every schedule |
| `LockCycles.ChargeAndCancelDeadlockIff` | src/promotions/infrastructure/prisma-promotion-usage.repository.ts:28-189 | a charge and a cancellation can wait for each other for good exactly when they are about different sales and share a promotion and a product |
| `LockCycles.ChargeAndCancelCanDeadlock` | src/promotions/infrastructure/prisma-promotion-usage.repository.ts:28-189 | one promotion and one product in common are enough |
| `LockCycles.TwoConfirmationsDeadlockIff` | src/sales/infrastructure/prisma-sale.repository.ts:409-436 | two bot confirmations can exactly when they share a product and neither their quote nor, where one of them has a quote, their customer is the same |
| `LockCycles.TwoConfirmationsCanDeadlock` | prisma/schema.prisma:1571-1572 | one product, two customers, no promotion are enough |
| `LockCycles.ConfirmAndCancelDeadlockIff` | src/sales/sales.service.ts:3949-3975 | a bot confirmation and a cancellation can exactly when the first product in common its cart names is not the smallest |
| `LockCycles.ConfirmAndCancelCanDeadlock` | src/sales/sales.service.ts:3949-3975 | a cart naming two products in descending order and a cancellation of both are enough |
| `LockCycles.ConfirmAndChargeDeadlockIff` | src/sales/sales.service.ts:3949-3975 | a bot confirmation and a charge can exactly when they share a promotion and a product, or the first product in common the cart names is not the smallest |
| `LockCycles.PriceListDeadlockIff` | src/price-lists/price-lists.service.ts:28-119 | creating a price list and charging, confirming or canceling a sale can exactly when the first of the sale's products it reads is not the smallest |
| `LockCycles.BoundRequestsDeadlockIff` | src/sales/infrastructure/prisma-sale.repository.ts:2652-2690 | two charges or collections can exactly when both are bound to a session, under different keys, about one sale |
| `LockCycles.TwoChargesCanDeadlock` | src/sales/infrastructure/prisma-sale.repository.ts:2652-2690 | two session-bound charges of one sale under different keys are enough |

## Left out

- Ids are natural numbers and id order is their order; UUID syntax, tenants other than the one at hand and per-tenant filtering are not modelled.
- Clocks are arguments: promotion windows are a flag on each promotion, expiry is a day number, the quote's time is the run's.
- A transaction is one atomic step; isolation anomalies and row contents between two statements of one transaction are not modelled, locks are (`Locks`).
- Locks: key shares on rows nobody here locks for update (tenant, user, address, price list, promotion), the cascading deletes of a removed price list, the advisory, customer and address locks of a checkout before it confirms, the stamp on a request's own slot and the order in which the database serves waiting requests are left out; an unbound request's slot is an operation of its own (`TakeSlot`).
- In the sale protocol the recompute inside a charge yields its total and claims as an argument; the pipeline itself is proved in `Recompute` and `Sales`, and its result put into a charge in `ChargePricing`.
- Request digests are opaque numbers; slot leases expire only for settlements, as a step that may happen at any time, and exactly-once settlement under such an expiry is not claimed.
- SaleRuns.RunKeepsInv: product, variant and lot rows stay in place during a run of sales, other stock activity is a journaled adjustment; what their removal does to a reversal is in `SaleStock.ReverseSucceedsIff`.
- PriceMatrix.RunKeepsInvariants: one tenant, operations one after another; product creation takes no lifecycle lock and price-list creation fills the current tenant's products only, which matters with several of either.
- Lifecycle runs cover stock products only; services, SKU, barcode, lot-number and name rules, images and the update paths are left out.
- PriceMatrix.StepKeepsPrices: price rows hold base prices; tiers are in `PriceResolver`, and the bulk upsert is a sequence of single ones.
- Json.CanonicalInjective: numbers are integers, strings hold no lone surrogates, and field names that read as array indices, which JavaScript lists first, are ordered like any others; strings compare by code points, which differs from UTF-16 units only above U+FFFF.
- ManifestOrder.ReportIgnoresManifestOrder: among rows that share a key, which are conflicts already, it says nothing about the order of the additions.
- BotQuote.PreviewBotPricing: checks before pricing (unknown product, disabled product, variant mismatch) are merged into the missing-price error.
- SalesDesk.Desk.ChargeDraft: the recompute's result is an argument, as in the protocol, and an outdated price, a refused recompute and a changed capacity are one error; bound collections and refund settlements have no statement-by-statement form here, `SaleHistory` has them as transactions.
- Timeseries.ImpossibleDateIsLost: a gap in what the service asks of its repository, not a fault of the running system: the one repository formats database dates (`src/analytics/infrastructure/prisma-branch-sales-timeseries.repository.ts:40`), so no such row arrives.
- Timeseries.AverageWithinHalfCent: rounding is exact half-up division, the floating-point quotient is not modelled.
- Tier thresholds are integers, so the non-integer error of the tier validation does not arise.
- Reversal of sales from before the journal, optimistic stock versions and the stock actor are left out.
- Payment-method catalog lookups, references, due dates, sellers, folios and response mapping are left out; of addresses only whether a sale has one is kept, so an address that no longer belongs to the customer refuses nothing here.
- The discount timestamp, original and custom price columns, price overrides and global manual discounts on a draft are left out; a custom base price is a state a line can be in.
- The list of available manual promotions and the near-capacity notification are left out; they do not feed back into prices.
- Controllers, guards, DTO validation, PDF, mail, authentication and the remaining CRUD services are left out: they would only add easy members.
