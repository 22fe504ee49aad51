# A marketplace's transactions, verified

A Dafny model of the transactional core of a multi-vendor marketplace: carts become orders, orders are cancelled and
refunded against a stock and a ledger, auctions run to a purchase, and every write reaches its consumers through an
outbox. The proofs are for-all statements over every input, every interleaving and every run; where a promise of the
program turns out not to hold, the failing input or run is exhibited and the exact condition under which it does hold
is proved.

## How the model is built

Each operation exists twice. A function on immutable tables says what the operation does to them; the laws are proved
about those functions and about runs of them. A class with the tables as fields runs the operation step by step, with
the program's loops and early returns, and every method's postcondition ties its result and its whole new state to
that function.

- `Money.dfy`, `MoneyTexts.dfy`: decimal text to cents and back, what each text is worth, half-up percentages, the
  stored-ratio correction of refunds.
- `CartSplit.dfy`, `CartView.dfy`, `CartFigures.dfy`: one cart split into one group per seller, and the view shown
  before checkout.
- `OrderBooks.dfy`, `OrderService.dfy`: checkout, the winner's purchase, status changes, the asynchronous consumer,
  cancellation, refunds. `OrderSteps.dfy` says what each of them accepts; `BooksLaws.dfy`, `Conservation.dfy`,
  `OrderHistories.dfy`, `RefundLaws.dfy`, `RefundSplits.dfy` and `StockAnnouncements.dfy` hold what every run of them
  keeps; `ParentOrders.dfy` the parent order's status beside them, `LifecycleRuns.dfy` and `ParentOverlaps.dfy` what
  status changes and cancellations that overlap make of it, `StockEdits.dfy` what a late product save does to the stock.
- `CheckoutLocks.dfy`, `CheckoutSteps.dfy`, `CheckoutRuns.dfy`: checkouts and purchases that overlap, one guarded row
  update at a time, with locks held to commit, rollbacks, and blocking on rows and on claims.
- `Auctions.dfy`, `AuctionSteps.dfy`, `AuctionService.dfy`, `SellerEdits.dfy`, `AuctionSales.dfy`,
  `Reconciliation.dfy`: the auction machine under a clock, what each request accepts and writes, its transactions,
  seller edits in two halves, the sale as the order books see it, and the periodic sweep.
- `OutboxPipeline.dfy`, `OutboxSteps.dfy`, `OutboxServices.dfy`, `OutboxBacklog.dfy`: outbox rows, jobs, processed
  marks, dead letters and replays, with crashes between any two writes, and how a backlog drains.
- `SearchIndex.dfy`, `ProductEdits.dfy`, `CatalogSteps.dfy`, `CatalogServices.dfy`: the search index that follows
  product and category writes, product edits in two halves among them.
- `CsvExport.dfy`, `CsvFigures.dfy`: the report export and a reader of section 2 of RFC 4180.

Amounts are integer cents. Identifiers are natural numbers; a row's id is its position where rows are only appended.
Clock readings, the failures of adds, crashes, deliveries and the choice of rows a limited query returns are
parameters, so every theorem holds for each of them. The purchase window's length is taken to be positive. Auction and
price amounts in requests have the shape the request validation admits (`IsPriceText`), and requested quantities are
at least one.

## What does not hold, and when it does

- Refunds do not have zero drift (README.md:509-513 of the program promises it). Splitting a refund loses or gains up
  to half a cent a piece: three units of 5 cents with 2 cents commission reverse 3 cents (`FivesDrift`, as a run of the
  books). `NeverDriftsIff` gives the condition on the order's own row, before any refund: with subtotal S, every full
  refund in every split reverses exactly the commission if and only if each item's units together carry a residue r
  with -S < 2r <= S, and the residues of all items cancel. `DriftIsBounded` and `RefundDrift` give the exact bound.
- Cancellation and refund can reverse the same money (README.md:530-543 says never). The status policy lets an order
  in PROCESSING be refunded and then cancelled, and cancelling reverses the full pair and restores every unit: an item
  sold once at 10.00 gets 20.00 and twice its commission reversed (`SourcePolicyIsNotSeparated`).
  `SeparatedIffConserving` proves that a policy conserves stock in every run, and the ledger in every run, exactly when
  no status reachable from a refundable one is cancellable; `CancelConservesIff` and `CancelKeepsLedgerIff` say what to
  check before a cancellation.
- The parent order's status is not always the derived one (README.md:429-433 says it is, after every seller order
  mutation), for two reasons. The asynchronous consumer moves a seller order without deriving it again
  (`StartLeavesParentBehind`). And a status change or cancellation locks its own row only: it reads the sibling rows
  and the parent without a lock, at the database's default of READ COMMITTED, and Order has no version. Two sellers who
  deliver the last two parts of an order at once each see the other's as shipped; the order stays partially completed
  for good, though all of it is delivered (`DeliveredTogether` from a fresh marketplace, `OverlappingDeliveries` and
  `OverlappingCancellations` from any state, `FinishedStays` that nothing heals it). `StoredIsRightIff` says when a
  commit leaves the right status: when what it derived is still what the committed children derive, and so whenever
  no other lifecycle transaction of the order has committed since it read the siblings; the consumer's moves in
  between do no harm. `RunKeepsParents` proves of every interleaving that each order agrees with its children, or is
  New while they are in process, or had its last lifecycle commit come late; `TimelyRunsFit` that no order is wrong
  when no commit is late, and `LockedOrdersCommitInTime` that locking the order first would ensure that.
- A seller's edit saved over a bid takes the auction's leader away: the row and its bid count are read unlocked, and
  the whole row is saved later (`LateSaveLosesLeader`). The auction's version column, whose comment promises optimistic
  locking, does not stop it: a plain save() counts the version up and compares it with nothing. `SaveIsSoundIff` gives
  the condition at the save, and `RunEditsKeepsInv` every run whose saves meet it.
- A product edit saved after a sale sells the unit again: the save writes back the stock count it read
  (`LateSaveOversells`). `SaveBalancesIff` gives the condition at the save, `RunInvents` the exact stock law of every
  run, which is off by what its saves have invented, and `TimelySavesInventNothing` the law without loss.
- A repeated bid is replayed only when its amount is written as the database prints it: the stored text is compared
  with the request's, so a bid of "50" is refused on retry. `BidRetry` gives the condition, `PlainIntegerRetryFails`
  the input.
- A refund retry is measured against the remaining quantity before its key is looked up, so it may be refused instead
  of replayed. It never adds a row (`RetriedRefund`).
- An event can be lost when the failure notice of its exhausted job goes unheard: the listener is down, its own write
  fails, or the job has been pruned. `NoEventLost` says that nothing else the model has loses one, a job that the
  queue gives up as stalled before its attempts are used up being left out; `UnheardNoticeLoses` is the run.
- An outbox row with no route stays pending for ever and keeps its place in the batch. Twenty of them in front of a
  routed row starve it; fewer do not (`RoutedRowDrainsIff`). Every aggregate type written today has a route, so such
  rows would need a new writer.
- The index heals itself only while passes over one product take turns, every failure notice is heard, and edits are
  saved while their product exists. Two passes that interleave a read and a write leave an old document behind with
  every event processed (`OverlappingPassesFail`); a lost notice leaves a product out of the index with nothing on its
  way (`LostNoticeLeavesStale`); an edit saved after its product's deletion brings the row back, and the deletion's
  event can then remove the document for good (`LateSaveLosesDocument`). Otherwise a document is current or an event
  about its row is on its way (the second clauses of `StaleIsOutstanding` and `EditedStaleIsOutstanding`;
  `QuiescentIndexIsExact`).
- A negative amount does not survive the export as an amount: the formula guard puts an apostrophe in front of its
  minus sign (`AmountReadsBackIff`).

## Model

| member | source | states |
|---|---|---|
| `Money.ParseUndoesFormat` | backend/src/common/utils/money.ts:14-38 | Printing then parsing gives back every integer amount, negative ones included, over unbounded digits |
| `Money.FormatUndoesParseIff` | backend/src/common/utils/money.ts:14-38 | Parsing then printing gives back a text exactly when it is canonical: two decimals, no superfluous zero, no minus zero |
| `Money.PriceTextParses` | backend/src/common/utils/money.ts:14-30 | Every text the request validation admits as a price parses, to a non-negative amount |
| `MoneyTexts.PriceTextMeans` | backend/src/common/utils/money.ts:14-30 | A price of whole part w and decimals f is worth 100*w and, for one decimal, ten times it, for two, their number: "12.5" is 1250 cents |
| `MoneyTexts.ParseMeans` | backend/src/common/utils/money.ts:14-30 | What any text is read as: blanks around it and anything from a second point on do not count, missing digits are zero, a third decimal is refused before a stray character is |
| `Money.RoundHalfUpIsNearest` | backend/src/common/utils/money.ts:77-81 | The rounded quotient is the one integer within half a unit, ties going up |
| `Money.PercentWithinWhole` | backend/src/common/utils/money.ts:52-62 | A percentage of up to 100 of a non-negative amount lies between zero and the amount |
| `Money.RatioWithin` | backend/src/common/utils/money.ts:68-75 | A stored commission no larger than its subtotal corrects a partial amount by something between zero and that amount |
| `Money.RatioOfWhole` | backend/src/common/utils/money.ts:68-75 | Refunding the whole subtotal at once corrects exactly the whole commission |
| `Money.DriftIsBounded` | backend/src/common/utils/money.ts:68-81 | For n parts summing to A, -n*S < 2*(S*corrections - C*A) <= n*S, stated on the corrections themselves |
| `Money.ZeroDriftIff` | backend/src/common/utils/money.ts:64-75 | The corrections of a full split sum to the commission exactly when the rounding residues of the parts sum to zero |
| `Money.ZeroDriftFails` | backend/src/common/utils/money.ts:64-75 | Three parts of 5 cents at a ratio of 2 to 15 correct 3 cents, not 2 |
| `CartSplit.GroupBySeller` | backend/src/modules/checkout/checkout.service.ts:348-365 | The loop over the growing map yields the split of the cart, sellers in order of first appearance |
| `CartSplit.SplitIsPartition` | backend/src/modules/checkout/checkout.service.ts:185-212 | The groups are a permutation of the cart, keep every product's units, and their subtotals sum to the order total |
| `CartSplit.SplitGroupsAreSellers` | backend/src/modules/checkout/checkout.service.ts:348-365 | Groups have distinct sellers, none is empty, and each is exactly its seller's lines |
| `CartSplit.SplitCoversSellers` | backend/src/modules/checkout/checkout.service.ts:348-365 | Every seller with a line in the cart has a group |
| `CartViews.BuildView` | backend/src/modules/cart/cart.service.ts:159-228 | The view built through printed line totals and subtotals shows the exact sums of the purchasable rows |
| `CartViews.GroupItems` | backend/src/modules/cart/cart.service.ts:178-210 | The grouping loop over views groups the items as a checkout would |
| `CartViews.NoneRefusedIff` | backend/src/modules/checkout/checkout.service.ts:327-339 | Checkout accepts the rows of a cart exactly when the view drops none of them |
| `CartViews.TotalOfPermutation` | backend/src/modules/cart/cart.service.ts:160-164 | Carts with the same rows in any order have the same total |
| `CartViews.ShownIsCharged` | backend/src/modules/cart/cart.service.ts:212-226 | The total shown is the total of the order a checkout of the same rows places, and so is each seller's subtotal |
| `CartFigures.EveryRowIsShown` | backend/src/modules/cart/cart.service.ts:178-210 | Every row that can be bought is shown under its own seller, and its printed unit price and line total read back as the price and price times quantity |
| `CartFigures.CountIsShownUnits` | backend/src/modules/cart/cart.service.ts:219-223 | The item count is the number of units shown |
| `OrderTransactions.OrderService.Checkout` | backend/src/modules/checkout/checkout.service.ts:122-246 | Claim, checks, guarded decrements, split, orders, ledger pairs, events, the emptied cart and claim completion; any refusal leaves every table unchanged, the cart included |
| `OrderTransactions.OrderService.PlaceOrder` | backend/src/modules/checkout/checkout.service.ts:185-246 | Order, seller orders, ledger pairs, events and claim, once the stock updates have gone through |
| `OrderTransactions.OrderService.Purchase` | backend/src/modules/bidding/auction-checkout.service.ts:175-306 | The winner's purchase in the books: one unit, order, seller order with its item, ledger pair, four events and claim; a taken key replays and missing stock refuses |
| `OrderTransactions.OrderService.AssertPurchasable` | backend/src/modules/checkout/checkout.service.ts:154-156 | The first line that cannot be bought decides the refusal and its reason |
| `OrderTransactions.OrderService.TakeStock` | backend/src/modules/checkout/checkout.service.ts:158-183 | All guarded decrements in order, or nothing as soon as one affects no row |
| `OrderTransactions.OrderService.CreateSellerOrder` | backend/src/modules/checkout/checkout.service.ts:248-325 | One seller order with its items, commission, credit and debit entries and creation event |
| `OrderTransactions.OrderService.UpdateStatus` | backend/src/modules/orders/seller-order-lifecycle.service.ts:46-95 | The transaction with nothing between its reads and its commit: a forward move with its event and the parent's status derived anew, or the refusal that names both statuses |
| `OrderTransactions.OrderService.DeriveParent` | backend/src/modules/orders/seller-order-lifecycle.service.ts:219-225 | The unlocked sibling read under the transaction's own write, and the status derived from it |
| `OrderTransactions.OrderService.LookAtParent` | backend/src/modules/orders/seller-order-lifecycle.service.ts:227-234 | One unlocked read of the stored parent status, to compare and again to save |
| `OrderTransactions.OrderService.StoreParent` | backend/src/modules/orders/seller-order-lifecycle.service.ts:228-246 | Stores what was derived only as far as the looks found it different, and announces it when the first did |
| `OrderTransactions.OrderService.CommitUpdateStatus` | backend/src/modules/orders/seller-order-lifecycle.service.ts:57-93 | Row, event and parent become visible together, over whatever the parent's row has become |
| `OrderTransactions.OrderService.CommitCancel` | backend/src/modules/orders/seller-order-lifecycle.service.ts:144-213 | Stock, ledger pair, row, events and parent become visible together, over whatever the parent's row has become |
| `OrderTransactions.OrderService.Process` | backend/src/modules/seller-order-processing/seller-order-processing.processor.ts:59-174 | One delivery, its processed check possibly stale and its mark possibly lost to a crash |
| `OrderTransactions.OrderService.Cancel` | backend/src/modules/orders/seller-order-lifecycle.service.ts:120-213 | The transaction with nothing between its reads and its commit: stock restored item by item, the full pair reversed, the status set, the parent's status derived anew, the events appended; a second cancel is a no-op |
| `OrderTransactions.OrderService.RestoreProductStock` | backend/src/modules/orders/stock-restoration.util.ts:14-36 | The unguarded increment, and false exactly when the product row is gone |
| `OrderTransactions.OrderService.CreateRefund` | backend/src/modules/refunds/refunds.service.ts:114-259 | Quantity cap, gross, correction, claim by insert, reversals, restored stock and events; any refusal changes nothing |
| `ParentOrders.DeriveMeans` | backend/src/modules/orders/domain/order-aggregate-status.ts:23-72 | Which parent status each mix of seller-order statuses gives, said of the set of statuses present rather than of ranks |
| `ParentOrders.StartKeepsParentIff` | backend/src/modules/seller-order-processing/seller-order-processing.processor.ts:114-159 | After the consumer's move, in any state: the parent agrees or lags exactly as it did before unless its children derived New; then it agrees exactly when stored as in process, and lags exactly when stored as New |
| `LifecycleRuns.RunKeepsParents` | backend/src/modules/orders/seller-order-lifecycle.service.ts:46-247 | Over every interleaving of status changes, cancellations, rollbacks and all other steps, each stored parent status is the derived one, or New while its children derive in process, or its order's last lifecycle commit came after one it had not seen |
| `LifecycleRuns.LifecycleStepHeals` | backend/src/modules/orders/seller-order-lifecycle.service.ts:219-247 | A commit with no other lifecycle commit of its order since its sibling read leaves the parent right, whatever the parent was before and whatever the consumer did meanwhile |
| `LifecycleRuns.StoredIsRightIff` | backend/src/modules/orders/seller-order-lifecycle.service.ts:219-247 | A commit, late or not, leaves the parent right exactly when what is then stored is what the committed children derive; in time, that is what it derived |
| `LifecycleRuns.TimelyRunsFit` | backend/src/modules/orders/seller-order-lifecycle.service.ts:46-247 | In every run without a late commit, every parent agrees or lags behind the consumer only |
| `LifecycleRuns.LockedOrdersCommitInTime` | backend/src/modules/orders/seller-order-lifecycle.service.ts:249-269 | If no lifecycle transaction starts while another of its order is open, none commits late |
| `LifecycleRuns.ParentsFollowBooks` | backend/src/modules/orders/seller-order-lifecycle.service.ts:46-213 | However they overlap, the books run as if each lifecycle transaction took place whole at its commit |
| `LifecycleRuns.WholeIsNext` | backend/src/modules/orders/seller-order-lifecycle.service.ts:46-95 | With nothing in between, read, looks and commit are the whole step |
| `ParentOverlaps.StartLeavesParentBehind` | backend/src/modules/seller-order-processing/seller-order-processing.processor.ts:114-159 | The run of a sale and one delivery after which the parent is New and its only seller order is in process |
| `ParentOverlaps.OverlapRuns` | backend/src/modules/orders/seller-order-lifecycle.service.ts:219-247 | What two overlapping transactions of one order leave stored: what the later one derived without the earlier, if that differs from the status both saw |
| `ParentOverlaps.OverlappingDeliveries` | backend/src/modules/orders/seller-order-lifecycle.service.ts:46-95 | From any state: the last two parts of an order delivered in overlapping transactions leave it partially completed in every later run, though its children derive completed |
| `ParentOverlaps.OverlappingCancellations` | backend/src/modules/orders/seller-order-lifecycle.service.ts:120-213 | From any state: its last two parts cancelled in overlapping transactions leave it partially cancelled in every later run |
| `ParentOverlaps.FinishedStays` | backend/src/modules/orders/seller-order-lifecycle.service.ts:219-247 | Once all seller orders of an order are delivered or cancelled, no run changes what is stored for it |
| `ParentOverlaps.DeliveredTogether` | backend/src/modules/orders/seller-order-lifecycle.service.ts:219-247 | The run from a fresh marketplace in which two sellers ship, deliver at once, and the order is never completed |
| `BooksLaws.TakeAllIff` | backend/src/modules/checkout/checkout.service.ts:158-183 | The one-by-one guards all pass exactly when the cart as a whole asks for no more of any product than there is |
| `OrderSteps.UpdateDecides` | backend/src/modules/orders/domain/seller-order-status.policy.ts:11-18 | A move is accepted exactly when it goes one rank up and no further than delivered; every other is refused with both statuses |
| `OrderSteps.CancelDecides` | backend/src/modules/orders/domain/seller-order-status.policy.ts:20-27 | What ranks below shipped can be cancelled, a cancelled order again without effect, anything else not |
| `OrderSteps.RefundDecides` | backend/src/modules/refunds/refunds.service.ts:131-199 | Which refusal, new row or earlier row a refund request gets, from the order's rank, the units left and the keys used |
| `OrderSteps.FirstRefusedIs` | backend/src/modules/checkout/checkout.service.ts:327-339 | The refusal names the first line that cannot be bought, and calls it unavailable exactly when it is not published |
| `OrderSteps.CheckoutDecides` | backend/src/modules/checkout/checkout.service.ts:122-183 | A known key replays; otherwise a checkout is placed exactly when the cart is not empty, every line can be bought and the stock covers each product's units |
| `OrderSteps.DeliveryDecides` | backend/src/modules/seller-order-processing/seller-order-processing.processor.ts:59-174 | An uncrashed delivery marks its event, starts its order and nothing else, and a later delivery of it changes nothing |
| `OrderSteps.StepOwnsEntries` | backend/src/modules/refunds/refunds.service.ts:201-222 | Every ledger entry a step adds carries that step's time and its own order's seller; none is ever changed or removed |
| `OrderSteps.ReportCountsWindow` | backend/src/modules/analytics/analytics.service.ts:194-221 | A report over any window, for one seller or all, is what the steps of that window have changed in the orders' own rows |
| `BooksLaws.RunBalances` | backend/src/modules/checkout/checkout.service.ts:158-183 | Over every run and under any policy, initial stock is current stock plus what orders have taken and not given back |
| `StockEdits.RunInvents` | backend/src/modules/products/products.service.ts:170-204 | Over every run with product edits in two halves, stock is the initial stock less what orders have taken, plus exactly what saves of a stale count have invented |
| `StockEdits.SaveBalancesIff` | backend/src/modules/products/products.service.ts:181-197 | A save keeps the stock law exactly when the stock is still what was read |
| `StockEdits.TimelySavesInventNothing` | backend/src/modules/products/products.service.ts:170-204 | In every run whose saves all find the stock they read, the stock law holds |
| `StockEdits.LateSaveOversells` | backend/src/modules/products/products.service.ts:170-204 | The run in which the only unit is sold between read and save and a second customer's checkout of it is accepted |
| `BooksLaws.RunAgrees` | backend/src/modules/analytics/analytics.service.ts:194-221 | Over every run, for any choice of orders and sellers, the ledger sums equal the sums of what the orders' own rows say |
| `Conservation.RunFits` | backend/src/modules/refunds/refunds.service.ts:146-158 | Over every run, refunded units never exceed units bought, each refund has its exact gross and correction, and keys differ |
| `Conservation.ConservedIff` | backend/src/modules/orders/seller-order-lifecycle.service.ts:144-189 | Stock equals initial less what customers still hold exactly when no cancelled order has refunds |
| `Conservation.CancelConservesIff` | backend/src/modules/orders/seller-order-lifecycle.service.ts:120-213 | A cancellation conserves stock exactly when the order it cancels has no refund |
| `Conservation.CancelKeepsLedgerIff` | backend/src/modules/orders/seller-order-lifecycle.service.ts:120-213 | An accepted cancellation leaves an order's balance at its effective figure, on either side of the pair, exactly when its refunds of that side summed to zero before it |
| `Conservation.LedgerMatchesSummaryIff` | backend/src/modules/orders/seller-order-lifecycle.service.ts:170-189 | An order's ledger entries sum to its effective figure (zero when cancelled), for either side of the pair, exactly when it is not cancelled or its refunds of that side sum to zero |
| `Conservation.SeparatedConserves` | backend/src/modules/orders/seller-order-lifecycle.service.ts:120-213 | When no status reachable from a refundable one is cancellable, every run conserves stock |
| `Conservation.SeparatedLedgerIsExact` | backend/src/modules/analytics/analytics.service.ts:201-216 | Under such a policy, in every reachable state and for any choice of orders and sellers, the ledger sums to the originals less refunds, and to nothing for cancelled orders |
| `Conservation.ReversedExactlyOnce` | backend/src/modules/orders/seller-order-lifecycle.service.ts:170-189 | Under such a policy, what the ledger reverses of an order is its full pair, once, when it is cancelled, and its refunds otherwise |
| `Conservation.UnseparatedFails` | backend/src/modules/orders/domain/seller-order-status.policy.ts:24-36 | For every other policy there is a run that gives a unit back twice and reverses both sides of a paid item's pair twice |
| `Conservation.SeparatedIffConserving` | backend/src/modules/orders/domain/seller-order-status.policy.ts:24-36 | A policy conserves stock in every run if and only if it separates refunds from cancellations, and so it is for the ledger |
| `Conservation.SourcePolicyIsNotSeparated` | backend/src/modules/orders/domain/seller-order-status.policy.ts:24-36 | Under the program's own policy a run sells one item of 10.00 at 10% and reverses 20.00 and twice the commission; allowing refunds only once shipped would separate it |
| `OrderHistories.RunIsLegal` | backend/src/modules/orders/seller-order-lifecycle.service.ts:57-93 | Over every run, an order's events in the outbox tell a legal status history that ends in its current status |
| `OrderHistories.LegalHistoryClimbs` | backend/src/modules/orders/domain/seller-order-status.policy.ts:11-18 | A legal history has exactly as many events as the rank of its status while it is not cancelled, and at most four, so its cascade of events ends |
| `OrderHistories.StartsAtMostOnce` | backend/src/modules/seller-order-processing/seller-order-processing.processor.ts:114-159 | Under any redeliveries, stale checks and crashes, the start move happens at most once and has at most one event, and an order not cancelled has one status event for each rank it has climbed |
| `OrderHistories.RunKeepsClaims` | backend/src/modules/checkout/checkout.service.ts:129-138 | Over every run, claims and orders match one to one and claims are never withdrawn |
| `OrderHistories.RetriedCheckout` | backend/src/modules/checkout/checkout.service.ts:367-401 | A retry at any later time, with any cart, returns the original order and changes nothing |
| `OrderHistories.PurchaseWrites` | backend/src/modules/bidding/auction-checkout.service.ts:175-306 | A placed purchase adds one order, one seller order of one item at the lot's price and rate, its ledger pair and its claim, and takes one unit |
| `OrderHistories.FailedCheckoutLeavesKeyFree` | backend/src/modules/checkout/checkout.service.ts:129-138 | A refused checkout changes no table, its key included |
| `OrderHistories.RetriedRefund` | backend/src/modules/refunds/refunds.service.ts:146-199 | A refund retried under its key changes nothing; it is replayed exactly when the status still allows it, the item exists and the quantity still fits what remains |
| `OrderHistories.RunTotals` | backend/src/modules/checkout/checkout.service.ts:185-212 | Over every run, an order's total is the sum of its seller orders' subtotals |
| `OrderHistories.CommissionSplitsSubtotal` | backend/src/modules/checkout/checkout.service.ts:248-275 | For rates up to 100%, the commission lies between zero and the subtotal and is the rate's share to the nearest cent, ties up |
| `RefundLaws.RefundDrift` | backend/src/modules/refunds/refunds.service.ts:167-177 | For the refunds any order can carry, the exact residue by which commission and gross drift apart, and its bound |
| `RefundLaws.ReachableDrift` | backend/src/modules/refunds/refunds.service.ts:167-177 | In every state a run can reach under rates of at most 100%, corrections lie between zero and their refunds, and n refunds drift within n half units |
| `RefundLaws.EachCorrectionWithin` | backend/src/modules/refunds/refunds.service.ts:167-177 | Each refund's correction lies between zero and its amount |
| `RefundLaws.WholeRefundReversesCommission` | backend/src/modules/refunds/refunds.service.ts:167-177 | One refund of the whole subtotal reverses exactly the commission |
| `RefundLaws.FullRefundIsSubtotal` | backend/src/modules/refunds/refunds.service.ts:146-170 | Refunding every unit in any split pays back exactly the subtotal |
| `RefundLaws.FullRefundDriftIff` | backend/src/modules/refunds/refunds.service.ts:167-177 | For refunds already made, a full refund has reversed exactly the commission if and only if their rounding residues cancel |
| `RefundSplits.NeverDriftsIff` | backend/src/modules/refunds/refunds.service.ts:167-177 | From the order row alone: every full refund in every split corrects exactly the commission if and only if each item's units together carry a residue within half a subtotal and the items' residues cancel |
| `RefundSplits.AddsUpIff` | backend/src/modules/refunds/refunds.service.ts:167-177 | Refunding q units of an item at once corrects q times what one unit does, exactly when their residues together stay within half a subtotal, its upper end included |
| `RefundSplits.RefundRunsNeverDriftIff` | backend/src/modules/refunds/refunds.service.ts:114-259 | The same of the ledger: every run of refunds that returns all units reverses exactly the commission if and only if the row is drift-free |
| `RefundSplits.ReachableNeverDriftIff` | backend/src/modules/refunds/refunds.service.ts:114-259 | The same of every order a run of the books can reach before its first refund |
| `RefundSplits.RefundsAreARun` | backend/src/modules/refunds/refunds.service.ts:114-259 | Any split of an order is carried out by a run of refund requests, one after another |
| `RefundSplits.FivesDrift` | backend/src/modules/refunds/refunds.service.ts:167-177 | A run that sells three units of 5 cents and refunds them one by one reverses 15 cents and 3 cents of a commission of 2 |
| `LedgerReports.NetIsGrossLessCommission` | backend/src/modules/analytics/analytics.service.ts:201-216 | For any ledger, window and seller, the net sum is the gross sum less the commission sum |
| `LedgerReports.WindowsAdd` | backend/src/modules/analytics/analytics.service.ts:201-216 | Adjacent half-open windows add up |
| `LedgerReports.ReportMatchesOrders` | backend/src/modules/analytics/analytics.service.ts:194-221 | A report over the whole time of a run matches the orders' own rows |
| `StockAnnouncements.StepAnnouncesStock` | backend/src/modules/checkout/checkout.service.ts:227-235 | Every product whose stock a transaction changes has a STOCK_CHANGED event committed with it |
| `OrderAnnouncements.RunAnnouncesOnce` | backend/src/modules/checkout/checkout.service.ts:214-235 | Over every run, each order, each seller order and each refund has exactly one creation event |
| `CheckoutLocks.TakesAscend` | backend/src/modules/checkout/checkout.service.ts:145-152 | An attempt takes its rows in strictly ascending order, an auction row before any product row |
| `CheckoutLocks.StepKeeps` | backend/src/modules/checkout/checkout.service.ts:122-246 | Claims, row updates, rollbacks and commits of any attempt keep locks, versions, claims, log and serial state in agreement |
| `CheckoutLocks.CommitIsSerial` | backend/src/modules/checkout/checkout.service.ts:158-183 | A commit's versions are what the same updates would do in one go after the commits before it |
| `CheckoutSteps.WaitingDecides` | backend/src/modules/checkout/checkout.service.ts:124-138 | A key taken and no longer in progress is replayed under its own attempt, a free one is claimed |
| `CheckoutSteps.RefusalLeavesNoTrace` | backend/src/modules/checkout/checkout.service.ts:154-183 | A cart that cannot be bought, or a row with too little left, ends the attempt with no version and no claim of it left |
| `CheckoutSteps.RefusedIs` | backend/src/modules/checkout/checkout.service.ts:140-156 | A cart is refused exactly when it is empty or has a line that cannot be bought |
| `CheckoutRuns.InterleavingIsSerial` | backend/src/modules/checkout/checkout.service.ts:158-183 | Every interleaving leaves exactly the rows of the committed attempts run one after another in commit order |
| `CheckoutRuns.NothingOversold` | backend/src/modules/checkout/checkout.service.ts:158-183 | In every reachable state, committed units plus units sold are the initial units |
| `CheckoutRuns.CommitsAreCheckouts` | backend/src/modules/checkout/checkout.service.ts:122-246 | At its place in the commit order, each committed cart or auction purchase is what the atomic operation does to the books, placed and with every guard holding |
| `CheckoutRuns.OnePurchasePerAuction` | backend/src/modules/bidding/auction-checkout.service.ts:138-186 | However many purchase attempts of one auction overlap, at most one commits |
| `CheckoutRuns.OneOrderPerKey` | backend/src/modules/checkout/checkout.service.ts:129-138 | At most one attempt per customer and key commits, across cart and auction checkouts, and a replay names that one |
| `CheckoutRuns.AbortFreesKey` | backend/src/modules/checkout/checkout.service.ts:124-133 | An attempt waiting on a key runs once the holder has rolled back |
| `CheckoutRuns.NoDeadlock` | backend/src/modules/checkout/checkout.service.ts:145-152 | While any attempt is unfinished, some attempt can act |
| `CheckoutRuns.RunsEnd` | backend/src/modules/checkout/checkout.service.ts:122-246 | A run is never longer than the work its attempts bring, so with no deadlock every attempt finishes |
| `CheckoutRuns.EveryAttemptFinishes` | backend/src/modules/checkout/checkout.service.ts:122-246 | A run can be extended exactly while an attempt is unfinished, and never beyond its work: a run that stops has finished every attempt |
| `CheckoutRuns.OppositeOrdersDeadlock` | backend/src/modules/checkout/checkout.service.ts:148-151 | Without the product order two carts can block each other for good |
| `AuctionTransactions.AuctionService.ActivateAuction` | backend/src/modules/bidding/auction-lifecycle.service.ts:79-121 | A scheduled auction inside its window becomes active with its events; otherwise nothing happens |
| `AuctionTransactions.AuctionService.PlaceBid` | backend/src/modules/bidding/bid-placement.service.ts:113-259 | Replay by key, self-activation, window, own-auction and minimum rules in that order, then bid, leader and events |
| `AuctionTransactions.AuctionService.FinalizeAuction` | backend/src/modules/bidding/auction-lifecycle.service.ts:251-393 | Unsold, or won by the top bid with a purchase window; a second call or an early one is a no-op |
| `AuctionTransactions.AuctionService.ExpirePurchaseWindow` | backend/src/modules/bidding/auction-lifecycle.service.ts:408-458 | An unpaid auction past its window expires; anything else is a no-op |
| `AuctionTransactions.AuctionService.Cancel` | backend/src/modules/bidding/auction-lifecycle.service.ts:481-509 | Only a scheduled or active auction is cancelled |
| `AuctionTransactions.AuctionService.Update` | backend/src/modules/bidding/seller-auctions.service.ts:162-244 | An edit with nothing between its halves: an auction without bids takes new prices and dates and its status follows its window |
| `AuctionTransactions.AuctionService.ReadForEdit` | backend/src/modules/bidding/seller-auctions.service.ts:168-195 | The unlocked read: the row as it stands, or the reason the edit is refused |
| `AuctionTransactions.AuctionService.SaveEdited` | backend/src/modules/bidding/seller-auctions.service.ts:197-231 | The later save: every column of the row that was read, as edited, over whatever the row has become, with its events |
| `AuctionTransactions.AuctionService.Checkout` | backend/src/modules/bidding/auction-checkout.service.ts:121-307 | The winner's purchase: claim, winner, status and window checks, one unit of stock, the order at the top bid |
| `Auctions.RunKeepsInv` | backend/src/modules/bidding/bid-placement.service.ts:187-220 | Over every run: bids climb by the increment from the start price, the leader is the last bid, at most one order exists, exactly when the auction is COMPLETED, owned by the top bidder at the top bid for one unit |
| `Auctions.CreatedSatisfiesInv` | backend/src/modules/bidding/seller-auctions.service.ts:72-145 | Every auction a seller can create starts such a run |
| `AuctionSteps.BidDecides` | backend/src/modules/bidding/bid-placement.service.ts:148-186 | A bid under a new key is refused as not open, as the seller's own, or as below the last bid and one increment, in this order, and accepted otherwise |
| `AuctionSteps.BidWrites` | backend/src/modules/bidding/bid-placement.service.ts:187-259 | An accepted bid is appended, leads at its amount, and starts a scheduled auction, each with its event; nothing else changes |
| `AuctionSteps.SellerNeverTrades` | backend/src/modules/bidding/bid-placement.service.ts:175-184 | Over every run, no bid, no leader and no order of an auction is its seller's |
| `AuctionSteps.CreateDecides` | backend/src/modules/bidding/seller-auctions.service.ts:72-145 | What can be created, and that the new row says what was asked for and belongs to no leader |
| `AuctionSteps.EditDecides` | backend/src/modules/bidding/seller-auctions.service.ts:162-244 | Which edit is refused and why, and that each column an accepted edit names has its value and every other column its own |
| `AuctionSteps.StatusMoves` | backend/src/modules/bidding/domain/auction-status.policy.ts:16-31 | Every change of status is one of the policy's moves at its time, and commits with the event that announces it |
| `AuctionSteps.DueMovesHappen` | backend/src/modules/bidding/auction-lifecycle.service.ts:79-458 | Whatever may start, end, expire or be called off at a time, does so when asked |
| `AuctionSteps.FinalizeAnnounces` | backend/src/modules/bidding/auction-lifecycle.service.ts:293-393 | The end of an auction is announced with its result, its leader and how long there is to pay |
| `AuctionSteps.TopBidIsOldestHighest` | backend/src/modules/bidding/auction-lifecycle.service.ts:307-315 | The query's first row has the highest amount, and is the oldest of those |
| `SellerEdits.SaveIsSoundIff` | backend/src/modules/bidding/seller-auctions.service.ts:168-243 | A save keeps the auction's invariant, and what has ended ended, exactly when the auction can still be edited as it runs |
| `SellerEdits.RunEditsKeepsInv` | backend/src/modules/bidding/seller-auctions.service.ts:168-243 | Over every run with edits in two halves whose saves all come in time, the auction's invariant holds |
| `SellerEdits.LateSaveLosesLeader` | backend/src/modules/bidding/seller-auctions.service.ts:168-243 | The run in which a bid of 50.00 lands between read and save and the auction is left without winner at its start price |
| `AuctionSales.SellsIffPlaced` | backend/src/modules/bidding/auction-checkout.service.ts:138-192 | The auction side sells exactly when its own guards hold and the books place the order |
| `AuctionSales.SaleMatchesBooks` | backend/src/modules/bidding/auction-checkout.service.ts:175-306 | Both sides write the same sale: total, buyer, key, commission, net and one unit, and agree on stock and claims afterwards |
| `Auctions.FinalizePicksLeader` | backend/src/modules/bidding/auction-lifecycle.service.ts:307-352 | The query by amount and age picks exactly the leading bid, and finalization changes neither winner, bid nor price |
| `Auctions.TerminalIsAbsorbing` | backend/src/modules/bidding/domain/auction-status.policy.ts:16-31 | No step changes an auction in a terminal status |
| `Auctions.NoBidAfterFinalization` | backend/src/modules/bidding/bid-placement.service.ts:160-173 | After finalization no run adds a bid |
| `Auctions.DeadlineInstant` | backend/src/modules/bidding/auction-lifecycle.service.ts:423-435 | At the shared deadline instant purchase and expiry are both possible, and whichever comes first excludes the other |
| `Auctions.BidRetry` | backend/src/modules/bidding/bid-placement.service.ts:132-146 | What a retry of any earlier bid returns, however outbid or closed since, and that it changes nothing |
| `Auctions.SameTextRetry` | backend/src/modules/bidding/bid-placement.service.ts:139-145 | A retry with its original text is replayed exactly when that text is canonical |
| `Auctions.PlainIntegerRetryFails` | backend/src/modules/bidding/bid-placement.service.ts:139-145 | A bid of "50" is accepted and its identical retry refused |
| `Auctions.ClaimedKeyReplays` | backend/src/modules/bidding/auction-checkout.service.ts:309-341 | A claimed key replays its own order at any later time, whichever checkout claimed it |
| `Auctions.HistoryOnlyGrows` | backend/src/modules/bidding/bid-placement.service.ts:205-214 | Bids, events and orders are only ever appended |
| `Auctions.RedeliveryErasure` | backend/src/modules/bidding/auction-lifecycle.service.ts:271-292 | Deleting every finalize and expire delivery after the first effective one leaves the whole final state unchanged, outbox included |
| `Auctions.StepAnnouncesProduct` | backend/src/modules/bidding/auction-lifecycle.service.ts:511-523 | Every change to status, price or stock a search document shows commits with an event that has it written again |
| `Reconciliation.AuctionReconciliationService.FindBatch` | backend/src/modules/bidding/auction-reconciliation.service.ts:50-60 | A batch is 50 distinct matching auctions, or all when there are fewer |
| `Reconciliation.AuctionReconciliationService.Reconcile` | backend/src/modules/bidding/auction-reconciliation.service.ts:34-97 | One sweep is its three batched loops one after another, each over what the one before left; an overlapping sweep does nothing |
| `Reconciliation.SweepRemovesBatches` | backend/src/modules/bidding/auction-reconciliation.service.ts:50-97 | A sweep takes exactly its batches off the three work lists and adds nothing |
| `AuctionSteps.QueriesFindWhatIsDue` | backend/src/modules/bidding/auction-reconciliation.service.ts:50-97 | The three queries find exactly the auctions that their transactions then change |
| `Reconciliation.SweepsConverge` | backend/src/modules/bidding/auction-reconciliation.service.ts:50-97 | With the clock fixed, k sweeps take exactly 50k auctions, or all there are, off each list |
| `Reconciliation.SweepShrinksBacklog` | backend/src/modules/bidding/auction-reconciliation.service.ts:50-97 | Each sweep strictly shrinks the backlog until there is none |
| `OutboxPipelines.NoEventLost` | backend/src/modules/outbox/outbox-publisher.service.ts:83-146 | For every committed event and routed queue: pending, on a live job, awaiting its failure notice, processed or dead-lettered, unless that very notice was lost |
| `OutboxPipelines.StepKeepsKept` | backend/src/modules/outbox/dead-letter-listener.service.ts:80-156 | Every step of publisher, worker, listener and replay keeps what is kept, from job to notice to dead-letter row |
| `OutboxPipelines.ReplayedIsProcessed` | backend/src/modules/outbox/dead-letter-listener.service.ts:132-156 | A dead-letter row is REPLAYED only when its consumer has processed the event |
| `OutboxPipelines.UnheardNoticeLoses` | backend/src/modules/outbox/dead-letter-listener.service.ts:53-74 | The run in which the unheard failure notice of a product event loses it for the search index |
| `OutboxSteps.ReplayGivesJob` | backend/src/modules/outbox/dead-letter.service.ts:134-161 | A replay under a new stamp gives the row's queue a live job for the row's event under an id of its own, and changes no other row or job |
| `OutboxSteps.ReplaySucceeds` | backend/src/modules/outbox/dead-letter-listener.service.ts:132-156 | When its consumer then succeeds, the event is processed and the first row being replayed for it becomes REPLAYED |
| `OutboxSteps.ReplayFails` | backend/src/modules/outbox/dead-letter-listener.service.ts:80-130 | When it fails five times and that is heard, that row becomes failed again and no event is marked |
| `OutboxSteps.FifthAttemptFails` | backend/src/modules/outbox/dead-letter-listener.service.ts:80-130 | A job lives through four failed attempts; the fifth fails it and raises its notice |
| `OutboxSteps.FailureIsRecorded` | backend/src/modules/outbox/dead-letter-listener.service.ts:80-130 | A heard failure is put on the row being replayed, or else in one pending row of its own |
| `OutboxSteps.OneDeadRowPerJob` | backend/src/modules/outbox/dead-letter.service.ts:70-88 | Over every run, a job has at most one dead-letter row |
| `OutboxSteps.PrunedJobIsAddedAgain` | backend/src/modules/outbox/outbox-publisher.service.ts:107-129 | A queue that has pruned a finished job takes its event again, and one that has not leaves it alone |
| `OutboxSteps.ConsumersHear` | backend/src/modules/outbox/outbox-publisher.service.ts:57-66 | Which aggregates each consumer hears of, and that every aggregate but an unrouted one has a consumer |
| `OutboxSteps.RoundsAreCounted` | backend/src/modules/outbox/outbox-publisher.service.ts:96-143 | A round that does not publish its row counts as one attempt on it |
| `OutboxServices.PublishedIff` | backend/src/modules/outbox/outbox-publisher.service.ts:96-143 | A pending row is published exactly when it has a route and every add succeeds, its queues then know the job, its aggregate stays, and no other row changes |
| `OutboxServices.BatchIsRun` | backend/src/modules/outbox/outbox-publisher.service.ts:83-146 | A batch is a run of pipeline steps, so what every run keeps holds of the publisher |
| `OutboxBacklogs.TickPublishes` | backend/src/modules/outbox/outbox-publisher.service.ts:83-146 | With every queue up, a tick publishes exactly the routed rows among the twenty oldest pending ones |
| `OutboxBacklogs.TicksDrain` | backend/src/modules/outbox/outbox-publisher.service.ts:69-146 | With every queue up and no unrouted row, k ticks publish exactly the 20k oldest pending rows |
| `OutboxBacklogs.RoutedRowDrainsIff` | backend/src/modules/outbox/outbox-publisher.service.ts:83-146 | A pending routed row is published by some tick if and only if fewer than twenty unrouted rows are pending before it |
| `OutboxServices.OutboxService.Poll` | backend/src/modules/outbox/outbox-publisher.service.ts:69-81 | A tick publishes one batch unless one is already under way |
| `OutboxServices.OutboxService.PublishBatch` | backend/src/modules/outbox/outbox-publisher.service.ts:83-146 | The loop over the twenty oldest pending rows, add by add |
| `OutboxServices.OutboxService.Enqueue` | backend/src/modules/outbox/outbox-publisher.service.ts:107-129 | Every queue is tried, an id a queue knows is left alone, and one failed add fails the round |
| `OutboxServices.OutboxService.OnFailed` | backend/src/modules/outbox/dead-letter-listener.service.ts:80-130 | A replayed row is marked failed again, or the exhausted job is recorded; a job no longer there or not exhausted is passed over |
| `OutboxServices.OutboxService.RecordDeadLetter` | backend/src/modules/outbox/dead-letter.service.ts:70-88 | One row per queue and job, a duplicate insert being a no-op |
| `OutboxServices.OutboxService.OnCompleted` | backend/src/modules/outbox/dead-letter-listener.service.ts:132-156 | The first row of the event being replayed is marked replayed |
| `OutboxServices.OutboxService.ReplayDeadLetter` | backend/src/modules/outbox/dead-letter.service.ts:134-161 | The row is marked replaying, then its event gets a job of its own id |
| `SearchIndexes.StaleIsOutstanding` | backend/src/modules/search-sync/search-sync.processor.ts:53-143 | While passes take turns, a document is its row's projection, or an event about that very row is pending, on a live job, awaiting its notice or dead-lettered, or that event's own notice was lost; with every notice heard only the first two remain |
| `SearchIndexes.QuiescentIndexIsExact` | backend/src/modules/search-sync/search-sync.processor.ts:112-121 | Once every routed event is processed the index is exactly the published catalog |
| `CatalogSteps.PassShows` | backend/src/modules/search-sync/search-sync.processor.ts:112-121 | A pass leaves a published product's document with its row's category, by id and by name, and content, leaves any other product none, and touches no other document |
| `SearchIndexes.OverlappingPassesFail` | backend/src/modules/search-sync/search-sync.processor.ts:112-121 | Two passes that interleave a read and a write leave a wrong document with every event processed |
| `SearchIndexes.LostNoticeLeavesStale` | backend/src/modules/outbox/dead-letter-listener.service.ts:53-74 | The run in which passes take turns, one notice is lost, and a published product stays out of the index with nothing on its way |
| `SearchIndexes.StepKeeps` | backend/src/modules/search-sync/search-sync.processor.ts:85-128 | Writes, passes, crashes and plumbing each keep the agreement between rows, documents, passes and last events |
| `SearchIndexes.RenameKeepsIndex` | backend/src/modules/categories/categories.service.ts:100-134 | One category write makes many documents stale, and its one event accounts for all of them |
| `ProductEdits.EditsAreUpdates` | backend/src/modules/products/products.service.ts:170-204 | While saves find their rows, a run with edits in two halves is a run of whole edits |
| `ProductEdits.EditedStaleIsOutstanding` | backend/src/modules/products/products.service.ts:170-204 | So under such edits too, a stale document has its event on its way or its own notice lost; with every notice heard, its event is on its way |
| `ProductEdits.LateSaveLosesDocument` | backend/src/modules/products/products.service.ts:170-229 | The run in which an edit saved after a deletion brings the product back and the deletion's event takes its document away, with every event processed |
| `CatalogServices.CatalogService.CreateForSeller` | backend/src/modules/products/products.service.ts:129-168 | A row under a new id with its event; refused when the category does not exist |
| `CatalogServices.CatalogService.UpdateOwned` | backend/src/modules/products/products.service.ts:170-204 | An edit with nothing between its halves: the row as edited with its event; refused when product or category is missing |
| `CatalogServices.CatalogService.ReadOwned` | backend/src/modules/products/products.service.ts:170-179 | The read before the transaction: the row, when it exists and the new category does |
| `CatalogServices.CatalogService.SaveOwned` | backend/src/modules/products/products.service.ts:181-197 | The later save: the row that was read, as edited, with its event, inserted again when it is gone |
| `CatalogSteps.EditWrites` | backend/src/modules/products/products.service.ts:170-204 | Each column an accepted edit names has its value and each other column its own, the row alone changes, with one event; a refused edit writes nothing |
| `CatalogSteps.UnpublishedIsNotIndexed` | backend/src/modules/products/products.service.ts:181-242 | After an edit that unpublishes a product and a pass over its event, the product has no document |
| `CatalogServices.CatalogService.DeleteOwned` | backend/src/modules/products/products.service.ts:206-229 | The row removed with its event |
| `CatalogServices.CatalogService.UpdateCategory` | backend/src/modules/categories/categories.service.ts:100-134 | The category rewritten with one event that concerns all its products |
| `CatalogServices.CatalogService.RemoveCategory` | backend/src/modules/categories/categories.service.ts:143-168 | Removed with its event exactly when no product references it |
| `CatalogSteps.RemoveWrites` | backend/src/modules/categories/categories.service.ts:143-168 | A category goes, with its event, exactly when it exists and no product is in it |
| `CatalogServices.CatalogService.Process` | backend/src/modules/search-sync/search-sync.processor.ts:53-143 | An uninterrupted delivery gives every product it covers its current document, touches no other, and marks the event; a processed event changes nothing |
| `CatalogServices.CatalogService.LoadSearchDocument` | backend/src/modules/products/products.service.ts:232-242 | The current published row as a document, nothing otherwise |
| `CatalogServices.CatalogService.SyncProductsForCategory` | backend/src/modules/search-sync/search-sync.processor.ts:123-128 | In whatever order its products come, each ends up current and no other document changes |
| `CsvExports.ParseUndoesPrint` | backend/src/modules/analytics/analytics.service.ts:171-192 | A reader of the quoted-field grammar recovers exactly the guarded field texts, whatever quotes, commas and line breaks they hold |
| `CsvExports.ExportReadsBack` | backend/src/modules/analytics/analytics.service.ts:171-192 | The report's own export reads back as its header and one guarded row a day |
| `CsvFigures.ColumnReadsBack` | backend/src/modules/analytics/analytics.service.ts:171-192 | Read back, each of the six figures of a day stands under its own heading |
| `CsvFigures.NumberIsDigits` | backend/src/modules/analytics/analytics.service.ts:40-52 | A number is exported as its canonical decimal digits, with a minus sign exactly when negative |
| `CsvFigures.FourSignsAreGuarded` | backend/src/modules/analytics/analytics.service.ts:53-54 | Exactly the texts that begin with one of four signs get an apostrophe in front |
| `CsvExports.GuardIsSafe` | backend/src/modules/analytics/analytics.service.ts:40-55 | No exported field starts a formula, and a text passes unchanged exactly when it did not start one |
| `CsvExports.UnguardUndoesGuardIff` | backend/src/modules/analytics/analytics.service.ts:53-54 | The original text can be told from the export exactly when it does not look guarded already |
| `CsvExports.AmountReadsBackIff` | backend/src/modules/analytics/analytics.service.ts:53-54 | An amount column reads back as its amount exactly when the amount is not negative |

## Left out

- HTTP, authentication, request validation, configuration, logging, metrics, seeds and the frontend: no hard property.
- Redis, BullMQ, Meilisearch and Postgres: present only as a job map with ids, an index map, and rows with locks and
  unique indexes. A job is taken to fail for good only after its five attempts; one that BullMQ gives up as stalled
  earlier would not be dead-lettered.
- The columns' numeric(12,2) width: amounts are unbounded.
- One cart under two different keys: both transactions can read the cart before either clears it, and both may commit.
- Cart contents changing while a checkout runs: an attempt's lines are those it read after its claim.
- The unordered locks of a cancellation's item loop: cancellations are single steps and stay outside the deadlock claim.
- `AuctionTransactions.AuctionService.Update`: is the two halves with nothing in between; what may come in between is
  in `SellerEdits`.
- `CatalogServices.CatalogService.UpdateOwned`: is the two halves with nothing in between; what may come in between is
  in `ProductEdits`.
- `AuctionTransactions.AuctionService.Checkout`: keeps the order's figures only; its item row and ledger pair are
  written by the purchase of the order books, which `AuctionSales.SaleMatchesBooks` ties to it.
- `Auctions.RunKeepsInv`: its stock count follows this auction's sales alone; a later cancellation or refund of the
  order is a step of the order books, and does not reopen the auction.
- Parent order events are kept in a log of their own, not interleaved with the books' outbox.
- Seller edits that set the stock count, and what a late save does to columns other than those of the index and the
  stock.
- `AuctionTransactions.AuctionService.SaveEdited`: is one write of the whole row. The program's save reads the row
  again and writes the columns that differ, so one that reads again before a bid commits and then waits for the row
  writes only the edited columns.
- `CatalogServices.CatalogService.SaveOwned`: is one write of the whole row in the same way, and so are the saves of
  `StockEdits`: one that reads again before a sale commits leaves the stock alone.
- `CatalogServices.CatalogService.DeleteOwned`: is one step, while the program reads the row before its transaction; a
  second deletion of the same row would announce it again.
- `CatalogServices.CatalogService.UpdateCategory`: is one step, while the program reads the category before its
  transaction; a save after a removal would insert it again.
- `OrderTransactions.OrderService.UpdateStatus`: has nothing between its halves; what may come in between is in
  `LifecycleRuns`.
- `OrderTransactions.OrderService.Cancel`: has nothing between its halves; what may come in between is in
  `LifecycleRuns`.
- Product deletion and user deletion inside the stock books; `RestoreProductStock` still has
  the branch for a missing row.
- Several publishers at once in `OutboxServices`: the class is one process; the pipeline's steps allow any number.
- Auction-finalization jobs in the dead-letter table: they carry no outbox event id.
- `CsvExports.ParseUndoesPrint`: rows have at least one field, as every row of the report has; values that are JSON
  objects, symbols or functions are not modelled.
- Wall-clock columns other than the ledger's and the bids', slugs, shipping addresses, names and descriptions.
- Catalog cache, notification and realtime delivery, reviews, disputes: input/output, or bounded only by expiry times.
