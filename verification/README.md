# A verified model of the point-of-sale core

This project models the parts of the point-of-sale server whose correctness is not
obvious from any one function, and proves what they promise: the order, payment, stock
and customer-ledger transactions; the receipt watermark; the product CSV; money text;
roles and owners; prices, tax and redemption; order numbers; the print queue; and the
login rate limiter. `dafny verify dfyconfig.toml` checks all of it.

## How it is built

**The shop database.** `Tables` holds the rows (`Shop`: products, customers, orders,
payment legs, ledger, gift cards); ids assigned by the database are positions in a
sequence. `Orders` states each transaction as a function from one database state to the
next; a rollback returns the state it was given, and a missing foreign key is an error.
`Till` is the service itself: a class whose methods update these tables statement by
statement, with the loops and guards of the source. Every method is proved to compute
the transaction function of the same name, so what follows about the functions holds of
the methods.

**What one call does.** For each transaction, lemmas over the tables alone say exactly when
it goes through, what every refusal answers and leaves behind, and what each table holds
afterwards: `Sales` (checkout), `Completions` (one completed payment), `Receipts` (a receipt
pays once, over runs), `ManualReceipts` (typed codes), `VoidEffects`, `CallbackFates` (any
delivery of callbacks), `Prompts` (retry, push, time-outs, recheck, and one leg per checkout
id over runs), `TabCalls` (a settlement on its own), `CustomerMoves` and, for users and
roles, `StaffChanges`. They repeat none of the functions of `Orders` and `Access`: a
transaction that took another amount, sign, leg or branch would contradict them.

**What every run keeps.** `Soundness` states the invariant of a database, order by order
(status, once-only effects, legs, ledger rows, gift cards) and customer by customer
(cached columns against ledger folds). `Transitions` and `Checkouts` show that every
transaction keeps it; `Runs` and `Lifecycle` draw the consequences for every interleaving
of transactions. A phone retry reads the order before its transaction begins, so runs hold
its commit as a transaction of its own, with whatever an earlier read may have seen.
`StockLaw` is the conservation law of the shelves, `TenderLaw` the law that a PAID order
has been paid for, `LegRules` the rules a late retry commit can break (one PENDING leg an
order, none alive on a void), `Retries` what may commit between the read and the commit,
`VoidLaw` the race between a void and a completion, `Callbacks` the convergence of repeated
provider callbacks, `TabSettlement` the protocol of concurrent tab settlements (read,
complete, post), `Replays` the offline replay of checkouts, and `Schedules` short runs on
which the code misses a promise.

An order remembers what its PENDING to PAID transition did (`Effects`: the lines whose
guarded stock update hit, the points earned). The source has no such column; it records
how often the once-only effects fired.

**The receipt watermark.** `Watermarks` has the payload with the keyed tag as an arbitrary
function (the 32-byte digest of HMAC, section 2 of RFC 2104); `WatermarkBits` the bit
stream; `ReceiptImages` what a marked picture looks like and what an extractor reads from
any picture; `ReceiptCanvas` the pixel loops that write and read it.

**The rest.** `Csv` (quoting as in section 2 of RFC 4180), `MoneyText`, `Access` with the
handler class `Office`, `Pricing` and `Billing`, `Tax`, `OrderNumbers` with
`OrderAllocator`, `PrintQueue`, and `RateLimiting` with its mutable `LimiterBuffers`.

## What the code does that its comments do not say

- Redeeming a gift card moves the store-credit column twice: once directly and once more
  through the ledger row (`internal/services/stocktake.go:364-371`), although the comment
  above it promises a single ledger entry. The column therefore exceeds the fold of the
  ledger by exactly the face value of the cards redeemed, and equals it only while there
  are none (`Runs.ColumnsAreFolds`); `Schedules.GiftCardDrift` sells and redeems a card.
- The comment in `RetrySTKWithPhone` says that one transaction keeps a void from stranding
  a PENDING leg on a dead order. The order and its legs are read before that transaction
  begins, so it still can: `Retries.VoidBeatsRetry` shows it for every order a void may
  hit, `Retries.RetryAfterVoid` is a concrete database, and `LegRules.RetryCommitNeatIff`
  is the exact condition. Two retries that read the same order and both commit leave it
  waiting for its full total twice (`Retries.RetryBeatsRetry`; `Schedules.TwoRetries` from
  an opening database).
- The same gap loses payments. When the leg the retry has read is paid in full before the
  retry commits, the order stays PAID and unflagged with nothing collected
  (`Retries.PaymentBeatsRetry`, with `Retries.RetryAfterPayment` as a concrete database).
  It also unseals the receipt: a leg that such a commit failed can be paid again with another
  receipt, and then the first one pays for a second leg (`Receipts.ReceiptForgotten`). No
  other transaction does that (`Receipts.StepSealsIff`).
- A receipt code that is refused after a leg was created for it leaves that leg PENDING
  (`ManualReceipts.RefusedOnNewLeg`).
- A retry always asks for the full total, even when other legs have been paid
  (`Schedules.PartPaidRetry` collects 1400 for 1000). A commit breaks the law that a PAID,
  unflagged order has been paid its total exactly when the order is such a one and the legs
  the retry fails had paid for it (`TenderLaw.RetryKeepsPaidIff`). On a PENDING order it
  only sets up the breach: when the fresh leg is paid as asked, the law holds of the order
  if and only if no more had been collected at the commit than the rounding margin leaves
  (`TenderLaw.RetriedPaymentIff`). `TenderLaw.RetryKeepsTenderIff` is the exact condition
  for both, the law and that every open leg would bring its PENDING order to its total,
  which together carry the law over runs.
- Completion skips lines that are untracked or not covered by stock, and a void restores
  every line: the shelf ends over by exactly the skipped units (`StockLaw.VoidedShelf`), so
  a void gives every shelf back if and only if all lines were tracked and covered when the
  order was paid (`StockLaw.VoidRestoresShelvesIff`). `Schedules.VoidOverfills` sells one
  unit that is not covered, and ends with one more on the shelf than ever was there.
- The guard of the block extractor asks for one cell per bit although the stream takes
  three, so strips between 180 and 533 pixels wide are read past their end.
  `ReceiptImages.NarrowBlockIff` says when that still succeeds; up to 305 pixels it never
  does for a receipt whose total is not negative (`ReceiptImages.NarrowReceiptFails`).
- `readCSV` counts lines only at newlines, so a last line without one may exceed the row
  limit by one (`Csv.ExtraRowIff` says exactly when, and `Csv.LastLineUncounted` that any table one
  row over goes through without its last newline), and unquoted carriage returns are
  dropped (`Csv.ReceivedIntactIff`).
- A print job whose order cannot be loaded stays PRINTING, and later ticks print it instead
  of the job they claimed (`PrintQueue.StuckJobBlocks`).
- Redemption multiplies points by their value, and the total by the share, in 64 bits
  without a check (`Billing.RedeemExact` says that the answer is right while both fit,
  `Billing.RedeemAtCapIff` and `Billing.RedeemExactIff` exactly when it is all the same, and
  `Billing.RedeemOverflows` is an input on which it is not), and an exclusive total can
  leave 64 bits (`Billing.TotalFitsIff`; `Billing.TotalOverflows` is a cart whose total
  comes out negative).

## Model

| member | source | states |
|---|---|---|
| Runs.ColumnsAreFolds | internal/services/customers.go:198-235 | In every database any run reaches, balance and points equal the folds of the customer's ledger rows; store credit exceeds its fold by exactly the gift cards redeemed, so equals it if and only if there are none, and is never negative |
| Runs.StockNeverNegative | internal/services/orders.go:1175-1179 | No run drives the stock of a product below zero |
| Runs.StepKeeps | internal/services/orders.go:1082-1238 | Every transaction, late retry commits included and whatever its arguments apart from a negative amount due, keeps the whole invariant: foreign keys, ledger folds, and the soundness of each order against its legs, rows and cards |
| Lifecycle.EffectsIffEverPaid | internal/services/orders.go:1142-1192 | An order carries the effects of payment if and only if some prefix of the run left it PAID |
| Lifecycle.EffectsHappenOnce | internal/services/orders.go:1162-1216 | The loyalty earn is written at most once and gift cards are minted once over, exactly when the order was ever PAID |
| Lifecycle.RunAges | internal/services/orders.go:1335-1345 | Statuses only move forward, VOIDED is terminal, effects once set never change, flags are never lowered |
| LegRules.OnePendingLeg | internal/services/orders.go:1058-1067 | At most one leg of an order is PENDING in every run whose retry commits are harmless, which `LegRules.StepNeatIff` shows to be exactly those that keep the rules |
| LegRules.VoidedLegsAreDead | internal/services/orders.go:1365-1368 | In those runs every leg of a VOIDED order is FAILED or VOIDED |
| Lifecycle.VoidNetsToZero | internal/services/orders.go:1407-1464 | From the void on, the order's rows net to no points and no store credit and the charge cancels its reversal, however it was paid; only a posted tab settlement remains |
| StockLaw.RunBalanced | internal/services/orders.go:1163-1185 | Stock conservation over runs: what left a shelf since opening is what the orders hold, paid lines taken minus voided lines restored |
| StockLaw.VoidedShelf | internal/services/orders.go:1347-1353 | In every database any run reaches, once a paid order is VOIDED each shelf stands at its opening stock, less what the other orders hold, plus the units that completion skipped |
| StockLaw.VoidRestoresShelvesIff | internal/services/orders.go:1163-1185 | Over every run, the void leaves every shelf as it would be without the sale if and only if all its lines were tracked and covered on the shelves of the moment it was paid |
| Schedules.VoidOverfills | internal/services/orders.go:1347-1353 | From every opening database, for every product that is untracked or out of stock: one unit sold, paid and voided leaves the shelf one above where it opened |
| VoidLaw.CommitOrderIsIrrelevant | internal/services/orders.go:1108-1117 | Whichever of void and completion commits first, the order ends VOIDED with the same points, balances, store credit and spendable cards, and with the same stock if and only if every line is tracked and covered |
| VoidLaw.MintThenVoid | internal/services/orders.go:1376-1395 | Minting the cards of a sale and voiding them leaves the spendable cards as they were |
| VoidLaw.DeductThenRestore | internal/services/orders.go:1170-1185 | Deducting and then restoring the lines of an order changes a shelf by exactly the units that were skipped |
| TenderLaw.PaidOrdersAreCovered | internal/services/orders.go:1136-1160 | In every run each of whose retry commits meets the condition of `TenderLaw.RetryKeepsTenderIff`, a PAID order without the flag has COMPLETED legs within 50 cents of its total |
| TenderLaw.RetryKeepsPaidIff | internal/services/orders.go:1043-1075 | The commit of a retry, whatever its earlier read saw, keeps the law that PAID, unflagged orders have been paid if and only if its order is not PAID, or is flagged, or is still within the margin without the legs it fails |
| TenderLaw.RetriedPaymentIff | internal/services/orders.go:1065-1067 | When the fresh leg of a PENDING order is then paid as asked, the order ends PAID and unflagged, and its law holds if and only if what was collected at the commit plus the rounded total is within the margin |
| TenderLaw.RetryKeepsTenderIff | internal/services/orders.go:1043-1075 | The commit keeps the law together with what carries it over runs (every open leg would bring its PENDING order to its total) if and only if a PENDING order's collected sum plus the rounded total is within the margin, and a PAID unflagged order's is without the legs it fails |
| TenderLaw.RetryOvercollects | internal/services/orders.go:1065-1067 | Paying the retried leg of a part-paid order collects the full total on top, unflagged |
| Schedules.PartPaidRetry | internal/services/orders.go:1065-1067 | From every opening database with an untracked product: a split sale with 400 of 1000 in cash, a retry and its payment end PAID and unflagged with 1400 collected |
| Schedules.GiftCardDrift | internal/services/stocktake.go:326-386 | From every opening database with a gift product, untracked as the product screens make it or tracked with stock, and an active customer: sold for cash and redeemed, the store-credit column ends above the ledger fold by the card's face value |
| TenderLaw.CompletionOutcome | internal/services/orders.go:1136-1219 | A completion that goes through leaves the leg COMPLETED and the order PAID, flags it exactly on an amount mismatch, a second payment or a stock shortage, and adds the leg to what was collected |
| Completions.CompletedLeg | internal/services/orders.go:1121-1205 | When the leg is open, its order can take the money and no other leg has the receipt, the answer is Ok and exactly that leg is written: COMPLETED, with the receipt given or else its own, flagged if the amount differs or is not positive, the order was PAID, or a tracked line asks for more than the shelf holds |
| Completions.CompletedSale | internal/services/orders.go:1142-1219 | A PENDING order becomes PAID, flagged exactly when it was or the leg is; every tracked covered line leaves its shelf by its quantity and nothing else does; one loyalty row and its points, one for every full unit of the setting, when customer and setting earn; and of every face value as many new cards as gift units sold at that price |
| Completions.PaidAgain | internal/services/orders.go:1147-1159 | A second payment of a PAID order flags it and moves nothing else but the leg |
| Completions.CompletionRefused | internal/services/orders.go:1090-1129 | Every other call: its answer, and that nothing changes except that late money for a VOIDED order fails its leg |
| Receipts.BookedOnce | internal/services/orders.go:1121-1129 | Once a completion booked a receipt on a leg, after any transactions none of which is a late retry commit failing that leg, every completion of another open leg of a live order with that receipt is refused as a duplicate and changes nothing |
| Receipts.StepSealsIff | internal/services/orders.go:1194-1200 | One transaction never rewrites the receipt of a leg that has completed or whose order is VOIDED, and leaves it so if and only if it is not a retry commit that saw the leg PENDING |
| Receipts.ReceiptForgotten | internal/services/orders.go:1057-1064 | After such a commit the leg can be paid with another receipt and a second leg with the first |
| ManualReceipts.BooksOpenLeg | internal/services/orders.go:1273-1303 | A code on no leg, for a PENDING order with a PENDING leg: the last one completes with the code for its own amount, the order becomes PAID with all that goes with it, flagged exactly when it was, stock is short or the leg is worth nothing, and the collected sum grows by that leg |
| ManualReceipts.BooksNewLeg | internal/services/orders.go:1279-1303 | Without a PENDING leg and with something left to pay: one new M-Pesa leg worth exactly the rest completes with the code, and the collected sum is the total |
| ManualReceipts.TurnedAwayIs | internal/services/orders.go:1261-1293 | A malformed code, an unknown, PAID or VOIDED order, or nothing left to pay: which error, and nothing changes |
| ManualReceipts.RefusedOnNewLeg | internal/services/orders.go:1294-1303 | A code another leg carries, or a sale that misses a product or its customer, is refused, and the leg created for it stays behind PENDING (`ManualReceipts.RefusedOnOpenLeg`: nothing changes when a leg was PENDING) |
| VoidEffects.VoidAnswers | internal/services/orders.go:1320-1334 | On a sound database a void goes through if and only if the caller sees all orders or made this one and it is not VOIDED; which error otherwise, and every refusal changes nothing |
| VoidEffects.VoidedOrder | internal/services/orders.go:1335-1372 | The order is VOIDED, flagged exactly when it was or was PAID with a COMPLETED M-Pesa leg of positive amount; its PENDING and COMPLETED legs are VOIDED; no other order or leg is written |
| VoidEffects.VoidedGoods | internal/services/orders.go:1347-1395 | Every line of a PAID order is back on its shelf and every active card of it is void; a PENDING one moves neither |
| VoidEffects.VoidedCustomers | internal/services/orders.go:1396-1464 | Its customer owes the tab's total less, has the points spent back and those earned taken, and the store credit back; no other customer moves |
| VoidEffects.VoidedLedger | internal/services/orders.go:1396-1464 | The ledger only grows, by rows of the order and its customer |
| Sales.CheckoutIff | internal/services/orders.go:301-771 | With merged lines, a checkout answers Ok if and only if its uuid was submitted before or the cart is sellworthy: a split adds up in positive parts with no tab and one wait at most, a customer that is needed is active and has the points, store credit covers what is asked of it, a tab or an instant sale is covered by stock, and a prompt has a phone; every other answer and every replay changes nothing |
| Sales.CheckoutSells | internal/services/orders.go:435-771 | What it writes: the order with every field of the cart, one payment row for each part with its rail, amount, status and phone, the ledger rows and columns of store credit, tab and points, and for an instant sale all that becoming PAID means, unflagged |
| Callbacks.CallbacksConverge | internal/services/orders.go:1486-1521 | For any callbacks on one leg, the leg ends COMPLETED if and only if one is a success carrying the stored amount and the order can take it, and then the books are those of one completion |
| Callbacks.DeliveryOrderIsIrrelevant | internal/services/orders.go:1097-1129 | Two deliveries of the same callbacks, in any order and with any repetition, give the same books |
| CallbackFates.FailedDelivery | internal/services/orders.go:1495-1520 | After any delivery to an open leg of a live order none of which pays, the leg is FAILED if it was PENDING and some callback was a failure or carried a wrong amount, and as it was otherwise; the order keeps its status and is flagged exactly when it was or a success carried a wrong amount; nothing else changes |
| CallbackFates.PaidDelivery | internal/services/orders.go:1486-1521 | After any delivery of which one pays, the leg is COMPLETED with the receipt of the first that does, and its order PAID, flagged exactly when it was, a success carried a wrong amount, it had been PAID, or stock is short |
| CallbackFates.CallbackAnswers | internal/services/orders.go:1486-1521 | What each callback is answered |
| CallbackFates.VoidedCallback | internal/services/orders.go:1112-1119 | Money for a VOIDED order fails its leg and nothing else, and a wrong amount flags the order |
| CallbackFates.UnknownCheckout | internal/services/orders.go:1486-1494 | A checkout id that no leg has, plain or prefixed, changes nothing |
| TabSettlement.TabSettlesOnce | internal/services/customers.go:338-410 | Under any interleaving of settlement calls and other transactions, at most one settlement row exists, worth minus the total, on an order that was paid; a call that reports success has it |
| TabSettlement.StepQuiet | internal/services/customers.go:380-402 | No other transaction writes a settlement row of the order |
| TabCalls.TabCall | internal/services/customers.go:338-410 | A call on a PENDING order with a customer and a PENDING tab leg follows its payment: refused, it leaves what the payment left; paid, the tab is paid off, once |
| TabCalls.CashSettles | internal/services/customers.go:366-402 | Settled in cash, the first tab leg completes, the order is PAID, and the customer owes its total less than before |
| TabCalls.TabRefused | internal/services/customers.go:339-361 | In every other case the call gives up and nothing changes |
| Soundness.RetryCommitKeeps | internal/services/orders.go:1053-1075 | The commit of a retry keeps the invariant on any earlier read of its order |
| LegRules.RetryCommitNeatIff | internal/services/orders.go:1043-1075 | It keeps the leg rules (one PENDING leg an order, none alive on a void) if and only if the order is not voided and every leg now PENDING was seen by the read |
| LegRules.StepNeatIff | internal/services/orders.go:1050-1075 | Every other transaction keeps those rules |
| LegRules.PhonesStayMpesa | internal/services/payments_buni_cloud.go:136-141 | In every run a leg with a phone is an M-Pesa leg, so the re-tagging before a push never moves a leg to another rail |
| Prompts.RetryWrites | internal/services/orders.go:1038-1076 | A retry is refused without a phone, an order or once it is not PENDING, and changes nothing; otherwise its open legs are FAILED and one fresh leg waits for the total in whole shillings |
| Prompts.CommitWrites | internal/services/orders.go:1053-1075 | The commit on any earlier read fails exactly the legs seen, whatever they have become, and adds the fresh one |
| Prompts.WholeShillings | internal/services/orders.go:1065-1067 | Amounts for the phone are the nearest whole shilling, halves away from zero |
| Prompts.PushWrites | internal/services/payments_buni_cloud.go:116-183 | A push fails the other PENDING M-Pesa legs of its order and no other; its own leg, while PENDING, gets the prefixed checkout id unless another leg has it, or is FAILED when the provider refuses |
| Prompts.PushRefused | internal/services/payments_buni_cloud.go:79-121 | Without a phone, or while another prompt of the order is recent, a push writes nothing |
| Prompts.OneLegPerCheckout | internal/services/payments_buni_cloud.go:168-181 | In every run a checkout id names at most one leg |
| Prompts.SweepWrites | internal/services/payments_buni_cloud.go:204-235 | A sweep without claimed callbacks fails exactly the expired PENDING prompts that have fewer than a hundred newer ones |
| Prompts.RecheckPays | internal/services/payments_buni_cloud.go:317-363 | The first M-Pesa leg whose provider can be asked and confirms completes with the provider's receipt and amount, and the sale is PAID |
| Prompts.RecheckIdle | internal/services/payments_buni_cloud.go:317-363 | In every other case a recheck changes nothing |
| Retries.LateRetryIsRun | internal/services/orders.go:1043-1075 | A retry that commits after any transactions is a run, so all laws over runs hold of it |
| Retries.LateRetryNeatIff | internal/services/orders.go:1043-1075 | The condition of the leg rules, over any transactions between the read and the commit |
| Retries.LateRetryTenderIff | internal/services/orders.go:1043-1075 | The condition of the tender law, over any transactions between the read and the commit |
| Retries.LateRetryForgets | internal/services/orders.go:1057-1064 | Money that landed on the seen leg in between is taken off the collected sum, exactly that leg |
| Retries.VoidBeatsRetry | internal/services/orders.go:1050-1057 | Read, void, commit leaves a PENDING leg on a VOIDED order |
| Retries.RetryBeatsRetry | internal/services/orders.go:1043-1075 | Two retries that read the same PENDING order and both commit leave it with two PENDING legs of its full rounded total each |
| Schedules.TwoRetries | internal/services/orders.go:1043-1075 | The same as a run from every opening database, so a run with harmful commits does break the rule of one PENDING leg |
| Retries.PaymentBeatsRetry | internal/services/orders.go:1043-1064 | Read, full payment, commit leaves the order PAID, unflagged and with nothing collected, with the invariant and the leg rules intact |
| LegRules.RunNeat | internal/services/orders.go:1050-1075 | Runs keep the leg rules while each retry commit meets that condition |
| Replays.OneOrderPerUuid | internal/services/orders.go:74-79 | Over every run there is at most one order for a client uuid |
| Replays.ReplayChangesNothing | internal/services/orders.go:74-79 | After a checkout with a uuid went through, submitting any cart with that uuid, at any later time, succeeds and changes nothing |
| TillSteps.CoveredIffNotShort | internal/services/orders.go:570-583 | With one line per product, the stock check before the money accepts exactly when no guarded deduction would miss |
| TillSteps.UncoveredRollsBack | internal/services/orders.go:570-583 | An instant sale that stock does not cover is refused wherever in the transaction it is checked |
| TillSteps.CandidatesComplete | internal/services/payments_buni_cloud.go:213-217 | A sweepable leg is left out of a sweep only when the batch is full, and then only of newer legs |
| Tills.Till.RecordLedger | internal/services/customers.go:198-221 | One ledger row and its column updates, refused when the customer is not on file |
| Tills.Till.TakeLines | internal/services/orders.go:1164-1185 | The deduction loop computes `Deduct` and reports exactly whether a tracked line was missed |
| Tills.Till.IssueGiftCards | internal/services/stocktake.go:284-322 | One active card per unit of every gift-card line |
| Tills.Till.EarnLoyalty | internal/services/orders.go:1541-1560 | The loyalty earn of a paid order |
| Tills.Till.CompletePayment | internal/services/orders.go:1082-1238 | State and result are those of the transaction `Complete`, on every path and with every rollback |
| Tills.Till.ManualConfirm | internal/services/orders.go:1259-1309 | State and result are those of `ManualConfirm`: last PENDING leg, or a new leg for what is outstanding |
| Tills.Till.CommitRetry | internal/services/orders.go:1053-1075 | The retry's transaction on any earlier read |
| Tills.Till.ReadPending | internal/services/orders.go:1056-1059 | The legs a retry is going to fail are exactly the PENDING ones of its order |
| Tills.Till.Push | internal/services/payments_buni_cloud.go:82-183 | Refused without a phone or while another prompt of the order is recent; otherwise a run of two transactions: supersede the older prompts, then bind or fail by the provider's answer |
| Tills.Till.HandleCallback | internal/services/orders.go:1486-1521 | State and result are those of `HandleCallback`, with the stored-amount gate |
| Tills.Till.Void | internal/services/orders.go:1313-1469 | State and result are those of `Void`: restored lines, voided legs and cards, the refund flag, and the reversal rows in order |
| Tills.Till.SettleTab | internal/services/customers.go:338-410 | A call running alone goes through the three phases of the protocol and reports success exactly when it reaches the last |
| Tills.Till.SweepBuni | internal/services/payments_buni_cloud.go:204-259 | A sweep is a run of time-outs on old legs followed by the claimed callbacks |
| Tills.Till.RecheckPayment | internal/services/payments_buni_cloud.go:317-363 | The first queryable leg whose provider confirms is completed, and nothing else changes |
| Tills.Till.RecordCustomerPayment | internal/services/customers.go:269-307 | The guarded payment against a balance, never more than the balance |
| CustomerMoves.PaymentMoves | internal/services/customers.go:269-307 | A payment goes through if and only if the customer is on file and active and 0 < amount <= balance; then the balance is exactly that much less and not negative, one ledger row is added, and nothing else moves; every refusal changes nothing |
| CustomerMoves.AdjustmentMoves | internal/services/customers.go:311-333 | A correction goes through if and only if it has a note and a customer on file, and moves the balance by its signed amount |
| CustomerMoves.TopUpMoves | internal/services/retail.go:260-288 | A top-up goes through if and only if the customer is on file and active and the amount is positive and within the limit, and moves the store credit by it |
| CustomerMoves.CardMoves | internal/services/stocktake.go:326-386 | A card with money on it is emptied for an active customer, whose store credit grows by twice that while the ledger says once; every refusal changes nothing |
| Soundness.CustomerAdjustmentKeeps | internal/services/customers.go:311-333 | A signed correction, noted or not, of a customer on file or not, keeps the whole invariant |
| Soundness.RedeemCardKeeps | internal/services/stocktake.go:326-386 | Redeeming any card for any customer keeps the whole invariant, with the column above the fold by the cards redeemed |
| Tills.Till.CheckSplit | internal/services/orders.go:318-342 | The split loop accepts exactly positive legs of allowed rails and computes their sum and the legs that wait |
| Tills.Till.PlaceOrder | internal/services/orders.go:385-771 | The checkout transaction computes `CheckoutAttempt` and rolls back to where it began |
| Tills.Till.Checkout | internal/services/orders.go:73-79 | State and result are those of `Checkout`, replays included |
| Checkouts.CheckoutKeeps | internal/services/orders.go:385-771 | Every checkout keeps the invariant and opens a sound order |
| Transitions.VoidKeeps | internal/services/orders.go:1313-1469 | Every void keeps the invariant |
| Transitions.CompleteKeeps | internal/services/orders.go:1082-1238 | Every completion keeps the invariant |
| Watermarks.DecodesPayload | internal/services/receipt_watermark.go:76-89 | Every triple of 64-bit fields is read back from its payload, whatever follows it |
| Watermarks.AcceptsExactlyPayloads | internal/services/receipt_watermark.go:300-315 | A byte string is accepted as w if and only if its first 37 bytes are exactly w's payload |
| WatermarkBits.PayloadBitsTripled | internal/services/receipt_watermark.go:153-162 | The bit stream: every bit of the payload three times, most significant first |
| WatermarkBits.PackIsPayload | internal/services/receipt_watermark.go:241-253 | Packing bits gives a payload back if and only if every bit is the payload's |
| WatermarkBits.PushBit | internal/services/receipt_watermark.go:246-251 | The 8-bit accumulator packs the bits pushed so far |
| ReceiptImages.RecoversIff | internal/services/receipt_watermark.go:233-246 | Majority voting recovers the payload if and only if no triple has two misread cells |
| ReceiptImages.BlockRoundTrip | internal/services/receipt_watermark.go:119-148 | Any receipt at least 534 pixels wide: the block layer gives the fields back |
| ReceiptImages.BlockSurvives | internal/services/receipt_watermark.go:219-270 | The same from any copy in which two cells of every triple darken by at most 4 or brighten by at most 2 |
| ReceiptImages.NarrowBlockIff | internal/services/receipt_watermark.go:226-229 | On narrower strips the block layer is intact if and only if the missing bits equal what reading past the strip yields |
| ReceiptImages.NarrowReceiptFails | internal/services/receipt_watermark.go:226-229 | Every receipt 180 to 305 pixels wide passes the guard, and none with a total that is not negative is read back from its block layer; up to 191 pixels, nor any issued since 1970 |
| ReceiptImages.WideEnough | internal/services/receipt_watermark.go:129-135 | The strip holds the whole stream if and only if the image is at least 534 pixels wide |
| ReceiptImages.LowRoundTripIff | internal/services/receipt_watermark.go:280-297 | The low-bit layer gives the fields back if and only if the image has at least 296 pixels |
| ReceiptImages.VerifiesOwnReceipts | internal/services/receipt_watermark.go:200-215 | Verification of an unmodified receipt answers with its fields, by the block layer from 534 pixels on |
| ReceiptCanvas.EmbedWatermark | internal/services/receipt_watermark.go:119-148 | The pixel loops produce exactly the marked picture |
| ReceiptCanvas.Canvas.DarkenCell | internal/services/receipt_watermark.go:166-178 | Exactly the points of one cell are darkened |
| ReceiptCanvas.Canvas.SetLSB | internal/services/receipt_watermark.go:180-195 | Exactly the first points, row by row, carry the payload's bits |
| ReceiptCanvas.Canvas.ExtractBlockLayer | internal/services/receipt_watermark.go:219-254 | The extractor computes `ExtractBlock` on whatever picture the buffer shows |
| ReceiptCanvas.Canvas.ExtractLSBLayer | internal/services/receipt_watermark.go:280-297 | The extractor computes `ExtractLow` |
| ReceiptCanvas.Canvas.VerifyReceipt | internal/services/receipt_watermark.go:200-215 | Block layer first, then low bits |
| Csv.ReadCsv | internal/handlers/csv.go:327-377 | The byte loop computes `Scan`, its limit included |
| Csv.ReadWritten | internal/handlers/csv.go:51-59 | Reading back any written table: every field as received, blank lines gone, refused if and only if too many rows are left |
| Csv.RoundTrip | internal/handlers/csv.go:327-377 | Tables of at least two columns, free of carriage returns and within the limit, come back whole with formulas neutralised |
| Csv.ReceivedIntactIff | internal/handlers/csv.go:51-59 | A field comes back unchanged if and only if it does not start like a formula and its carriage returns are inside quotes |
| Csv.ScanShape | internal/handlers/csv.go:336-343 | For any bytes, no blank record comes out, and at most one row more than the limit |
| Csv.ReadUnterminated | internal/handlers/csv.go:364-376 | Reading back any written table and a last row without its newline: the last row is kept as received and not counted |
| Csv.ExtraRowIff | internal/handlers/csv.go:364-376 | For every such text: refused if and only if more rows than the limit are left before the last, and one row over the limit comes out if and only if exactly the limit is left and the last row is not blank |
| Csv.LastLineUncounted | internal/handlers/csv.go:364-376 | Every table one row over the limit is refused as written, and read whole when its last newline is missing |
| MoneyText.InsertCommas | internal/printer/render.go:24-35 | The grouping loop computes `Thousands` |
| MoneyText.ParseMoneyToCents | internal/handlers/csv.go:274-309 | The parser with its padding loop computes `Parse` |
| MoneyText.ParseInvertsFormatIff | internal/printer/render.go:38-51 | For every 64-bit amount, parsing the formatted text gives it back if and only if it is not negative; negative amounts are refused |
| MoneyText.AmountMeans | internal/handlers/csv.go:274-309 | Digits, a point and digits, either side possibly missing and separators ignored, are read as the whole part and the first two places, filled up with zeros or cut off |
| MoneyText.WholeAmountIff | internal/handlers/csv.go:297-308 | A whole amount typed without a point is read as meant if and only if its cents fit 64 bits |
| MoneyText.CommasVanish | internal/printer/render.go:24-35 | Separators are all the grouping adds |
| Access.OwnerAlwaysRemains | internal/handlers/users.go:190-268 | Over every run of requests at least one active owner-level user remains |
| Access.OwnerGuardExact | internal/handlers/users.go:190-268 | The guard on user changes refuses exactly self-deactivation and changes that would leave no owner |
| Access.StripGuardExact | internal/handlers/roles.go:81-109 | The guard on role changes refuses exactly those that would leave no owner |
| Access.NoEscalation | internal/handlers/roles.go:60-77 | A caller without an authority key cannot enlarge the set of its active holders, by any operation |
| Access.CallerStays | internal/handlers/users.go:190-194 | Whoever makes a change is still active after it |
| Access.LostKeysStayLost | internal/handlers/roles.go:54-77 | An authority key nobody active holds is never regained by any run of requests |
| Offices.Office.PermsIncludeBoth | internal/handlers/users.go:270-285 | The flag loop decides whether both keys are present |
| Offices.Office.MayProceed | internal/handlers/roles.go:64-77 | The guard loops decide whether the caller holds every authority key granted |
| Offices.Office.LastOwnerGuard | internal/handlers/users.go:190-268 | The guard, with its missing-target and missing-role cases |
| Offices.Office.LastOwnerStrip | internal/handlers/roles.go:81-109 | The guard loop over other owners outside the role |
| Offices.Office.CreateUser | internal/handlers/users.go:54-136 | State and answer of `CreateUser` |
| Offices.Office.UpdateUser | internal/handlers/users.go:139-182 | State and answer of `UpdateUser` |
| Offices.Office.DeactivateUser | internal/handlers/users.go:428-448 | State and answer of `DeactivateUser` |
| Offices.Office.CreateRole | internal/handlers/roles.go:133-158 | State and answer of `CreateRole` |
| Offices.Office.UpdateRole | internal/handlers/roles.go:163-193 | State and answer of `UpdateRole` |
| Access.DeletingTouchesNobody | internal/handlers/roles.go:196-223 | Deleting a role changes no user's permissions, and succeeds if and only if the role is on file, not a system role and nobody's |
| StaffChanges.CreateUserIff | internal/handlers/users.go:54-136 | A user is created if and only if the request is acceptable, the role exists, the caller has its authority keys and the name is free; then exactly that row is added |
| StaffChanges.UpdateUserIff | internal/handlers/users.go:139-268 | A change of role or activity is granted if and only if user and role exist, the caller has the role's authority keys and does not switch itself off, and an owner remains; then exactly that user changes |
| StaffChanges.DeactivateUserIff | internal/handlers/users.go:428-448 | The same for a deactivation |
| StaffChanges.CreateRoleIff | internal/handlers/roles.go:133-158 | A role is created if and only if its permissions are known and the caller's to give and its name is free; then it has exactly those, each once |
| StaffChanges.UpdateRoleIff | internal/handlers/roles.go:163-193 | New permissions are granted if and only if they are known and the caller's to give, the role exists and an owner remains with them; then exactly that role changes |
| Pricing.MergeItems | internal/services/orders.go:177-227 | The merge loop computes `Merge`, refusals included |
| Pricing.MergeMeans | internal/services/orders.go:177-227 | Merged lines: every product once, in order of first mention, with its whole quantity and the price of its first item |
| Pricing.MergeIff | internal/services/orders.go:177-227 | A cart is merged if and only if every quantity and every product's whole quantity is within 1 and 100000, and every product has at its first mention an active catalogue entry and its price, or another within range for those who may set it |
| Billing.OverflowCheckExact | internal/services/orders.go:239-242 | Dividing back detects every 64-bit overflow of a line total and nothing else |
| Billing.SubtotalExactIff | internal/services/orders.go:237-247 | The subtotal is the exact sum of price times quantity, and is refused if and only if that sum leaves 64 bits |
| Billing.ComputeSubtotal | internal/services/orders.go:237-247 | The subtotal loop with wrap-around computes `Subtotal` |
| Billing.BillIff | internal/services/orders.go:237-264 | A bill is drawn up if and only if the exact sum fits 64 bits, the rate is within 0 and 100 percent, and the discount is nothing or leaves something to pay and is the caller's to give; then subtotal, tax and wrapped total are those of the exact sum |
| Billing.QuoteTotals | internal/services/quotes.go:33-71 | The quote loop computes `QuoteBill` and writes every line total in place |
| Billing.QuoteAgrees | internal/services/quotes.go:30-32 | The same lines give the same subtotal, tax and total at checkout and in a quote, or are refused by both, except that checkout refuses a discount to a caller without the permission for it |
| Billing.QuoteOfCart | internal/services/quotes.go:30-71 | The same, with the same exception, for every cart of distinct products, from its items |
| Billing.MergedLinesGood | internal/services/orders.go:177-227 | The lines that reach an order are known, distinct, positive and priced, as the transactions rely on |
| Billing.RedeemExact | internal/services/orders.go:269-297 | While the total times the share and the points times their value fit 64 bits, redemption answers with the lesser of the points asked for and the whole points under the cap, or refuses when there are none or more than the customer has |
| Billing.NothingRedeemed | internal/services/orders.go:286-292 | Points worth nothing are never redeemed |
| Billing.RedeemAtCapIff | internal/services/orders.go:269-297 | While the cap fits, that answer comes if and only if the amount asked for fits, or wraps above the cap, or wraps to its last whole point, or neither the points it wraps to nor those of the cap can be spent |
| Billing.RedeemExactIff | internal/services/orders.go:269-297 | For every total, request and setting, the cap wrapped or not: that answer comes if and only if an amount cut to the cap leaves the whole points of the exact one, and any other fits or wraps to the last whole point, or neither the points reached nor those due can be spent |
| Billing.OfferedIff | internal/services/orders.go:277-286 | The cents offered are those due if and only if, when the wrapped amount is above the computed cap, both caps hold the same number of whole points, and otherwise the amount fits 64 bits or wraps to the last whole point |
| Billing.CapExactIff | internal/services/orders.go:277 | The cap is the share of the total that was meant if and only if the product fits 64 bits |
| Billing.WholePointsIff | internal/services/orders.go:278-291 | The cents of a redemption are worth exactly its points if and only if the wrapped amount is above the cap or a multiple of the point value |
| Billing.PayableWithin | internal/services/orders.go:269-299 | Wrapped or not, a redemption takes at least a cent and at most the total, and no more points than the customer has |
| Billing.RedeemOverflows | internal/services/orders.go:278-283 | An input on which it is wrong: 8 cents for one point worth 7, where the points asked for are more than the customer has |
| Billing.TotalFitsIff | internal/services/orders.go:254-264 | A bill's total is negative if and only if the exact total does not fit 64 bits, and exact otherwise |
| Billing.TotalOverflows | internal/services/orders.go:237-264 | Fifty lines at the price and quantity limits, taxed at 100 percent, are accepted with a negative total |
| Billing.CartReadyIff | internal/services/orders.go:177-299 | Merged, billed and redeemed, every accepted cart has the lines and points the checkout transaction relies on; its amount due is not negative if and only if the exact total fits 64 bits or a redemption takes a negative total below them |
| Tax.ExtractionInvertsAddition | internal/money/tax.go:18-25 | Extracting VAT from an exclusive total returns exactly the VAT that was added |
| Tax.InclusiveNearest | internal/money/tax.go:18-20 | Inclusive VAT is its exact rational to the nearest cent, and the total is the amount |
| Tax.ExclusiveNearest | internal/money/tax.go:23-25 | Exclusive VAT is its exact rational to the nearest cent, and is added to the amount |
| Tax.InclusiveWithin | internal/money/tax.go:18-20 | Inclusive VAT lies between nothing and the amount |
| Tax.ExclusiveWithin | internal/money/tax.go:23-25 | Up to 100 percent, exclusive VAT lies between nothing and the amount |
| OrderNumbers.LeadsIffGreater | internal/services/orders.go:895-908 | Longest first, then highest text first, is highest counter first |
| OrderNumbers.RangeIsTheDay | internal/services/orders.go:899-908 | The probed range holds the numbers of the day and of no day before or after |
| OrderNumbers.MintExceeds | internal/services/orders.go:873-919 | A minted counter exceeds the stored one and every number of the day |
| OrderNumbers.RetriesIncrease | internal/services/orders.go:385-395 | Later attempts of one checkout mint strictly higher numbers although their own bumps roll back |
| OrderNumbers.MintKeepsTidy | internal/services/orders.go:873-919 | A minted number keeps the table in the form the other results ask for, while counters fit 64 bits |
| OrderAllocator.Allocator.NextDocNumber | internal/services/orders.go:873-919 | Bump, probe and heal compute `Candidate` |
| OrderAllocator.Allocator.Allocate | internal/services/orders.go:385-433 | Six attempts: a new number is added, or nothing changes; on a tidy table the first attempt succeeds |
| PrintQueue.RunOrderly | internal/printer/worker.go:79-149 | Across retries, new jobs and crashes: jobs finish in order, none is left printing, and a job is parked exactly after its fifth attempt |
| PrintQueue.ClaimedAlone | internal/printer/worker.go:128-148 | A claimed job is the only one printing and everything below it is finished |
| PrintQueue.TickProgress | internal/printer/worker.go:207-220 | Every tick that finds a job uses up at least one of the attempts left |
| PrintQueue.TickWrites | internal/printer/worker.go:116-220 | A tick prints the lowest queued job, or counts one more failure on it and parks it after the fifth; no other job is written |
| PrintQueue.QueueDrains | internal/printer/worker.go:116-149 | As many ticks as attempts are left finish every job, whatever the printer does |
| PrintQueue.IdleIffLoads | internal/printer/worker.go:151-155 | A tick leaves a job printing if and only if it claimed one it could not load |
| PrintQueue.StuckJobBlocks | internal/printer/worker.go:137-155 | Two jobs in which a failed load does so |
| PrintQueue.Worker.TickOnce | internal/printer/worker.go:116-149 | The claim and the print compute `Tick` |
| PrintQueue.RecoverWrites | internal/printer/worker.go:79-82 | Exactly the interrupted jobs wait again, with the attempts they had |
| PrintQueue.Worker.RecoverJobs | internal/printer/worker.go:79-82 | Jobs interrupted while printing are queued again, and only those |
| RateLimiting.SameAnswers | internal/auth/ratelimit.go:23-59 | With a clock that does not run backwards, compaction and sweeping never change an answer |
| RateLimiting.NeverOverBudget | internal/auth/ratelimit.go:23-59 | Unless a key is forgotten, no window lets it through more than max times |
| RateLimiting.AllowedIff | internal/auth/ratelimit.go:23-59 | A key that was not forgotten is let through if and only if fewer than max of its hits were accepted in the window that ends now |
| LimiterBuffers.Compact | internal/auth/ratelimit.go:46-52 | In-place compaction keeps exactly the fresh hits, in order |
| LimiterBuffers.RateLimiter.AllowHit | internal/auth/ratelimit.go:23-59 | Answer and state are those of `Allow`, and no two keys share a buffer |
| LimiterBuffers.RateLimiter.ForgetKey | internal/auth/ratelimit.go:62-66 | The key's hits are gone and no other key's |

## Left out

- HTTP, JSON, sessions, audit rows, printing, broadcasts, messaging and team sync: input and output. A provider's answer is an arbitrary argument.
- Amounts in the order transactions are unbounded integers; the 64-bit arithmetic is modelled where the amounts are computed (`Billing`, `MoneyText`), and `Billing.MergedLinesGood` bounds them.
- Binary floating-point error in tax and rounding: `Tax` is over exact rationals, `RoundToShilling` over integers.
- Interleavings inside `ManualConfirm` and inside the two writes a mismatched callback makes: each is one step of a run.
- Interleavings inside a user or role handler: each request is one step.
- Callbacks.CallbacksConverge: is stated for callbacks whose receipt is on no other leg and an order that is not voided; `CallbackFates` covers other receipts and says what a voided order does with one callback.
- OrderNumbers.MintExceeds: is stated for tables whose numbers of the day are stem and counter; numbers suffixed by team sync are outside of it, though the suffix is cut off as in the source.
- PrintQueue.RunOrderly: is stated for jobs that load; `PrintQueue.IdleIffLoads` says what a failed load does.
- Tills.Till.Checkout: starts from merged lines and an amount due, which `Pricing` and `Billing` produce (`Billing.CartReadyIff`); the customer auto-capture by phone and the permission and settings look-ups before it are not modelled.
- Receipt codes arrive in canonical form: trimming and upper-casing a typed code is not modelled.
- Alpha channels, PNG and JPEG coding and images whose bounds do not start at the origin.
- The four-megabyte limit and the chunked reads in front of `readCSV`.
- The mode column of a payment leg: a push re-tags the rail, and a leg taken by receipt is one without a phone.
- Clocks: which prompts are younger than 75 seconds is an argument of the push, and which legs are older than three minutes an argument of the sweep.
- Runs.StepKeeps: a checkout in a run has an amount due that is not negative; `Billing.CartReadyIff` says exactly which carts have one. `Tills.Till.Checkout` takes any amount.
- Unicode blanks in typed amounts: text is ASCII.
- Holding sales, stock counts, purchase orders, reports, quote status changes and plain create, read, update and delete handlers: they would only add easy members.
