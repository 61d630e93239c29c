# MES work-order engine in Dafny

A model of the production service of a small manufacturing-execution system
(`ProductionService`). The service keeps four tables:

- a material inventory (code, name, current stock);
- bills of materials, which say how much of each material one unit of a product needs;
- work orders, which move from WAITING to IN_PROGRESS to COMPLETED;
- an append-only production log.

Its operations are:

- **inboundMaterial**: receive stock of a material, creating the material if it is new.
- **createWorkOrder**: create a waiting order.
- **assignWorkToMachine**: a machine polls for work. It gets back the order it is already running. Otherwise it gets the oldest waiting order, bound to it, provided the order's bill of materials passes the availability check (`isMaterialAvailable`).
- **reportProduction**: one produced unit, as a transaction. It writes a log record. For a good ("OK") unit it backflushes (consumes) the bill-of-materials quantities. It then advances the order and completes it once the target is reached. A material shortage aborts the transaction and rolls everything back.
- **getRecentLogs**: the dashboard's view of the 15 newest log records.

Modules:

- `Wrappers`: `Option` and `Result`.
- `JavaInt`: Java's 32-bit `int`. `Wrap` makes overflow wrap-around explicit wherever the service adds or subtracts.
- `Inventory`:
  - materials and BOM lines;
  - receipt (`Receive`);
  - the availability check (`Available`);
  - the backflush as a specification function (`Backflush`) and as the loop that runs it on a working copy (`RunBackflush`);
  - the total per-material demand of a bill of materials (`Demand`) and the lemmas relating all of these.
- `WorkOrders`: the order record, the status lifecycle, binding, and per-unit progress (`Advance`).
- `Assignment`:
  - the two repository queries as scans over the id range (`FindRunning`, `FindOldestWaiting`);
  - the assignment decision (`Assign`) and its lemmas.
- `ProductionLogs`: the log record written per unit (`LogFor`) and the recent-log view (`RecentLogs`).
- `Production`:
  - the whole store (`Store`) and its invariant (`Consistent`);
  - order creation (`CreateOrder`);
  - the report transaction as a function (`Report`);
  - the lemmas that each operation keeps the invariant, plus the report's properties.
- `Service`:
  - the class `ProductionService`, whose fields are the tables;
  - its methods update the fields in place and are proved equal to the functions above;
  - `Valid()` (the store invariant) is kept by every method.
- `Scenario`: receive 10 bolts, create an order for 5 widgets needing 2 bolts each, assign it to machine M1, and report five good units.

The model follows what the code does, including where that differs from what the service evidently intends:

- **No input validation.** Nothing rejects a non-positive receipt amount or target quantity, or an "NG" report without a defect code. So the model has no such preconditions and no invalid-input error.
- **Stock can go negative.** The backflush checks each material's stock before taking from it, so that no stock goes below zero. That holds only for non-negative BOM quantities. Receipts are not checked at all: a negative amount is added as is, and a receipt that pushes a stock past 2^31-1 wraps around to a negative value (`ReceiveOverflows`). A receipt keeps stock non-negative exactly when its amount is non-negative and the sum does not overflow (`ReceiveKeepsStockNonNegative`). The backflush and report non-negativity lemmas assume non-negative BOM quantities (`NonNegativeBoms`, `NonNegativeStock`).
- **The operator is never recorded.** The operator is looked up but never set on the log record. So every record has no operator, and the dashboard shows the system name "시스템" for all of them.
- **Any non-completed order can be reported.** A report is refused only for a COMPLETED order. A WAITING order can be reported, and the machine is not compared with the assigned one. Completion uses `>=`.
- **Assignment checks per line, backflush consumes cumulatively.** The availability check reads each BOM line against the untouched stock. The backflush sees the stock left by earlier lines. The two can disagree when a product lists the same material twice (`AvailableYetShort`).

## Model

| member | source | states |
|---|---|---|
| Inventory.Receive | src/main/java/com/hm/mes_final_260106/service/ProductionService.java:30-41 | An unknown code is created with the given name and stock equal to the amount. A known code keeps its code and name, and its stock grows by the amount with Java int wrap-around (exactly by the amount when no overflow occurs). No other material changes, and only the received code is added. |
| Inventory.ReceiveAllTotals | src/main/java/com/hm/mes_final_260106/service/ProductionService.java:30-41 | After a series of receipts of one code, its stock is the starting stock (0 if new) plus the sum of the amounts, modulo 2^32. The name is the one it was created with, and every other material is unchanged. |
| Inventory.ReceiveKeepsStockNonNegative | src/main/java/com/hm/mes_final_260106/service/ProductionService.java:30-41 | Starting from non-negative stock, a receipt of a non-negative amount leaves all stock non-negative if and only if the material is new or its stock plus the amount stays within the int range. |
| Inventory.ReceiveOverflows | src/main/java/com/hm/mes_final_260106/service/ProductionService.java:40 | Receiving one unit onto a stock of 2^31-1 leaves a stock of -2^31. |
| JavaInt.Wrap | src/main/java/com/hm/mes_final_260106/service/ProductionService.java:40 | Java int addition: the result is a 32-bit value congruent to the exact sum modulo 2^32, and equal to it when the sum is in range. |
| JavaInt.WrapAdd | src/main/java/com/hm/mes_final_260106/service/ProductionService.java:40 | Wrapping an intermediate sum does not change the wrapped final sum, so repeated receipts accumulate modulo 2^32. |
| Service.ProductionService.InboundMaterial | src/main/java/com/hm/mes_final_260106/service/ProductionService.java:30-41 | Updates the material table in place to exactly `Receive` of the old table, returns the stored material, and keeps the store invariant. |
| WorkOrders.NewOrder | src/main/java/com/hm/mes_final_260106/service/ProductionService.java:48-53 | A new order is within its target and has no machine while waiting. |
| Production.CreateOrderAddsNewest | src/main/java/com/hm/mes_final_260106/service/ProductionService.java:47-54 | The created order is WAITING with quantity 0, no machine, and the given product and target. Its id is absent before and above every existing id, so it is the newest. Existing orders, materials and logs are unchanged, and the store invariant is kept. |
| Service.ProductionService.CreateWorkOrder | src/main/java/com/hm/mes_final_260106/service/ProductionService.java:47-54 | Stores the new waiting order under the next id, exactly as `CreateOrder`, and returns it. Earlier orders are unchanged and have smaller ids. The invariant is kept. |
| Assignment.FindRunning | src/main/java/com/hm/mes_final_260106/service/ProductionService.java:61 | Returns an order running on the machine if one exists; `None` means no order runs on it. |
| Assignment.FindOldestWaiting | src/main/java/com/hm/mes_final_260106/service/ProductionService.java:64 | Returns the waiting order with the smallest id; `None` means no order is waiting. |
| WorkOrders.Bind | src/main/java/com/hm/mes_final_260106/service/ProductionService.java:71-72 | The bound order is IN_PROGRESS on the machine. Its id, product, target and quantity are kept. |
| Assignment.Assign | src/main/java/com/hm/mes_final_260106/service/ProductionService.java:59-77 | If the machine runs an order, that order is returned and nothing changes. Otherwise, if the oldest waiting order exists and passes the availability check, exactly that order is bound to the machine and returned, and no other order changes. Otherwise nothing is returned and nothing changes. |
| Assignment.AssignReturnsRunningOrder | src/main/java/com/hm/mes_final_260106/service/ProductionService.java:61 | With one running order per machine, a machine running order `id` gets exactly that order back, and the orders are unchanged. |
| Assignment.AssignKeepsOneOrderPerMachine | src/main/java/com/hm/mes_final_260106/service/ProductionService.java:59-77 | Assignment never leaves two orders running on one machine. |
| Assignment.AssignTwiceSameOrder | src/main/java/com/hm/mes_final_260106/service/ProductionService.java:59-77 | Polling again after a successful assignment returns the same order and changes nothing (idempotent re-poll). |
| Assignment.AssignNeverRegresses | src/main/java/com/hm/mes_final_260106/service/ProductionService.java:71-72 | No order's status moves backwards, and a completed order is left untouched. |
| Production.AssignKeepsConsistent | src/main/java/com/hm/mes_final_260106/service/ProductionService.java:59-77 | An assignment keeps the store invariant. |
| Service.ProductionService.AssignWorkToMachine | src/main/java/com/hm/mes_final_260106/service/ProductionService.java:59-77 | The returned order and the new order table are exactly `Assign` of the old table, and the invariant is kept. |
| Inventory.Backflush | src/main/java/com/hm/mes_final_260106/service/ProductionService.java:113-128 | On success the same materials remain, only stocks change, and materials the lines do not name are untouched. A failure names a material used by the lines. |
| Inventory.RunBackflush | src/main/java/com/hm/mes_final_260106/service/ProductionService.java:113-128 | The decrementing loop, run on a working copy, returns exactly `Backflush` of the caller's table. |
| Inventory.BackflushSucceedsIff | src/main/java/com/hm/mes_final_260106/service/ProductionService.java:113-128 | With non-negative quantities, the backflush succeeds if and only if every material named has at least its total demand over all lines. |
| Inventory.BackflushTakesDemand | src/main/java/com/hm/mes_final_260106/service/ProductionService.java:113-128 | A successful backflush lowers each material's stock by exactly its total demand over the lines. |
| Inventory.BackflushShortageNamesShortMaterial | src/main/java/com/hm/mes_final_260106/service/ProductionService.java:119-123 | A shortage names a material whose stock is below its total demand. |
| Inventory.BackflushKeepsStockNonNegative | src/main/java/com/hm/mes_final_260106/service/ProductionService.java:119-126 | Every material a successful backflush touched ends at stock 0 or more, so a table without negative stock keeps none. |
| Inventory.BackflushedWasAvailable | src/main/java/com/hm/mes_final_260106/service/ProductionService.java:155-166 | With non-negative quantities, a bill of materials that can be backflushed passes the availability check. |
| Inventory.AvailableIffBackflushWhenDistinct | src/main/java/com/hm/mes_final_260106/service/ProductionService.java:155-166 | When no two lines share a material, the availability check passes if and only if the backflush succeeds, whatever the sign of the quantities. |
| Inventory.AvailableYetShort | src/main/java/com/hm/mes_final_260106/service/ProductionService.java:116-122 | Two lines of 2 bolts against a stock of 2: the availability check passes, but the backflush fails naming "Bolt". |
| ProductionLogs.LogFor | src/main/java/com/hm/mes_final_260106/service/ProductionService.java:99-107 | The record carries a defect code only for an "NG" result, and never an operator. |
| WorkOrders.Advance | src/main/java/com/hm/mes_final_260106/service/ProductionService.java:132-133 | Only the quantity and status change. Below the int maximum, the quantity rises by one. The status becomes COMPLETED exactly when the new quantity reaches the target (or it already was COMPLETED); otherwise it is kept. |
| WorkOrders.AdvanceKeepsWithinTarget | src/main/java/com/hm/mes_final_260106/service/ProductionService.java:132-133 | An open order with a positive target stays within [0, target] and is completed exactly at the target. |
| WorkOrders.AdvanceCounts | src/main/java/com/hm/mes_final_260106/service/ProductionService.java:132-133 | From quantity 0 with a positive target, k reports give quantity k, and the order completes exactly at the target-th report. |
| Production.Report | src/main/java/com/hm/mes_final_260106/service/ProductionService.java:80-136 | An unknown order is an error and the store is unchanged. A COMPLETED order is a silent no-op. Any error leaves the store unchanged, and a shortage only happens for "OK". Any change appends exactly the unit's log record and advances the order. A result other than "OK" touches no stock. |
| Production.ReportOnOpenOrder | src/main/java/com/hm/mes_final_260106/service/ProductionService.java:96-133 | On an open order, the report succeeds if and only if the result is not "OK" or every material has its total demand. On success: one record is appended with the order's product, the machine, serial number and result, and the defect code only for "NG". An "OK" unit takes each material's demand and any other result takes nothing. The quantity rises by one and the order completes exactly at the target. Other orders are unchanged. |
| Production.ShortageRollsBack | src/main/java/com/hm/mes_final_260106/service/ProductionService.java:80-123 | A shortage leaves the whole store exactly as before, and names a material whose stock is below the unit's demand. |
| Production.ReportKeepsConsistent | src/main/java/com/hm/mes_final_260106/service/ProductionService.java:80-136 | A report keeps the store invariant: one running order per machine, orders within target, and records referring to existing orders. |
| Production.ReportKeepsStockNonNegative | src/main/java/com/hm/mes_final_260106/service/ProductionService.java:113-128 | With non-negative BOM quantities, a report never drives any stock below zero. |
| Production.ReportNeverRegresses | src/main/java/com/hm/mes_final_260106/service/ProductionService.java:96-133 | No order's status moves backwards, and a completed order is never changed again. |
| Production.ReceiveKeepsConsistent | src/main/java/com/hm/mes_final_260106/service/ProductionService.java:30-41 | A receipt keeps the store invariant. |
| Service.ProductionService.ReportProduction | src/main/java/com/hm/mes_final_260106/service/ProductionService.java:80-136 | The returned error and the tables afterwards are exactly `Report` of the old tables. The log record and stock changes are committed only after the backflush succeeds. The invariant is kept. |
| Service.ProductionService.constructor | src/main/java/com/hm/mes_final_260106/service/ProductionService.java:21-26 | A service over given material and BOM tables starts with no orders and no records, and satisfies the invariant. |
| ProductionLogs.Latest | src/main/java/com/hm/mes_final_260106/service/ProductionService.java:170 | The newest k records, newest first, each shown with its id. |
| ProductionLogs.RecentLogs | src/main/java/com/hm/mes_final_260106/service/ProductionService.java:169-180 | At most 15 rows, in descending id order, showing the newest records. Each row has the record's serial number, result, machine and time, and the operator's name or "시스템" when there is none. |
| Scenario.GoodWidget | src/main/java/com/hm/mes_final_260106/service/ProductionService.java:80-136 | In the bolt/widget run, each good unit takes two bolts, appends one record and advances the order by one; the fifth completes it. |
| Scenario.BoltWidgetSetup | src/main/java/com/hm/mes_final_260106/service/ProductionService.java:30-77 | Receiving 10 bolts, creating an order for 5 widgets and assigning machine M1 leaves that order IN_PROGRESS on M1 with 10 bolts in stock. |
| Scenario.BoltWidgetRun | src/main/java/com/hm/mes_final_260106/service/ProductionService.java:80-136 | Five good reports succeed and leave 0 bolts, the order COMPLETED at quantity 5 and five records. A sixth report is a no-op. |

## Left out

- Operator lookup (ProductionService.java:83-90): the security context and member repository are outside the model, and the operator found never reaches the log record, so it has no effect on state.
- `generateSerial` (ProductionService.java:139-141): it draws a random UUID and nothing calls it.
- The clock (`LocalDateTime.now()`, line 106) is a `producedAt` parameter of the report.
- `log.info`, `log.warn` and `log.error` calls: logging only, with no effect on state.
- `getAllWorkOrders` and `getMaterialStock` (lines 144-152): plain listings of a table with no logic of their own. The tables are the fields of the class.
- Log ids are modelled as 1-based positions in the log sequence. A database sequence may skip ids consumed by rolled-back inserts; the model does not capture such gaps.
- Concurrency and transaction isolation between callers: each call is one atomic step on a single state.
- Null strings and a null `orderId`: the model's strings are always present.
- Failures of the storage layer other than those the service raises itself (for example, a repository query returning more than one running order for a machine, which the `Consistent` invariant rules out).
- Entity classes, `WebSecurityConfig`, `MesController`, `RecentLogDto` and `ProductionLogRepository` are not part of this model beyond the fields and queries the service uses.
- The exceptions raised for an unknown order and for a shortage are modelled as the `ReportError` values `OrderNotFound` and `MaterialShortage` returned by the report. The message text is not modelled; the shortage keeps the material's name.
- Inventory.BackflushSucceedsIff, Inventory.BackflushTakesDemand, Inventory.BackflushShortageNamesShortMaterial, Inventory.BackflushKeepsStockNonNegative and Inventory.BackflushedWasAvailable assume non-negative BOM quantities. A negative quantity adds stock in the code, so the total-demand characterisation then does not hold. A negative line followed by a positive one on the same material can also backflush although the positive line alone fails the availability check.
- Production.ReportOnOpenOrder, Production.ShortageRollsBack and Production.ReportKeepsStockNonNegative assume non-negative BOM quantities (`NonNegativeBoms`), for the same reason.
- WorkOrders.AdvanceKeepsWithinTarget and WorkOrders.AdvanceCounts speak only of orders with a positive target. With a target of 0 or less, the first report completes the order at quantity 1, above its target.
