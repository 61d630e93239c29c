/**
 * The service's persistent state and its operations as functions of that
 * state: order creation and the production-report transaction (receipts
 * live in Inventory, assignment in Assignment).
 */
module Production {
  import opened JavaInt
  import opened Wrappers
  import opened Inventory
  import opened WorkOrders
  import opened Assignment
  import opened ProductionLogs

  /** Everything the service writes; the BOM table is read-only reference data. */
  datatype Store = Store(materials: Stock, orders: Orders, nextOrderId: nat, logs: seq<ProductionLog>)

  /**
   * The invariant of the store: materials under their codes, BOM lines that
   * refer to existing materials, orders under their ids with ids below the
   * counter, at most one running order per machine, each order within its
   * target and bound to a machine exactly when running, and every log record
   * referring to an existing order and carrying no operator.
   */
  ghost predicate Consistent(s: Store, boms: Boms) {
    WellKeyed(s.materials) && BomsCovered(s.materials, boms) &&
    Numbered(s.orders, s.nextOrderId) && OneOrderPerMachine(s.orders) &&
    (forall id :: id in s.orders ==> WithinTarget(s.orders[id]) && MachineBinding(s.orders[id])) &&
    (forall i :: 0 <= i < |s.logs| ==> s.logs[i].orderId in s.orders && s.logs[i].operator == None)
  }

  // ---------------------------------------------------------------------
  // Order creation (createWorkOrder)
  // ---------------------------------------------------------------------

  /** Stores a new waiting order under the next id. There is no check on `targetQty`. */
  function CreateOrder(s: Store, productCode: string, targetQty: int32): Store {
    s.(orders := s.orders[s.nextOrderId := NewOrder(s.nextOrderId, productCode, targetQty)],
       nextOrderId := s.nextOrderId + 1)
  }

  /**
   * A created order is waiting, has produced nothing, has the requested
   * product and target, and has an id above every existing one (so it is
   * the newest); existing orders are untouched and the invariant holds.
   */
  lemma CreateOrderAddsNewest(s: Store, boms: Boms, productCode: string, targetQty: int32)
    requires Consistent(s, boms)
    ensures var r := CreateOrder(s, productCode, targetQty);
      var id := s.nextOrderId;
      id !in s.orders && (forall k :: k in s.orders ==> k < id) &&
      r.orders.Keys == s.orders.Keys + {id} &&
      (forall k :: k in s.orders ==> r.orders[k] == s.orders[k]) &&
      r.orders[id].status == Waiting && r.orders[id].currentQty == 0 &&
      r.orders[id].productCode == productCode && r.orders[id].targetQty == targetQty &&
      r.orders[id].assignedMachineId == None &&
      r.materials == s.materials && r.logs == s.logs &&
      Consistent(r, boms)
  {
    var r := CreateOrder(s, productCode, targetQty);
    var id := s.nextOrderId;
    forall a, b, m | a in r.orders && b in r.orders && RunningOn(r.orders[a], m) && RunningOn(r.orders[b], m)
      ensures a == b
    {
      assert a != id && b != id;
      assert RunningOn(s.orders[a], m) && RunningOn(s.orders[b], m);
    }
  }

  // ---------------------------------------------------------------------
  // Receipt and assignment on the whole store
  // ---------------------------------------------------------------------

  /** A receipt keeps the invariant. */
  lemma ReceiveKeepsConsistent(s: Store, boms: Boms, code: string, name: string, amount: int32)
    requires Consistent(s, boms)
    ensures Consistent(s.(materials := Receive(s.materials, code, name, amount)), boms)
  {
    var m := Receive(s.materials, code, name, amount);
    forall p | p in boms ensures Covers(m, boms[p]) {
      assert Covers(s.materials, boms[p]);
    }
  }

  /** An assignment keeps the invariant. */
  lemma AssignKeepsConsistent(s: Store, boms: Boms, machineId: string)
    requires Consistent(s, boms)
    ensures Consistent(s.(orders := Assign(s.orders, s.nextOrderId, s.materials, boms, machineId).orders), boms)
  {
    AssignKeepsOneOrderPerMachine(s.orders, s.nextOrderId, s.materials, boms, machineId);
  }

  // ---------------------------------------------------------------------
  // The production report transaction (reportProduction)
  // ---------------------------------------------------------------------

  datatype ReportError =
    | OrderNotFound(orderId: nat)
    | MaterialShortage(materialName: string)

  /** The outcome of a report (no error covers the silent no-op) and the store afterwards. */
  datatype Reported = Reported(error: Option<ReportError>, store: Store)

  /**
   * One unit reported against an order. An unknown order is an error; a
   * completed order makes the call a no-op. Otherwise a log record is
   * written; an "OK" unit backflushes the product's BOM lines, and a
   * shortage aborts the whole transaction, so the record and any stock
   * already taken are discarded; finally the order advances by one unit.
   */
  function Report(s: Store, boms: Boms, report: UnitReport): (r: Reported)
    requires BomsCovered(s.materials, boms)
    ensures report.orderId !in s.orders ==> r == Reported(Some(OrderNotFound(report.orderId)), s)
    ensures report.orderId in s.orders && s.orders[report.orderId].status == Completed ==> r == Reported(None, s)
    ensures r.error.Some? ==> r.store == s
    ensures r.error.Some? && r.error.value.MaterialShortage? ==> report.result == "OK"
    ensures r.store.nextOrderId == s.nextOrderId && r.store.orders.Keys == s.orders.Keys
    ensures r.store.materials.Keys == s.materials.Keys
    ensures r.store != s ==>
      report.orderId in s.orders && s.orders[report.orderId].status != Completed && r.error == None &&
      r.store.logs == s.logs + [LogFor(s.orders[report.orderId], report)] &&
      r.store.orders == s.orders[report.orderId := Advance(s.orders[report.orderId])]
    ensures report.result != "OK" ==> r.store.materials == s.materials
  {
    if report.orderId !in s.orders then Reported(Some(OrderNotFound(report.orderId)), s)
    else
      var order := s.orders[report.orderId];
      if order.status == Completed then Reported(None, s)
      else
        var entry := LogFor(order, report);
        var consumed := if report.result == "OK" then Backflush(s.materials, BomOf(boms, order.productCode)) else Ok(s.materials);
        match consumed
        case Err(name) => Reported(Some(MaterialShortage(name)), s)
        case Ok(stock) =>
          Reported(None, s.(materials := stock, orders := s.orders[report.orderId := Advance(order)], logs := s.logs + [entry]))
  }

  /** The BOM quantities of every product are non-negative. */
  predicate NonNegativeBoms(boms: Boms) {
    forall p :: p in boms ==> NonNegativeLines(boms[p])
  }

  /**
   * For an open order and non-negative BOM quantities: the report succeeds
   * unless it is "OK" and some material holds less than the unit's total
   * demand for it. On success exactly one record is appended, with the
   * order's product, the machine, serial number and result, and the defect
   * code only for "NG"; an "OK" unit takes each material's total demand and
   * any other result touches no stock; the quantity rises by one (below the
   * int maximum) and the order completes exactly when it reaches the target.
   */
  lemma ReportOnOpenOrder(s: Store, boms: Boms, report: UnitReport)
    requires BomsCovered(s.materials, boms) && NonNegativeBoms(boms) && Numbered(s.orders, s.nextOrderId)
    requires report.orderId in s.orders && s.orders[report.orderId].status != Completed
    ensures var order := s.orders[report.orderId];
      var lines := BomOf(boms, order.productCode);
      var r := Report(s, boms, report);
      (r.error == None <==> (report.result != "OK" || Sufficient(s.materials, lines))) &&
      (r.error == None ==>
        |r.store.logs| == |s.logs| + 1 && r.store.logs[..|s.logs|] == s.logs &&
        r.store.logs[|s.logs|].orderId == report.orderId &&
        r.store.logs[|s.logs|].productCode == order.productCode &&
        r.store.logs[|s.logs|].machineId == report.machineId &&
        r.store.logs[|s.logs|].serialNo == report.serialNo &&
        r.store.logs[|s.logs|].result == report.result &&
        r.store.logs[|s.logs|].defectCode == (if report.result == "NG" then report.defectCode else None) &&
        r.store.materials.Keys == s.materials.Keys &&
        (forall c :: c in s.materials ==>
          r.store.materials[c].currentStock ==
            s.materials[c].currentStock - (if report.result == "OK" then Demand(lines, c) else 0)) &&
        (order.currentQty < MAX ==> r.store.orders[report.orderId].currentQty == order.currentQty + 1) &&
        (r.store.orders[report.orderId].status == Completed <==>
          r.store.orders[report.orderId].currentQty >= order.targetQty) &&
        (forall id :: id in s.orders && id != report.orderId ==> r.store.orders[id] == s.orders[id]))
  {
    var order := s.orders[report.orderId];
    var lines := BomOf(boms, order.productCode);
    assert NonNegativeLines(lines);
    if report.result == "OK" {
      BackflushSucceedsIff(s.materials, lines);
      if Sufficient(s.materials, lines) {
        BackflushTakesDemand(s.materials, lines);
      }
    }
  }

  /**
   * A shortage leaves the store exactly as it was (no record, no stock
   * taken, no progress), and with non-negative BOM quantities the material
   * it names holds less than the unit's total demand for it.
   */
  lemma ShortageRollsBack(s: Store, boms: Boms, report: UnitReport)
    requires BomsCovered(s.materials, boms) && NonNegativeBoms(boms)
    requires Report(s, boms, report).error.Some? && Report(s, boms, report).error.value.MaterialShortage?
    ensures Report(s, boms, report).store == s
    ensures var lines := BomOf(boms, s.orders[report.orderId].productCode);
      exists c :: c in s.materials && c in Codes(lines) &&
        s.materials[c].currentStock < Demand(lines, c) &&
        Report(s, boms, report).error.value.materialName == s.materials[c].name
  {
    var lines := BomOf(boms, s.orders[report.orderId].productCode);
    assert NonNegativeLines(lines);
    BackflushShortageNamesShortMaterial(s.materials, lines);
  }

  /** A report keeps the invariant. */
  lemma ReportKeepsConsistent(s: Store, boms: Boms, report: UnitReport)
    requires Consistent(s, boms)
    ensures Consistent(Report(s, boms, report).store, boms)
  {
    var r := Report(s, boms, report).store;
    if r != s {
      var id := report.orderId;
      var order := s.orders[id];
      AdvanceKeepsWithinTarget(order);
      forall p | p in boms ensures Covers(r.materials, boms[p]) {
        assert Covers(s.materials, boms[p]);
      }
      forall a, b, m | a in r.orders && b in r.orders && RunningOn(r.orders[a], m) && RunningOn(r.orders[b], m)
        ensures a == b
      {
        assert RunningOn(s.orders[a], m) && RunningOn(s.orders[b], m);
      }
      forall i | 0 <= i < |r.logs| ensures r.logs[i].orderId in r.orders && r.logs[i].operator == None {
        if i < |s.logs| { assert r.logs[i] == s.logs[i]; }
      }
    }
  }

  /**
   * With non-negative BOM quantities, a report never drives a stock below
   * zero: a store with no negative stock keeps none.
   */
  lemma ReportKeepsStockNonNegative(s: Store, boms: Boms, report: UnitReport)
    requires BomsCovered(s.materials, boms) && NonNegativeBoms(boms)
    requires NonNegativeStock(s.materials)
    ensures NonNegativeStock(Report(s, boms, report).store.materials)
  {
    var r := Report(s, boms, report);
    if r.store != s && report.result == "OK" {
      var lines := BomOf(boms, s.orders[report.orderId].productCode);
      assert NonNegativeLines(lines);
      BackflushKeepsStockNonNegative(s.materials, lines);
    }
  }

  /** A report moves no order backwards and changes no completed order. */
  lemma ReportNeverRegresses(s: Store, boms: Boms, report: UnitReport)
    requires BomsCovered(s.materials, boms)
    ensures var r := Report(s, boms, report).store;
      forall id :: id in s.orders ==>
        Rank(r.orders[id].status) >= Rank(s.orders[id].status) &&
        (s.orders[id].status == Completed ==> r.orders[id] == s.orders[id])
  {
  }
}
