/**
 * The production service as an object: the tables it works on are fields,
 * and each operation updates them in place, as the service's entities are
 * updated within one transaction.
 */
module Service {
  import opened JavaInt
  import opened Wrappers
  import opened Inventory
  import opened WorkOrders
  import opened Assignment
  import opened ProductionLogs
  import opened Production

  class ProductionService {
    var materials: Stock
    /** The BOM table, reference data the service only reads. */
    const boms: Boms
    var orders: Orders
    /** The id the next created order receives. */
    var nextOrderId: nat
    var logs: seq<ProductionLog>

    /** The tables as one value. */
    function State(): Store
      reads this
    {
      Store(materials, orders, nextOrderId, logs)
    }

    ghost predicate Valid()
      reads this
    {
      Consistent(State(), boms)
    }

    /** A service over the given material and BOM tables, with no orders and no log records. */
    constructor (materials: Stock, boms: Boms)
      requires WellKeyed(materials) && BomsCovered(materials, boms)
      ensures Valid()
      ensures State() == Store(materials, map[], 1, []) && this.boms == boms
    {
      this.materials := materials;
      this.boms := boms;
      this.orders := map[];
      this.nextOrderId := 1;
      this.logs := [];
    }

    /** inboundMaterial: find or create the material, then add `amount` to its stock. */
    method InboundMaterial(code: string, name: string, amount: int32) returns (material: Material)
      requires Valid()
      modifies this`materials
      ensures Valid()
      ensures materials == Receive(old(materials), code, name, amount)
      ensures code in materials && material == materials[code]
    {
      var found := if code in materials then materials[code] else Material(code, name, 0);
      found := found.(currentStock := Wrap(found.currentStock + amount));
      materials := materials[code := found];
      material := found;
      ReceiveKeepsConsistent(old(State()), boms, code, name, amount);
    }

    /** createWorkOrder: a new waiting order under the next id. */
    method CreateWorkOrder(productCode: string, targetQty: int32) returns (order: WorkOrder)
      requires Valid()
      modifies this`orders, this`nextOrderId
      ensures Valid()
      ensures State() == CreateOrder(old(State()), productCode, targetQty)
      ensures order.id == old(nextOrderId) && order.id !in old(orders) && orders[order.id] == order
      ensures order.status == Waiting && order.currentQty == 0 && order.assignedMachineId == None
      ensures order.productCode == productCode && order.targetQty == targetQty
      ensures forall id :: id in old(orders) ==> id < order.id && orders[id] == old(orders)[id]
    {
      CreateOrderAddsNewest(State(), boms, productCode, targetQty);
      order := WorkOrder(nextOrderId, productCode, targetQty, 0, Waiting, None);
      orders := orders[nextOrderId := order];
      nextOrderId := nextOrderId + 1;
    }

    /**
     * assignWorkToMachine: the order the machine is already running, else the
     * oldest waiting order bound to the machine if its materials are
     * available, else nothing.
     */
    method AssignWorkToMachine(machineId: string) returns (order: Option<WorkOrder>)
      requires Valid()
      modifies this`orders
      ensures Valid()
      ensures Assigned(order, orders) == Assign(old(orders), nextOrderId, materials, boms, machineId)
    {
      var running := FindRunning(orders, machineId, nextOrderId);
      if running.Some? {
        return Some(orders[running.value]);
      }
      var waiting := FindOldestWaiting(orders, nextOrderId);
      if waiting.None? {
        return None;
      }
      var candidate := orders[waiting.value];
      if !Available(materials, BomOf(boms, candidate.productCode)) {
        return None;
      }
      AssignKeepsConsistent(State(), boms, machineId);
      candidate := candidate.(status := InProgress, assignedMachineId := Some(machineId));
      orders := orders[candidate.id := candidate];
      order := Some(candidate);
    }

    /**
     * reportProduction: one unit of `orderId`. The log record and the stock
     * changes are held back until the backflush has succeeded, so a shortage
     * returns with nothing written, as the transaction's rollback leaves it.
     */
    method ReportProduction(orderId: nat, machineId: string, result: string, defectCode: Option<string>,
                            serialNo: string, producedAt: Timestamp)
      returns (error: Option<ReportError>)
      requires Valid()
      modifies this`materials, this`orders, this`logs
      ensures Valid()
      ensures Reported(error, State()) ==
        Report(old(State()), boms, UnitReport(orderId, machineId, result, defectCode, serialNo, producedAt))
    {
      var report := UnitReport(orderId, machineId, result, defectCode, serialNo, producedAt);
      ghost var expected := Report(State(), boms, report);
      ReportKeepsConsistent(State(), boms, report);
      if orderId !in orders {
        return Some(OrderNotFound(orderId));
      }
      var order := orders[orderId];
      if order.status == Completed {
        return None;
      }
      var entry := LogFor(order, report);
      var stock := materials;
      if result == "OK" {
        var consumed := RunBackflush(materials, BomOf(boms, order.productCode));
        if consumed.Err? {
          assert expected == Reported(Some(MaterialShortage(consumed.error)), State());
          return Some(MaterialShortage(consumed.error));
        }
        stock := consumed.value;
      }
      var qty := Wrap(order.currentQty + 1);
      var advanced := order.(currentQty := qty, status := if qty >= order.targetQty then Completed else order.status);
      assert advanced == Advance(order);
      assert expected == Reported(None, Store(stock, orders[orderId := advanced], nextOrderId, logs + [entry]));
      logs := logs + [entry];
      materials := stock;
      orders := orders[orderId := advanced];
      error := None;
    }
  }
}
