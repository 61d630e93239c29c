/**
 * The work-order lifecycle: WAITING -> IN_PROGRESS -> COMPLETED, per-unit
 * progress and completion detection.
 */
module WorkOrders {
  import opened JavaInt
  import opened Wrappers

  datatype Status = Waiting | InProgress | Completed

  /** Position of a status along the lifecycle. */
  function Rank(s: Status): nat {
    match s
    case Waiting => 0
    case InProgress => 1
    case Completed => 2
  }

  /** A production order; `id` is assigned by the store, in creation order. */
  datatype WorkOrder = WorkOrder(
    id: nat,
    productCode: string,
    targetQty: int32,
    currentQty: int32,
    status: Status,
    assignedMachineId: Option<string>)

  /** The order is running on machine `machineId`. */
  predicate RunningOn(o: WorkOrder, machineId: string) {
    o.status == InProgress && o.assignedMachineId == Some(machineId)
  }

  /**
   * A waiting order has no machine; an order in progress has one. (A
   * completed order may have either: a report does not require the order
   * to have been assigned.)
   */
  predicate MachineBinding(o: WorkOrder) {
    (o.status == Waiting ==> o.assignedMachineId == None) &&
    (o.status == InProgress ==> o.assignedMachineId.Some?)
  }

  /** A fresh order as createWorkOrder builds it: waiting, nothing produced, no machine. */
  function NewOrder(id: nat, productCode: string, targetQty: int32): (o: WorkOrder)
    ensures WithinTarget(o) && MachineBinding(o)
  {
    WorkOrder(id, productCode, targetQty, 0, Waiting, None)
  }

  /** Binds a waiting order to a machine (the two setters of assignWorkToMachine). */
  function Bind(o: WorkOrder, machineId: string): (r: WorkOrder)
    ensures RunningOn(r, machineId)
    ensures r.id == o.id && r.productCode == o.productCode
    ensures r.targetQty == o.targetQty && r.currentQty == o.currentQty
  {
    o.(status := InProgress, assignedMachineId := Some(machineId))
  }

  /**
   * One more unit produced: the quantity goes up by one (wrapping as a Java
   * `int`), and the order completes once the quantity reaches the target.
   */
  function Advance(o: WorkOrder): (r: WorkOrder)
    ensures r == o.(currentQty := r.currentQty, status := r.status)
    ensures o.currentQty < MAX ==> r.currentQty == o.currentQty + 1
    ensures r.status == Completed <==> (r.currentQty >= o.targetQty || o.status == Completed)
    ensures r.status != Completed ==> r.status == o.status
    ensures Rank(r.status) >= Rank(o.status)
  {
    var qty := Wrap(o.currentQty + 1);
    o.(currentQty := qty, status := if qty >= o.targetQty then Completed else o.status)
  }

  /**
   * The quantity bound of an order with a positive target: the quantity
   * stays within [0, target], and the order is completed exactly when the
   * target is reached.
   */
  predicate WithinTarget(o: WorkOrder) {
    o.targetQty >= 1 ==>
      0 <= o.currentQty <= o.targetQty && (o.status == Completed <==> o.currentQty == o.targetQty)
  }

  /** Advancing an order that is not yet completed keeps it within its target. */
  lemma AdvanceKeepsWithinTarget(o: WorkOrder)
    requires WithinTarget(o) && o.status != Completed
    ensures WithinTarget(Advance(o))
  {
  }

  /** `k` reports in a row against the same order. */
  function AdvanceTimes(o: WorkOrder, k: nat): WorkOrder {
    if k == 0 then o else Advance(AdvanceTimes(o, k - 1))
  }

  /**
   * An order that starts at quantity 0 with a positive target reaches
   * quantity k after k reports, and completes exactly at the target-th one.
   */
  lemma {:induction false} AdvanceCounts(o: WorkOrder, k: nat)
    requires o.targetQty >= 1 && o.currentQty == 0 && o.status != Completed
    requires k <= o.targetQty
    ensures AdvanceTimes(o, k).currentQty == k
    ensures AdvanceTimes(o, k).status == (if k == o.targetQty then Completed else o.status)
    ensures AdvanceTimes(o, k) == o.(currentQty := k, status := AdvanceTimes(o, k).status)
  {
    if k > 0 {
      AdvanceCounts(o, k - 1);
    }
  }
}
