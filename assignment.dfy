/**
 * The assignment selector (`assignWorkToMachine`): a machine that is
 * already running an order gets that order back; otherwise the oldest
 * waiting order is bound to it, provided its BOM passes the availability
 * check.
 */
module Assignment {
  import opened Wrappers
  import opened Inventory
  import opened WorkOrders

  type Orders = map<nat, WorkOrder>

  /**
   * Every order is stored under its own id, and every id is below `bound`
   * (ids are handed out from a counter).
   */
  predicate Numbered(orders: Orders, bound: nat) {
    forall id :: id in orders ==> orders[id].id == id && id < bound
  }

  /** No machine runs two orders. */
  ghost predicate OneOrderPerMachine(orders: Orders) {
    forall a, b, m :: a in orders && b in orders && RunningOn(orders[a], m) && RunningOn(orders[b], m) ==> a == b
  }

  /** `id` is the waiting order with the smallest id. */
  predicate OldestWaiting(orders: Orders, id: nat) {
    id in orders && orders[id].status == Waiting &&
    forall k :: k in orders && k < id ==> orders[k].status != Waiting
  }

  /**
   * The order running on `machineId` among the ids below `bound`: the
   * repository query by status IN_PROGRESS and assigned machine.
   */
  function FindRunning(orders: Orders, machineId: string, bound: nat): (r: Option<nat>)
    ensures r.Some? ==> r.value < bound && r.value in orders && RunningOn(orders[r.value], machineId)
    ensures r.None? ==> forall id :: id in orders && id < bound ==> !RunningOn(orders[id], machineId)
    decreases bound
  {
    if bound == 0 then None
    else if bound - 1 in orders && RunningOn(orders[bound - 1], machineId) then Some(bound - 1)
    else FindRunning(orders, machineId, bound - 1)
  }

  /**
   * The waiting order with the smallest id below `bound`: the repository
   * query for the first WAITING order by ascending id.
   */
  function FindOldestWaiting(orders: Orders, bound: nat): (r: Option<nat>)
    ensures r.Some? ==> r.value < bound && OldestWaiting(orders, r.value)
    ensures r.None? ==> forall id :: id in orders && id < bound ==> orders[id].status != Waiting
    decreases bound
  {
    if bound == 0 then None
    else match FindOldestWaiting(orders, bound - 1)
      case Some(id) => Some(id)
      case None =>
        if bound - 1 in orders && orders[bound - 1].status == Waiting then Some(bound - 1) else None
  }

  /** What an assignment request returns, and the orders afterwards. */
  datatype Assigned = Assigned(order: Option<WorkOrder>, orders: Orders)

  /**
   * The assignment decision for `machineId`.
   * - A machine already running an order gets it back, and nothing changes.
   * - Otherwise the oldest waiting order is the only candidate: if there is
   *   none, or one of its BOM lines is short, nothing is returned and
   *   nothing changes; else exactly that order is bound to the machine.
   */
  function Assign(orders: Orders, bound: nat, materials: Stock, boms: Boms, machineId: string): (r: Assigned)
    requires Numbered(orders, bound) && BomsCovered(materials, boms)
    ensures r.orders.Keys == orders.Keys
    ensures (exists id :: id in orders && RunningOn(orders[id], machineId)) ==>
      r.orders == orders && r.order.Some? && r.order.value.id in orders &&
      r.order.value == orders[r.order.value.id] && RunningOn(r.order.value, machineId)
    ensures (forall id :: id in orders ==> !RunningOn(orders[id], machineId)) ==>
      if exists id :: OldestWaiting(orders, id) && Available(materials, BomOf(boms, orders[id].productCode))
      then exists id :: (OldestWaiting(orders, id) &&
        r.order == Some(Bind(orders[id], machineId)) && r.orders == orders[id := Bind(orders[id], machineId)])
      else r == Assigned(None, orders)
  {
    match FindRunning(orders, machineId, bound)
    case Some(id) => Assigned(Some(orders[id]), orders)
    case None =>
      match FindOldestWaiting(orders, bound)
      case None => Assigned(None, orders)
      case Some(id) =>
        if !Available(materials, BomOf(boms, orders[id].productCode)) then Assigned(None, orders)
        else
          var running := Bind(orders[id], machineId);
          Assigned(Some(running), orders[id := running])
  }

  /** With one order per machine, a machine that runs order `id` gets exactly `id` back. */
  lemma AssignReturnsRunningOrder(orders: Orders, bound: nat, materials: Stock, boms: Boms, machineId: string, id: nat)
    requires Numbered(orders, bound) && BomsCovered(materials, boms)
    requires OneOrderPerMachine(orders)
    requires id in orders && RunningOn(orders[id], machineId)
    ensures Assign(orders, bound, materials, boms, machineId) == Assigned(Some(orders[id]), orders)
  {
  }

  /** Assignment keeps at most one running order per machine. */
  lemma AssignKeepsOneOrderPerMachine(orders: Orders, bound: nat, materials: Stock, boms: Boms, machineId: string)
    requires Numbered(orders, bound) && BomsCovered(materials, boms)
    requires OneOrderPerMachine(orders)
    ensures OneOrderPerMachine(Assign(orders, bound, materials, boms, machineId).orders)
  {
    var r := Assign(orders, bound, materials, boms, machineId);
    if r.orders != orders {
      var id := FindOldestWaiting(orders, bound).value;
      assert r.orders == orders[id := Bind(orders[id], machineId)];
      forall a, b, m | a in r.orders && b in r.orders && RunningOn(r.orders[a], m) && RunningOn(r.orders[b], m)
        ensures a == b
      {
        if a != id && b != id {
          assert RunningOn(orders[a], m) && RunningOn(orders[b], m);
        }
      }
    }
  }

  /**
   * Asking again without any report in between returns the same order and
   * changes nothing (an idempotent re-poll).
   */
  lemma AssignTwiceSameOrder(orders: Orders, bound: nat, materials: Stock, boms: Boms, machineId: string)
    requires Numbered(orders, bound) && BomsCovered(materials, boms)
    requires OneOrderPerMachine(orders)
    requires Assign(orders, bound, materials, boms, machineId).order.Some?
    ensures var first := Assign(orders, bound, materials, boms, machineId);
      Assign(first.orders, bound, materials, boms, machineId) == first
  {
    var first := Assign(orders, bound, materials, boms, machineId);
    AssignKeepsOneOrderPerMachine(orders, bound, materials, boms, machineId);
    var id := first.order.value.id;
    assert first.orders[id] == first.order.value;
    AssignReturnsRunningOrder(first.orders, bound, materials, boms, machineId, id);
  }

  /** Assignment moves no order backwards and changes no completed order. */
  lemma AssignNeverRegresses(orders: Orders, bound: nat, materials: Stock, boms: Boms, machineId: string)
    requires Numbered(orders, bound) && BomsCovered(materials, boms)
    ensures var r := Assign(orders, bound, materials, boms, machineId);
      forall id :: id in orders ==>
        Rank(r.orders[id].status) >= Rank(orders[id].status) &&
        (orders[id].status == Completed ==> r.orders[id] == orders[id])
  {
  }
}
