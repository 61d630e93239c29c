/**
 * A worked run of the service: 10 bolts are received, a widget needs 2
 * bolts, an order for 5 widgets is created and assigned to machine M1, and
 * five good units are reported.
 */
module Scenario {
  import opened Wrappers
  import opened Inventory
  import opened WorkOrders
  import opened Assignment
  import opened ProductionLogs
  import opened Production

  const WIDGET_BOMS: Boms := map["WIDGET" := [BomLine("BOLT", 2)]]

  function Bolts(n: int): Stock
    requires 0 <= n <= 10
  {
    map["BOLT" := Material("BOLT", "Bolt", n)]
  }

  function WidgetOrder(qty: int, status: Status): Orders
    requires 0 <= qty <= 5
  {
    map[1 := WorkOrder(1, "WIDGET", 5, qty, status, Some("M1"))]
  }

  const SERIALS: seq<string> := ["W-1", "W-2", "W-3", "W-4", "W-5", "W-6"]

  /** The good-unit report for the widget numbered `unit` (from 0). */
  function Good(unit: nat): UnitReport
    requires unit < |SERIALS|
  {
    UnitReport(1, "M1", "OK", None, SERIALS[unit], unit)
  }

  /** Stage of the order after `units` good widgets. */
  function StatusAfter(units: nat): Status {
    if units == 5 then Completed else InProgress
  }

  /** The log records of the first `units` widgets. */
  function Entries(units: nat): seq<ProductionLog>
    requires units <= 5
  {
    if units == 0 then []
    else Entries(units - 1) + [LogFor(WidgetOrder(units - 1, InProgress)[1], Good(units - 1))]
  }

  /** The store once the order runs on M1 and `units` good widgets are reported. */
  function StoreAfter(units: nat): Store
    requires units <= 5
  {
    Store(Bolts(10 - 2 * units), WidgetOrder(units, StatusAfter(units)), 2, Entries(units))
  }

  /** The backflush of one widget takes two bolts. */
  lemma WidgetBackflush(units: nat)
    requires units < 5
    ensures Backflush(Bolts(10 - 2 * units), [BomLine("BOLT", 2)]) == Ok(Bolts(10 - 2 * (units + 1)))
  {
    BackflushStep(Bolts(10 - 2 * units), [BomLine("BOLT", 2)]);
    assert Bolts(10 - 2 * units)["BOLT" := Material("BOLT", "Bolt", 10 - 2 * units - 2)] == Bolts(10 - 2 * (units + 1));
  }

  /** One good widget takes two bolts, adds one record and one unit of progress; the fifth completes the order. */
  lemma GoodWidget(units: nat)
    requires units < 5
    ensures Report(StoreAfter(units), WIDGET_BOMS, Good(units)) == Reported(None, StoreAfter(units + 1))
  {
    var s := StoreAfter(units);
    var order := WorkOrder(1, "WIDGET", 5, units, InProgress, Some("M1"));
    var advanced := WorkOrder(1, "WIDGET", 5, units + 1, StatusAfter(units + 1), Some("M1"));
    var entry := LogFor(order, Good(units));
    assert s.orders[1] == order;
    WidgetBackflush(units);
    assert Advance(order) == advanced;
    var after := s.(materials := Bolts(10 - 2 * (units + 1)), orders := s.orders[1 := advanced], logs := s.logs + [entry]);
    assert Report(s, WIDGET_BOMS, Good(units)) == Reported(None, after);
    assert s.orders[1 := advanced] == WidgetOrder(units + 1, StatusAfter(units + 1));
    assert after == StoreAfter(units + 1);
  }

  /** Receipt, order creation and assignment: the order runs on M1 with 10 bolts in stock. */
  lemma BoltWidgetSetup()
    ensures
      var s0 := Store(Bolts(0), map[], 1, []);
      var s1 := s0.(materials := Receive(s0.materials, "BOLT", "Bolt", 10));
      var s2 := CreateOrder(s1, "WIDGET", 5);
      var a := Assign(s2.orders, s2.nextOrderId, s2.materials, WIDGET_BOMS, "M1");
      a.order == Some(WorkOrder(1, "WIDGET", 5, 0, InProgress, Some("M1"))) &&
      s2.(orders := a.orders) == StoreAfter(0)
  {
    var s0 := Store(Bolts(0), map[], 1, []);
    var s1 := s0.(materials := Receive(s0.materials, "BOLT", "Bolt", 10));
    var s2 := CreateOrder(s1, "WIDGET", 5);
    assert OldestWaiting(s2.orders, 1);
  }

  /**
   * Five good widgets in a row each succeed; afterwards no bolts are left,
   * the order is completed with quantity 5 and five log records exist, and a
   * sixth report on the completed order changes nothing.
   */
  lemma BoltWidgetRun()
    ensures forall units :: 0 <= units < 5 ==>
      Report(StoreAfter(units), WIDGET_BOMS, Good(units)) == Reported(None, StoreAfter(units + 1))
    ensures StoreAfter(4).orders[1].status == InProgress
    ensures StoreAfter(5).materials["BOLT"].currentStock == 0
    ensures StoreAfter(5).orders[1].status == Completed && StoreAfter(5).orders[1].currentQty == 5
    ensures |StoreAfter(5).logs| == 5
    ensures Report(StoreAfter(5), WIDGET_BOMS, Good(5)) == Reported(None, StoreAfter(5))
  {
    forall units | 0 <= units < 5
      ensures Report(StoreAfter(units), WIDGET_BOMS, Good(units)) == Reported(None, StoreAfter(units + 1))
    {
      GoodWidget(units);
    }
    assert |Entries(5)| == 5 by {
      assert |Entries(4)| == 4 by { assert |Entries(3)| == 3 by { assert |Entries(2)| == 2; } }
    }
  }
}
