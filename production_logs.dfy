/**
 * Production log records (one per reported unit) and the recent-log view
 * shown on the dashboard.
 */
module ProductionLogs {
  import opened Wrappers
  import opened WorkOrders

  /** The report's clock reading, taken as given. */
  type Timestamp = int

  /** A registered operator. */
  datatype Member = Member(id: nat, name: string)

  /** The record of one reported unit. */
  datatype ProductionLog = ProductionLog(
    orderId: nat,
    productCode: string,
    machineId: string,
    serialNo: string,
    result: string,
    defectCode: Option<string>,
    operator: Option<Member>,
    producedAt: Timestamp)

  /** What a machine sends when it reports one unit. */
  datatype UnitReport = UnitReport(
    orderId: nat,
    machineId: string,
    result: string,
    defectCode: Option<string>,
    serialNo: string,
    producedAt: Timestamp)

  /**
   * The record written for `order` by `report`. The defect code is kept only
   * for an "NG" result; the operator is left empty, because the service
   * resolves it but never sets it on the record.
   */
  function LogFor(order: WorkOrder, report: UnitReport): (l: ProductionLog)
    ensures l.defectCode.Some? ==> l.result == "NG"
    ensures l.operator == None
  {
    ProductionLog(
      order.id, order.productCode, report.machineId, report.serialNo, report.result,
      if report.result == "NG" then report.defectCode else None,
      None, report.producedAt)
  }

  /** The dashboard row of a log record. */
  datatype RecentLog = RecentLog(
    id: nat,
    serialNo: string,
    operatorName: string,
    result: string,
    machineId: string,
    producedAt: Timestamp)

  /** How many rows the dashboard shows. */
  const RECENT_LIMIT: nat := 15

  /** The name shown for a record without an operator ("system"). */
  const SYSTEM_OPERATOR: string := "시스템"

  /** The row of `log`, whose id is `id`. */
  function View(log: ProductionLog, id: nat): RecentLog {
    RecentLog(
      id, log.serialNo,
      if log.operator.Some? then log.operator.value.name else SYSTEM_OPERATOR,
      log.result, log.machineId, log.producedAt)
  }

  /**
   * The newest `k` records, newest first. Records get ids 1, 2, ... in the
   * order they are appended, so the one at position i has id i + 1.
   */
  function Latest(logs: seq<ProductionLog>, k: nat): (r: seq<RecentLog>)
    ensures |r| == if k < |logs| then k else |logs|
    ensures forall j :: 0 <= j < |r| ==> r[j] == View(logs[|logs| - 1 - j], |logs| - j)
    decreases k
  {
    if k == 0 || logs == [] then []
    else [View(logs[|logs| - 1], |logs|)] + Latest(logs[..|logs| - 1], k - 1)
  }

  /**
   * The dashboard's recent-log list: at most 15 rows, in descending id
   * order, each showing the newest records; a record without an operator
   * shows the system name.
   */
  function RecentLogs(logs: seq<ProductionLog>): (r: seq<RecentLog>)
    ensures |r| == if |logs| < RECENT_LIMIT then |logs| else RECENT_LIMIT
    ensures forall j :: 0 <= j < |r| ==> r[j].id == |logs| - j
    ensures forall i, j :: 0 <= i < j < |r| ==> r[i].id > r[j].id
    ensures forall j :: 0 <= j < |r| ==>
      var log := logs[|logs| - 1 - j];
      r[j].serialNo == log.serialNo && r[j].result == log.result &&
      r[j].machineId == log.machineId && r[j].producedAt == log.producedAt &&
      r[j].operatorName == (if log.operator.Some? then log.operator.value.name else SYSTEM_OPERATOR)
  {
    Latest(logs, RECENT_LIMIT)
  }
}
