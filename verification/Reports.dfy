/** Attesting execution reports and cancellations (framework/backend/backend_orders.go, approval.go). */
module Reports {
  import opened Domain
  import opened Envelopes
  import opened Approval

  const CANCELLED := "cancelled"

  // The event that a report setting this status is recorded as, beside a fill or a charge.
  function StatusEvent(status: string): Option<EventType> {
    match status
    case "submitted" => Some(Submitted)
    case "accepted" => Some(PreTradeAccepted)
    case "rejected" => Some(PreTradeRejected)
    case "committed" => Some(Committed)
    case "rolled_back" => Some(RolledBack)
    case "cancelled" => Some(EventType.Cancelled)
    case _ => None
  }

  predicate Settles(eventType: EventType) {
    eventType == Filled || eventType == Charged
  }

  // The blocks an event speaks of: its reject slot, if used.
  function RecordedBlocks(account: string, event: Event): seq<Block> {
    var r := event.reject;
    if r.code == "" && r.reason == "" then [] else [Block(account, r.policy, r.code, r.reason, r.details)]
  }

  // What an event recorded for a report persists, read back from its payload.
  function RecordedPersistence(account: string, event: Event, report: Report, status: string): Persistence {
    var trade := if report.fillQuantity == "" && report.fillPrice == "" then None else
                 Some(Trade(report.fillQuantity, report.fillPrice, report.lockPrice, report.commission));
    Persistence(status, trade, report.commission, report.leaves, RecordedBlocks(account, event))
  }

  // The payload of one event of an execution report; None when such an event is not attested.
  function ReportPayload(order: Order, target: string, event: Event, stamp: Option<Stamp>): Result<Option<Payload>> {
    var recorded := if event.report.Some? then event.report.value.orderStatus else "";
    if !Settles(event.eventType)
       && ((StatusEvent(recorded) != Some(event.eventType) && StatusEvent(target) != Some(event.eventType))
           || recorded == "")
    then Ok(None) else
    if event.report.None? || stamp.None? then Err(Internal) else
    var status := if recorded != "" then recorded else target;
    var p := RecordedPersistence(order.account, event, event.report.value, status);
    Ok(Some(ExecutionReportPayload(order.(status := status), p, stamp.value).(executionReport := event.report)))
  }

  // The payload of one event of a cancellation by the shortcut.
  function CancelPayload(
    order: Order, approvalRef: string, reason: string, event: Event, stamp: Option<Stamp>): Result<Option<Payload>>
  {
    if event.eventType != EventType.Cancelled || event.report.None? then Ok(None) else
    if stamp.None? then Err(Internal) else
    var report := event.report.value;
    var status := if report.orderStatus != "" then report.orderStatus else CANCELLED;
    var p := RecordedPersistence(order.account, event, report, status).(trade := None);
    var base := ExecutionReportPayload(order.(status := status), p, stamp.value);
    Ok(Some(base.(
      mode := HOLD, approvalRef := approvalRef, policySummary := "order cancelled by shortcut",
      executionReport := event.report, result := Some(base.result.value.(outcome := CANCELLED)),
      reject := base.reject.(reason := reason))))
  }

  // The store refuses an event the attestor skips.
  function AttestReport(m: SigningMode, order: Order, target: string, p: Pending): Result<Attested> {
    match ReportPayload(order, target, p.event, p.stamp)
    case Err(e) => Err(e)
    case Ok(None) => Err(Invalid)
    case Ok(Some(built)) => Attest(p.signer, m, EXECUTION_REPORT, built, p.event)
  }

  function AttestReports(m: SigningMode, order: Order, target: string, pending: seq<Pending>): Result<seq<Attested>> {
    Traverse(p => AttestReport(m, order, target, p), pending)
  }

  // An event with a fill outranks one without.
  function Priority(a: Attested): nat {
    if a.payload.result.Some? && a.payload.result.value.fillQuantity != "" then 2 else 1
  }

  // What the callback holds after the run, and hands back.
  function HandedBack(attested: seq<Attested>): Option<Attested> {
    if attested == [] then None else
    var before, last := HandedBack(attested[..|attested| - 1]), attested[|attested| - 1];
    if before.Some? && Priority(last) <= Priority(before.value) then before else Some(last)
  }

  lemma {:induction false} EqualsHandBackTheFirst(attested: seq<Attested>)
    requires attested != [] && forall a | a in attested :: Priority(a) == Priority(attested[0])
    ensures HandedBack(attested) == Some(attested[0])
  {
    if |attested| > 1 {
      var front := attested[..|attested| - 1];
      assert front[0] == attested[0] && forall a | a in front :: a in attested;
      EqualsHandBackTheFirst(front);
      assert attested[|attested| - 1] in attested;
    }
  }

  predicate IsReportRun(pending: seq<Pending>, report: Report) {
    pending != [] && forall p | p in pending :: p.event.report == Some(report)
  }

  lemma ReportPriority(m: SigningMode, order: Order, target: string, p: Pending, report: Report)
    requires AttestReport(m, order, target, p).Ok? && p.event.report == Some(report)
    ensures Priority(AttestReport(m, order, target, p).value) == if report.fillQuantity != "" then 2 else 1
  {
  }

  lemma ReportsOneByOne(m: SigningMode, order: Order, target: string, pending: seq<Pending>)
    requires AttestReports(m, order, target, pending).Ok?
    ensures |AttestReports(m, order, target, pending).value| == |pending|
    ensures forall i | 0 <= i < |pending| ::
              AttestReport(m, order, target, pending[i]) == Ok(AttestReports(m, order, target, pending).value[i])
  {
    var f := p => AttestReport(m, order, target, p);
    TraverseOneByOne(f, pending);
    assert forall i | 0 <= i < |pending| :: f(pending[i]) == AttestReport(m, order, target, pending[i]);
  }

  /** Every event of one report carries the same fill, so the report hands back its first event's attestation. */
  lemma ReportHandsBackItsFirst(m: SigningMode, order: Order, target: string, pending: seq<Pending>, report: Report)
    requires IsReportRun(pending, report) && AttestReports(m, order, target, pending).Ok?
    ensures |AttestReports(m, order, target, pending).value| == |pending|
    ensures HandedBack(AttestReports(m, order, target, pending).value)
            == Some(AttestReports(m, order, target, pending).value[0])
  {
    var attested := AttestReports(m, order, target, pending).value;
    ReportsOneByOne(m, order, target, pending);
    forall a | a in attested
      ensures Priority(a) == if report.fillQuantity != "" then 2 else 1
    {
      var i :| 0 <= i < |attested| && attested[i] == a;
      assert pending[i] in pending;
      ReportPriority(m, order, target, pending[i], report);
    }
    EqualsHandBackTheFirst(attested);
  }

  // The status an event records, if it records one.
  function StatusName(eventType: EventType): Option<string> {
    match eventType
    case Submitted => Some("submitted")
    case PreTradeAccepted => Some("accepted")
    case PreTradeRejected => Some("rejected")
    case Committed => Some("committed")
    case RolledBack => Some("rolled_back")
    case Cancelled => Some("cancelled")
    case Confirmed => None
    case Filled => None
    case Charged => None
  }

  lemma StatusNamesItsEvent(status: string, eventType: EventType)
    ensures StatusEvent(status) == Some(eventType) <==> StatusName(eventType) == Some(status)
  {
  }

  /**
   * The events of a report that are attested: a fill or a charge, and the event of the status it
   * records, or of the status asked for when it records another one.
   */
  lemma ReportAttestsExactly(order: Order, target: string, event: Event, stamp: Stamp)
    requires event.report.Some?
    ensures
      var r, status := ReportPayload(order, target, event, Some(stamp)), event.report.value.orderStatus;
      && r.Ok?
      && (r.value.Some? <==>
            || event.eventType == Filled || event.eventType == Charged
            || (status != "" && StatusName(event.eventType).Some?
                && StatusName(event.eventType).value in {status, target}))
  {
    StatusNamesItsEvent(event.report.value.orderStatus, event.eventType);
    StatusNamesItsEvent(target, event.eventType);
  }

  // The result section and the reject of an envelope say what the event records.
  predicate SaysReport(a: Payload, account: string, event: Event, status: string)
    requires event.report.Some?
  {
    var report, slot := event.report.value, event.reject;
    && a.executionReport == event.report && a.verdict == ACCEPT && a.result.Some?
    && a.result.value.orderStatus == status && a.result.value.leavesQuantity == report.leaves
    && a.result.value.commission == report.commission
    && a.result.value.blocks == if slot.code == "" && slot.reason == "" then []
                                else [Block(account, slot.policy, slot.code, slot.reason, slot.details)]
  }

  // The payload a report's event is attested with, once its status is settled.
  function RecordedPayload(order: Order, event: Event, status: string, stamp: Stamp): Payload
    requires event.report.Some?
  {
    ExecutionReportPayload(order.(status := status),
                           RecordedPersistence(order.account, event, event.report.value, status), stamp)
  }

  lemma RecordedPayloadSays(order: Order, event: Event, status: string, stamp: Stamp)
    requires event.report.Some?
    ensures
      var a := RecordedPayload(order, event, status, stamp).(executionReport := event.report);
      var report := event.report.value;
      && NamesOrder(a, order, IMMEDIATE, stamp) && a.approvalRef == "" && SaysReport(a, order.account, event, status)
      && a.result.value.outcome == "applied" && a.policySummary == "execution report applied"
      && a.result.value.fillQuantity == report.fillQuantity && a.result.value.fillPrice == report.fillPrice
      && a.result.value.fillLockPrice ==
           (if report.fillQuantity == "" && report.fillPrice == "" then "" else report.lockPrice)
      && (event.reject.code == "" && event.reject.reason == "" ==> a.reject == NO_REJECT)
  {
    ReportNamesOrder(order.(status := status),
                     RecordedPersistence(order.account, event, event.report.value, status), stamp);
  }

  /** A report's envelope names the order and says the fill, charge, open quantity and status the event records. */
  lemma ReportEnvelopeSays(order: Order, target: string, event: Event, stamp: Stamp, a: Payload)
    requires ReportPayload(order, target, event, Some(stamp)) == Ok(Some(a))
    ensures NamesOrder(a, order, IMMEDIATE, stamp) && a.approvalRef == "" && event.report.Some?
    ensures
      var report := event.report.value;
      && SaysReport(a, order.account, event, if report.orderStatus != "" then report.orderStatus else target)
      && a.result.value.outcome == "applied" && a.policySummary == "execution report applied"
      && a.result.value.fillQuantity == report.fillQuantity && a.result.value.fillPrice == report.fillPrice
      && a.result.value.fillLockPrice ==
           (if report.fillQuantity == "" && report.fillPrice == "" then "" else report.lockPrice)
      && (event.reject.code == "" && event.reject.reason == "" ==> a.reject == NO_REJECT)
  {
    var status := if event.report.value.orderStatus != "" then event.report.value.orderStatus else target;
    assert a == RecordedPayload(order, event, status, stamp).(executionReport := event.report);
    RecordedPayloadSays(order, event, status, stamp);
  }

  /** A cancellation's envelope names the order, refers to the approval it acts on and gives the caller's reason. */
  lemma CancelEnvelopeSays(
    order: Order, approvalRef: string, reason: string, event: Event, stamp: Stamp, a: Payload)
    requires CancelPayload(order, approvalRef, reason, event, Some(stamp)) == Ok(Some(a))
    ensures event.eventType == EventType.Cancelled && event.report.Some?
    ensures NamesOrder(a, order, HOLD, stamp) && a.approvalRef == approvalRef && a.reject.reason == reason
    ensures
      var report := event.report.value;
      && SaysReport(a, order.account, event, if report.orderStatus != "" then report.orderStatus else CANCELLED)
      && a.result.value.outcome == "cancelled" && a.policySummary == "order cancelled by shortcut"
      && a.result.value.fillQuantity == a.result.value.fillPrice == a.result.value.fillLockPrice == ""
  {
    var report := event.report.value;
    var status := if report.orderStatus != "" then report.orderStatus else CANCELLED;
    ReportNamesOrder(order.(status := status),
                     RecordedPersistence(order.account, event, report, status).(trade := None), stamp);
  }
}
