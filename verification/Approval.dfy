/** Issuing submit attestations and authorizing confirm and cancel (framework/backend/approval.go). */
module Approval {
  import opened Domain
  import opened Envelopes
  import Signing

  const HOLD := "hold"
  const IMMEDIATE := "immediate"

  const SUBMIT := "submit"
  const EXECUTION_REPORT := "execution_report"
  const CONFIRM := "confirm"
  const CANCEL := "cancel"

  const ACCEPT := "accept"
  const REJECT := "reject"

  datatype Order = Order(
    externalId: string, account: string, principal: string, baseAsset: string, quoteAsset: string,
    side: string, amountKind: string, amountValue: string, price: string, leaves: string, status: string,
    commissions: seq<Commission>, dropCopy: bool)

  datatype EventType =
    | Submitted | PreTradeAccepted | PreTradeRejected | Committed | RolledBack
    | Confirmed | Filled | Charged | Cancelled

  // What is persisted beside an event.
  datatype EventAttestation = EventAttestation(
    envelope: Wire, keyId: string, alg: string, requestType: string, mode: string, issuedAt: string)

  // An event whose report is given carries that report's own figures; reject is its one reject slot.
  datatype Event = Event(
    externalId: string, order: string, eventType: EventType, report: Option<Report>, reject: Reject,
    attestation: Option<EventAttestation>)

  // What a request is answered with.
  datatype Attestation = Attestation(envelope: Wire, keyId: string, eventId: string, signed: bool)

  // The randomness and the clock reading of one issuance; absent when the random source fails.
  datatype Stamp = Stamp(approvalId: string, nonce: string, issuedAt: string)

  datatype Trade = Trade(quantity: string, price: string, lockPrice: string, commission: Option<Commission>)

  datatype Persistence = Persistence(
    orderStatus: string, trade: Option<Trade>, commission: Option<Commission>, leaves: string, blocks: seq<Block>)

  // The engine's answer to a submit.
  datatype EngineResult = EngineResult(
    accepted: bool, lockPrice: string, rejects: seq<Reject>, persistence: Option<Persistence>)

  // --- Payload builders

  function BoundTerms(order: Order): Terms {
    Terms(order.baseAsset + "/" + order.quoteAsset, order.side, order.amountValue, order.amountKind,
          if order.price != "" then "limit" else "market", order.price, order.quoteAsset, "", order.account)
  }

  function BasePayload(order: Order, mode: string, approvalId: string, stamp: Stamp): Payload {
    Payload(1, approvalId, "", "", mode, order.externalId, "", BoundTerms(order), "", "",
            "", "", "", stamp.issuedAt, stamp.nonce, "", "", NO_REJECT, order.principal, None, None, [])
  }

  function SubmittedPayload(order: Order, mode: string, approvalId: string, stamp: Stamp): Payload {
    BasePayload(order, mode, approvalId, stamp).(policySummary := "order submitted")
  }

  function ApprovalPayload(
    order: Order, mode: string, approvalId: string, settlement: string, stamp: Stamp): Payload
  {
    BasePayload(order, mode, approvalId, stamp).(
      verdict := ACCEPT, policySummary := "accepted", estimatePrice := settlement)
  }

  function FirstReject(rejects: seq<Reject>): Reject {
    if rejects == [] then NO_REJECT else rejects[0]
  }

  function RejectPayload(
    order: Order, mode: string, approvalId: string, rejects: seq<Reject>, stamp: Stamp): Payload
  {
    BasePayload(order, mode, approvalId, stamp).(
      verdict := REJECT, policySummary := "rejected", reject := FirstReject(rejects), rejects := rejects)
  }

  function LifecyclePayload(
    order: Order, requestType: string, outcome: string, approvalRef: string, stamp: Stamp): Payload
  {
    BasePayload(order, HOLD, stamp.approvalId, stamp).(
      verdict := ACCEPT, approvalRef := approvalRef,
      policySummary := if requestType == CONFIRM then "order confirmation recorded" else "order lifecycle recorded",
      result := Some(Outcome(outcome, "", "", "", None, order.leaves, order.status, [])))
  }

  function ExecutionReportPayload(order: Order, p: Persistence, stamp: Stamp): Payload {
    var trade := if p.trade.Some? then p.trade.value else Trade("", "", "", None);
    var commission := if p.commission.None? then trade.commission else p.commission;
    var base := BasePayload(order, IMMEDIATE, stamp.approvalId, stamp).(
      verdict := ACCEPT, policySummary := "execution report applied",
      result := Some(Outcome("applied", trade.quantity, trade.price, trade.lockPrice, commission,
                             p.leaves, p.orderStatus, p.blocks)));
    if p.blocks == [] then base else
    var b := p.blocks[0];
    base.(reject := Reject(b.code, "account", b.policy, b.reason, b.details))
  }

  function SettlementPayload(order: Order, event: Event, p: Option<Persistence>, stamp: Stamp): Result<Payload> {
    if p.None? || event.report.None? then Err(Internal) else
    var status := if p.value.orderStatus != "" then p.value.orderStatus else "filled";
    var payload := ExecutionReportPayload(order.(status := status), p.value, stamp);
    Ok(payload.(executionReport := event.report, requestType := EXECUTION_REPORT))
  }

  // A submit: the stored order, the scoped account and caller it is recorded for, the id its
  // approvals share and the engine's answer.
  datatype Submission = Submission(
    mode: string, order: Order, account: string, principal: string, approvalId: string, result: EngineResult)

  function OrderForEvent(sub: Submission, event: Event): Order {
    sub.order.(externalId := event.order, account := sub.account, principal := sub.principal)
  }

  // The payload of one event of a submit; None when that kind of event is not attested.
  function BuildFor(sub: Submission, event: Event, stamp: Option<Stamp>): Result<Option<Payload>> {
    var order := OrderForEvent(sub, event);
    var attested := event.eventType in {Submitted, PreTradeAccepted, PreTradeRejected, Committed}
                    || (sub.mode == IMMEDIATE && event.eventType in {Filled, Charged});
    if !attested then Ok(None) else
    if stamp.None? then Err(Internal) else
    match event.eventType
    case Submitted => Ok(Some(SubmittedPayload(order, sub.mode, sub.approvalId, stamp.value)))
    case PreTradeAccepted =>
      Ok(Some(ApprovalPayload(order, sub.mode, sub.approvalId, sub.result.lockPrice, stamp.value)))
    case PreTradeRejected =>
      Ok(Some(RejectPayload(order, sub.mode, sub.approvalId, sub.result.rejects, stamp.value)))
    case Committed =>
      var p := LifecyclePayload(order.(status := "committed"), SUBMIT, "committed", sub.approvalId, stamp.value);
      Ok(Some(p.(mode := sub.mode)))
    case _ =>
      match SettlementPayload(order, event, sub.result.persistence, stamp.value)
      case Err(e) => Err(e)
      case Ok(p) => Ok(Some(p))
  }

  // --- The attestor

  // Whether eSign is off, and else the id of the key active when the request began.
  datatype SigningMode = SigningMode(off: bool, keyId: string)

  // signingMode: the flag first, and only if eSign is on the id of the first active key listed.
  function ModeOf(signer: Signing.State, faults: Signing.ReadFaults): Result<SigningMode> {
    match Signing.NoESign(signer, faults.setting)
    case Err(e) => Err(e)
    case Ok(true) => Ok(SigningMode(true, ""))
    case Ok(false) =>
      if faults.list then Err(Internal) else
      match Signing.FirstActive(signer.rows)
      case None => Err(NotFound)
      case Some(row) => if row.keyId == "" then Err(NotFound) else Ok(SigningMode(false, row.keyId))
  }

  // The first active key of the list.
  ghost predicate IsFirstActive(rows: seq<Signing.Row>, i: int) {
    0 <= i < |rows| && rows[i].active && forall j | 0 <= j < i :: !rows[j].active
  }

  lemma {:induction false} FirstActiveIs(rows: seq<Signing.Row>)
    ensures Signing.FirstActive(rows).Some? ==>
              exists i :: IsFirstActive(rows, i) && Signing.FirstActive(rows) == Some(rows[i])
    ensures Signing.FirstActive(rows).None? ==> forall i | 0 <= i < |rows| :: !rows[i].active
  {
    if rows != [] && !rows[0].active {
      FirstActiveIs(rows[1..]);
      assert forall i | 0 < i < |rows| :: rows[i] == rows[1..][i - 1];
      if Signing.FirstActive(rows[1..]).Some? {
        var i :| IsFirstActive(rows[1..], i) && Signing.FirstActive(rows[1..]) == Some(rows[1..][i]);
        assert IsFirstActive(rows, i + 1);
      }
    } else if rows != [] {
      assert IsFirstActive(rows, 0);
    }
  }

  /**
   * A request signs exactly while the stored flag is not "1". The flag must be readable; to
   * sign, the keys must be too, and the first active one must have an id, which is the one read.
   */
  lemma ModeIsReadExactly(signer: Signing.State, faults: Signing.ReadFaults)
    ensures ModeOf(signer, faults).Ok? <==>
              && !faults.setting
              && (signer.noESign == Some("1")
                  || (!faults.list && exists i :: IsFirstActive(signer.rows, i) && signer.rows[i].keyId != ""))
    ensures ModeOf(signer, faults).Ok? ==>
              && (ModeOf(signer, faults).value.off <==> signer.noESign == Some("1"))
              && (signer.noESign != Some("1") ==>
                    exists i :: IsFirstActive(signer.rows, i)
                                && signer.rows[i].keyId == ModeOf(signer, faults).value.keyId)
    ensures ModeOf(signer, faults).Err? ==>
              ModeOf(signer, faults).error ==
                if faults.setting || faults.list then Internal else NotFound
  {
    FirstActiveIs(signer.rows);
  }

  method ReadSigningMode(service: Signing.Service, faults: Signing.ReadFaults) returns (r: Result<SigningMode>)
    ensures r == ModeOf(service.View(), faults)
  {
    if faults.setting {
      return Err(Internal);
    }
    if service.store.noESign == Some("1") {
      return Ok(SigningMode(true, ""));
    }
    if faults.list {
      return Err(Internal);
    }
    var keys := service.store.rows;
    for i := 0 to |keys|
      invariant Signing.FirstActive(keys) == Signing.FirstActive(keys[i..])
    {
      assert keys[i..][1..] == keys[i + 1..];
      if keys[i].active {
        return if keys[i].keyId == "" then Err(NotFound) else Ok(SigningMode(false, keys[i].keyId));
      }
    }
    return Err(NotFound);
  }

  datatype Attested = Attested(stored: EventAttestation, answer: Attestation, payload: Payload)

  // eventAttestor over a built payload: signer is the signing service as this event finds it.
  function Attest(signer: Signing.State, m: SigningMode, requestType: string, built: Payload, event: Event)
    : Result<Attested>
  {
    var actual := if built.requestType != "" then built.requestType else requestType;
    var payload := built.(requestType := actual, eventId := event.externalId,
                          keyId := if m.off then "" else m.keyId, alg := if m.off then UNSIGNED else ED25519);
    match if m.off then Ok(Signing.SignNone(payload)) else Signing.Sign(signer, payload)
    case Err(e) => Err(e)
    case Ok(wire) =>
      Ok(Attested(
        EventAttestation(wire, payload.keyId, payload.alg, actual, payload.mode, payload.issuedAt),
        Attestation(wire, payload.keyId, event.externalId, !m.off),
        payload))
  }

  // An event on its way to the store, with its stamp and the signing service it will meet.
  datatype Pending = Pending(event: Event, stamp: Option<Stamp>, signer: Signing.State)

  // The store refuses an event the attestor skips.
  function AttestPending(m: SigningMode, sub: Submission, p: Pending): Result<Attested> {
    match BuildFor(sub, p.event, p.stamp)
    case Err(e) => Err(e)
    case Ok(None) => Err(Invalid)
    case Ok(Some(built)) => Attest(p.signer, m, SUBMIT, built, p.event)
  }

  // The results of f over xs, or the first error.
  function Traverse(f: Pending -> Result<Attested>, xs: seq<Pending>): Result<seq<Attested>> {
    if xs == [] then Ok([]) else
    match Traverse(f, xs[..|xs| - 1])
    case Err(e) => Err(e)
    case Ok(front) =>
      match f(xs[|xs| - 1])
      case Err(e) => Err(e)
      case Ok(last) => Ok(front + [last])
  }

  lemma {:induction false} TraverseStops(f: Pending -> Result<Attested>, xs: seq<Pending>, n: nat)
    requires n <= |xs| && Traverse(f, xs[..n]).Err?
    ensures Traverse(f, xs) == Traverse(f, xs[..n])
    decreases |xs| - n
  {
    if n < |xs| {
      assert xs[..n + 1][..n] == xs[..n];
      TraverseStops(f, xs, n + 1);
    } else {
      assert xs[..n] == xs;
    }
  }

  lemma {:induction false} TraverseOneByOne(f: Pending -> Result<Attested>, xs: seq<Pending>)
    requires Traverse(f, xs).Ok?
    ensures |Traverse(f, xs).value| == |xs|
    ensures forall i | 0 <= i < |xs| :: f(xs[i]) == Ok(Traverse(f, xs).value[i])
  {
    if xs != [] {
      TraverseOneByOne(f, xs[..|xs| - 1]);
    }
  }

  lemma {:induction false} TraverseSucceedsExactly(f: Pending -> Result<Attested>, xs: seq<Pending>)
    ensures Traverse(f, xs).Ok? <==> forall i | 0 <= i < |xs| :: f(xs[i]).Ok?
  {
    if xs != [] {
      var front := xs[..|xs| - 1];
      TraverseSucceedsExactly(f, front);
      assert forall i | 0 <= i < |front| :: front[i] == xs[i];
    }
  }

  function AttestAll(m: SigningMode, sub: Submission, pending: seq<Pending>): Result<seq<Attested>> {
    Traverse(p => AttestPending(m, sub, p), pending)
  }

  predicate IsVerdict(a: Attested) {
    a.payload.result.None? && a.payload.verdict != ""
  }

  function LastVerdict(attested: seq<Attested>): Option<Attested> {
    if attested == [] then None else
    var last := attested[|attested| - 1];
    if IsVerdict(last) then Some(last) else LastVerdict(attested[..|attested| - 1])
  }

  function RejectReasons(payload: Payload, rejects: seq<Reject>): seq<Reject> {
    if payload.verdict != REJECT then []
    else if rejects != [] then rejects
    else if payload.rejects != [] then payload.rejects
    else [payload.reject]
  }

  datatype SignedApproval = SignedApproval(
    approval: Wire, keyId: string, orderId: string, verdict: string, reasons: seq<Reject>, signed: bool)

  function ApprovalFrom(sub: Submission, issued: Attested): SignedApproval {
    SignedApproval(
      issued.answer.envelope, issued.answer.keyId, sub.order.externalId,
      if sub.result.accepted then ACCEPT else REJECT,
      RejectReasons(issued.payload, sub.result.rejects), issued.answer.signed)
  }

  // What a submit stores and what it answers, stated over the whole run of its events.
  function SubmitSpec(m: SigningMode, sub: Submission, pending: seq<Pending>): Result<SignedApproval> {
    if sub.mode != HOLD && sub.mode != IMMEDIATE then Err(Invalid) else
    match AttestAll(m, sub, pending)
    case Err(e) => Err(e)
    case Ok(attested) =>
      match LastVerdict(attested)
      case None => Err(Internal)
      case Some(issued) => Ok(ApprovalFrom(sub, issued))
  }

  function Stored(pending: seq<Pending>, attested: seq<Attested>): seq<Event>
    requires |pending| == |attested|
  {
    seq(|pending|, i requires 0 <= i < |pending| => pending[i].event.(attestation := Some(attested[i].stored)))
  }

  // The captured variables hold the last verdict.
  predicate Captured(attested: seq<Attested>, issued: Option<Attestation>, payload: Option<Payload>) {
    match LastVerdict(attested)
    case None => issued == None && payload == None
    case Some(a) => issued == Some(a.answer) && payload == Some(a.payload)
  }

  /** The store's side: every event goes through the attestor, whose callback captures the verdict. */
  method RecordRun(attest: Pending -> Result<Attested>, pending: seq<Pending>)
    returns (r: Result<seq<Event>>, issued: Option<Attestation>, payload: Option<Payload>)
    ensures r.Ok? <==> Traverse(attest, pending).Ok?
    ensures r.Err? ==> Traverse(attest, pending) == Err(r.error)
    ensures r.Ok? ==>
              var attested := Traverse(attest, pending).value;
              |attested| == |pending| && r == Ok(Stored(pending, attested)) && Captured(attested, issued, payload)
  {
    var events: seq<Event> := [];
    issued := None;
    payload := None;
    ghost var done: seq<Attested> := [];
    for i := 0 to |pending|
      invariant Traverse(attest, pending[..i]) == Ok(done) && |done| == i
      invariant events == Stored(pending[..i], done)
      invariant Captured(done, issued, payload)
    {
      assert pending[..i + 1][..i] == pending[..i];
      var attested := attest(pending[i]);
      if attested.Err? {
        TraverseStops(attest, pending, i + 1);
        return Err(attested.error), None, None;
      }
      if attested.value.payload.result.None? && attested.value.payload.verdict != "" {
        issued := Some(attested.value.answer);
        payload := Some(attested.value.payload);
      }
      events := events + [pending[i].event.(attestation := Some(attested.value.stored))];
      assert (done + [attested.value])[..i] == done;
      done := done + [attested.value];
    }
    assert pending[..|pending|] == pending;
    r := Ok(events);
  }

  lemma AttestedOneByOne(m: SigningMode, sub: Submission, pending: seq<Pending>)
    requires AttestAll(m, sub, pending).Ok?
    ensures |AttestAll(m, sub, pending).value| == |pending|
    ensures forall i | 0 <= i < |pending| ::
              AttestPending(m, sub, pending[i]) == Ok(AttestAll(m, sub, pending).value[i])
  {
    var f := p => AttestPending(m, sub, p);
    TraverseOneByOne(f, pending);
    assert forall i | 0 <= i < |pending| :: f(pending[i]) == AttestPending(m, sub, pending[i]);
  }

  lemma AttestsAllExactly(m: SigningMode, sub: Submission, pending: seq<Pending>)
    ensures AttestAll(m, sub, pending).Ok? <==> forall i | 0 <= i < |pending| :: AttestPending(m, sub, pending[i]).Ok?
  {
    var f := p => AttestPending(m, sub, p);
    TraverseSucceedsExactly(f, pending);
    assert forall i | 0 <= i < |pending| :: f(pending[i]) == AttestPending(m, sub, pending[i]);
  }

  predicate CanSign(signer: Signing.State) {
    signer.active.Some? && signer.signKey.Some?
  }

  // What a settling event of an immediate order needs besides.
  predicate Settleable(sub: Submission, event: Event) {
    sub.mode == IMMEDIATE && sub.result.persistence.Some? && event.report.Some?
  }

  /**
   * An event of a submit is attested exactly when it is of a kind that is, the random source gave
   * its stamp and, if eSign is on, a key can sign.
   */
  lemma AttestsExactly(m: SigningMode, sub: Submission, p: Pending)
    ensures AttestPending(m, sub, p).Ok? <==>
              && p.stamp.Some? && (m.off || CanSign(p.signer))
              && (p.event.eventType in {Submitted, PreTradeAccepted, PreTradeRejected, Committed}
                  || (p.event.eventType in {Filled, Charged} && Settleable(sub, p.event)))
  {
  }

  predicate CarriesVerdict(p: Pending) {
    p.event.eventType == PreTradeAccepted || p.event.eventType == PreTradeRejected
  }

  lemma OnlyVerdictEventsAreVerdicts(m: SigningMode, sub: Submission, p: Pending)
    requires AttestPending(m, sub, p).Ok?
    ensures IsVerdict(AttestPending(m, sub, p).value) <==> CarriesVerdict(p)
  {
  }

  lemma {:induction false} LastVerdictIsAt(attested: seq<Attested>, v: nat)
    requires v < |attested| && IsVerdict(attested[v])
    requires forall i | v < i < |attested| :: !IsVerdict(attested[i])
    ensures LastVerdict(attested) == Some(attested[v])
  {
    if v < |attested| - 1 {
      LastVerdictIsAt(attested[..|attested| - 1], v);
    }
  }

  lemma VerdictIsLast(m: SigningMode, sub: Submission, pending: seq<Pending>, v: nat)
    requires AttestAll(m, sub, pending).Ok? && |AttestAll(m, sub, pending).value| == |pending|
    requires v < |pending| && CarriesVerdict(pending[v])
    requires forall i | 0 <= i < |pending| && i != v :: !CarriesVerdict(pending[i])
    ensures LastVerdict(AttestAll(m, sub, pending).value) == Some(AttestAll(m, sub, pending).value[v])
    ensures AttestPending(m, sub, pending[v]) == Ok(AttestAll(m, sub, pending).value[v])
  {
    var attested := AttestAll(m, sub, pending).value;
    AttestedOneByOne(m, sub, pending);
    forall i | 0 <= i < |pending|
      ensures IsVerdict(attested[i]) <==> CarriesVerdict(pending[i])
    {
      OnlyVerdictEventsAreVerdicts(m, sub, pending[i]);
    }
    LastVerdictIsAt(attested, v);
  }

  lemma VerdictSays(m: SigningMode, sub: Submission, p: Pending)
    requires AttestPending(m, sub, p).Ok? && CarriesVerdict(p)
    ensures
      var a := AttestPending(m, sub, p).value;
      && a.answer.envelope == a.stored.envelope && a.answer.signed == !m.off && a.stored.envelope.Encoded?
      && var approval := a.stored.envelope.envelope.approval;
      && approval.eventId == p.event.externalId && approval.approvalId == sub.approvalId
      && approval.verdict == if p.event.eventType == PreTradeAccepted then ACCEPT else REJECT
  {
  }

  // The approval an event of a submit is stored with.
  function ApprovalOf(m: SigningMode, sub: Submission, p: Pending): Payload
    requires AttestPending(m, sub, p).Ok?
  {
    StoredIsEncoded(m, sub, p);
    AttestPending(m, sub, p).value.stored.envelope.envelope.approval
  }

  lemma SentAsBuilt(m: SigningMode, sub: Submission, p: Pending, built: Payload)
    requires AttestPending(m, sub, p).Ok? && BuildFor(sub, p.event, p.stamp) == Ok(Some(built))
    ensures
      var approval := ApprovalOf(m, sub, p);
      approval == built.(requestType := if built.requestType == "" then SUBMIT else built.requestType,
                         eventId := p.event.externalId, keyId := approval.keyId,
                         alg := if m.off then UNSIGNED else ED25519)
  {
  }

  // What every payload builder takes from the order and the stamp.
  predicate NamesOrder(a: Payload, order: Order, mode: string, stamp: Stamp) {
    && Names(a, order) && a.orderId == order.externalId && a.principal == order.principal
    && a.mode == mode && a.version == 1 && a.issuedAt == stamp.issuedAt && a.nonce == stamp.nonce
    && a.venue == "" && a.accountGroupId == ""
  }

  lemma BaseNamesOrder(order: Order, mode: string, approvalId: string, stamp: Stamp)
    ensures NamesOrder(BasePayload(order, mode, approvalId, stamp), order, mode, stamp)
  {
  }

  lemma VerdictsNameOrder(
    order: Order, mode: string, approvalId: string, text: string, rejects: seq<Reject>, stamp: Stamp)
    ensures NamesOrder(SubmittedPayload(order, mode, approvalId, stamp), order, mode, stamp)
    ensures NamesOrder(ApprovalPayload(order, mode, approvalId, text, stamp), order, mode, stamp)
    ensures NamesOrder(RejectPayload(order, mode, approvalId, rejects, stamp), order, mode, stamp)
  {
    BaseNamesOrder(order, mode, approvalId, stamp);
  }

  lemma LifecycleNamesOrder(order: Order, requestType: string, outcome: string, approvalRef: string, stamp: Stamp)
    ensures NamesOrder(LifecyclePayload(order, requestType, outcome, approvalRef, stamp), order, HOLD, stamp)
  {
    BaseNamesOrder(order, HOLD, stamp.approvalId, stamp);
  }

  lemma ReportNamesOrder(order: Order, p: Persistence, stamp: Stamp)
    ensures NamesOrder(ExecutionReportPayload(order, p, stamp), order, IMMEDIATE, stamp)
  {
    BaseNamesOrder(order, IMMEDIATE, stamp.approvalId, stamp);
  }

  lemma BuiltNamesOrder(sub: Submission, event: Event, stamp: Option<Stamp>, built: Payload)
    requires BuildFor(sub, event, stamp) == Ok(Some(built))
    ensures stamp.Some? && NamesOrder(built, OrderForEvent(sub, event), sub.mode, stamp.value)
  {
    var order := OrderForEvent(sub, event);
    if event.eventType in {Filled, Charged} {
      var p := sub.result.persistence.value;
      var status := if p.orderStatus != "" then p.orderStatus else "filled";
      ReportNamesOrder(order.(status := status), p, stamp.value);
    } else if event.eventType == Committed {
      LifecycleNamesOrder(order.(status := "committed"), SUBMIT, "committed", sub.approvalId, stamp.value);
    } else {
      VerdictsNameOrder(order, sub.mode, sub.approvalId, sub.result.lockPrice, sub.result.rejects, stamp.value);
    }
  }

  lemma BuiltRequestType(sub: Submission, event: Event, stamp: Option<Stamp>, built: Payload)
    requires BuildFor(sub, event, stamp) == Ok(Some(built))
    ensures built.requestType == if event.eventType in {Filled, Charged} then EXECUTION_REPORT else ""
  {
  }

  /**
   * Whatever event of a submit it is of, an envelope names that event, the recorded order with
   * every bound field, the account and caller it is recorded for, the submit's mode and the
   * stamp it was issued with; it is signed exactly when the request read that eSign is on.
   */
  lemma EnvelopeNamesItsSubmit(m: SigningMode, sub: Submission, p: Pending)
    requires AttestPending(m, sub, p).Ok?
    ensures
      var approval := ApprovalOf(m, sub, p);
      var order := sub.order.(externalId := p.event.order, account := sub.account, principal := sub.principal);
      && p.stamp.Some? && NamesOrder(approval, order, sub.mode, p.stamp.value)
      && approval.eventId == p.event.externalId && approval.alg == (if m.off then UNSIGNED else ED25519)
      && approval.requestType == (if p.event.eventType in {Filled, Charged} then EXECUTION_REPORT else SUBMIT)
  {
    var built := BuildFor(sub, p.event, p.stamp).value.value;
    SentAsBuilt(m, sub, p, built);
    BuiltNamesOrder(sub, p.event, p.stamp, built);
    BuiltRequestType(sub, p.event, p.stamp, built);
  }

  // What the payload of each kind of event says beside that.
  predicate SaysStep(a: Payload, sub: Submission, event: Event, stamp: Stamp) {
    var result := sub.result;
    if event.eventType == Submitted then
      a.policySummary == "order submitted" && a.approvalId == sub.approvalId && a.verdict == "" && a.result == None
    else if event.eventType == PreTradeAccepted then
      && a.policySummary == "accepted" && a.approvalId == sub.approvalId && a.verdict == ACCEPT && a.result == None
      && a.estimatePrice == result.lockPrice && a.rejects == [] && a.reject == NO_REJECT
    else if event.eventType == PreTradeRejected then
      && a.policySummary == "rejected" && a.approvalId == sub.approvalId && a.verdict == REJECT
      && a.result == None && a.estimatePrice == ""
      && a.rejects == result.rejects && (result.rejects != [] ==> a.reject == result.rejects[0])
    else if event.eventType == Committed then
      && a.policySummary == "order lifecycle recorded" && a.verdict == ACCEPT
      && a.approvalId == stamp.approvalId && a.approvalRef == sub.approvalId
      && a.result == Some(Outcome("committed", "", "", "", None, sub.order.leaves, "committed", []))
    else
      && a.policySummary == "execution report applied" && a.verdict == ACCEPT
      && a.approvalId == stamp.approvalId && a.approvalRef == ""
      && a.executionReport == event.report && event.report.Some? && a.result.Some?
      && result.persistence.Some? && SaysPersistence(a, result.persistence.value)
  }

  lemma ReportSaysPersistence(order: Order, p: Persistence, stamp: Stamp)
    ensures
      var a := ExecutionReportPayload(order, p, stamp);
      && a.policySummary == "execution report applied" && a.verdict == ACCEPT && a.approvalRef == ""
      && a.approvalId == stamp.approvalId && a.result.Some? && SaysPersistence(a, p)
  {
  }

  lemma SettlementSaysStep(sub: Submission, event: Event, stamp: Option<Stamp>, built: Payload)
    requires BuildFor(sub, event, stamp) == Ok(Some(built)) && event.eventType in {Filled, Charged}
    ensures stamp.Some? && SaysStep(built, sub, event, stamp.value)
  {
    var p := sub.result.persistence.value;
    var status := if p.orderStatus != "" then p.orderStatus else "filled";
    ReportSaysPersistence(OrderForEvent(sub, event).(status := status), p, stamp.value);
  }

  lemma VerdictSaysStep(sub: Submission, event: Event, stamp: Option<Stamp>, built: Payload)
    requires BuildFor(sub, event, stamp) == Ok(Some(built)) && event.eventType !in {Filled, Charged}
    ensures stamp.Some? && SaysStep(built, sub, event, stamp.value)
  {
  }

  /**
   * The envelopes of one submit share its approval id, or for the committed event refer to it.
   * The verdicts say what the engine answered, the committed one the opened order, the settling
   * ones what the report persists, and nothing but a settling one is of a report.
   */
  lemma EnvelopeSaysItsStep(m: SigningMode, sub: Submission, p: Pending)
    requires AttestPending(m, sub, p).Ok?
    ensures p.stamp.Some? && SaysStep(ApprovalOf(m, sub, p), sub, p.event, p.stamp.value)
  {
    var built := BuildFor(sub, p.event, p.stamp).value.value;
    SentAsBuilt(m, sub, p, built);
    if p.event.eventType in {Filled, Charged} {
      SettlementSaysStep(sub, p.event, p.stamp, built);
    } else {
      VerdictSaysStep(sub, p.event, p.stamp, built);
    }
  }

  // The approval's result is what the report persists, and its reject the first block.
  predicate SaysPersistence(a: Payload, p: Persistence)
    requires a.result.Some?
  {
    var r := a.result.value;
    && r.outcome == "applied" && r.orderStatus == p.orderStatus && r.leavesQuantity == p.leaves && r.blocks == p.blocks
    && (p.trade.Some? ==>
          && r.fillQuantity == p.trade.value.quantity && r.fillPrice == p.trade.value.price
          && r.fillLockPrice == p.trade.value.lockPrice)
    && (p.trade.None? ==> r.fillQuantity == r.fillPrice == r.fillLockPrice == "")
    && r.commission == (if p.commission.Some? || p.trade.None? then p.commission else p.trade.value.commission)
    && a.reject == if p.blocks == [] then NO_REJECT else
         var b := p.blocks[0];
         Reject(b.code, "account", b.policy, b.reason, b.details)
  }

  /** A confirmation's envelope names the order and its state, and refers to the approval it acts on. */
  lemma ConfirmEnvelopeSays(order: Order, approvalRef: string, stamp: Stamp)
    ensures
      var a := LifecyclePayload(order, CONFIRM, "confirmed", approvalRef, stamp);
      && NamesOrder(a, order, HOLD, stamp) && a.verdict == ACCEPT && a.reject == NO_REJECT
      && a.approvalId == stamp.approvalId && a.approvalRef == approvalRef
      && a.policySummary == "order confirmation recorded"
      && a.result == Some(Outcome("confirmed", "", "", "", None, order.leaves, order.status, []))
  {
    LifecycleNamesOrder(order, CONFIRM, "confirmed", approvalRef, stamp);
  }

  lemma AnswersTheLastVerdict(m: SigningMode, sub: Submission, pending: seq<Pending>, a: Attested)
    requires sub.mode == HOLD || sub.mode == IMMEDIATE
    requires AttestAll(m, sub, pending).Ok? && LastVerdict(AttestAll(m, sub, pending).value) == Some(a)
    ensures SubmitSpec(m, sub, pending) == Ok(ApprovalFrom(sub, a))
  {
  }

  /**
   * In a submit with one verdict event, the approval handed back is that event's envelope,
   * never the submitted, committed or fill one: it names that event, and says accept or
   * reject as the event does.
   */
  lemma HandedBackIsTheVerdict(m: SigningMode, sub: Submission, pending: seq<Pending>, v: nat)
    requires sub.mode == HOLD || sub.mode == IMMEDIATE
    requires AttestAll(m, sub, pending).Ok?
    requires v < |pending| && CarriesVerdict(pending[v])
    requires forall i | 0 <= i < |pending| && i != v :: !CarriesVerdict(pending[i])
    ensures
      var r := SubmitSpec(m, sub, pending);
      && r.Ok? && |AttestAll(m, sub, pending).value| == |pending|
      && r.value.approval == AttestAll(m, sub, pending).value[v].stored.envelope
      && r.value.approval.Encoded? && r.value.approval.envelope.approval.eventId == pending[v].event.externalId
      && r.value.approval.envelope.approval.approvalId == sub.approvalId
      && r.value.approval.envelope.approval.verdict
           == (if pending[v].event.eventType == PreTradeAccepted then ACCEPT else REJECT)
      && r.value.signed == !m.off
  {
    AttestedOneByOne(m, sub, pending);
    VerdictIsLast(m, sub, pending, v);
    AnswersTheLastVerdict(m, sub, pending, AttestAll(m, sub, pending).value[v]);
    VerdictSays(m, sub, pending[v]);
  }

  // The events a node records for a submit; settling are those of an immediate order's report.
  function NodeEvents(sub: Submission, settling: seq<EventType>): seq<EventType> {
    if !sub.result.accepted then [Submitted, PreTradeRejected]
    else [Submitted, PreTradeAccepted, Committed] + if sub.mode == IMMEDIATE then settling else []
  }

  predicate IsNodeRun(sub: Submission, pending: seq<Pending>, settling: seq<EventType>) {
    && (forall t | t in settling :: t == Filled || t == Charged)
    && |pending| == |NodeEvents(sub, settling)|
    && forall i | 0 <= i < |pending| :: pending[i].event.eventType == NodeEvents(sub, settling)[i]
  }

  lemma NodeRunHasOneVerdict(sub: Submission, pending: seq<Pending>, settling: seq<EventType>)
    requires IsNodeRun(sub, pending, settling)
    ensures |pending| > 1 && forall i | 0 <= i < |pending| :: CarriesVerdict(pending[i]) <==> i == 1
    ensures pending[1].event.eventType == if sub.result.accepted then PreTradeAccepted else PreTradeRejected
  {
    forall i | 3 <= i < |pending|
      ensures !CarriesVerdict(pending[i])
    {
      assert NodeEvents(sub, settling)[i] == settling[i - 3] && settling[i - 3] in settling;
    }
  }

  /**
   * So every submit a node records is answered with its own verdict, and fails only if some
   * event cannot be attested: no attested submit lacks its verdict, and the verdict answered
   * in words is the one the envelope signs.
   */
  lemma NodeSubmitAnswersItsVerdict(m: SigningMode, sub: Submission, pending: seq<Pending>, settling: seq<EventType>)
    requires sub.mode == HOLD || sub.mode == IMMEDIATE
    requires IsNodeRun(sub, pending, settling)
    ensures SubmitSpec(m, sub, pending).Ok? <==> AttestAll(m, sub, pending).Ok?
    ensures SubmitSpec(m, sub, pending).Ok? ==>
              var r := SubmitSpec(m, sub, pending).value;
              && r.approval.Encoded?
              && r.approval.envelope.approval.eventId == pending[1].event.externalId
              && r.approval.envelope.approval.verdict == r.verdict
  {
    NodeRunHasOneVerdict(sub, pending, settling);
    if AttestAll(m, sub, pending).Ok? {
      HandedBackIsTheVerdict(m, sub, pending, 1);
      VerdictIsLast(m, sub, pending, 1);
      AnswersTheLastVerdict(m, sub, pending, AttestAll(m, sub, pending).value[1]);
    }
  }

  /** What a request is answered with is what is stored beside its event. */
  lemma AnswerMatchesStored(signer: Signing.State, m: SigningMode, requestType: string, built: Payload, event: Event)
    requires Attest(signer, m, requestType, built, event).Ok?
    ensures
      var a := Attest(signer, m, requestType, built, event).value;
      && a.answer == Attestation(a.stored.envelope, a.stored.keyId, event.externalId, !m.off)
      && a.stored.keyId == if m.off then "" else m.keyId
  {
  }

  /**
   * What is stored beside an event is what its envelope says, the request type included. The
   * recorded key id is the one read when the request began, so it names the signing key
   * exactly when no rotation came between.
   */
  lemma StoredMatchesEnvelope(signer: Signing.State, m: SigningMode, requestType: string, built: Payload, event: Event)
    requires Attest(signer, m, requestType, built, event).Ok?
    ensures
      var a := Attest(signer, m, requestType, built, event).value;
      && a.stored.envelope.Encoded?
      && var env := a.stored.envelope.envelope;
      && a.stored.requestType == env.approval.requestType
      && a.stored.mode == env.approval.mode && a.stored.issuedAt == env.approval.issuedAt
      && a.stored.alg == env.approval.alg == env.alg
      && env.approval.eventId == event.externalId
      && (a.stored.keyId == env.approval.keyId <==>
            m.off || (signer.active.Some? && m.keyId == signer.active.value.keyId))
  {
  }

  // --- The confirm and cancel shortcut

  datatype OrderDetail = OrderDetail(order: Order, displayPrice: string, events: seq<Event>)

  function VerifyParamsFor(order: Order): VerifyParams {
    VerifyParams(BoundTerms(order), order.externalId, "", "")
  }

  predicate IsRecordedAccept(event: Event) {
    && event.eventType == PreTradeAccepted
    && event.attestation.Some? && event.attestation.value.envelope != Garbage("")
  }

  function FirstRecorded(events: seq<Event>): (r: Option<Event>)
    ensures r.Some? ==> r.value.attestation.Some?
  {
    if events == [] then None else if IsRecordedAccept(events[0]) then Some(events[0]) else FirstRecorded(events[1..])
  }

  function CheckVerdict(recorded: Event, payload: Payload): Result<Payload> {
    if payload.mode != HOLD then Err(ApprovalRequired) else
    if payload.verdict != ACCEPT then Err(ApprovalRequired) else
    if payload.requestType != SUBMIT || payload.result.Some? || payload.executionReport.Some?
       || payload.approvalRef != "" then Err(ApprovalRequired) else
    if payload.eventId == "" || payload.eventId != recorded.externalId then Err(ApprovalRequired) else
    Ok(payload)
  }

  function AuthorizeBy(order: Order, recorded: Event, signer: Signing.State, faults: Signing.ReadFaults): Result<Payload>
    requires recorded.attestation.Some?
  {
    match Signing.Verify(signer, recorded.attestation.value.envelope, VerifyParamsFor(order), faults)
    case Err(e) => Err(if e == Invalid || e == NotFound then ApprovalRequired else e)
    case Ok(verified) => CheckVerdict(recorded, verified.payload)
  }

  // venue answers whether the order is linked to a trading venue.
  function Authorize(
    detail: OrderDetail, venue: Result<bool>, signer: Signing.State, faults: Signing.ReadFaults): Result<Payload>
  {
    if venue.Err? then Err(venue.error) else
    if venue.value then Err(VenueOrderManaged) else
    if detail.order.dropCopy then Err(ApprovalRequired) else
    match FirstRecorded(detail.events)
    case None => Err(ApprovalRequired)
    case Some(recorded) => AuthorizeBy(detail.order, recorded, signer, faults)
  }

  /** authorizeShortcutSubmitVerdict: a scan for the first recorded accept, then the checks in order. */
  method AuthorizeShortcutSubmitVerdict(
    detail: OrderDetail, venue: Result<bool>, signer: Signing.Service, faults: Signing.ReadFaults)
    returns (r: Result<Payload>)
    ensures r == Authorize(detail, venue, signer.View(), faults)
  {
    if venue.Err? {
      return Err(venue.error);
    }
    if venue.value {
      return Err(VenueOrderManaged);
    }
    if detail.order.dropCopy {
      return Err(ApprovalRequired);
    }
    var events := detail.events;
    var i := 0;
    while i < |events| && !IsRecordedAccept(events[i])
      invariant i <= |events| && FirstRecorded(events) == FirstRecorded(events[i..])
    {
      assert events[i..][1..] == events[i + 1..];
      i := i + 1;
    }
    if i == |events| {
      return Err(ApprovalRequired);
    }
    var recorded := events[i];
    var verified := signer.VerifyEnvelope(
      recorded.attestation.value.envelope, VerifyParamsFor(detail.order), faults);
    if verified.Err? {
      return Err(if verified.error == Invalid || verified.error == NotFound then ApprovalRequired else verified.error);
    }
    return CheckVerdict(recorded, verified.value.payload);
  }

  // What an approval binds of an order, field by field.
  predicate SameTerms(a: Order, b: Order) {
    && a.baseAsset == b.baseAsset && a.quoteAsset == b.quoteAsset && a.side == b.side
    && a.amountValue == b.amountValue && a.amountKind == b.amountKind && a.price == b.price
    && a.account == b.account
  }

  lemma SameInstrument(a: Order, b: Order)
    requires a.baseAsset + "/" + a.quoteAsset == b.baseAsset + "/" + b.quoteAsset && a.quoteAsset == b.quoteAsset
    ensures a.baseAsset == b.baseAsset
  {
    assert |a.baseAsset| == |b.baseAsset|;
    assert a.baseAsset == (a.baseAsset + "/" + a.quoteAsset)[..|a.baseAsset|];
    assert b.baseAsset == (b.baseAsset + "/" + b.quoteAsset)[..|b.baseAsset|];
  }

  /** Two orders are bound alike exactly when they agree in those seven fields. */
  lemma BoundAlikeExactly(a: Order, b: Order)
    ensures BoundTerms(a) == BoundTerms(b) <==> SameTerms(a, b)
  {
    if BoundTerms(a) == BoundTerms(b) {
      SameInstrument(a, b);
    }
  }

  // The order is still the one that was submitted, in the fields an approval binds. An order
  // without an id, which none that is stored lacks, would not be compared by it.
  predicate SameBinding(order: Order, sub: Submission) {
    && (order.externalId != "" ==> order.externalId == sub.order.externalId)
    && SameTerms(order, sub.order.(account := sub.account))
  }

  // What the signing service must still say for an envelope attested under m to verify.
  predicate StillVouched(m: SigningMode, signer: Signing.State, later: Signing.State, faults: Signing.ReadFaults) {
    if m.off then later.noESign == Some("1") && !faults.setting
    else signer.active.Some? && (faults.list ==> Signing.Cached(later, signer.active.value.keyId))
  }

  lemma {:induction false} FirstRecordedIsFirst(events: seq<Event>, k: nat)
    requires k <= |events| && forall i | 0 <= i < k :: !IsRecordedAccept(events[i])
    ensures k < |events| && IsRecordedAccept(events[k]) ==> FirstRecorded(events) == Some(events[k])
    ensures k == |events| ==> FirstRecorded(events) == None
  {
    if k > 0 {
      FirstRecordedIsFirst(events[1..], k - 1);
    }
  }

  /**
   * The envelope of an accept event verifies against an order exactly when that agrees with the
   * submitted one in every bound field and the envelope is still vouched for.
   */
  lemma AcceptVerifies(
    m: SigningMode, sub: Submission, p: Pending, order: Order, later: Signing.State, faults: Signing.ReadFaults)
    requires AttestPending(m, sub, p).Ok? && p.event.eventType == PreTradeAccepted
    requires p.event.order == sub.order.externalId && Signing.Follows(p.signer, later)
    ensures
      var a := AttestPending(m, sub, p).value;
      var verified := Signing.Verify(later, a.stored.envelope, VerifyParamsFor(order), faults);
      && (verified.Ok? <==> SameBinding(order, sub) && StillVouched(m, p.signer, later, faults))
      && (verified.Ok? ==> verified.value.payload == a.stored.envelope.envelope.approval)
  {
    var payload := AttestPending(m, sub, p).value.payload;
    assert payload.terms == BoundTerms(sub.order.(account := sub.account)) && payload.orderId == p.event.order;
    BoundAlikeExactly(order, sub.order.(account := sub.account));
    if !m.off {
      Signing.HeldKeyVerifies(p.signer, payload, later, VerifyParamsFor(order), faults);
    }
  }

  // What the checks after verification see in an accept event's own payload.
  lemma AcceptPassesChecks(m: SigningMode, sub: Submission, p: Pending)
    requires AttestPending(m, sub, p).Ok? && p.event.eventType == PreTradeAccepted && p.event.externalId != ""
    ensures
      var stored := AttestPending(m, sub, p).value.stored;
      && stored.envelope.Encoded?
      && var approval := stored.envelope.envelope.approval;
      && approval.approvalId == sub.approvalId && approval.eventId == p.event.externalId
      && CheckVerdict(p.event, approval) == if sub.mode == HOLD then Ok(approval) else Err(ApprovalRequired)
  {
  }

  // Authorization by one recorded event, when its envelope verifies exactly under a condition.
  lemma AuthorizesIfVerified(
    order: Order, recorded: Event, later: Signing.State, faults: Signing.ReadFaults, approval: Payload, vouched: bool)
    requires recorded.attestation.Some?
    requires
      var verified := Signing.Verify(later, recorded.attestation.value.envelope, VerifyParamsFor(order), faults);
      (verified.Ok? <==> vouched) && (verified.Ok? ==> verified.value.payload == approval)
    ensures AuthorizeBy(order, recorded, later, faults).Ok? <==> vouched && CheckVerdict(recorded, approval).Ok?
    ensures AuthorizeBy(order, recorded, later, faults).Ok? ==>
              AuthorizeBy(order, recorded, later, faults) == CheckVerdict(recorded, approval)
  {
  }

  /**
   * As the recorded accept of an order, it authorizes exactly the order that was submitted, in
   * hold mode, while vouched for: not another amount, price, side, instrument or account.
   */
  lemma AcceptAuthorizes(
    m: SigningMode, sub: Submission, p: Pending, order: Order, later: Signing.State, faults: Signing.ReadFaults)
    requires AttestPending(m, sub, p).Ok? && p.event.eventType == PreTradeAccepted
    requires p.event.order == sub.order.externalId && p.event.externalId != ""
    requires Signing.Follows(p.signer, later)
    ensures
      var recorded := p.event.(attestation := Some(AttestPending(m, sub, p).value.stored));
      var r := AuthorizeBy(order, recorded, later, faults);
      && IsRecordedAccept(recorded)
      && (r.Ok? <==> SameBinding(order, sub) && sub.mode == HOLD && StillVouched(m, p.signer, later, faults))
      && (r.Ok? ==> r.value.approvalId == sub.approvalId && r.value.eventId == p.event.externalId)
  {
    var stored := AttestPending(m, sub, p).value.stored;
    AcceptPassesChecks(m, sub, p);
    AcceptVerifies(m, sub, p, order, later, faults);
    AuthorizesIfVerified(order, p.event.(attestation := Some(stored)), later, faults,
                         stored.envelope.envelope.approval,
                         SameBinding(order, sub) && StillVouched(m, p.signer, later, faults));
  }

  // A later event may have an accept's type, when a report sets the status accepted; its own
  // attestation then is of that report.
  predicate IsLater(event: Event) {
    IsRecordedAccept(event) && event.attestation.value.envelope.Encoded? ==>
      event.attestation.value.envelope.envelope.approval.requestType != SUBMIT
  }

  /** No such event authorizes anything. */
  lemma LaterNeverAuthorizes(order: Order, event: Event, later: Signing.State, faults: Signing.ReadFaults)
    requires IsRecordedAccept(event) && IsLater(event)
    ensures AuthorizeBy(order, event, later, faults).Err?
  {
  }

  // The first accept event of a submit's run, or its length.
  function FirstAccept(pending: seq<Pending>): (k: nat)
    ensures k <= |pending|
    ensures k < |pending| ==> pending[k].event.eventType == PreTradeAccepted
    ensures forall i | 0 <= i < k :: pending[i].event.eventType != PreTradeAccepted
  {
    if pending == [] || pending[0].event.eventType == PreTradeAccepted then 0 else 1 + FirstAccept(pending[1..])
  }

  lemma {:induction false} FirstRecordedIsOne(events: seq<Event>)
    ensures FirstRecorded(events).Some? ==> FirstRecorded(events).value in events
                                            && IsRecordedAccept(FirstRecorded(events).value)
  {
    if events != [] {
      FirstRecordedIsOne(events[1..]);
    }
  }

  lemma {:induction false} FirstRecordedAfter(events: seq<Event>, more: seq<Event>)
    requires forall e | e in events :: !IsRecordedAccept(e)
    ensures FirstRecorded(events + more) == FirstRecorded(more)
  {
    if events == [] {
      assert events + more == more;
    } else {
      assert (events + more)[1..] == events[1..] + more;
      FirstRecordedAfter(events[1..], more);
    }
  }

  lemma RecordedAcceptsAreAccepts(m: SigningMode, sub: Submission, p: Pending)
    requires AttestPending(m, sub, p).Ok?
    ensures IsRecordedAccept(p.event.(attestation := Some(AttestPending(m, sub, p).value.stored)))
            <==> p.event.eventType == PreTradeAccepted
  {
  }

  // Which events of a stored run are recorded accepts.
  lemma StoredAccepts(m: SigningMode, sub: Submission, pending: seq<Pending>)
    requires AttestAll(m, sub, pending).Ok? && |AttestAll(m, sub, pending).value| == |pending|
    ensures forall i | 0 <= i < |pending| ::
              IsRecordedAccept(Stored(pending, AttestAll(m, sub, pending).value)[i])
              <==> pending[i].event.eventType == PreTradeAccepted
  {
    AttestedOneByOne(m, sub, pending);
    forall i | 0 <= i < |pending|
      ensures IsRecordedAccept(Stored(pending, AttestAll(m, sub, pending).value)[i])
              <==> pending[i].event.eventType == PreTradeAccepted
    {
      RecordedAcceptsAreAccepts(m, sub, pending[i]);
    }
  }

  lemma FirstRecordedOfRun(m: SigningMode, sub: Submission, pending: seq<Pending>, more: seq<Event>)
    requires AttestAll(m, sub, pending).Ok? && |AttestAll(m, sub, pending).value| == |pending|
    requires FirstAccept(pending) < |pending|
    ensures FirstRecorded(Stored(pending, AttestAll(m, sub, pending).value) + more)
            == Some(Stored(pending, AttestAll(m, sub, pending).value)[FirstAccept(pending)])
  {
    StoredAccepts(m, sub, pending);
    FirstRecordedIsFirst(Stored(pending, AttestAll(m, sub, pending).value) + more, FirstAccept(pending));
  }

  lemma FirstRecordedAfterRun(m: SigningMode, sub: Submission, pending: seq<Pending>, more: seq<Event>)
    requires AttestAll(m, sub, pending).Ok? && |AttestAll(m, sub, pending).value| == |pending|
    requires FirstAccept(pending) == |pending|
    ensures FirstRecorded(Stored(pending, AttestAll(m, sub, pending).value) + more) == FirstRecorded(more)
  {
    StoredAccepts(m, sub, pending);
    FirstRecordedAfter(Stored(pending, AttestAll(m, sub, pending).value), more);
  }

  lemma StoredIsEncoded(m: SigningMode, sub: Submission, p: Pending)
    requires AttestPending(m, sub, p).Ok?
    ensures AttestPending(m, sub, p).value.stored.envelope.Encoded?
  {
  }

  lemma AuthorizesByFirstRecorded(
    detail: OrderDetail, venue: Result<bool>, later: Signing.State, faults: Signing.ReadFaults)
    ensures
      var r, recorded := Authorize(detail, venue, later, faults), FirstRecorded(detail.events);
      && (r.Ok? <==> venue == Ok(false) && !detail.order.dropCopy && recorded.Some?
                     && AuthorizeBy(detail.order, recorded.value, later, faults).Ok?)
      && (r.Ok? ==> r == AuthorizeBy(detail.order, recorded.value, later, faults))
  {
  }

  /**
   * End to end, over any submit and any later history of events and key rotations: the shortcut
   * accepts exactly the orders submitted in hold mode, accepted, unchanged in every bound field,
   * not drop-copy and not linked to a venue, and what it answers with is that submit's own
   * approval. An unsigned approval counts only while eSign is still off.
   */
  lemma ShortcutAcceptsExactly(
    m: SigningMode, sub: Submission, pending: seq<Pending>, order: Order, displayPrice: string,
    more: seq<Event>, venue: Result<bool>, later: Signing.State, faults: Signing.ReadFaults)
    requires sub.mode == HOLD || sub.mode == IMMEDIATE
    requires AttestAll(m, sub, pending).Ok? && |AttestAll(m, sub, pending).value| == |pending|
    requires forall p | p in pending ::
               p.event.order == sub.order.externalId && p.event.externalId != "" && Signing.Follows(p.signer, later)
    requires forall e | e in more :: IsLater(e)
    ensures
      var events := Stored(pending, AttestAll(m, sub, pending).value) + more;
      var k := FirstAccept(pending);
      var r := Authorize(OrderDetail(order, displayPrice, events), venue, later, faults);
      && (r.Ok? <==>
            && venue == Ok(false) && !order.dropCopy && sub.mode == HOLD && SameBinding(order, sub)
            && k < |pending| && StillVouched(m, pending[k].signer, later, faults))
      && (r.Ok? ==> r.value.approvalId == sub.approvalId && r.value.eventId == pending[k].event.externalId)
  {
    var events := Stored(pending, AttestAll(m, sub, pending).value) + more;
    AttestedOneByOne(m, sub, pending);
    AuthorizesByFirstRecorded(OrderDetail(order, displayPrice, events), venue, later, faults);
    var k := FirstAccept(pending);
    if k < |pending| {
      assert pending[k] in pending;
      FirstRecordedOfRun(m, sub, pending, more);
      AcceptAuthorizes(m, sub, pending[k], order, later, faults);
    } else {
      FirstRecordedAfterRun(m, sub, pending, more);
      if FirstRecorded(more).Some? {
        FirstRecordedIsOne(more);
        LaterNeverAuthorizes(order, FirstRecorded(more).value, later, faults);
      }
    }
  }

  // What an approval must say to authorize by the event that carries it.
  predicate IsHoldAccept(approval: Payload, eventId: string) {
    && approval.mode == HOLD && approval.verdict == ACCEPT && approval.requestType == SUBMIT
    && approval.result == None && approval.executionReport == None && approval.approvalRef == ""
    && approval.eventId == eventId && eventId != ""
  }

  /**
   * For any recorded events at all: what authorizes is the first recorded accept's own approval,
   * verified against the order, and only as the hold-mode accept of a submit that names its own
   * event. Every refusal reads as a missing approval, but for a venue order and for a failure
   * that is not the approval's.
   */
  lemma AuthorizesExactly(detail: OrderDetail, venue: Result<bool>, signer: Signing.State, faults: Signing.ReadFaults)
    ensures
      var r, recorded := Authorize(detail, venue, signer, faults), FirstRecorded(detail.events);
      if venue != Ok(false) then r == Err(if venue.Ok? then VenueOrderManaged else venue.error)
      else if detail.order.dropCopy || recorded == None then r == Err(ApprovalRequired)
      else
        var verified :=
          Signing.Verify(signer, recorded.value.attestation.value.envelope, VerifyParamsFor(detail.order), faults);
        && (r.Ok? <==> verified.Ok? && IsHoldAccept(verified.value.payload, recorded.value.externalId))
        && (r.Ok? ==> r.value == verified.value.payload)
        && (r.Err? ==>
              r.error == if verified.Ok? || verified.error in {Invalid, NotFound} then ApprovalRequired
                         else verified.error)
  {
  }

  // The approval names this order's fields.
  predicate Names(approval: Payload, order: Order) {
    && approval.terms.instrument == order.baseAsset + "/" + order.quoteAsset
    && approval.terms.side == order.side
    && approval.terms.quantity == order.amountValue && approval.terms.amountKind == order.amountKind
    && approval.terms.limitPrice == order.price && approval.terms.priceCurrency == order.quoteAsset
    && approval.terms.orderType == (if order.price == "" then "market" else "limit")
    && approval.terms.accountId == order.account
    && (order.externalId != "" ==> approval.orderId == order.externalId)
  }

  /** Once a bound field differs, the order id or a renamed account code included, no recorded accept authorizes. */
  lemma ChangedBindingIsRefused(
    detail: OrderDetail, venue: Result<bool>, later: Signing.State, faults: Signing.ReadFaults)
    requires FirstRecorded(detail.events).Some?
    requires var envelope := FirstRecorded(detail.events).value.attestation.value.envelope;
             envelope.Encoded? && !Names(envelope.envelope.approval, detail.order)
    ensures Authorize(detail, venue, later, faults).Err?
  {
  }
}
