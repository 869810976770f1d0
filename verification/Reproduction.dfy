/** Reproducing what a request was answered (httpapi/httpapi_orders.go). */
module Reproduction {
  import opened Domain
  import opened Envelopes
  import opened Approval
  import opened Reports
  import Submit
  import Outcomes
  import Signing

  datatype OrderDto = OrderDto(
    id: string, account: string, principal: string, baseAsset: string, quoteAsset: string, side: string,
    amountKind: string, amountValue: string, commissions: seq<Commission>, leaves: string, price: string,
    status: string, displayPrice: string, dropCopy: bool, signed: bool)

  datatype OrderMutation = OrderMutation(order: OrderDto, attestation: Wire, keyId: string, signed: bool)

  datatype Response =
    | NoFacet
    | SubmitResponse(approval: Wire, keyId: string, orderId: string, verdict: string, reasons: seq<Reject>)
    | ReportResponse(
        id: string, blocks: seq<Block>, outcomes: seq<Outcomes.BalanceOutcome>, attestation: Wire,
        attestationKeyId: string, signed: bool)
    | ConfirmResponse(order: OrderMutation)
    | CancelResponse(order: OrderMutation)

  datatype Request = Request(
    requestType: string, orderId: string, eventId: string, terms: Terms, verdict: string,
    rejects: seq<Reject>, executionReport: Option<Report>, result: Option<Outcome>)

  datatype PublicKey = PublicKey(keyId: string, alg: string, key: Public)

  datatype Bundle = Bundle(
    event: Event, signed: bool, noESign: bool, alg: string, requestType: string,
    attestation: Option<EventAttestation>, request: Option<Request>, response: Option<Response>,
    canonicalApproval: Option<Payload>, signature: Option<SignatureText>, publicKey: Option<PublicKey>,
    reason: string)

  const NO_ATTESTATION := "event has no persisted attestation envelope"
  const UNDECODABLE := "persisted attestation envelope could not be decoded"

  predicate AttestationSigned(att: Option<EventAttestation>) {
    att.Some? && att.value.alg == ED25519
  }

  // OrderDetail.Signed: the order-level rollup.
  predicate Signed(events: seq<Event>) {
    exists i :: 0 <= i < |events| && AttestationSigned(events[i].attestation)
  }

  function ToOrderDto(o: Order, displayPrice: string, signed: bool): OrderDto {
    OrderDto(o.externalId, o.account, o.principal, o.baseAsset, o.quoteAsset, o.side, o.amountKind, o.amountValue,
             o.commissions, o.leaves, o.price, o.status, displayPrice, o.dropCopy, signed)
  }

  function ToRequest(p: Payload): Option<Request> {
    if p.requestType == "" then None else
    Some(Request(p.requestType, p.orderId, p.eventId, p.terms, p.verdict, p.rejects, p.executionReport, p.result))
  }

  function SubmitReasons(p: Payload): seq<Reject> {
    if p.verdict != REJECT then []
    else if p.rejects != [] then p.rejects
    else if p.reject == NO_REJECT then []
    else [p.reject]
  }

  // The persisted order with the account, status and open quantity the request attested.
  function OrderMutationFrom(detail: OrderDetail, att: EventAttestation, p: Payload): OrderMutation {
    var order := detail.order.(
      account := p.terms.accountId,
      status := if p.result.Some? then p.result.value.orderStatus else "",
      leaves := if p.result.Some? then p.result.value.leavesQuantity else "",
      commissions := []);
    OrderMutation(ToOrderDto(order, detail.displayPrice, Signed(detail.events)),
                  att.envelope, att.keyId, AttestationSigned(Some(att)))
  }

  function ToResponse(event: Event, through: OrderDetail, att: EventAttestation, p: Payload): Response {
    if att.requestType == SUBMIT then
      SubmitResponse(att.envelope, att.keyId, event.order, p.verdict, SubmitReasons(p))
    else if att.requestType == EXECUTION_REPORT then
      ReportResponse(if event.report.Some? then event.report.value.externalId else "",
                     if p.result.Some? then p.result.value.blocks else [], [],
                     att.envelope, att.keyId, AttestationSigned(Some(att)))
    else if att.requestType == CONFIRM then ConfirmResponse(OrderMutationFrom(through, att, p))
    else if att.requestType == CANCEL then CancelResponse(OrderMutationFrom(through, att, p))
    else NoFacet
  }

  // What the reproduction reads beside the order.
  datatype Context = Context(noESign: Result<bool>, signer: Signing.State, listFails: bool)

  function Reproduce(ctx: Context, detail: OrderDetail, index: nat): Result<Bundle>
    requires index < |detail.events|
  {
    var event := detail.events[index];
    var through := detail.(events := detail.events[..index + 1]);
    match ctx.noESign
    case Err(e) => Err(e)
    case Ok(off) =>
      var bare := Bundle(event, AttestationSigned(event.attestation), off, "", "",
                         None, None, None, None, None, None, NO_ATTESTATION);
      match event.attestation
      case None => Ok(bare)
      case Some(att) =>
        var named := bare.(requestType := att.requestType, alg := att.alg, attestation := Some(att));
        if att.envelope.Garbage? then Ok(named.(reason := UNDECODABLE)) else
        var env := att.envelope.envelope;
        var full := named.(
          reason := "", request := ToRequest(env.approval),
          response := Some(ToResponse(event, through, att, env.approval)),
          canonicalApproval := Some(env.approval), signature := Some(env.signature));
        if env.approval.alg != ED25519 || env.keyId == "" then Ok(full) else
        match Signing.PublicKeyFor(ctx.signer, env.keyId, ctx.listFails)
        case Err(e) => Err(e)
        case Ok(pub) => Ok(full.(publicKey := Some(PublicKey(env.keyId, env.approval.alg, pub))))
  }

  /** buildEventReproduction: the bundle is filled field by field. */
  method BuildEventReproduction(ctx: Context, detail: OrderDetail, index: nat) returns (r: Result<Bundle>)
    requires index < |detail.events|
    ensures r == Reproduce(ctx, detail, index)
  {
    var event := detail.events[index];
    var through := detail.(events := detail.events[..index + 1]);
    var bundle := Bundle(event, AttestationSigned(event.attestation), false, "", "",
                         None, None, None, None, None, None, "");
    if ctx.noESign.Err? {
      return Err(ctx.noESign.error);
    }
    bundle := bundle.(noESign := ctx.noESign.value);
    if event.attestation.None? {
      return Ok(bundle.(reason := NO_ATTESTATION));
    }
    var att := event.attestation.value;
    bundle := bundle.(requestType := att.requestType);
    bundle := bundle.(alg := att.alg);
    bundle := bundle.(attestation := Some(att));
    if att.envelope.Garbage? {
      return Ok(bundle.(reason := UNDECODABLE));
    }
    var env := att.envelope.envelope;
    bundle := bundle.(request := ToRequest(env.approval));
    bundle := bundle.(response := Some(ToResponse(event, through, att, env.approval)));
    bundle := bundle.(canonicalApproval := Some(env.approval));
    bundle := bundle.(signature := Some(env.signature));
    if env.approval.alg == ED25519 && env.keyId != "" {
      var pub := Signing.PublicKeyFor(ctx.signer, env.keyId, ctx.listFails);
      if pub.Err? {
        return Err(pub.error);
      }
      bundle := bundle.(publicKey := Some(PublicKey(env.keyId, env.approval.alg, pub.value)));
    }
    return Ok(bundle);
  }

  // The order may have changed its status, open quantity, commissions and account code.
  predicate SameRequest(a: Order, b: Order) {
    a == b.(account := a.account, status := a.status, leaves := a.leaves, commissions := a.commissions)
  }

  lemma PublicKeyIsKept(signer: Signing.State, later: Signing.State, keyId: string)
    requires Signing.Follows(signer, later) && Signing.PublicKeyFor(signer, keyId, false).Ok?
    ensures Signing.PublicKeyFor(later, keyId, false) == Signing.PublicKeyFor(signer, keyId, false)
  {
    var pub := Signing.PublicKeyFor(signer, keyId, false).value;
    assert Signing.Holds(signer.rows, keyId, pub);
    assert Signing.Holds(later.rows, keyId, pub);
  }

  /**
   * The reproduction of an event never changes: not by events recorded later, not by the order
   * moving on to another status, open quantity, commission or account code, and not by any
   * later history of the signing keys, the public key it names included.
   */
  lemma ReproductionNeverChanges(
    off: bool, signer: Signing.State, detail: OrderDetail, later: Signing.State, laterDetail: OrderDetail, index: nat)
    requires index < |detail.events| && detail.events <= laterDetail.events
    requires SameRequest(detail.order, laterDetail.order) && detail.displayPrice == laterDetail.displayPrice
    requires Signing.Follows(signer, later)
    requires Reproduce(Context(Ok(off), signer, false), detail, index).Ok?
    ensures Reproduce(Context(Ok(off), later, false), laterDetail, index)
            == Reproduce(Context(Ok(off), signer, false), detail, index)
  {
    assert laterDetail.events[..index + 1] == detail.events[..index + 1];
    var event := detail.events[index];
    if event.attestation.Some? && event.attestation.value.envelope.Encoded? {
      var env := event.attestation.value.envelope.envelope;
      if env.approval.alg == ED25519 && env.keyId != "" {
        PublicKeyIsKept(signer, later, env.keyId);
      }
    }
  }

  // The wire form of a submit's live answer.
  function LiveSubmitResponse(a: SignedApproval): Response {
    SubmitResponse(a.approval, a.keyId, a.orderId, a.verdict, a.reasons)
  }

  /** The reasons a live answer and its reproduction give agree exactly when a reject names at least one. */
  lemma ReasonsAgreeExactly(m: SigningMode, sub: Submission, p: Pending)
    requires AttestPending(m, sub, p).Ok? && CarriesVerdict(p)
    ensures
      var payload := AttestPending(m, sub, p).value.payload;
      RejectReasons(payload, sub.result.rejects) == SubmitReasons(payload) <==>
        p.event.eventType == PreTradeAccepted || sub.result.rejects != []
  {
  }

  lemma VerdictResponse(m: SigningMode, sub: Submission, p: Pending, through: OrderDetail)
    requires AttestPending(m, sub, p).Ok? && CarriesVerdict(p) && p.event.order == sub.order.externalId
    requires sub.result.accepted <==> p.event.eventType == PreTradeAccepted
    ensures
      var a := AttestPending(m, sub, p).value;
      && a.stored.envelope.Encoded?
      && (ToResponse(p.event.(attestation := Some(a.stored)), through, a.stored, a.stored.envelope.envelope.approval)
            == LiveSubmitResponse(ApprovalFrom(sub, a))
          <==> sub.result.accepted || sub.result.rejects != [])
  {
    ReasonsAgreeExactly(m, sub, p);
    var a := AttestPending(m, sub, p).value;
    assert a.stored.requestType == SUBMIT;
    assert SubmitReasons(a.stored.envelope.envelope.approval) == SubmitReasons(a.payload);
  }

  lemma ResponseOf(ctx: Context, detail: OrderDetail, index: nat)
    requires index < |detail.events| && Reproduce(ctx, detail, index).Ok?
    requires detail.events[index].attestation.Some? && detail.events[index].attestation.value.envelope.Encoded?
    ensures
      var att := detail.events[index].attestation.value;
      Reproduce(ctx, detail, index).value.response
        == Some(ToResponse(detail.events[index], detail.(events := detail.events[..index + 1]), att,
                           att.envelope.envelope.approval))
  {
  }

  /**
   * Reproducing the verdict event of a submit gives back the very answer the submit gave,
   * exactly when the engine accepted or named a reason. A reject that names none is answered
   * with one blank reason and reproduced with none.
   */
  lemma SubmitIsReproducedExactly(
    m: SigningMode, sub: Submission, pending: seq<Pending>, v: nat, ctx: Context, order: Order, displayPrice: string)
    requires sub.mode == HOLD || sub.mode == IMMEDIATE
    requires AttestAll(m, sub, pending).Ok? && |AttestAll(m, sub, pending).value| == |pending|
    requires v < |pending| && CarriesVerdict(pending[v]) && pending[v].event.order == sub.order.externalId
    requires forall i | 0 <= i < |pending| && i != v :: !CarriesVerdict(pending[i])
    requires sub.result.accepted <==> pending[v].event.eventType == PreTradeAccepted
    requires
      var detail := OrderDetail(order, displayPrice, Stored(pending, AttestAll(m, sub, pending).value));
      Reproduce(ctx, detail, v).Ok?
    ensures
      var detail := OrderDetail(order, displayPrice, Stored(pending, AttestAll(m, sub, pending).value));
      && SubmitSpec(m, sub, pending).Ok?
      && (Reproduce(ctx, detail, v).value.response == Some(LiveSubmitResponse(SubmitSpec(m, sub, pending).value))
          <==> sub.result.accepted || sub.result.rejects != [])
  {
    var attested := AttestAll(m, sub, pending).value;
    var detail := OrderDetail(order, displayPrice, Stored(pending, attested));
    VerdictIsLast(m, sub, pending, v);
    assert SubmitSpec(m, sub, pending) == Ok(ApprovalFrom(sub, attested[v]));
    assert detail.events[v] == pending[v].event.(attestation := Some(attested[v].stored));
    StoredIsEncoded(m, sub, pending[v]);
    ResponseOf(ctx, detail, v);
    VerdictResponse(m, sub, pending[v], detail.(events := detail.events[..v + 1]));
  }

  /** The node refuses a rejection without a reason, so whatever it answers a submit is reproduced exactly. */
  lemma NodeSubmitIsReproduced(
    signer: Signing.State, faults: Signing.ReadFaults, request: Submit.Request, around: Submit.Surroundings,
    ctx: Context, order: Order, displayPrice: string)
    requires Submit.Answer(signer, faults, request, around).answer.Ok?
    requires |Submit.Answer(signer, faults, request, around).events| > 1
    requires
      var detail := OrderDetail(order, displayPrice, Submit.Answer(signer, faults, request, around).events);
      Reproduce(ctx, detail, 1).Ok?
    ensures
      var reply := Submit.Answer(signer, faults, request, around);
      Reproduce(ctx, OrderDetail(order, displayPrice, reply.events), 1).value.response
        == Some(LiveSubmitResponse(reply.answer.value))
  {
    Submit.SucceededRun(signer, faults, request, around);
    var m, sub := ModeOf(signer, faults).value, Submit.Made(request, around);
    var pending := Submit.NodeRun(sub, Submit.Asked(request, around));
    NodeRunHasOneVerdict(sub, pending, Submit.Settling(sub.result));
    SubmitIsReproducedExactly(m, sub, pending, 1, ctx, order, displayPrice);
  }

  /**
   * A confirmation is reproduced as it was answered, whatever the order became since, exactly
   * when the order it answered had no commission yet.
   */
  lemma ConfirmIsReproducedExactly(
    signer: Signing.State, m: SigningMode, confirmed: Order, approvalRef: string, stamp: Stamp, event: Event,
    before: seq<Event>, displayPrice: string, now: Order, more: seq<Event>)
    requires SameRequest(confirmed, now)
    requires Attest(signer, m, CONFIRM, LifecyclePayload(confirmed, CONFIRM, "confirmed", approvalRef, stamp), event).Ok?
    ensures
      var a := Attest(signer, m, CONFIRM,
                      LifecyclePayload(confirmed, CONFIRM, "confirmed", approvalRef, stamp), event).value;
      var recorded := event.(attestation := Some(a.stored));
      var answered := OrderMutation(ToOrderDto(confirmed, displayPrice, Signed(before + [recorded])),
                                    a.answer.envelope, a.answer.keyId, a.answer.signed);
      var through := OrderDetail(now, displayPrice, (before + [recorded] + more)[..|before| + 1]);
      && a.stored.envelope.Encoded?
      && (ToResponse(recorded, through, a.stored, a.stored.envelope.envelope.approval) == ConfirmResponse(answered)
          <==> confirmed.commissions == [])
  {
    var a := Attest(signer, m, CONFIRM,
                    LifecyclePayload(confirmed, CONFIRM, "confirmed", approvalRef, stamp), event).value;
    var recorded := event.(attestation := Some(a.stored));
    assert (before + [recorded] + more)[..|before| + 1] == before + [recorded];
  }

  // A cancellation's live answer: the order with the status and open quantity it now records.
  function CancelledOrder(stored: Order, leaves: string): Order {
    stored.(status := CANCELLED, leaves := if leaves != "" then leaves else stored.leaves)
  }

  lemma CancelAttests(
    signer: Signing.State, m: SigningMode, stored: Order, approvalRef: string, reason: string, event: Event,
    stamp: Stamp, built: Payload)
    requires event.report.Some? && event.report.value.orderStatus == CANCELLED
    requires CancelPayload(stored, approvalRef, reason, event, Some(stamp)) == Ok(Some(built))
    requires Attest(signer, m, CANCEL, built, event).Ok?
    ensures
      var a := Attest(signer, m, CANCEL, built, event).value;
      && a.stored.requestType == CANCEL && a.stored.keyId == a.answer.keyId
      && AttestationSigned(Some(a.stored)) == a.answer.signed
      && a.stored.envelope.Encoded? && a.stored.envelope == a.answer.envelope
      && var approval := a.stored.envelope.envelope.approval;
      && approval.terms.accountId == stored.account && approval.result.Some?
      && approval.result.value.orderStatus == CANCELLED
      && approval.result.value.leavesQuantity == event.report.value.leaves
  {
  }

  // A reproduced order is the one answered exactly when open quantity and commissions agree.
  lemma MutationAgrees(answered: Order, through: OrderDetail, att: EventAttestation, p: Payload, answer: Attestation)
    requires SameRequest(answered, through.order) && p.terms.accountId == answered.account
    requires p.result.Some? && p.result.value.orderStatus == answered.status
    requires answer.envelope == att.envelope && answer.keyId == att.keyId
    requires answer.signed == AttestationSigned(Some(att))
    ensures
      OrderMutationFrom(through, att, p)
        == OrderMutation(ToOrderDto(answered, through.displayPrice, Signed(through.events)),
                         answer.envelope, answer.keyId, answer.signed)
      <==> answered.commissions == [] && p.result.value.leavesQuantity == answered.leaves
  {
  }

  /**
   * A cancellation is reproduced as it was answered exactly when the order had no commission
   * and the caller gave the open quantity, or none was recorded: without it the answer shows
   * the order's own and the reproduction none.
   */
  lemma CancelIsReproducedExactly(
    signer: Signing.State, m: SigningMode, stored: Order, approvalRef: string, reason: string, event: Event,
    stamp: Stamp, built: Payload, before: seq<Event>, displayPrice: string, now: Order, more: seq<Event>)
    requires SameRequest(stored, now)
    requires event.report.Some? && event.report.value.orderStatus == CANCELLED
    requires CancelPayload(stored, approvalRef, reason, event, Some(stamp)) == Ok(Some(built))
    requires Attest(signer, m, CANCEL, built, event).Ok?
    ensures
      var leaves := event.report.value.leaves;
      var a := Attest(signer, m, CANCEL, built, event).value;
      var recorded := event.(attestation := Some(a.stored));
      var dto := ToOrderDto(CancelledOrder(stored, leaves), displayPrice, Signed(before + [recorded]));
      var answered := OrderMutation(dto, a.answer.envelope, a.answer.keyId, a.answer.signed);
      var through := OrderDetail(now, displayPrice, (before + [recorded] + more)[..|before| + 1]);
      && a.stored.envelope.Encoded?
      && (ToResponse(recorded, through, a.stored, a.stored.envelope.envelope.approval) == CancelResponse(answered)
          <==> stored.commissions == [] && (leaves != "" || stored.leaves == ""))
  {
    CancelAttests(signer, m, stored, approvalRef, reason, event, stamp, built);
    var a := Attest(signer, m, CANCEL, built, event).value;
    var recorded := event.(attestation := Some(a.stored));
    assert (before + [recorded] + more)[..|before| + 1] == before + [recorded];
    MutationAgrees(CancelledOrder(stored, event.report.value.leaves),
                   OrderDetail(now, displayPrice, before + [recorded]),
                   a.stored, a.stored.envelope.envelope.approval, a.answer);
  }

  // The wire form of a report's live answer.
  function LiveReportResponse(
    id: string, blocks: seq<Block>, outcomes: seq<Outcomes.BalanceOutcome>, answer: Attestation): Response
  {
    ReportResponse(id, blocks, outcomes, answer.envelope, answer.keyId, answer.signed)
  }

  lemma ReportResponseOf(m: SigningMode, order: Order, target: string, p: Pending, through: OrderDetail)
    requires AttestReport(m, order, target, p).Ok? && p.event.report.Some?
    ensures
      var a := AttestReport(m, order, target, p).value;
      && a.stored.envelope.Encoded?
      && ToResponse(p.event.(attestation := Some(a.stored)), through, a.stored, a.stored.envelope.envelope.approval)
         == LiveReportResponse(p.event.report.value.externalId, RecordedBlocks(order.account, p.event), [], a.answer)
  {
  }

  /**
   * Reproducing the event whose attestation a report handed back gives that report's answer
   * exactly when the answer had no balance outcome and no block but the one the event records.
   * The events an engine builds record none, whatever it blocked.
   */
  lemma ReportIsReproducedExactly(
    m: SigningMode, order: Order, target: string, pending: seq<Pending>, report: Report,
    blocks: seq<Block>, outcomes: seq<Outcomes.BalanceOutcome>, ctx: Context, detail: OrderDetail, index: nat)
    requires IsReportRun(pending, report) && AttestReports(m, order, target, pending).Ok?
    requires |AttestReports(m, order, target, pending).value| == |pending| && index < |detail.events|
    requires detail.events[index] == Stored(pending, AttestReports(m, order, target, pending).value)[0]
    requires Reproduce(ctx, detail, index).Ok?
    ensures
      var handed := HandedBack(AttestReports(m, order, target, pending).value);
      && handed.Some?
      && (Reproduce(ctx, detail, index).value.response
            == Some(LiveReportResponse(report.externalId, blocks, outcomes, handed.value.answer))
          <==> outcomes == [] && blocks == RecordedBlocks(order.account, pending[0].event))
    ensures pending[0].event.reject == NO_REJECT ==> RecordedBlocks(order.account, pending[0].event) == []
  {
    ReportHandsBackItsFirst(m, order, target, pending, report);
    ReportsOneByOne(m, order, target, pending);
    assert pending[0] in pending;
    ReportResponseOf(m, order, target, pending[0], detail.(events := detail.events[..index + 1]));
    ResponseOf(ctx, detail, index);
  }

  // A bundle without anything that is read off an envelope.
  predicate Bare(b: Bundle) {
    b.request == None && b.response == None && b.canonicalApproval == None && b.signature == None && b.publicKey == None
  }

  // The request a payload records, field by field.
  predicate RequestOf(r: Option<Request>, p: Payload) {
    (r.None? <==> p.requestType == "")
    && (r.Some? ==>
          && r.value.requestType == p.requestType && r.value.orderId == p.orderId && r.value.eventId == p.eventId
          && r.value.terms == p.terms && r.value.verdict == p.verdict && r.value.rejects == p.rejects
          && r.value.executionReport == p.executionReport && r.value.result == p.result)
  }

  /**
   * What a bundle shows of an event: without an attestation nothing but the reason; with one its
   * own type, algorithm and text; and if that decodes, the very payload and signature in it, the
   * request it records, and the public key it names if it is signed. It fails exactly when the
   * flag cannot be read or that key cannot be found.
   */
  lemma BundleShowsExactly(ctx: Context, detail: OrderDetail, index: nat)
    requires index < |detail.events|
    ensures
      var r, event := Reproduce(ctx, detail, index), detail.events[index];
      if ctx.noESign.Err? then r == Err(ctx.noESign.error)
      else if event.attestation == None then
        r.Ok? && Bare(r.value) && r.value.event == event && r.value.noESign == ctx.noESign.value
        && !r.value.signed && r.value.requestType == r.value.alg == "" && r.value.reason == NO_ATTESTATION
      else
        var att := event.attestation.value;
        (r.Ok? ==>
           && r.value.event == event && r.value.noESign == ctx.noESign.value && r.value.attestation == Some(att)
           && r.value.requestType == att.requestType && r.value.alg == att.alg
           && (r.value.signed <==> att.alg == ED25519))
        && if att.envelope.Garbage? then r.Ok? && Bare(r.value) && r.value.reason == UNDECODABLE
           else ShowsEnvelope(r, att.envelope.envelope, ctx)
  {
  }

  predicate ShowsEnvelope(r: Result<Bundle>, env: Envelope, ctx: Context) {
    var named := env.approval.alg == ED25519 && env.keyId != "";
    var key := Signing.PublicKeyFor(ctx.signer, env.keyId, ctx.listFails);
    && (r.Ok? <==> named ==> key.Ok?) && (r.Err? ==> key == Err(r.error))
    && (r.Ok? ==>
          && r.value.canonicalApproval == Some(env.approval) && r.value.signature == Some(env.signature)
          && RequestOf(r.value.request, env.approval) && r.value.response.Some? && r.value.reason == ""
          && (r.value.publicKey.Some? <==> named)
          && (named ==> r.value.publicKey == Some(PublicKey(env.keyId, ED25519, key.value))))
  }

  /**
   * The bundle of a signed event proves itself, whatever became of the keys since: the public key
   * it shows is the one that holds for the signature it shows over the payload it shows.
   */
  lemma SignedBundleVerifies(
    signer: Signing.State, m: SigningMode, requestType: string, built: Payload, event: Event,
    ctx: Context, detail: OrderDetail, index: nat)
    requires !m.off && Attest(signer, m, requestType, built, event).Ok? && Signing.Follows(signer, ctx.signer)
    requires index < |detail.events| && detail.events[index] ==
               event.(attestation := Some(Attest(signer, m, requestType, built, event).value.stored))
    requires Reproduce(ctx, detail, index).Ok?
    ensures
      var b := Reproduce(ctx, detail, index).value;
      && b.publicKey.Some? && b.canonicalApproval.Some? && b.signature.Some? && b.signature.value.Decoded?
      && SignatureHolds(b.publicKey.value.key, b.canonicalApproval.value, b.signature.value.sig)
      && b.publicKey.value.keyId == b.canonicalApproval.value.keyId
      && b.canonicalApproval.value.eventId == event.externalId
  {
    var a := Attest(signer, m, requestType, built, event).value;
    Signing.HeldKeyVerifies(signer, a.payload, ctx.signer, VerifyParams(a.payload.terms, "", "", ""),
                            Signing.ReadFaults(ctx.listFails, false));
    BundleShowsExactly(ctx, detail, index);
  }

  // The wire form of an order shows its own fields.
  predicate ShowsOrder(dto: OrderDto, o: Order) {
    && dto.id == o.externalId && dto.account == o.account && dto.principal == o.principal
    && dto.baseAsset == o.baseAsset && dto.quoteAsset == o.quoteAsset && dto.side == o.side
    && dto.amountKind == o.amountKind && dto.amountValue == o.amountValue && dto.price == o.price
    && dto.leaves == o.leaves && dto.status == o.status && dto.commissions == o.commissions
    && dto.dropCopy == o.dropCopy
  }

  // An order is shown as signed when some event of it is.
  ghost predicate ShowsHistory(dto: OrderDto, detail: OrderDetail) {
    && dto.displayPrice == detail.displayPrice
    && (dto.signed <==>
          exists e :: e in detail.events && e.attestation.Some? && e.attestation.value.alg == ED25519)
  }

  /**
   * What a reproduced confirm or cancel answer shows: the order's own fields, but for the account,
   * status and open quantity the envelope attests and no commissions; and the envelope itself.
   */
  lemma MutationShowsExactly(detail: OrderDetail, att: EventAttestation, p: Payload)
    requires p.result.Some?
    ensures
      var r, result := OrderMutationFrom(detail, att, p), p.result.value;
      && ShowsOrder(r.order, detail.order.(account := p.terms.accountId, status := result.orderStatus,
                                           leaves := result.leavesQuantity, commissions := []))
      && ShowsHistory(r.order, detail)
      && r.attestation == att.envelope && r.keyId == att.keyId && (r.signed <==> att.alg == ED25519)
  {
    if Signed(detail.events) {
      var i :| 0 <= i < |detail.events| && AttestationSigned(detail.events[i].attestation);
      assert detail.events[i] in detail.events;
    }
  }

  /** The wire form of a live submit or report answer shows each of its own parts. */
  lemma LiveAnswersShow(
    a: SignedApproval, id: string, blocks: seq<Block>, outcomes: seq<Outcomes.BalanceOutcome>, answer: Attestation)
    ensures
      var r, q := LiveSubmitResponse(a), LiveReportResponse(id, blocks, outcomes, answer);
      && r.approval == a.approval && r.keyId == a.keyId && r.orderId == a.orderId && r.verdict == a.verdict
      && r.reasons == a.reasons
      && q.id == id && q.blocks == blocks && q.outcomes == outcomes && q.attestation == answer.envelope
      && q.attestationKeyId == answer.keyId && (q.signed <==> answer.signed)
  {
  }
}
