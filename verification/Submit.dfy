/** A signed submit, from the request to its answer (framework/backend/approval.go, framework/node/local_orders.go). */
module Submit {
  import opened Domain
  import opened Envelopes
  import opened Approval
  import Signing

  const CREATE := "create"
  const REFUSE := "reject"

  // missing is the caller's choice for an account that does not exist yet.
  datatype Request = Request(order: Order, mode: string, missing: string)

  // What an event meets while it is recorded: its id, its stamp and the signing service.
  datatype Mark = Mark(eventId: string, stamp: Option<Stamp>, signer: Signing.State)

  // The node fails before the engine answers; or the engine answers and the run of events is
  // recorded in one transaction, which the store can fail, and audited, which can fail after it.
  datatype NodeAnswer =
    | Refuses(error: Error)
    | Decides(
        orderId: string, result: EngineResult, report: Option<Report>, marks: nat -> Mark,
        storeFails: bool, auditFails: bool)

  // Who calls, the caller's account scope, the rule for account codes, whether a signer is
  // configured, the random approval id, and the node, asked with an order and a missing policy.
  datatype Surroundings = Surroundings(
    caller: Result<string>, scopeAccount: string -> Result<string>, scopeMissing: string -> Result<string>,
    wellFormed: string -> bool, signerConfigured: bool, approvalId: Option<string>,
    node: (Order, string) -> NodeAnswer)

  datatype AuditAction = ApprovalFailed | ApprovalIssued

  // The answer, the events stored, and the audit records attempted; whether those are written
  // changes nothing else.
  datatype Reply = Reply(answer: Result<SignedApproval>, events: seq<Event>, audits: seq<AuditAction>)

  // --- Before the run

  datatype Ticket = Ticket(principal: string, account: string, missing: string)

  function Admit(request: Request, around: Surroundings): Result<Ticket> {
    if request.order.dropCopy then Err(Invalid) else
    match around.caller
    case Err(e) => Err(e)
    case Ok(principal) =>
      match around.scopeAccount(request.order.account)
      case Err(e) => Err(e)
      case Ok(account) =>
        match around.scopeMissing(request.missing)
        case Err(e) => Err(e)
        case Ok(missing) =>
          if !around.wellFormed(account) then Err(Invalid)
          else if request.order.account != "" && request.missing != CREATE && request.missing != REFUSE
          then Err(Invalid)
          else if !around.signerConfigured then Err(NotImplemented)
          else Ok(Ticket(principal, account, missing))
  }

  // The order the node is asked to submit.
  function ScopedOrder(request: Request, ticket: Ticket): Order {
    request.order.(account := ticket.account, principal := ticket.principal, status := "submitted")
  }

  // --- The run

  // The settling events of an immediate order's report.
  function Settling(result: EngineResult): seq<EventType> {
    if result.persistence.None? then []
    else if result.persistence.value.trade.Some? then [Filled]
    else if result.persistence.value.commission.Some? then [Charged]
    else []
  }

  function SubmissionOf(request: Request, ticket: Ticket, approvalId: string, node: NodeAnswer): Submission
    requires node.Decides?
  {
    Submission(request.mode, ScopedOrder(request, ticket).(externalId := node.orderId),
               ticket.account, ticket.principal, approvalId, node.result)
  }

  function NodeEvent(sub: Submission, node: NodeAnswer, eventType: EventType, i: nat): Pending
    requires node.Decides?
  {
    var settles := eventType == Filled || eventType == Charged;
    var mark := node.marks(i);
    Pending(Event(mark.eventId, sub.order.externalId, eventType, if settles then node.report else None,
                  if eventType == PreTradeRejected then FirstReject(sub.result.rejects) else NO_REJECT, None),
            mark.stamp, mark.signer)
  }

  // The events the node records, in their order.
  function NodeRun(sub: Submission, node: NodeAnswer): seq<Pending>
    requires node.Decides?
  {
    var types := NodeEvents(sub, Settling(sub.result));
    seq(|types|, i requires 0 <= i < |types| => NodeEvent(sub, node, types[i], i))
  }

  // A rejection must name a reason, and an immediate fill must come with its report.
  predicate Complete(sub: Submission, node: NodeAnswer)
    requires node.Decides?
  {
    if !sub.result.accepted then sub.result.rejects != []
    else sub.mode == IMMEDIATE ==> sub.result.persistence.Some? && node.report.Some?
  }

  const FAILED := Reply(Err(Internal), [], [ApprovalFailed])

  // Once the engine has answered, no failure reads as the caller's mistake.
  function Finish(m: SigningMode, sub: Submission, node: NodeAnswer): Reply
    requires node.Decides?
  {
    var pending := NodeRun(sub, node);
    if !Complete(sub, node) || AttestAll(m, sub, pending).Err? || node.storeFails then FAILED else
    AttestedOneByOne(m, sub, pending);
    var attested := AttestAll(m, sub, pending).value;
    var events := Stored(pending, attested);
    if node.auditFails then FAILED.(events := events) else
    match LastVerdict(attested)
    case None => Reply(Err(Internal), events, [])
    case Some(issued) => Reply(Ok(ApprovalFrom(sub, issued)), events, [ApprovalIssued])
  }

  // Whether the request gets as far as the node, and what the run then needs.
  function Begin(signer: Signing.State, faults: Signing.ReadFaults, request: Request, around: Surroundings)
    : Result<(Ticket, SigningMode, string)>
  {
    match Admit(request, around)
    case Err(e) => Err(e)
    case Ok(ticket) =>
      match ModeOf(signer, faults)
      case Err(e) => Err(e)
      case Ok(m) =>
        if request.mode != HOLD && request.mode != IMMEDIATE then Err(Invalid)
        else if around.approvalId.None? then Err(Internal)
        else Ok((ticket, m, around.approvalId.value))
  }

  function Answer(signer: Signing.State, faults: Signing.ReadFaults, request: Request, around: Surroundings): Reply {
    match Begin(signer, faults, request, around)
    case Err(e) => Reply(Err(e), [], [])
    case Ok((ticket, m, approvalId)) =>
      match around.node(ScopedOrder(request, ticket), ticket.missing)
      case Refuses(e) => Reply(Err(e), [], [ApprovalFailed])
      case Decides(_, _, _, _, _, _) =>
        var node := around.node(ScopedOrder(request, ticket), ticket.missing);
        Finish(m, SubmissionOf(request, ticket, approvalId, node), node)
  }

  /** The checks before the run, in the order they are made. */
  method AdmitRequest(request: Request, around: Surroundings) returns (r: Result<Ticket>)
    ensures r == Admit(request, around)
  {
    if request.order.dropCopy {
      return Err(Invalid);
    }
    if around.caller.Err? {
      return Err(around.caller.error);
    }
    var account := around.scopeAccount(request.order.account);
    if account.Err? {
      return Err(account.error);
    }
    var missing := around.scopeMissing(request.missing);
    if missing.Err? {
      return Err(missing.error);
    }
    if !around.wellFormed(account.value) {
      return Err(Invalid);
    }
    if request.order.account != "" && request.missing != CREATE && request.missing != REFUSE {
      return Err(Invalid);
    }
    if !around.signerConfigured {
      return Err(NotImplemented);
    }
    return Ok(Ticket(around.caller.value, account.value, missing.value));
  }

  /** submitOrder: the checks, the run with its callback, and what the callback captured. */
  method SubmitOrder(
    service: Signing.Service, faults: Signing.ReadFaults, request: Request, around: Surroundings)
    returns (r: Result<SignedApproval>, events: seq<Event>, audits: seq<AuditAction>)
    ensures Reply(r, events, audits) == Answer(service.View(), faults, request, around)
  {
    var admitted := AdmitRequest(request, around);
    if admitted.Err? {
      return Err(admitted.error), [], [];
    }
    var ticket := admitted.value;
    var mode := ReadSigningMode(service, faults);
    if mode.Err? {
      return Err(mode.error), [], [];
    }
    if request.mode != HOLD && request.mode != IMMEDIATE {
      return Err(Invalid), [], [];
    }
    if around.approvalId.None? {
      return Err(Internal), [], [];
    }
    var node := around.node(ScopedOrder(request, ticket), ticket.missing);
    if node.Refuses? {
      return Err(node.error), [], [ApprovalFailed];
    }
    var sub := SubmissionOf(request, ticket, around.approvalId.value, node);
    r, events, audits := RunAndAnswer(mode.value, sub, node);
  }

  /** The node's transaction, and the answer from the variables that the attestor's callback captured. */
  method RunAndAnswer(m: SigningMode, sub: Submission, node: NodeAnswer)
    returns (r: Result<SignedApproval>, events: seq<Event>, audits: seq<AuditAction>)
    requires node.Decides?
    ensures Reply(r, events, audits) == Finish(m, sub, node)
  {
    if !Complete(sub, node) {
      return Err(Internal), [], [ApprovalFailed];
    }
    var recorded, issued, payload := RecordRun(p => AttestPending(m, sub, p), NodeRun(sub, node));
    if recorded.Err? || node.storeFails {
      return Err(Internal), [], [ApprovalFailed];
    }
    if node.auditFails {
      return Err(Internal), recorded.value, [ApprovalFailed];
    }
    if issued.None? {
      return Err(Internal), recorded.value, [];
    }
    var verdict := if sub.result.accepted then ACCEPT else REJECT;
    r := Ok(SignedApproval(
      issued.value.envelope, issued.value.keyId, sub.order.externalId, verdict,
      RejectReasons(payload.value, sub.result.rejects), issued.value.signed));
    events, audits := recorded.value, [ApprovalIssued];
  }

  // --- What a submit promises

  lemma NodeRunIsOne(sub: Submission, node: NodeAnswer)
    requires node.Decides?
    ensures IsNodeRun(sub, NodeRun(sub, node), Settling(sub.result))
  {
  }

  // The engine's answer is complete, each event of the history can be attested, and nothing
  // fails in storing or auditing it.
  predicate Records(m: SigningMode, mode: string, node: NodeAnswer)
    requires node.Decides?
  {
    var result := node.result;
    && (!result.accepted ==> result.rejects != [])
    && (result.accepted && mode == IMMEDIATE ==> result.persistence.Some? && node.report.Some?)
    && (forall i: nat | i < HistoryLength(mode, result) ::
          node.marks(i).stamp.Some? && (m.off || CanSign(node.marks(i).signer)))
    && !node.storeFails && !node.auditFails
  }

  function HistoryLength(mode: string, result: EngineResult): nat {
    if !result.accepted then 2
    else if mode == IMMEDIATE && (HasFill(result) || HasOnlyCharge(result)) then 4 else 3
  }

  predicate HasFill(result: EngineResult) {
    result.persistence.Some? && result.persistence.value.trade.Some?
  }

  predicate HasOnlyCharge(result: EngineResult) {
    result.persistence.Some? && result.persistence.value.trade.None? && result.persistence.value.commission.Some?
  }

  lemma RunAttestsExactly(m: SigningMode, sub: Submission, node: NodeAnswer)
    requires node.Decides? && node.result == sub.result && Complete(sub, node)
    ensures AttestAll(m, sub, NodeRun(sub, node)).Ok? <==>
              forall i: nat | i < HistoryLength(sub.mode, sub.result) ::
                node.marks(i).stamp.Some? && (m.off || CanSign(node.marks(i).signer))
  {
    var pending := NodeRun(sub, node);
    AttestsAllExactly(m, sub, pending);
    forall i | 0 <= i < |pending|
      ensures AttestPending(m, sub, pending[i]).Ok? <==>
                node.marks(i).stamp.Some? && (m.off || CanSign(node.marks(i).signer))
    {
      AttestsExactly(m, sub, pending[i]);
    }
  }

  lemma FinishSucceedsExactly(m: SigningMode, sub: Submission, node: NodeAnswer)
    requires node.Decides? && node.result == sub.result && (sub.mode == HOLD || sub.mode == IMMEDIATE)
    ensures Finish(m, sub, node).answer.Ok? <==> Records(m, sub.mode, node)
    ensures Finish(m, sub, node).answer.Ok? ==>
              && Finish(m, sub, node).answer == SubmitSpec(m, sub, NodeRun(sub, node))
              && Finish(m, sub, node).audits == [ApprovalIssued]
    ensures Finish(m, sub, node).answer.Err? ==>
              && Finish(m, sub, node).answer.error == Internal && Finish(m, sub, node).audits == [ApprovalFailed]
              && (Finish(m, sub, node).events != [] ==> node.auditFails)
  {
    var pending := NodeRun(sub, node);
    NodeRunIsOne(sub, node);
    if Complete(sub, node) {
      RunAttestsExactly(m, sub, node);
      NodeSubmitAnswersItsVerdict(m, sub, pending, Settling(sub.result));
    }
  }

  // What a request needs to reach the node.
  predicate Admissible(signer: Signing.State, faults: Signing.ReadFaults, request: Request, around: Surroundings) {
    && !request.order.dropCopy && around.caller.Ok?
    && around.scopeAccount(request.order.account).Ok? && around.scopeMissing(request.missing).Ok?
    && around.wellFormed(around.scopeAccount(request.order.account).value)
    && (request.order.account == "" || request.missing == CREATE || request.missing == REFUSE)
    && around.signerConfigured && ModeOf(signer, faults).Ok?
    && (request.mode == HOLD || request.mode == IMMEDIATE) && around.approvalId.Some?
  }

  // What an admissible request is recorded with.
  function TicketOf(request: Request, around: Surroundings): Ticket
    requires around.caller.Ok? && around.scopeAccount(request.order.account).Ok?
    requires around.scopeMissing(request.missing).Ok?
  {
    Ticket(around.caller.value, around.scopeAccount(request.order.account).value,
           around.scopeMissing(request.missing).value)
  }

  function Asked(request: Request, around: Surroundings): NodeAnswer
    requires around.caller.Ok? && around.scopeAccount(request.order.account).Ok?
    requires around.scopeMissing(request.missing).Ok?
  {
    around.node(ScopedOrder(request, TicketOf(request, around)), TicketOf(request, around).missing)
  }

  function Made(request: Request, around: Surroundings): Submission
    requires around.caller.Ok? && around.scopeAccount(request.order.account).Ok?
    requires around.scopeMissing(request.missing).Ok? && around.approvalId.Some? && Asked(request, around).Decides?
  {
    SubmissionOf(request, TicketOf(request, around), around.approvalId.value, Asked(request, around))
  }

  // Each check before the node is asked, on its own: its error, if it fails.
  function Checks(signer: Signing.State, faults: Signing.ReadFaults, request: Request, around: Surroundings)
    : seq<Option<Error>>
  {
    var account, missing := around.scopeAccount(request.order.account), around.scopeMissing(request.missing);
    var mode := ModeOf(signer, faults);
    [ if request.order.dropCopy then Some(Invalid) else None,
      if around.caller.Err? then Some(around.caller.error) else None,
      if account.Err? then Some(account.error) else None,
      if missing.Err? then Some(missing.error) else None,
      if account.Ok? && !around.wellFormed(account.value) then Some(Invalid) else None,
      if request.order.account != "" && request.missing !in {CREATE, REFUSE} then Some(Invalid) else None,
      if !around.signerConfigured then Some(NotImplemented) else None,
      if mode.Err? then Some(mode.error) else None,
      if request.mode !in {HOLD, IMMEDIATE} then Some(Invalid) else None,
      if around.approvalId.None? then Some(Internal) else None ]
  }

  predicate FirstFailing(checks: seq<Option<Error>>, i: int) {
    0 <= i < |checks| && checks[i].Some? && forall j | 0 <= j < i :: checks[j] == None
  }

  /** A request is refused with the error of the first of these checks that fails, and admissible if none does. */
  lemma RefusedByTheFirstCheck(
    signer: Signing.State, faults: Signing.ReadFaults, request: Request, around: Surroundings, i: int)
    ensures
      var checks := Checks(signer, faults, request, around);
      && (Admissible(signer, faults, request, around) <==> forall j | 0 <= j < |checks| :: checks[j] == None)
      && (FirstFailing(checks, i) ==>
            Answer(signer, faults, request, around) == Reply(Err(checks[i].value), [], []))
  {
    var c := Checks(signer, faults, request, around);
    if forall j | 0 <= j < |c| :: c[j] == None {
      assert c[0] == c[1] == c[2] == c[3] == c[4] == c[5] == c[6] == c[7] == c[8] == c[9] == None;
    }
    if FirstFailing(c, i) {
      assert forall k: nat | k < 10 && k < i :: c[k] == None;
      assert (i > 0 ==> c[0] == None) && (i > 1 ==> c[1] == None) && (i > 2 ==> c[2] == None);
      assert (i > 3 ==> c[3] == None) && (i > 4 ==> c[4] == None) && (i > 5 ==> c[5] == None);
      assert (i > 6 ==> c[6] == None) && (i > 7 ==> c[7] == None) && (i > 8 ==> c[8] == None);
    }
  }

  /** The node is asked with the request's order, for the scope's account and the caller, and with the scope's policy. */
  lemma NodeIsAskedWith(request: Request, around: Surroundings)
    requires around.caller.Ok? && around.scopeAccount(request.order.account).Ok?
    requires around.scopeMissing(request.missing).Ok?
    ensures Asked(request, around) == around.node(
              request.order.(account := around.scopeAccount(request.order.account).value,
                             principal := around.caller.value, status := "submitted"),
              around.scopeMissing(request.missing).value)
  {
  }

  lemma AnswerOf(signer: Signing.State, faults: Signing.ReadFaults, request: Request, around: Surroundings)
    ensures
      var reply := Answer(signer, faults, request, around);
      if !Admissible(signer, faults, request, around) then
        reply.answer.Err? && reply.events == [] && reply.audits == []
      else if Asked(request, around).Refuses? then
        reply == Reply(Err(Asked(request, around).error), [], [ApprovalFailed])
      else
        reply == Finish(ModeOf(signer, faults).value, Made(request, around), Asked(request, around))
  {
  }

  /**
   * A submit succeeds exactly when its request is admissible and the node decides, records the
   * whole run and audits it. A request that reaches the node leaves exactly one audit record,
   * of the success or of the failure; a failed submit leaves no event behind, unless it is the
   * node's own audit that failed.
   */
  lemma SubmitSucceedsExactly(signer: Signing.State, faults: Signing.ReadFaults, request: Request, around: Surroundings)
    ensures
      var reply, admissible := Answer(signer, faults, request, around), Admissible(signer, faults, request, around);
      && (reply.answer.Ok? <==>
            && admissible && Asked(request, around).Decides?
            && Records(ModeOf(signer, faults).value, request.mode, Asked(request, around)))
      && (reply.audits == if !admissible then [] else if reply.answer.Ok? then [ApprovalIssued] else [ApprovalFailed])
      && (reply.answer.Err? && reply.events != [] ==>
            admissible && Asked(request, around).Decides? && Asked(request, around).auditFails)
  {
    AnswerOf(signer, faults, request, around);
    if Admissible(signer, faults, request, around) && Asked(request, around).Decides? {
      FinishSucceedsExactly(ModeOf(signer, faults).value, Made(request, around), Asked(request, around));
    }
  }

  lemma SucceededRun(signer: Signing.State, faults: Signing.ReadFaults, request: Request, around: Surroundings)
    requires Answer(signer, faults, request, around).answer.Ok?
    ensures Admissible(signer, faults, request, around) && Asked(request, around).Decides?
    ensures
      var m, sub, node := ModeOf(signer, faults).value, Made(request, around), Asked(request, around);
      var pending, reply := NodeRun(sub, node), Answer(signer, faults, request, around);
      && Complete(sub, node) && IsNodeRun(sub, pending, Settling(sub.result))
      && AttestAll(m, sub, pending).Ok? && |AttestAll(m, sub, pending).value| == |pending|
      && reply.answer == SubmitSpec(m, sub, pending)
      && reply.events == Stored(pending, AttestAll(m, sub, pending).value)
  {
    SubmitSucceedsExactly(signer, faults, request, around);
    AnswerOf(signer, faults, request, around);
    var m, sub, node := ModeOf(signer, faults).value, Made(request, around), Asked(request, around);
    FinishSucceedsExactly(m, sub, node);
    NodeRunIsOne(sub, node);
    AttestedOneByOne(m, sub, NodeRun(sub, node));
  }

  lemma VerdictBinds(m: SigningMode, sub: Submission, p: Pending)
    requires AttestPending(m, sub, p).Ok? && CarriesVerdict(p)
    ensures
      var a := AttestPending(m, sub, p).value;
      && a.stored.envelope.Encoded?
      && var approval := a.stored.envelope.envelope.approval;
      && approval.orderId == p.event.order
      && var accepted, rejects := p.event.eventType == PreTradeAccepted, sub.result.rejects;
      && (accepted ==> RejectReasons(a.payload, rejects) == [])
      && (!accepted && rejects != [] ==> RejectReasons(a.payload, rejects) == rejects)
  {
  }

  /**
   * What a successful submit answers is its second event's own envelope, bound to the order the
   * node recorded, the account of the caller's scope and the caller, whatever account the
   * request named, and to every other bound field of the request's own order; the verdict in
   * words is the signed one, and a rejection gives exactly the engine's reasons, of which there
   * is one at least.
   */
  lemma AnswerIsBound(signer: Signing.State, faults: Signing.ReadFaults, request: Request, around: Surroundings)
    requires Answer(signer, faults, request, around).answer.Ok?
    ensures
      var reply := Answer(signer, faults, request, around);
      var a, events := reply.answer.value, reply.events;
      && |events| > 1 && events[1].attestation.Some? && a.approval == events[1].attestation.value.envelope
      && a.approval.Encoded?
      && var approval := a.approval.envelope.approval;
      && approval.eventId == events[1].externalId && approval.verdict == a.verdict
      && approval.orderId == a.orderId == Asked(request, around).orderId
      && Names(approval, request.order.(account := around.scopeAccount(request.order.account).value,
                                        externalId := Asked(request, around).orderId))
      && approval.principal == around.caller.value && approval.mode == request.mode
      && (a.verdict == ACCEPT ==> a.reasons == [])
      && (a.verdict == REJECT ==> a.reasons == Asked(request, around).result.rejects && a.reasons != [])
  {
    SucceededRun(signer, faults, request, around);
    var m, sub, node := ModeOf(signer, faults).value, Made(request, around), Asked(request, around);
    var pending := NodeRun(sub, node);
    NodeRunHasOneVerdict(sub, pending, Settling(sub.result));
    NodeSubmitAnswersItsVerdict(m, sub, pending, Settling(sub.result));
    HandedBackIsTheVerdict(m, sub, pending, 1);
    VerdictIsLast(m, sub, pending, 1);
    AnswersTheLastVerdict(m, sub, pending, AttestAll(m, sub, pending).value[1]);
    VerdictBinds(m, sub, pending[1]);
    EnvelopeNamesItsSubmit(m, sub, pending[1]);
  }

  /**
   * What a submit answers is signed exactly while the stored flag is not "1", and so is every
   * event it stores; and then it can be answered only if the keys could be read.
   */
  lemma SignedExactlyWhileESignIsOn(
    signer: Signing.State, faults: Signing.ReadFaults, request: Request, around: Surroundings)
    requires Answer(signer, faults, request, around).answer.Ok?
    ensures
      var reply := Answer(signer, faults, request, around);
      && (reply.answer.value.signed <==> signer.noESign != Some("1"))
      && (if reply.answer.value.signed
          then exists i :: IsFirstActive(signer.rows, i) && signer.rows[i].keyId == reply.answer.value.keyId
          else reply.answer.value.keyId == "")
      && (forall e | e in reply.events ::
            e.attestation.Some?
            && e.attestation.value.alg == (if signer.noESign != Some("1") then ED25519 else UNSIGNED))
      && !faults.setting && (signer.noESign != Some("1") ==> !faults.list)
  {
    SucceededRun(signer, faults, request, around);
    var m, sub, node := ModeOf(signer, faults).value, Made(request, around), Asked(request, around);
    var pending := NodeRun(sub, node);
    ModeIsReadExactly(signer, faults);
    NodeRunHasOneVerdict(sub, pending, Settling(sub.result));
    HandedBackIsTheVerdict(m, sub, pending, 1);
    AnsweredKey(m, sub, pending, 1);
    StoredAlgs(m, sub, pending);
  }

  lemma StoredAlgs(m: SigningMode, sub: Submission, pending: seq<Pending>)
    requires AttestAll(m, sub, pending).Ok? && |AttestAll(m, sub, pending).value| == |pending|
    ensures forall e | e in Stored(pending, AttestAll(m, sub, pending).value) ::
              e.attestation.Some? && e.attestation.value.alg == if m.off then UNSIGNED else ED25519
  {
    AttestedOneByOne(m, sub, pending);
    forall i | 0 <= i < |pending|
      ensures AttestAll(m, sub, pending).value[i].stored.alg == if m.off then UNSIGNED else ED25519
    {
      StoredAlg(m, sub, pending[i]);
    }
  }

  lemma AnsweredKey(m: SigningMode, sub: Submission, pending: seq<Pending>, v: nat)
    requires sub.mode == HOLD || sub.mode == IMMEDIATE
    requires AttestAll(m, sub, pending).Ok? && v < |pending| && CarriesVerdict(pending[v])
    requires forall i | 0 <= i < |pending| && i != v :: !CarriesVerdict(pending[i])
    ensures SubmitSpec(m, sub, pending).Ok?
    ensures SubmitSpec(m, sub, pending).value.keyId == if m.off then "" else m.keyId
  {
    AttestedOneByOne(m, sub, pending);
    VerdictIsLast(m, sub, pending, v);
    AnswersTheLastVerdict(m, sub, pending, AttestAll(m, sub, pending).value[v]);
    AttestedKey(m, sub, pending[v]);
  }

  lemma AttestedKey(m: SigningMode, sub: Submission, p: Pending)
    requires AttestPending(m, sub, p).Ok?
    ensures AttestPending(m, sub, p).value.answer.keyId == if m.off then "" else m.keyId
  {
  }

  lemma StoredAlg(m: SigningMode, sub: Submission, p: Pending)
    requires AttestPending(m, sub, p).Ok?
    ensures AttestPending(m, sub, p).value.stored.alg == if m.off then UNSIGNED else ED25519
  {
  }

  // Submitted, then rejected; or submitted, accepted and committed, and in immediate mode
  // filled if the report has a trade, or charged if it has a commission alone.
  predicate IsHistory(types: seq<EventType>, mode: string, result: EngineResult) {
    && |types| == HistoryLength(mode, result)
    && types[0] == Submitted && types[1] == (if result.accepted then PreTradeAccepted else PreTradeRejected)
    && (|types| > 2 ==> types[2] == Committed)
    && (|types| > 3 ==> types[3] == if HasFill(result) then Filled else Charged)
  }

  lemma NodeEventsAreHistory(sub: Submission)
    ensures IsHistory(NodeEvents(sub, Settling(sub.result)), sub.mode, sub.result)
  {
  }

  // A stored event of the run: for the one order, attested, only a settling one with the report
  // and only a rejection with the first reason.
  predicate IsStoredFor(event: Event, i: nat, eventType: EventType, node: NodeAnswer)
    requires node.Decides?
  {
    && event.eventType == eventType && event.order == node.orderId && event.externalId == node.marks(i).eventId
    && event.attestation.Some?
    && event.report == (if eventType == Filled || eventType == Charged then node.report else None)
    && event.reject == (if eventType == PreTradeRejected then FirstReject(node.result.rejects) else NO_REJECT)
  }

  lemma RunIsStoredFor(m: SigningMode, sub: Submission, node: NodeAnswer)
    requires node.Decides? && sub.order.externalId == node.orderId && sub.result == node.result
    requires AttestAll(m, sub, NodeRun(sub, node)).Ok?
    requires |AttestAll(m, sub, NodeRun(sub, node)).value| == |NodeRun(sub, node)|
    ensures
      var events := Stored(NodeRun(sub, node), AttestAll(m, sub, NodeRun(sub, node)).value);
      var types := NodeEvents(sub, Settling(sub.result));
      |events| == |types| && forall i | 0 <= i < |events| :: IsStoredFor(events[i], i, types[i], node)
  {
  }

  /** What a submit stores is that history and nothing else, each event attested and for the one order. */
  lemma HistoryOfASubmit(signer: Signing.State, faults: Signing.ReadFaults, request: Request, around: Surroundings)
    requires Answer(signer, faults, request, around).answer.Ok?
    ensures Admissible(signer, faults, request, around) && Asked(request, around).Decides?
    ensures
      var events, node := Answer(signer, faults, request, around).events, Asked(request, around);
      exists types ::
        && IsHistory(types, request.mode, node.result) && |events| == |types|
        && forall i | 0 <= i < |events| :: IsStoredFor(events[i], i, types[i], node)
  {
    SucceededRun(signer, faults, request, around);
    var sub, node := Made(request, around), Asked(request, around);
    NodeEventsAreHistory(sub);
    RunIsStoredFor(ModeOf(signer, faults).value, sub, node);
    var types := NodeEvents(sub, Settling(sub.result));
    assert IsHistory(types, request.mode, node.result);
  }

  lemma FirstAcceptIsAt(pending: seq<Pending>, k: nat)
    requires k <= |pending| && forall i | 0 <= i < k :: pending[i].event.eventType != PreTradeAccepted
    requires k < |pending| ==> pending[k].event.eventType == PreTradeAccepted
    ensures FirstAccept(pending) == k
  {
  }

  lemma NodeRunAccepts(sub: Submission, node: NodeAnswer)
    requires node.Decides?
    ensures FirstAccept(NodeRun(sub, node)) == if sub.result.accepted then 1 else |NodeRun(sub, node)|
    ensures |NodeRun(sub, node)| > 1
    ensures forall i | 0 <= i < |NodeRun(sub, node)| ::
              NodeRun(sub, node)[i] == NodeEvent(sub, node, NodeEvents(sub, Settling(sub.result))[i], i)
  {
    var pending := NodeRun(sub, node);
    FirstAcceptIsAt(pending, if sub.result.accepted then 1 else |pending|);
  }

  lemma MarkedInRun(sub: Submission, node: NodeAnswer, p: Pending)
    requires node.Decides? && p in NodeRun(sub, node)
    ensures p.event.order == sub.order.externalId
    ensures exists i: nat :: p.event.externalId == node.marks(i).eventId && p.signer == node.marks(i).signer
  {
    var i :| 0 <= i < |NodeRun(sub, node)| && NodeRun(sub, node)[i] == p;
    assert p.event.externalId == node.marks(i).eventId && p.signer == node.marks(i).signer;
  }

  /**
   * From end to end: whatever follows, key rotations and execution reports included, confirm and
   * cancel are authorized for a submitted order exactly when its bound fields are unchanged, the
   * submit was in hold mode and answered accept, the order is linked to no venue, and its
   * approval is still vouched for.
   */
  lemma AnsweredAcceptIsHonoredExactly(
    signer: Signing.State, faults: Signing.ReadFaults, request: Request, around: Surroundings, order: Order,
    displayPrice: string, more: seq<Event>, venue: Result<bool>, later: Signing.State,
    laterFaults: Signing.ReadFaults)
    requires Answer(signer, faults, request, around).answer.Ok?
    requires Admissible(signer, faults, request, around) && Asked(request, around).Decides?
    requires forall i: nat ::
               && Asked(request, around).marks(i).eventId != ""
               && Signing.Follows(Asked(request, around).marks(i).signer, later)
    requires forall e | e in more :: IsLater(e)
    ensures
      var reply := Answer(signer, faults, request, around);
      var r := Authorize(OrderDetail(order, displayPrice, reply.events + more), venue, later, laterFaults);
      && (r.Ok? <==>
            && venue == Ok(false) && !order.dropCopy
            && SameTerms(order, request.order.(account := around.scopeAccount(request.order.account).value))
            && (order.externalId != "" ==> order.externalId == Asked(request, around).orderId)
            && request.mode == HOLD && reply.answer.value.verdict == ACCEPT
            && StillVouched(ModeOf(signer, faults).value, Asked(request, around).marks(1).signer, later, laterFaults))
      && (r.Ok? ==> r.value.approvalId == around.approvalId.value)
  {
    SucceededRun(signer, faults, request, around);
    var m, sub, node := ModeOf(signer, faults).value, Made(request, around), Asked(request, around);
    NodeRunAccepts(sub, node);
    forall p | p in NodeRun(sub, node)
      ensures p.event.order == sub.order.externalId && p.event.externalId != "" && Signing.Follows(p.signer, later)
    {
      MarkedInRun(sub, node, p);
    }
    ShortcutAcceptsExactly(m, sub, NodeRun(sub, node), order, displayPrice, more, venue, later, laterFaults);
    assert Answer(signer, faults, request, around).answer.value.verdict
           == if sub.result.accepted then ACCEPT else REJECT;
  }
}
