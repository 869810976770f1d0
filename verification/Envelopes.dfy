/** The approval payload and its envelope (framework/domain/entities.go, framework/signing/signing.go). */
module Envelopes {
  import opened Domain

  const ED25519 := "ed25519"
  const UNSIGNED := "none"

  // The nine order parameters every verification compares.
  datatype Terms = Terms(
    instrument: string, side: string, quantity: string, amountKind: string, orderType: string,
    limitPrice: string, priceCurrency: string, timeInForce: string, accountId: string)

  datatype Reject = Reject(code: string, scope: string, policy: string, reason: string, details: string)

  const NO_REJECT := Reject("", "", "", "", "")

  datatype Commission = Commission(amount: string, currency: string)

  datatype Block = Block(account: string, policy: string, code: string, reason: string, details: string)

  // The recorded result section of an attestation.
  datatype Outcome = Outcome(
    outcome: string, fillQuantity: string, fillPrice: string, fillLockPrice: string,
    commission: Option<Commission>, leavesQuantity: string, orderStatus: string, blocks: seq<Block>)

  // A client's execution report, recorded verbatim; rest is what no other part reads.
  datatype Report = Report(
    externalId: string, orderStatus: string, fillQuantity: string, fillPrice: string, lockPrice: string,
    leaves: string, commission: Option<Commission>, rest: string)

  datatype Payload = Payload(
    version: int, approvalId: string, approvalRef: string, requestType: string, mode: string,
    orderId: string, eventId: string, terms: Terms, venue: string, accountGroupId: string,
    verdict: string, policySummary: string, estimatePrice: string, issuedAt: string, nonce: string,
    keyId: string, alg: string, reject: Reject, principal: string,
    executionReport: Option<Report>, result: Option<Outcome>, rejects: seq<Reject>)

  // Ideal Ed25519 (section 5.1 of RFC 8032): a seed determines its public half, a
  // private key carries both, and a signature says who made it over what.

  datatype Public = PublicOf(seed: nat)

  datatype PrivateKey = PrivateKey(seed: nat, pub: Public)

  datatype Signature = Forged | Signature(key: PrivateKey, message: Payload)

  predicate SignatureHolds(pub: Public, message: Payload, sig: Signature) {
    sig == Signature(PrivateKey(pub.seed, pub), message)
  }

  // The signature field of an envelope: text that is not base64, or what it decodes to.
  datatype SignatureText = Undecodable | Decoded(sig: Signature)

  datatype Envelope = Envelope(approval: Payload, signature: SignatureText, keyId: string, alg: string)

  // The base64url JSON text of an envelope, or text that is none. The encoding is taken
  // to be exact, so an envelope is its own text.
  datatype Wire = Encoded(envelope: Envelope) | Garbage(text: string)

  datatype VerifyParams = VerifyParams(terms: Terms, orderId: string, venue: string, accountGroupId: string)

  datatype Verified = Verified(payload: Payload, signed: bool)
}
