/** Which approvals count (src/sddgov/autonomy.py): when an envelope verifies, what import stores, and which
    row of a store can be spent on a request, said once more of the fields themselves. */
module Receipts {
  import opened Common
  import opened Operations
  import opened Approval

  // ---------------------------------------------------------------- text and payloads

  /** What str.strip takes away. */
  const WHITE: set<char> := {
    '\t', '\n', '\U{000B}', '\U{000C}', '\r', '\U{001C}', '\U{001D}', '\U{001E}', '\U{001F}', ' ', '\U{0085}', '\U{00A0}',
    '\U{1680}', '\U{2000}', '\U{2001}', '\U{2002}', '\U{2003}', '\U{2004}', '\U{2005}', '\U{2006}', '\U{2007}', '\U{2008}',
    '\U{2009}', '\U{200A}', '\U{2028}', '\U{2029}', '\U{202F}', '\U{205F}', '\U{3000}'}

  /** Some character is no white space. */
  predicate Said(text: string) {
    exists k :: 0 <= k < |text| && text[k] !in WHITE
  }

  lemma WhiteIff(c: char)
    ensures IsWhite(c) <==> c in WHITE
  {}

  lemma SaidIff(text: string)
    ensures Said(text) <==> !Blank(text)
  {
    hide WHITE, IsWhite;
    forall c: char ensures IsWhite(c) <==> c in WHITE {
      WhiteIff(c);
    }
  }

  const DANGEROUS: set<string> := {
    "production_data_deletion", "irreversible_migration", "secret_change", "permission_boundary_change",
    "real_payment", "high_privilege_production_operation", "public_release", "high_risk_operation"}
  const EFFECTS: set<string> := {
    "production", "destructive", "irreversible", "secret_change", "permission_boundary_change", "real_payment",
    "high_privilege", "public_publish"}

  /** A payload that can be approved: of a dangerous category, every place named, no secret in its
      parameters, effects of the closed list, publication exactly with public release. */
  ghost predicate Exact(t: Trust, p: Payload) {
    && p.category in DANGEROUS
    && Said(p.repository) && Said(p.project) && Said(p.environment) && Said(p.scope) && Said(p.target)
    && !t.sensitive(p.parameters)
    && (forall e :: e in p.effects ==> e in EFFECTS)
    && ("public_publish" in p.effects <==> p.category == "public_release")
  }

  lemma ExactIff(t: Trust, p: Payload)
    ensures Exact(t, p) <==> ValidPayload(p, t.sensitive)
  {
    hide Said, Blank;
    SaidIff(p.repository);
    SaidIff(p.project);
    SaidIff(p.environment);
    SaidIff(p.scope);
    SaidIff(p.target);
  }

  /** The payload is for the place this machine is. */
  predicate Here(t: Trust, p: Payload) {
    p.repository == t.context.repository && p.project == t.context.project && p.environment == t.context.environment
  }

  // ---------------------------------------------------------------- envelopes

  /** A signed approval that is worth something now: complete, for an exact payload of its own scope, issued
      no more than five minutes from now, not expired, valid for at most a day, and signed. */
  ghost predicate Fresh(t: Trust, e: Envelope, now: int) {
    var r := e.receipt;
    && Said(r.approvalId) && Said(r.operationId) && Said(r.summary) && Said(r.scope) && Said(r.approvedBy) && Said(r.nonce)
    && |r.nonce| >= 12
    && Exact(t, r.payload) && r.payload.scope == r.scope
    && r.issuedAt - now <= 5 * 60 && now < r.expiresAt && 0 < r.expiresAt - r.issuedAt <= 24 * 60 * 60
    && t.verify(r, e.signature, now)
  }

  lemma FreshIff(t: Trust, e: Envelope, now: int)
    ensures VerifyEnvelope(t, Some(e), now) == if Fresh(t, e, now) then Some(e.receipt) else None
  {
    hide Said, Blank, Exact, ValidPayload;
    var r := e.receipt;
    SaidIff(r.approvalId);
    SaidIff(r.operationId);
    SaidIff(r.summary);
    SaidIff(r.scope);
    SaidIff(r.approvedBy);
    SaidIff(r.nonce);
    ExactIff(t, r.payload);
  }

  /** The row says what the receipt says, field by field. */
  ghost predicate Says(t: Trust, row: Row, r: Receipt) {
    && row.decisionId == r.approvalId && row.operationId == r.operationId && row.summary == r.summary && row.scope == r.scope
    && row.approvedBy == r.approvedBy && row.expiresAt == r.expiresAt && row.nonce == r.nonce
    && row.receiptSha == t.receiptHash(r) && row.payloadSha == t.payloadHash(r.payload) && row.algorithm == "ed25519"
  }

  /** An import appends exactly one open row that says what its envelope says, if the envelope is fresh, for
      this place, and neither its identifier nor its nonce is in the store; otherwise it changes nothing. */
  lemma ImportIff(t: Trust, rows: seq<Row>, e: Envelope, now: int)
    ensures
      var after := ImportApproval(t, rows, e, now);
      var new_ := Fresh(t, e, now) && Here(t, e.receipt.payload)
                  && (forall row :: row in rows ==> row.decisionId != e.receipt.approvalId && row.nonce != e.receipt.nonce);
      && (!new_ ==> after == rows)
      && (new_ ==>
            && |after| == |rows| + 1 && after[..|rows|] == rows
            && var row := after[|rows|];
               && Says(t, row, e.receipt) && row.envelope == Some(e)
               && row.riskLevel == "L3" && row.status == "approved" && !row.consumed)
  {
    hide VerifyEnvelope, Fresh;
    FreshIff(t, e, now);
    assert forall k :: 0 <= k < |rows| ==> rows[k] in rows;
  }

  // ---------------------------------------------------------------- the row that is spent

  /** Row `k` is the first with the identifier; it is an open L3 approval of the operation, carries a fresh
      envelope, says what its receipt says, and that receipt is for a payload with the requested digest. */
  ghost predicate Qualifies(t: Trust, rows: seq<Row>, k: nat, approvalId: string, operationId: string, requested: Payload, now: int) {
    && k < |rows| && rows[k].decisionId == approvalId && (forall j :: 0 <= j < k ==> rows[j].decisionId != approvalId)
    && rows[k].riskLevel == "L3" && rows[k].status == "approved" && !rows[k].consumed && now < rows[k].expiresAt
    && rows[k].operationId == operationId
    && rows[k].envelope.Some? && Fresh(t, rows[k].envelope.value, now)
    && Says(t, rows[k], rows[k].envelope.value.receipt)
    && t.payloadHash(rows[k].envelope.value.receipt.payload) == t.payloadHash(requested)
  }

  /** The Broker is asked for row `k` exactly if the requested payload is exact and for this place, and that
      row qualifies; and then for that row's receipt. A payload that is not stops everything. */
  lemma ChosenIff(t: Trust, rows: seq<Row>, approvalId: Option<string>, operationId: Option<string>, requested: Payload, now: int, k: nat)
    ensures
      var choice := ChooseFor(t, rows, approvalId, operationId, requested, now);
      && (choice.ContextBlocked? <==> !(Exact(t, requested) && Here(t, requested)))
      && (choice.Ask? && choice.k == k <==>
            && Exact(t, requested) && Here(t, requested) && approvalId.Some? && operationId.Some?
            && Qualifies(t, rows, k, approvalId.value, operationId.value, requested, now))
      && (choice.Ask? && choice.k == k ==> choice.receipt == rows[k].envelope.value.receipt)
  {
    hide VerifyEnvelope, Fresh, Exact, ValidPayload;
    ExactIff(t, requested);
    if approvalId.Some? && k < |rows| {
      if rows[k].envelope.Some? {
        FreshIff(t, rows[k].envelope.value, now);
      }
      FirstIs(rows, approvalId.value, k);
      NoEnvelope(t, now);
    }
  }

  lemma NoEnvelope(t: Trust, now: int)
    ensures VerifyEnvelope(t, None, now) == None
  {}

  lemma FirstIs(rows: seq<Row>, id: string, k: nat)
    requires k < |rows|
    ensures FindRow(rows, id) == k <==> rows[k].decisionId == id && forall j :: 0 <= j < k ==> rows[j].decisionId != id
  {}
}
