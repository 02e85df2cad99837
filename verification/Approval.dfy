/** One single-use L3 approval (src/sddgov/autonomy.py): imported into a local store that nobody
    trusts, verified again when it is used, and spent by consuming its nonce through the Broker. */
module Approval {
  import opened Common
  import opened Json
  import opened Operations
  import opened NonceLedger

  // ---------------------------------------------------------------- data

  /** Times are seconds. */
  datatype Receipt = Receipt(
    approvalId: string, operationId: string, payload: Payload, summary: string, scope: string,
    approvedBy: string, issuedAt: int, expiresAt: int, nonce: string)

  datatype Envelope = Envelope(receipt: Receipt, signature: string)

  /** One row of a local decision store. Nothing in it is trusted. `mode`, `terms` and `product` belong
      to product decisions: how the owner chose, what reopens the decision and the assumptions it
      rests on, and the signed envelope as stored. */
  datatype Row = Row(
    decisionId: string, riskLevel: string, status: string, consumed: bool, summary: string, scope: string,
    operationId: string, approvedBy: string, expiresAt: int, nonce: string, receiptSha: string,
    payloadSha: string, algorithm: string, envelope: Option<Envelope>,
    mode: string, terms: string, product: Option<string>)

  datatype Context = Context(repository: string, project: string, environment: string)

  /** What lies outside the agents' reach: signature verification against the approvers trusted at a
      time, the canonical digests, the runtime context. */
  datatype Trust = Trust(
    verify: (Receipt, string, int) -> bool,
    receiptHash: Receipt -> string,
    payloadHash: Payload -> string,
    sensitive: string -> bool,
    context: Context)

  const FIVE_MINUTES: int := 300
  const ONE_DAY: int := 86400

  // ---------------------------------------------------------------- one call

  predicate InContext(t: Trust, p: Payload) {
    Context(p.repository, p.project, p.environment) == t.context
  }

  /** _verify_operation_envelope */
  function VerifyEnvelope(t: Trust, e: Option<Envelope>, now: int): Option<Receipt> {
    if e.None? then None else
      var r := e.value.receipt;
      if && !Blank(r.approvalId) && !Blank(r.operationId) && !Blank(r.summary) && !Blank(r.scope)
         && !Blank(r.approvedBy) && !Blank(r.nonce)
         && ValidPayload(r.payload, t.sensitive)
         && r.scope == r.payload.scope
         && |r.nonce| >= 12
         && r.issuedAt <= now + FIVE_MINUTES
         && r.expiresAt > now && r.expiresAt > r.issuedAt
         && r.expiresAt - r.issuedAt <= ONE_DAY
         && t.verify(r, e.value.signature, now)
      then Some(r) else None
  }

  /** The row import_operation_approval writes. */
  function RowOf(t: Trust, e: Envelope): Row {
    var r := e.receipt;
    Row(r.approvalId, "L3", "approved", false, r.summary, r.scope, r.operationId, r.approvedBy, r.expiresAt,
        r.nonce, t.receiptHash(r), t.payloadHash(r.payload), "ed25519", Some(e), "", "", None)
  }

  /** import_operation_approval */
  function ImportApproval(t: Trust, rows: seq<Row>, e: Envelope, now: int): seq<Row> {
    if VerifyEnvelope(t, Some(e), now).None? || !InContext(t, e.receipt.payload) then rows
    else if exists k :: 0 <= k < |rows| && (rows[k].decisionId == e.receipt.approvalId || rows[k].nonce == e.receipt.nonce)
    then rows
    else rows + [RowOf(t, e)]
  }

  /** Does the row say exactly what its signed receipt says? */
  predicate Mirrors(t: Trust, row: Row, r: Receipt) {
    && row.decisionId == r.approvalId && row.summary == r.summary && row.scope == r.scope
    && row.operationId == r.operationId && row.approvedBy == r.approvedBy && row.expiresAt == r.expiresAt
    && row.nonce == r.nonce && row.receiptSha == t.receiptHash(r) && row.payloadSha == t.payloadHash(r.payload)
    && row.algorithm == "ed25519"
  }

  /** May this row be spent on this request? Then which receipt does it carry? */
  function Usable(t: Trust, row: Row, operationId: string, requested: Payload, now: int): Option<Receipt> {
    if row.riskLevel != "L3" || row.operationId != operationId || row.consumed then None
    else if row.status != "approved" || row.expiresAt <= now then None
    else
      var r := VerifyEnvelope(t, row.envelope, now);
      if r.None? || !Mirrors(t, row, r.value) || t.payloadHash(r.value.payload) != t.payloadHash(requested)
      then None else r
  }

  /** The first row with this identifier, or the number of rows. */
  function FindRow(rows: seq<Row>, id: string): (k: nat)
    ensures k <= |rows|
    ensures k < |rows| ==> rows[k].decisionId == id
    ensures forall j :: 0 <= j < k ==> rows[j].decisionId != id
  {
    if rows == [] || rows[0].decisionId == id then 0 else 1 + FindRow(rows[1..], id)
  }

  datatype Choice = ContextBlocked | Unavailable | Ask(k: nat, receipt: Receipt)

  /** _consume_operation_approval up to the call of the Broker */
  function Choose(t: Trust, rows: seq<Row>, approvalId: string, operationId: string, requested: Payload, now: int): (c: Choice)
    ensures c.Ask? ==> c.k < |rows|
  {
    if !ValidPayload(requested, t.sensitive) || !InContext(t, requested) then ContextBlocked else
      var k := FindRow(rows, approvalId);
      if k == |rows| then Unavailable else
        var r := Usable(t, rows[k], operationId, requested, now);
        if r.None? then Unavailable else Ask(k, r.value)
  }

  /** The request line sent to the Broker. */
  function BrokerRequest(nonce: string, receiptSha: string, payloadSha: string): string {
    ObjectText([Member("action", "consume"), Member("nonce", nonce),
                Member("operation_payload_sha256", payloadSha), Member("receipt_sha256", receiptSha)]) + ['\n']
  }

  function Spent(rows: seq<Row>, k: nat): seq<Row>
    requires k < |rows|
  {
    rows[k := rows[k].(consumed := true, status := "completed")]
  }

  /** What import writes, a later evaluation can spend: while the envelope still verifies, the
      imported row is the one chosen for exactly its own operation and payload. */
  lemma ImportedIsUsable(t: Trust, rows: seq<Row>, e: Envelope, now: int, later: int)
    requires |ImportApproval(t, rows, e, now)| > |rows| && VerifyEnvelope(t, Some(e), later).Some?
    ensures
      var r := e.receipt;
      Choose(t, ImportApproval(t, rows, e, now), r.approvalId, r.operationId, r.payload, later) == Ask(|rows|, r)
  {
    hide ValidPayload, Blank;
    var all := ImportApproval(t, rows, e, now);
    assert all == rows + [RowOf(t, e)];
    var k := FindRow(all, e.receipt.approvalId);
    assert all[|rows|].decisionId == e.receipt.approvalId;
    assert forall j :: 0 <= j < |rows| ==> all[j] == rows[j];
  }

  /** Importing the same approval, or another with its nonce, has no further effect. */
  lemma ImportedOnce(t: Trust, rows: seq<Row>, e: Envelope, now: int, again: Envelope, later: int)
    requires |ImportApproval(t, rows, e, now)| > |rows|
    requires again.receipt.approvalId == e.receipt.approvalId || again.receipt.nonce == e.receipt.nonce
    ensures
      var once := ImportApproval(t, rows, e, now);
      ImportApproval(t, once, again, later) == once
  {
    hide VerifyEnvelope;
    var once := ImportApproval(t, rows, e, now);
    assert once[|rows|] == RowOf(t, e);
  }

  // ---------------------------------------------------------------- what a chosen approval is worth

  /** The approval behind a row: a signature that verified when it was chosen, on a receipt still in
      its validity window, for a payload with the requested digest. */
  predicate Approved(t: Trust, row: Row, receipt: Receipt, requested: Payload, now: int) {
    && row.envelope.Some? && row.envelope.value.receipt == receipt
    && t.verify(receipt, row.envelope.value.signature, now)
    && receipt.issuedAt <= now + FIVE_MINUTES && now < receipt.expiresAt
    && ValidPayload(receipt.payload, t.sensitive) && ValidPayload(requested, t.sensitive)
    && InContext(t, requested)
    && t.payloadHash(receipt.payload) == t.payloadHash(requested)
  }

  lemma ChosenIsApproved(t: Trust, rows: seq<Row>, id: string, op: string, requested: Payload, now: int)
    requires Choose(t, rows, id, op, requested, now).Ask?
    ensures
      var choice := Choose(t, rows, id, op, requested, now);
      && Approved(t, rows[choice.k], choice.receipt, requested, now)
      && choice.receipt.approvalId == id && choice.receipt.operationId == op
  {
    hide ValidPayload, Blank;
  }

  /** SHA-256 over canonical JSON as an injective function: no two payloads share a digest. */
  ghost predicate CollisionFree(t: Trust) {
    forall p: Payload, q: Payload :: t.payloadHash(p) == t.payloadHash(q) ==> p == q
  }

  // ---------------------------------------------------------------- what the Broker records

  /** Whatever the nonce holds, if the Broker records anything for our request, it records our
      nonce and our two digests. */
  lemma AskedIsRecorded(content: string, nonce: string, receiptSha: string, payloadSha: string, now: string, crash: Option<nat>)
    ensures
      var h := Handle(content, BrokerRequest(nonce, receiptSha, payloadSha), now, crash);
      h.record.Some? ==> h.record.value == Record(nonce, receiptSha, payloadSha, now)
  {
    hide Consume, ParseObject, ObjectText, IsNonce, IsHash, Scan;
    var ms := [Member("action", "consume"), Member("nonce", nonce),
               Member("operation_payload_sha256", payloadSha), Member("receipt_sha256", receiptSha)];
    var raw := BrokerRequest(nonce, receiptSha, payloadSha);
    assert raw == ObjectText(ms) + ['\n'] && raw[..|raw| - 1] == ObjectText(ms);
    ObjectRoundTrip(ms);
    CollectRequest(nonce, receiptSha, payloadSha);
    ConsumeRecords(content, Record(nonce, receiptSha, payloadSha, now), crash);
  }

  lemma ConsumeRecords(content: string, r: Record, crash: Option<nat>)
    ensures Consume(content, r, crash).record.Some? ==> Consume(content, r, crash).record.value == r
  {
    hide Scan, RecordText;
  }

  lemma CollectRequest(nonce: string, receiptSha: string, payloadSha: string)
    ensures
      Collect([Member("action", "consume"), Member("nonce", nonce),
               Member("operation_payload_sha256", payloadSha), Member("receipt_sha256", receiptSha)], map[])
      == map["action" := "consume", "nonce" := nonce,
             "operation_payload_sha256" := payloadSha, "receipt_sha256" := receiptSha]
  {
    var ms := [Member("action", "consume"), Member("nonce", nonce),
               Member("operation_payload_sha256", payloadSha), Member("receipt_sha256", receiptSha)];
    assert ms[1..][1..] == ms[2..] && ms[2..][1..] == ms[3..] && ms[3..][1..] == [];
    var m1 := map["action" := "consume"];
    var m2 := m1["nonce" := nonce];
    var m3 := m2["operation_payload_sha256" := payloadSha];
    assert Collect(ms[3..], m3) == Collect([], m3["receipt_sha256" := receiptSha]);
    assert Collect(ms[2..], m2) == Collect(ms[3..], m3);
    assert Collect(ms[1..], m1) == Collect(ms[2..], m2);
  }

  /** A CONSUMED answer appends exactly one record, ours. */
  lemma ConsumedAppends(g: Ledger, nonce: string, receiptSha: string, payloadSha: string, at: string, crash: Option<nat>)
    requires Sound(g) && IsStamp(at)
    requires Next(g, Event(BrokerRequest(nonce, receiptSha, payloadSha), at, crash)).1 == Consumed
    ensures
      Next(g, Event(BrokerRequest(nonce, receiptSha, payloadSha), at, crash)).0.written
      == g.written + [Record(nonce, receiptSha, payloadSha, at)]
  {
    hide Handle, Sound, IsStamp, BrokerRequest, RecordText;
    var e := Event(BrokerRequest(nonce, receiptSha, payloadSha), at, crash);
    AskedIsRecorded(g.content, nonce, receiptSha, payloadSha, at, crash);
    HandleCases(g, e);
    var h := Handle(g.content, e.raw, e.now, e.crash);
    assert h.content != g.content by { TextNotEmpty(h.record.value); }
  }

  // ---------------------------------------------------------------- consuming

  /** One evaluation's moment: the agent's clock, the Broker's, whether the Broker dies while
      appending, and whether its answer is heard. */
  datatype Moment = Moment(now: int, at: string, crash: Option<nat>, heard: bool)

  datatype Consumption = Consumption(verdict: Verdict, rows: seq<Row>, ledger: Ledger)

  function RequestFor(t: Trust, r: Receipt): string {
    BrokerRequest(r.nonce, t.receiptHash(r), t.payloadHash(r.payload))
  }

  /** _consume_operation_approval; a request may name no approval or no operation. */
  function ChooseFor(t: Trust, rows: seq<Row>, approvalId: Option<string>, operationId: Option<string>, requested: Payload, now: int): (c: Choice)
    ensures c.Ask? ==> c.k < |rows|
  {
    if !ValidPayload(requested, t.sensitive) || !InContext(t, requested) then ContextBlocked
    else if approvalId.None? || operationId.None? then Unavailable
    else Choose(t, rows, approvalId.value, operationId.value, requested, now)
  }

  function ConsumeApproval(t: Trust, rows: seq<Row>, ledger: Ledger, approvalId: Option<string>,
                           operationId: Option<string>, requested: Payload, m: Moment): Consumption {
    match ChooseFor(t, rows, approvalId, operationId, requested, m.now)
    case ContextBlocked => Consumption(ContextMismatch, rows, ledger)
    case Unavailable => Consumption(NotAvailable, rows, ledger)
    case Ask(k, r) =>
      var (after, answer) := Next(ledger, Event(RequestFor(t, r), m.at, m.crash));
      if answer == Consumed && m.heard then Consumption(Authorised(Spent(rows, k)[k]), Spent(rows, k), after)
      else Consumption(LedgerUnavailable, rows, after)
  }

  function ReceiptOf(row: Row): Receipt
    requires row.envelope.Some?
  {
    row.envelope.value.receipt
  }

  /** The line of the ledger a receipt is spent on. */
  function LineOf(t: Trust, r: Receipt, at: string): Record {
    Record(r.nonce, t.receiptHash(r), t.payloadHash(r.payload), at)
  }

  /** An authorisation adds exactly one line to the ledger, that of its receipt, which was approved for
      the requested payload. Otherwise the store is untouched, and so is the ledger unless the Broker
      was asked and died or its answer was lost. */
  ghost predicate Effect(t: Trust, rows: seq<Row>, ledger: Ledger, approvalId: Option<string>,
                         operationId: Option<string>, requested: Payload, m: Moment, c: Consumption) {
    && Sound(c.ledger) && ledger.written <= c.ledger.written
    && (c.verdict.Authorised? ==>
          && c.verdict.row.envelope.Some?
          && (var r := ReceiptOf(c.verdict.row);
              && Approved(t, c.verdict.row, r, requested, m.now)
              && approvalId == Some(r.approvalId) && operationId == Some(r.operationId)
              && c.ledger.written == ledger.written + [LineOf(t, r, m.at)]))
    && (!c.verdict.Authorised? ==> c.rows == rows)
    && (!c.verdict.Authorised? && (c.verdict != LedgerUnavailable || (m.crash.None? && m.heard)) ==> c.ledger == ledger)
  }

  lemma ConsumptionEffect(t: Trust, rows: seq<Row>, ledger: Ledger, approvalId: Option<string>,
                          operationId: Option<string>, requested: Payload, m: Moment)
    requires Sound(ledger) && IsStamp(m.at)
    ensures Effect(t, rows, ledger, approvalId, operationId, requested, m,
                   ConsumeApproval(t, rows, ledger, approvalId, operationId, requested, m))
  {
    hide Sound, IsStamp, Next, Choose, ValidPayload, BrokerRequest;
    var choice := ChooseFor(t, rows, approvalId, operationId, requested, m.now);
    if choice.Ask? {
      ChosenIsApproved(t, rows, approvalId.value, operationId.value, requested, m.now);
      var e := Event(RequestFor(t, choice.receipt), m.at, m.crash);
      NextKeeps(ledger, e);
      if Next(ledger, e).1 == Consumed {
        ConsumedAppends(ledger, choice.receipt.nonce, t.receiptHash(choice.receipt), t.payloadHash(choice.receipt.payload), m.at, m.crash);
      } else if m.crash.None? {
        NotConsumedKeeps(ledger, e);
      }
    }
  }

  /** Without a crash, any answer but CONSUMED leaves the ledger as it was. */
  lemma NotConsumedKeeps(g: Ledger, e: Event)
    requires Sound(g) && IsStamp(e.now) && e.crash.None? && Next(g, e).1 != Consumed
    ensures Next(g, e).0 == g
  {
    hide Handle, Sound, IsStamp;
    HandleCases(g, e);
    NoCrashNoLoss(g, e);
  }

  lemma NoCrashNoLoss(g: Ledger, e: Event)
    requires e.crash.None?
    ensures Handle(g.content, e.raw, e.now, e.crash).answer != NoAnswer
  {
    hide Scan, RecordText, ParseRequest;
  }

  /** The row an authorisation returns is the one marked as spent. */
  lemma AuthorisedRow(t: Trust, rows: seq<Row>, ledger: Ledger, approvalId: Option<string>,
                      operationId: Option<string>, requested: Payload, m: Moment)
    requires ConsumeApproval(t, rows, ledger, approvalId, operationId, requested, m).verdict.Authorised?
    ensures
      var c := ConsumeApproval(t, rows, ledger, approvalId, operationId, requested, m);
      c.verdict.row in c.rows && c.verdict.row.consumed
  {
    hide ChooseFor, Next;
    var k := ChooseFor(t, rows, approvalId, operationId, requested, m.now).k;
    assert Spent(rows, k)[k] in Spent(rows, k);
  }

  /** The Broker will record this line: its fields are well formed, the ledger is whole and has room,
      and no line has the nonce. */
  ghost predicate Servable(g: Ledger, r: Record) {
    && IsNonce(r.nonce) && IsHash(r.receipt) && IsHash(r.payload)
    && g.torn == "" && |g.content| + |RecordText(r)| < MAX_LEDGER_BYTES
    && forall k :: 0 <= k < |g.written| ==> g.written[k].nonce != r.nonce
  }

  /** A well-formed request reaches the Broker as it was meant. */
  lemma RequestIsRead(nonce: string, receiptSha: string, payloadSha: string)
    requires IsNonce(nonce) && IsHash(receiptSha) && IsHash(payloadSha)
    ensures ParseRequest(BrokerRequest(nonce, receiptSha, payloadSha)) ==
            Some(map["action" := "consume", "nonce" := nonce,
                     "operation_payload_sha256" := payloadSha, "receipt_sha256" := receiptSha])
  {
    hide ParseObject, ObjectText, IsNonce, IsHash, AllPrintable, FirstNewline;
    var ms := [Member("action", "consume"), Member("nonce", nonce),
               Member("operation_payload_sha256", payloadSha), Member("receipt_sha256", receiptSha)];
    RequestPrintable(nonce, receiptSha, payloadSha);
    ObjectRoundTrip(ms);
    CollectRequest(nonce, receiptSha, payloadSha);
    var raw := BrokerRequest(nonce, receiptSha, payloadSha);
    RequestBounds(nonce, receiptSha, payloadSha);
    assert raw[..|raw| - 1] == ObjectText(ms);
    OneNewline(ObjectText(ms));
  }

  lemma RequestPrintable(nonce: string, receiptSha: string, payloadSha: string)
    requires IsNonce(nonce) && IsHash(receiptSha) && IsHash(payloadSha)
    ensures AllPrintable([Member("action", "consume"), Member("nonce", nonce),
                          Member("operation_payload_sha256", payloadSha), Member("receipt_sha256", receiptSha)])
  {
    hide IsNonce, IsHash;
    NoncePrintable(nonce);
    HashPrintable(receiptSha);
    HashPrintable(payloadSha);
  }

  lemma RequestBounds(nonce: string, receiptSha: string, payloadSha: string)
    requires IsNonce(nonce) && IsHash(receiptSha) && IsHash(payloadSha)
    ensures
      var text := ObjectText([Member("action", "consume"), Member("nonce", nonce),
                              Member("operation_payload_sha256", payloadSha), Member("receipt_sha256", receiptSha)]);
      |text| + 1 <= MAX_REQUEST_BYTES && '\n' !in text
  {
    hide MembersText, AllPrintable, Weight;
    var ms := [Member("action", "consume"), Member("nonce", nonce),
               Member("operation_payload_sha256", payloadSha), Member("receipt_sha256", receiptSha)];
    RequestPrintable(nonce, receiptSha, payloadSha);
    MembersBound(ms);
    RequestWeight(nonce, receiptSha, payloadSha);
  }

  lemma RequestWeight(nonce: string, receiptSha: string, payloadSha: string)
    requires |nonce| <= 256 && |receiptSha| == 64 && |payloadSha| == 64
    ensures Weight([Member("action", "consume"), Member("nonce", nonce),
                    Member("operation_payload_sha256", payloadSha), Member("receipt_sha256", receiptSha)]) <= 1000
  {
    var ms := [Member("action", "consume"), Member("nonce", nonce),
               Member("operation_payload_sha256", payloadSha), Member("receipt_sha256", receiptSha)];
    assert ms[1..][1..] == ms[2..] && ms[2..][1..] == ms[3..] && ms[3..][1..] == [];
    assert Weight(ms[3..]) == 2 * 14 + 2 * 64 + 6;
    assert Weight(ms[2..]) == 2 * 24 + 2 * 64 + 6 + Weight(ms[3..]);
    assert Weight(ms[1..]) == 2 * 5 + 2 * |nonce| + 6 + Weight(ms[2..]);
  }

  lemma OneNewline(text: string)
    requires '\n' !in text
    ensures FirstNewline(text + ['\n']) == |text|
  {
    var raw := text + ['\n'];
    assert raw[|text|] == '\n';
    assert forall j :: 0 <= j < |text| ==> raw[j] == text[j];
  }

  /** Exactly when the Broker answers our request CONSUMED. */
  lemma ServedIff(g: Ledger, nonce: string, receiptSha: string, payloadSha: string, at: string)
    requires Sound(g) && IsStamp(at)
    ensures
      Next(g, Event(BrokerRequest(nonce, receiptSha, payloadSha), at, None)).1 == Consumed
      <==> Servable(g, Record(nonce, receiptSha, payloadSha, at))
  {
    hide Sound, IsStamp, IsNonce, IsHash, BrokerRequest, ParseRequest, RecordText;
    var e := Event(BrokerRequest(nonce, receiptSha, payloadSha), at, None);
    var r := Record(nonce, receiptSha, payloadSha, at);
    if IsNonce(nonce) && IsHash(receiptSha) && IsHash(payloadSha) {
      RequestIsRead(nonce, receiptSha, payloadSha);
      HandleReads(g.content, e.raw, at, r);
      if g.torn == "" {
        ConsumeExact(g, r);
      } else {
        TornAnswer(g, e);
      }
    } else {
      hide Handle;
      HandleCases(g, e);
      AskedIsRecorded(g.content, nonce, receiptSha, payloadSha, at, None);
    }
  }

  lemma HandleReads(content: string, raw: string, at: string, r: Record)
    requires ParseRequest(raw) == Some(map["action" := "consume", "nonce" := r.nonce,
                                          "operation_payload_sha256" := r.payload, "receipt_sha256" := r.receipt])
    requires IsNonce(r.nonce) && IsHash(r.receipt) && IsHash(r.payload) && r.at == at
    ensures Handle(content, raw, at, None) == Consume(content, r, None)
  {
    hide ParseRequest, IsNonce, IsHash, Consume;
    var q := ParseRequest(raw).value;
    assert q.Keys == REQUEST_KEYS;
    assert q != map["action" := "health"] by { assert q["action"] == "consume"; }
  }

  /** Exactly when an approval is spent. */
  lemma SpentIff(t: Trust, rows: seq<Row>, ledger: Ledger, approvalId: Option<string>,
                 operationId: Option<string>, requested: Payload, m: Moment)
    requires Sound(ledger) && IsStamp(m.at)
    ensures
      var choice := ChooseFor(t, rows, approvalId, operationId, requested, m.now);
      var c := ConsumeApproval(t, rows, ledger, approvalId, operationId, requested, m);
      && (c.verdict.Authorised? <==>
            choice.Ask? && m.crash.None? && m.heard && Servable(ledger, LineOf(t, choice.receipt, m.at)))
      && (c.verdict.NotAvailable? <==> choice.Unavailable?)
  {
    hide Sound, IsStamp, Next, ChooseFor, Servable, BrokerRequest;
    var choice := ChooseFor(t, rows, approvalId, operationId, requested, m.now);
    if choice.Ask? {
      var r := choice.receipt;
      if m.crash.None? {
        ServedIff(ledger, r.nonce, t.receiptHash(r), t.payloadHash(r.payload), m.at);
      } else {
        CrashIsSilent(ledger, Event(RequestFor(t, r), m.at, m.crash));
      }
    }
  }

  /** A Broker that dies while appending answers nobody. */
  lemma CrashIsSilent(g: Ledger, e: Event)
    requires e.crash.Some?
    ensures Next(g, e).1 != Consumed
  {
    hide Scan, RecordText, ParseRequest;
  }

  // ---------------------------------------------------------------- the procedure

  datatype Verdict = ContextMismatch | NotAvailable | LedgerUnavailable | Authorised(row: Row)

  class DecisionStore {
    var rows: seq<Row>

    constructor (rows: seq<Row>)
      ensures this.rows == rows
    {
      this.rows := rows;
    }

    /** _consume_operation_approval, undisturbed: the store and the ledger move together, or
        neither does. */
    method ConsumeOperationApproval(t: Trust, broker: NonceLedgerFile, approvalId: string, operationId: string,
                                    requested: Payload, now: int, at: string)
      returns (v: Verdict)
      modifies this, broker
      ensures
        var choice := Choose(t, old(rows), approvalId, operationId, requested, now);
        match choice
        case ContextBlocked => v == ContextMismatch && rows == old(rows) && broker.content == old(broker.content)
        case Unavailable => v == NotAvailable && rows == old(rows) && broker.content == old(broker.content)
        case Ask(k, r) =>
          var h := Handle(old(broker.content), BrokerRequest(r.nonce, t.receiptHash(r), t.payloadHash(r.payload)), at, None);
          && broker.content == h.content
          && if h.answer == Consumed then rows == Spent(old(rows), k) && v == Authorised(rows[k])
             else rows == old(rows) && v == LedgerUnavailable
    {
      hide ValidPayload, Handle, BrokerRequest, Usable;
      if !ValidPayload(requested, t.sensitive) || !InContext(t, requested) {
        return ContextMismatch;
      }
      var k := 0;
      while k < |rows| && rows[k].decisionId != approvalId
        invariant 0 <= k <= |rows|
        invariant forall j :: 0 <= j < k ==> rows[j].decisionId != approvalId
      {
        k := k + 1;
      }
      assert k == FindRow(rows, approvalId);
      if k == |rows| {
        return NotAvailable;
      }
      var r := Usable(t, rows[k], operationId, requested, now);
      if r.None? {
        return NotAvailable;
      }
      var request := BrokerRequest(r.value.nonce, t.receiptHash(r.value), t.payloadHash(r.value.payload));
      var answer := broker.HandleRequest(request, at, None);
      if answer != Consumed {
        return LedgerUnavailable;
      }
      rows := Spent(rows, k);
      return Authorised(rows[k]);
    }
  }
}
