/** Exactly which requests `evaluate_escalation` and `evaluate_deployment` (src/sddgov/autonomy.py) let
    through, which they put before a human, and on what, for every request and every state of the stores. */
module Verdicts {
  import opened Common
  import opened Operations
  import opened Approval
  import opened Escalation
  import opened Receipts
  import opened Envelopes
  import NonceLedger
  import ExternalActions
  import ActionQueue

  // ---------------------------------------------------------------- the package put before a human

  /** A package a human can decide on: something verified, a reason, two or more described options one of
      which is recommended, and for L3, and only there, the exact operation. */
  ghost predicate Presentable(t: Trust, p: Package) {
    && p.riskLevel in {"L2", "L3", "Operational", "UAT"}
    && Said(p.decisionId) && Said(p.reason) && Said(p.why) && Said(p.impact) && Said(p.scope)
    && (exists text :: text in p.verified && Said(text))
    && |p.options| >= 2 && (forall o :: o in p.options ==> Said(o.label_) && Said(o.description))
    && (exists o :: o in p.options && o.label_ == p.recommended)
    && (p.riskLevel != "L3" ==> p.payload == None)
    && (p.riskLevel == "L3" ==> p.payload.Some? && Exact(t, p.payload.value))
  }

  lemma PresentableIff(t: Trust, p: Package)
    ensures Presentable(t, p) <==> PackageOk(p, t.sensitive)
  {
    hide Said, Blank, Exact, ValidPayload;
    forall text: string ensures Said(text) <==> !Blank(text) {
      SaidIff(text);
    }
    forall payload: Payload ensures Exact(t, payload) <==> ValidPayload(payload, t.sensitive) {
      ExactIff(t, payload);
    }
    assert forall k :: 0 <= k < |p.verified| ==> p.verified[k] in p.verified;
    assert forall k :: 0 <= k < |p.options| ==> p.options[k] in p.options;
  }

  predicate HasText(q: Request, field: string, text: string) {
    field in q && q[field] == Text(text)
  }

  predicate IsTrue(q: Request, field: string) {
    field in q && q[field] == Flag(true)
  }

  /** The operation the request asks for: exact, of its category and with its effects. */
  ghost predicate Operation(t: Trust, q: Request, payload: Payload) {
    && "operation_payload" in q && q["operation_payload"] == PayloadValue(payload)
    && Exact(t, payload) && payload.category == Category(q) && payload.effects == Declared(q).Keys
  }

  /** The package is about this request: of its kind, under its identifier and for its scope. */
  ghost predicate About(t: Trust, q: Request, p: Package) {
    if Category(q) == "product_decision" then
      p.riskLevel == "L2" && HasText(q, "decision_id", p.decisionId) && HasText(q, "decision_scope", p.scope)
    else if Category(q) == "operational_action" then
      p.riskLevel == "Operational" && HasText(q, "action_id", p.decisionId) && HasText(q, "action_scope", p.scope)
    else if Category(q) == "necessary_uat" then
      p.riskLevel == "UAT" && HasText(q, "uat_id", p.decisionId) && HasText(q, "uat_scope", p.scope)
    else
      && Category(q) in DANGEROUS && p.riskLevel == "L3" && HasText(q, "approval_id", p.decisionId)
      && (exists text :: HasText(q, "operation_id", text) && Said(text))
      && p.payload.Some? && Operation(t, q, p.payload.value) && p.scope == p.payload.value.scope
  }

  lemma NamesSomething(t: Trust, p: Package)
    requires Presentable(t, p)
    ensures Said(p.decisionId) && Said(p.scope)
  {
    hide Said, Exact;
  }

  lemma AboutIff(t: Trust, q: Request, p: Package)
    requires Presentable(t, p)
    requires Category(q) in {"product_decision", "operational_action", "necessary_uat"} || Category(q) in DANGEROUS
    ensures Bound(q, p, Risk(q), Category(q), Declared(q), t.sensitive) <==> About(t, q, p)
  {
    hide Said, Blank, Exact, ValidPayload, DANGEROUS, ROUTINE, HIGH_RISK_CATEGORIES, ROUTINE_OPERATIONS, KNOWN_CATEGORIES, Presentable;
    CategoriesAre(Category(q));
    NamesSomething(t, p);
    forall text: string ensures Said(text) <==> !Blank(text) {
      SaidIff(text);
    }
    forall payload: Payload ensures Exact(t, payload) <==> ValidPayload(payload, t.sensitive) {
      ExactIff(t, payload);
    }
    if "operation_id" in q && q["operation_id"].Text? && Said(q["operation_id"].text) {
      assert HasText(q, "operation_id", q["operation_id"].text);
    }
  }

  /** A presentable package about the request is attached. */
  ghost predicate Attached(t: Trust, q: Request) {
    && "decision_package" in q && q["decision_package"].PackageValue?
    && Presentable(t, q["decision_package"].package) && About(t, q, q["decision_package"].package)
  }

  lemma AttachedIff(t: Trust, q: Request)
    requires Category(q) in {"product_decision", "operational_action", "necessary_uat"} || Category(q) in DANGEROUS
    ensures Attached(t, q) <==>
            && "decision_package" in q && q["decision_package"].PackageValue?
            && PackageOk(q["decision_package"].package, t.sensitive)
            && Bound(q, q["decision_package"].package, Risk(q), Category(q), Declared(q), t.sensitive)
  {
    hide Presentable, About, PackageOk, Bound, DANGEROUS;
    if "decision_package" in q && q["decision_package"].PackageValue? {
      PresentableIff(t, q["decision_package"].package);
      if Presentable(t, q["decision_package"].package) {
        AboutIff(t, q, q["decision_package"].package);
      }
    }
  }

  /** The request declares work that does not depend on the decision. */
  predicate Elsewhere(q: Request) {
    "unrelated_work_exists" in q && Truthy(q["unrelated_work_exists"])
  }

  /** What an evaluation of a request that is put before a human comes to. */
  ghost predicate PutTo(env: Env, q: Request, e: Evaluated) {
    && Attached(env.trust, q)
    && if Elsewhere(q) then e.r.Continue? && e.r.authorised.None? && e.r.attached == Some(q["decision_package"].package)
       else e.r == ActionRequired(q["decision_package"].package)
  }

  predicate Refuses(e: Evaluated) {
    e.r.Blocked? || e.r.Raised?
  }

  lemma PresentIff(env: Env, s: Store, q: Request, now: int)
    requires Category(q) == "product_decision" || Category(q) in DANGEROUS
    ensures
      var e := Present(env, s, q, Risk(q), Category(q), Declared(q), now);
      e.s == s && if Attached(env.trust, q) then PutTo(env, q, e) else Refuses(e)
  {
    hide Attached, PackageOk, Bound, DANGEROUS;
    AttachedIff(env.trust, q);
    HumanIsNotForced(Category(q));
  }

  lemma HumanIsNotForced(category: string)
    requires category == "product_decision" || category in DANGEROUS
    ensures !IsForcedHuman(category)
  {
    hide DANGEROUS;
    CategoriesAre(category);
  }

  // ---------------------------------------------------------------- dangerous categories

  /** A row of the store qualifies for the operation asked for, and the Broker, which has room, a whole ledger
      and no line with its nonce, is there and heard. */
  ghost predicate Granted(env: Env, s: Store, q: Request, m: Moment) {
    exists payload, id, op, k: nat ::
      && Operation(env.trust, q, payload) && Here(env.trust, payload) && HasText(q, "approval_id", id) && HasText(q, "operation_id", op)
      && Grants(env, s, payload, id, op, k, m)
  }

  ghost predicate Grants(env: Env, s: Store, payload: Payload, id: string, op: string, k: nat, m: Moment) {
    && Qualifies(env.trust, s.rows, k, id, op, payload, m.now)
    && m.crash.None? && m.heard
    && Servable(s.ledger, LineOf(env.trust, s.rows[k].envelope.value.receipt, m.at))
  }

  /** No row has the identifier of the approval: nobody was asked yet. */
  ghost predicate Unasked(env: Env, s: Store, q: Request) {
    && Attached(env.trust, q) && PayloadOf(q).Some? && Here(env.trust, PayloadOf(q).value)
    && forall row :: row in s.rows ==> !HasText(q, "approval_id", row.decisionId)
  }

  lemma KnownIff(rows: seq<Row>, id: Option<string>)
    ensures Known(rows, id) <==> exists row :: row in rows && id == Some(row.decisionId)
  {
    if id.Some? {
      var k := FindRow(rows, id.value);
      if k < |rows| {
        assert rows[k] in rows;
      }
      if row :| row in rows && id == Some(row.decisionId) {
        var j :| 0 <= j < |rows| && rows[j] == row;
      }
    }
  }

  /** Of a dangerous request that is looked at: it is let through on exactly the requested payload if an approval is
      granted; put before a human if nobody was asked; and refused otherwise. */
  lemma DangerousIff(env: Env, s: Store, q: Request, m: Moment)
    requires Category(q) in DANGEROUS && Enveloped(q) && NonceLedger.Sound(s.ledger) && NonceLedger.IsStamp(m.at)
    ensures
      var e := Evaluate(env, s, q, m);
      if Granted(env, s, q, m) then e.r.Continue? && e.r.authorised.Some?
      else if Unasked(env, s, q) then PutTo(env, q, e) else Refuses(e)
  {
    hide Evaluate, Enveloped, Attached, Granted, DANGEROUS, NonceLedger.Sound, NonceLedger.IsStamp, Spend, Unasked;
    Enters(env, s, q, m);
    CategoriesAre(Category(q));
    DangerousAtL3(q);
    DangerousDecides(env, s, q, m);
    if Asserted(q, "approval_id") {
      SpendVerdict(env, s, q, m);
    } else {
      PresentIff(env, s, q, m.now);
      NothingAsserted(env, s, q, m);
    }
  }

  lemma DangerousAtL3(q: Request)
    requires Category(q) in DANGEROUS && Enveloped(q)
    ensures Risk(q) == "L3"
  {
    hide DANGEROUS, ROUTINE;
    CategoriesAre(Category(q));
  }

  lemma DangerousDecides(env: Env, s: Store, q: Request, m: Moment)
    requires IsHighRisk(Category(q)) && Risk(q) == "L3"
    ensures Decide(env, s, q, Risk(q), Category(q), Declared(q), m) ==
            if Asserted(q, "approval_id") then Spend(env, s, q, Category(q), Declared(q), m)
            else Present(env, s, q, Risk(q), Category(q), Declared(q), m.now)
  {
    hide Spend, Present, ReuseDecision, IsHighRisk;
    HighRiskIsNotSpecial(Category(q));
  }

  /** Without an approval's name nothing is attached either. */
  lemma NothingAsserted(env: Env, s: Store, q: Request, m: Moment)
    requires !Asserted(q, "approval_id") && Category(q) in DANGEROUS && NonceLedger.Sound(s.ledger)
    ensures !Attached(env.trust, q) && !Granted(env, s, q, m) && !Unasked(env, s, q)
  {
    hide Exact, Said, DANGEROUS, Fresh, Says, Servable, NonceLedger.Sound;
    CategoriesAre(Category(q));
    NamesAreSaid();
    if Granted(env, s, q, m) {
      var payload, id, op, k: nat :|
        && Operation(env.trust, q, payload) && Here(env.trust, payload) && HasText(q, "approval_id", id) && HasText(q, "operation_id", op)
        && Grants(env, s, payload, id, op, k, m);
      QualifiedIsNamed(env.trust, s.rows, k, id, op, payload, m.now);
    }
  }

  lemma NamesAreSaid()
    ensures !Said("")
  {}

  lemma QualifiedIsNamed(t: Trust, rows: seq<Row>, k: nat, id: string, op: string, payload: Payload, now: int)
    requires Qualifies(t, rows, k, id, op, payload, now)
    ensures Said(id) && id != ""
  {
    hide Said, Exact;
    NamesAreSaid();
  }

  lemma OperationIff(t: Trust, q: Request, payload: Payload)
    ensures Operation(t, q, payload) <==>
            PayloadOf(q) == Some(payload) && ValidPayload(payload, t.sensitive) && PayloadFits(payload, Category(q), Declared(q))
  {
    hide Exact, ValidPayload;
    ExactIff(t, payload);
  }

  lemma SpendVerdict(env: Env, s: Store, q: Request, m: Moment)
    requires Category(q) in DANGEROUS && Risk(q) == "L3" && NonceLedger.Sound(s.ledger) && NonceLedger.IsStamp(m.at)
    ensures
      var e := Spend(env, s, q, Category(q), Declared(q), m);
      if Granted(env, s, q, m) then e.r.Continue? && e.r.authorised.Some?
      else if Unasked(env, s, q) then PutTo(env, q, e) else Refuses(e)
  {
    hide DANGEROUS, NonceLedger.Sound, NonceLedger.IsStamp, Granted, Unasked, Spend, Attached, ValidPayload, Operation;
    forall payload: Payload
      ensures Operation(env.trust, q, payload) <==>
              PayloadOf(q) == Some(payload) && ValidPayload(payload, env.trust.sensitive) && PayloadFits(payload, Category(q), Declared(q))
    {
      OperationIff(env.trust, q, payload);
    }
    if PayloadOf(q).Some? && Operation(env.trust, q, PayloadOf(q).value) {
      SpendOperation(env, s, q, PayloadOf(q).value, m);
    } else {
      NoOperation(env, s, q, m);
    }
  }

  lemma NoOperation(env: Env, s: Store, q: Request, m: Moment)
    requires Category(q) in DANGEROUS
    requires forall payload :: !Operation(env.trust, q, payload)
    requires PayloadOf(q).Some? ==>
               !(ValidPayload(PayloadOf(q).value, env.trust.sensitive) && PayloadFits(PayloadOf(q).value, Category(q), Declared(q)))
    ensures !Granted(env, s, q, m) && !Unasked(env, s, q) && Refuses(Spend(env, s, q, Category(q), Declared(q), m))
  {
    hide DANGEROUS, ValidPayload, Operation, Presentable, Grants;
    CategoriesAre(Category(q));
  }

  /** The consumption of an operation, by its three outcomes. */
  lemma SpendOperation(env: Env, s: Store, q: Request, payload: Payload, m: Moment)
    requires Category(q) in DANGEROUS && Risk(q) == "L3" && NonceLedger.Sound(s.ledger) && NonceLedger.IsStamp(m.at)
    requires Operation(env.trust, q, payload)
    ensures
      var e := Spend(env, s, q, Category(q), Declared(q), m);
      if Granted(env, s, q, m) then e.r.Continue? && e.r.authorised.Some?
      else if Unasked(env, s, q) then PutTo(env, q, e) else Refuses(e)
  {
    hide DANGEROUS, NonceLedger.Sound, NonceLedger.IsStamp, Granted, Unasked, Present, ConsumeApproval, Attached, ValidPayload, Approved, Known,
         PutTo, Operation, Servable, Here, Exact;
    OperationIff(env.trust, q, payload);
    var id, op := TextOf(q, "approval_id"), TextOf(q, "operation_id");
    SpentIff(env.trust, s.rows, s.ledger, id, op, payload, m);
    ConsumptionEffect(env.trust, s.rows, s.ledger, id, op, payload, m);
    GrantedIff(env, s, q, payload, m);
    UnaskedIff(env, s, q, payload, m);
    KnownIff(s.rows, id);
    PresentIff(env, s, q, m.now);
    var c := Consume(env, s, q, payload, m);
    if c.verdict.NotAvailable? {
      assert c.rows == s.rows && c.ledger == s.ledger;
      assert s.(rows := c.rows, ledger := c.ledger) == s;
    }
  }

  lemma GrantedIff(env: Env, s: Store, q: Request, payload: Payload, m: Moment)
    requires Operation(env.trust, q, payload)
    ensures
      var choice := ChooseFor(env.trust, s.rows, TextOf(q, "approval_id"), TextOf(q, "operation_id"), payload, m.now);
      Granted(env, s, q, m) <==>
      choice.Ask? && m.crash.None? && m.heard && Servable(s.ledger, LineOf(env.trust, choice.receipt, m.at))
  {
    hide ChooseFor, Exact, Qualifies, Servable, Here;
    var id, op := TextOf(q, "approval_id"), TextOf(q, "operation_id");
    var choice := ChooseFor(env.trust, s.rows, id, op, payload, m.now);
    if choice.Ask? {
      ChosenIff(env.trust, s.rows, id, op, payload, m.now, choice.k);
      if m.crash.None? && m.heard && Servable(s.ledger, LineOf(env.trust, choice.receipt, m.at)) {
        QualifiesHasEnvelope(env.trust, s.rows, choice.k, id.value, op.value, payload, m.now);
        assert Grants(env, s, payload, id.value, op.value, choice.k, m);
        assert HasText(q, "approval_id", id.value) && HasText(q, "operation_id", op.value);
      }
    }
    if Granted(env, s, q, m) {
      var payload2, id2, op2, k: nat :|
        && Operation(env.trust, q, payload2) && Here(env.trust, payload2) && HasText(q, "approval_id", id2) && HasText(q, "operation_id", op2)
        && Grants(env, s, payload2, id2, op2, k, m);
      ChosenIff(env.trust, s.rows, id, op, payload, m.now, k);
    }
  }

  lemma QualifiesHasEnvelope(t: Trust, rows: seq<Row>, k: nat, id: string, op: string, payload: Payload, now: int)
    requires Qualifies(t, rows, k, id, op, payload, now)
    ensures k < |rows| && rows[k].envelope.Some?
  {
    hide Fresh, Says;
  }

  lemma UnaskedIff(env: Env, s: Store, q: Request, payload: Payload, m: Moment)
    requires Operation(env.trust, q, payload)
    ensures
      var choice := ChooseFor(env.trust, s.rows, TextOf(q, "approval_id"), TextOf(q, "operation_id"), payload, m.now);
      Unasked(env, s, q) <==> choice.Unavailable? && !Known(s.rows, TextOf(q, "approval_id")) && Attached(env.trust, q)
  {
    hide Exact, Qualifies, Attached, Known, ValidPayload, Usable;
    ChosenIff(env.trust, s.rows, TextOf(q, "approval_id"), TextOf(q, "operation_id"), payload, m.now, 0);
    KnownIff(s.rows, TextOf(q, "approval_id"));
    if !Known(s.rows, TextOf(q, "approval_id")) {
      UnknownIsUnavailable(env.trust, s.rows, TextOf(q, "approval_id"), TextOf(q, "operation_id"), payload, m.now);
    }
  }

  lemma UnknownIsUnavailable(t: Trust, rows: seq<Row>, id: Option<string>, op: Option<string>, payload: Payload, now: int)
    requires !Known(rows, id)
    ensures !ChooseFor(t, rows, id, op, payload, now).Ask?
  {
    hide Usable, ValidPayload;
  }

  // ---------------------------------------------------------------- product decisions

  /** The first row with the decision's identifier. */
  ghost predicate IsRecorded(rows: seq<Row>, q: Request, row: Row) {
    exists k :: 0 <= k < |rows| && rows[k] == row && HasText(q, "decision_id", row.decisionId) && row.decisionId != ""
                && forall j :: 0 <= j < k ==> rows[j].decisionId != row.decisionId
  }

  /** An approved L2 decision of the scope the request names. */
  ghost predicate Stands(row: Row, q: Request) {
    row.riskLevel == "L2" && row.status == "approved" && Said(row.scope) && HasText(q, "decision_scope", row.scope)
  }

  /** Chosen by the owner in plain language, and bound to the package given, or to none. */
  ghost predicate Plainly(env: Env, row: Row, q: Request, package: Option<Value>) {
    && Stands(row, q) && row.mode == "plain_language_owner_choice" && row.approvedBy == "project_owner"
    && env.binding(row, package)
  }

  /** Signed by an owner, field by field. */
  ghost predicate Signed(env: Env, row: Row, q: Request, now: int) {
    && Stands(row, q) && row.mode != "plain_language_owner_choice"
    && row.product.Some? && env.product(row.product.value, now).Some?
    && var r := env.product(row.product.value, now).value;
       && r.decisionId == row.decisionId && r.summary == row.summary && r.scope == row.scope && r.terms == row.terms
       && r.approvedBy == row.approvedBy && r.expiresAt == row.expiresAt && r.nonce == row.nonce && r.sha == row.receiptSha
       && row.algorithm == "ed25519"
  }

  /** The package a request gives, null being none. */
  function Given(q: Request): Option<Value> {
    if "decision_package" in q && q["decision_package"] != Null then Some(q["decision_package"]) else None
  }

  /** The recorded decision answers the request. */
  ghost predicate Decided(env: Env, s: Store, q: Request, now: int) {
    exists row ::
      && IsRecorded(s.rows, q, row)
      && (Plainly(env, row, q, Given(q)) || ("decision_package" !in q && Signed(env, row, q, now)))
  }

  /** A decision is recorded that answers the request's scope, but not the package it brings. */
  ghost predicate Superseded(env: Env, s: Store, q: Request, now: int) {
    && !Decided(env, s, q, now)
    && exists row :: IsRecorded(s.rows, q, row) && (Plainly(env, row, q, None) || Signed(env, row, q, now))
  }

  lemma RecordedIff(rows: seq<Row>, q: Request, row: Row)
    ensures IsRecorded(rows, q, row) <==> Recorded(rows, TextOf(q, "decision_id")) == Some(row)
  {
    var id := TextOf(q, "decision_id");
    if IsRecorded(rows, q, row) {
      var k :| 0 <= k < |rows| && rows[k] == row && HasText(q, "decision_id", row.decisionId) && row.decisionId != ""
               && forall j :: 0 <= j < k ==> rows[j].decisionId != row.decisionId;
      FirstIs(rows, row.decisionId, k);
    }
    if Recorded(rows, id) == Some(row) {
      var k := FindRow(rows, id.value);
      assert rows[k] == row && HasText(q, "decision_id", row.decisionId);
    }
  }

  lemma StandsIff(row: Row, q: Request)
    ensures Stands(row, q) <==> row.riskLevel == "L2" && row.status == "approved" && NamesScope(TextOf(q, "decision_scope"), row)
  {
    hide Said, Blank;
    SaidIff(row.scope);
  }

  lemma PlainlyIff(env: Env, row: Row, q: Request, package: Option<Value>)
    ensures Plainly(env, row, q, package) <==> PlainMatches(env, row, TextOf(q, "decision_scope"), package)
  {
    hide Stands, NamesScope;
    StandsIff(row, q);
  }

  lemma MatchesIff(env: Env, row: Row, q: Request, now: int)
    ensures L2Matches(env, row, TextOf(q, "decision_scope"), now) <==> Plainly(env, row, q, None) || Signed(env, row, q, now)
  {
    hide Stands, NamesScope;
    StandsIff(row, q);
  }

  /** Of a product decision that is looked at: it is let through if the decision is recorded; refused if the
      recorded one does not answer its package; put before a human if its package is attached; refused
      otherwise. No store changes. */
  lemma ProductIff(env: Env, s: Store, q: Request, m: Moment)
    requires Category(q) == "product_decision" && Enveloped(q)
    ensures
      var e := Evaluate(env, s, q, m);
      && e.s == s
      && (if Decided(env, s, q, m.now) then e.r.Continue? && e.r.authorised.None? && e.r.attached.None?
          else if Attached(env.trust, q) && !Superseded(env, s, q, m.now) then PutTo(env, q, e) else Refuses(e))
  {
    hide Evaluate, Enveloped, Attached, Plainly, Signed, PlainMatches, L2Matches, Recorded, IsRecorded, PutTo, Present, DANGEROUS;
    Enters(env, s, q, m);
    ProductAtL2(q);
    PresentIff(env, s, q, m.now);
    var found := Recorded(s.rows, TextOf(q, "decision_id"));
    forall row ensures IsRecorded(s.rows, q, row) <==> found == Some(row) {
      RecordedIff(s.rows, q, row);
    }
    if found.Some? {
      PlainlyIff(env, found.value, q, Given(q));
      MatchesIff(env, found.value, q, m.now);
      assert IsRecorded(s.rows, q, found.value);
    }
    ReuseCases(env, s, q, m.now);
  }

  lemma ProductAtL2(q: Request)
    requires Category(q) == "product_decision" && Enveloped(q)
    ensures Risk(q) == "L2"
  {
    hide DANGEROUS, ROUTINE;
    CategoriesAre(Category(q));
  }

  lemma ReuseCases(env: Env, s: Store, q: Request, now: int)
    requires Category(q) == "product_decision" && Risk(q) == "L2"
    ensures
      var row, e := Recorded(s.rows, TextOf(q, "decision_id")), ReuseDecision(env, s, q, Declared(q), now);
      var plain := row.Some? && PlainMatches(env, row.value, TextOf(q, "decision_scope"), Given(q));
      var matches := row.Some? && L2Matches(env, row.value, TextOf(q, "decision_scope"), now);
      if plain || (matches && "decision_package" !in q) then e.s == s && e.r.Continue? && e.r.authorised.None? && e.r.attached.None?
      else if matches then e.s == s && Refuses(e)
      else e == Present(env, s, q, Risk(q), Category(q), Declared(q), now)
  {
    hide Present, PlainMatches, L2Matches, Recorded;
  }

  // ---------------------------------------------------------------- owner actions

  /** The action an owner is asked for: its identifier, owner and scope named by the request, the rest by
      the package. */
  ghost predicate IsAction(q: Request, id: ExternalActions.Identity) {
    && "decision_package" in q && q["decision_package"].PackageValue? && id.summary == q["decision_package"].package.reason
    && id.risk == Risk(q) && id.actionClass == Category(q) && Said(id.owner)
    && if Category(q) == "operational_action"
       then HasText(q, "action_id", id.actionId) && HasText(q, "action_owner", id.owner) && HasText(q, "action_scope", id.scope)
       else HasText(q, "uat_id", id.actionId) && HasText(q, "uat_owner", id.owner) && HasText(q, "uat_scope", id.scope)
  }

  /** The minutes it is to stay open: a day if the request does not say. */
  ghost predicate IsLifetime(q: Request, minutes: int) {
    var field := if Category(q) == "operational_action" then "action_ttl_minutes" else "uat_ttl_minutes";
    (field !in q && minutes == 24 * 60) || (field in q && q[field] == Number(minutes))
  }

  /** The resolution stored with a row is verified and says what the row says. */
  ghost predicate Proved(env: Env, row: ExternalActions.Row) {
    && row.envelope.Some? && env.resolution(row.envelope.value).Some?
    && var r := env.resolution(row.envelope.value).value;
       && r.actionId == row.id.actionId && r.actionClass == row.id.actionClass && r.owner == row.id.owner && r.scope == row.id.scope
       && r.requestSha == row.requestSha && r.status == row.status && Some(r.receipt) == row.receipt
  }

  /** What the queue answers to the request. */
  ghost predicate Queued(env: Env, s: Store, q: Request, now: int, out: ExternalActions.Outcome) {
    exists id, minutes :: IsAction(q, id) && IsLifetime(q, minutes) && out == ExternalActions.Enqueue(env.hash, s.actions, id, minutes, now)
  }

  lemma QueuedIff(env: Env, s: Store, q: Request, now: int, out: ExternalActions.Outcome)
    requires IsForcedHuman(Category(q)) && "decision_package" in q && q["decision_package"].PackageValue?
    ensures
      var id, ttl := ActionOf(q, q["decision_package"].package, Risk(q), Category(q)), LifetimeOf(q, Category(q));
      Queued(env, s, q, now, out) <==>
      && id.Some? && ttl.Some? && !Blank(id.value.owner)
      && out == ExternalActions.Enqueue(env.hash, s.actions, id.value, ttl.value, now)
  {
    hide Said, Blank, ExternalActions.Enqueue;
    var id, ttl := ActionOf(q, q["decision_package"].package, Risk(q), Category(q)), LifetimeOf(q, Category(q));
    if id.Some? {
      SaidIff(id.value.owner);
    }
    if Queued(env, s, q, now, out) {
      var id2, minutes :| IsAction(q, id2) && IsLifetime(q, minutes) && out == ExternalActions.Enqueue(env.hash, s.actions, id2, minutes, now);
      assert id == Some(id2) && ttl == Some(minutes);
    }
    if id.Some? && ttl.Some? && Said(id.value.owner) {
      assert IsAction(q, id.value) && IsLifetime(q, ttl.value);
    }
  }

  /** Of an owner action that is looked at and whose package is attached: what the queue answers decides. A
      new action is put before the owner; a completed one, proved, lets the request through; a pending one
      lets it through beside unrelated work; everything else is refused. */
  lemma OwnerIff(env: Env, s: Store, q: Request, m: Moment)
    requires IsForcedHuman(Category(q)) && Enveloped(q)
    ensures
      var e := Evaluate(env, s, q, m);
      && e.s.rows == s.rows && e.s.ledger == s.ledger
      && (!Attached(env.trust, q) || (forall out :: !Queued(env, s, q, m.now, out)) ==> Refuses(e) && e.s == s)
      && (Attached(env.trust, q) ==>
            forall out :: Queued(env, s, q, m.now, out) ==>
              && e.s.actions == out.rows
              && if out.answer.Created? then PutTo(env, q, e)
                 else if out.answer.Existing?
                         && ((out.answer.row.status == ExternalActions.Completed && Proved(env, out.answer.row))
                             || (out.answer.row.status == ExternalActions.Pending && Elsewhere(q)))
                 then e.r.Continue? && e.r.authorised.None? && e.r.attached.None?
                 else Refuses(e))
  {
    hide Evaluate, Enveloped, Attached, ExternalActions.Enqueue, PackageOk, Bound, Stopped, ActionOf, LifetimeOf, Queued, DANGEROUS, Blank;
    NotStoppedIff(q);
    OwnerPresents(env, s, q, m);
    AttachedIff(env.trust, q);
    if Attached(env.trust, q) {
      forall out: ExternalActions.Outcome
        ensures
          var id, ttl := ActionOf(q, q["decision_package"].package, Risk(q), Category(q)), LifetimeOf(q, Category(q));
          Queued(env, s, q, m.now, out) <==>
          && id.Some? && ttl.Some? && !Blank(id.value.owner)
          && out == ExternalActions.Enqueue(env.hash, s.actions, id.value, ttl.value, m.now)
      {
        QueuedIff(env, s, q, m.now, out);
      }
      var id, ttl := ActionOf(q, q["decision_package"].package, Risk(q), Category(q)), LifetimeOf(q, Category(q));
      if id.Some? && ttl.Some? && !Blank(id.value.owner) {
        assert Queued(env, s, q, m.now, ExternalActions.Enqueue(env.hash, s.actions, id.value, ttl.value, m.now));
      }
      OwnerCases(env, s, q, m.now);
    }
  }

  lemma OwnerCases(env: Env, s: Store, q: Request, now: int)
    requires IsForcedHuman(Category(q)) && Attached(env.trust, q)
    ensures
      var package := q["decision_package"].package;
      var e := AskOwner(env, s, q, package, Risk(q), Category(q), now);
      var id, ttl := ActionOf(q, package, Risk(q), Category(q)), LifetimeOf(q, Category(q));
      if id.None? || ttl.None? || Blank(id.value.owner) then Refuses(e) && e.s == s
      else
        var out := ExternalActions.Enqueue(env.hash, s.actions, id.value, ttl.value, now);
        && e.s == s.(actions := out.rows)
        && if out.answer.Created? then PutTo(env, q, e)
           else if out.answer.Existing?
                   && ((out.answer.row.status == ExternalActions.Completed && Proved(env, out.answer.row))
                       || (out.answer.row.status == ExternalActions.Pending && Elsewhere(q)))
           then e.r.Continue? && e.r.authorised.None? && e.r.attached.None?
           else Refuses(e)
  {
    hide ExternalActions.Enqueue, ActionOf, LifetimeOf, Blank, Presentable, About;
  }

  // ---------------------------------------------------------------- every request

  /** The request has its answer, or needs none. */
  ghost predicate Answered(env: Env, s: Store, q: Request, m: Moment) {
    if Category(q) in ROUTINE then Risk(q) in {"L0", "L1"}
    else if Category(q) in DANGEROUS then Granted(env, s, q, m)
    else if Category(q) == "checkpoint" then true
    else if Category(q) == "integrity_mismatch" then Elsewhere(q)
    else if Category(q) == "uncertainty" then IsTrue(q, "machine_verifiable") || Elsewhere(q)
    else if Category(q) == "product_decision" then Decided(env, s, q, m.now)
    else
      && Attached(env.trust, q)
      && exists out :: Queued(env, s, q, m.now, out) && out.answer.Existing?
                       && ((out.answer.row.status == ExternalActions.Completed && Proved(env, out.answer.row))
                           || (out.answer.row.status == ExternalActions.Pending && Elsewhere(q)))
  }

  /** A human must answer it first, and has not been asked. */
  ghost predicate Open(env: Env, s: Store, q: Request, m: Moment) {
    if Category(q) in DANGEROUS then Unasked(env, s, q)
    else if Category(q) == "product_decision" then Attached(env.trust, q) && !Superseded(env, s, q, m.now)
    else
      && Category(q) in {"operational_action", "necessary_uat"} && Attached(env.trust, q)
      && exists out :: Queued(env, s, q, m.now, out) && out.answer.Created?
  }

  /** Exactly which requests of any kind are let through, and which are put before a human: those that have
      their answer, and those that are open, the latter let through where unrelated work is declared. */
  lemma VerdictIff(env: Env, s: Store, q: Request, m: Moment)
    requires NonceLedger.Sound(s.ledger) && NonceLedger.IsStamp(m.at)
    ensures
      var e := Evaluate(env, s, q, m);
      && (e.r.Continue? <==> Enveloped(q) && (Answered(env, s, q, m) || (Open(env, s, q, m) && Elsewhere(q))))
      && (e.r.ActionRequired? <==> Enveloped(q) && !Answered(env, s, q, m) && Open(env, s, q, m) && !Elsewhere(q))
  {
    hide Evaluate, Enveloped, ROUTINE, DANGEROUS, Granted, Attached, Decided, Superseded, Unasked, Queued, Proved,
         NonceLedger.Sound, NonceLedger.IsStamp, LowRiskEnvelopeOk;
    Enters(env, s, q, m);
    if Enveloped(q) {
      EnvelopedIsKnown(q);
      CategoriesAre(Category(q));
      if Category(q) in ROUTINE {
        RoutineVerdict(env, s, q, m);
      } else if Category(q) in DANGEROUS {
        DangerousIff(env, s, q, m);
      } else if Category(q) == "product_decision" {
        ProductIff(env, s, q, m);
      } else if Category(q) in {"operational_action", "necessary_uat"} {
        OwnerIff(env, s, q, m);
      } else {
        ReportVerdict(env, s, q, m);
      }
    }
  }

  lemma EnvelopedIsKnown(q: Request)
    requires Enveloped(q)
    ensures Category(q) in KNOWN_CATEGORIES
    ensures TextOf(q, "category") == Some(Category(q))
  {
    hide ROUTINE, DANGEROUS, KNOWN_CATEGORIES;
    RowNeeds(q, Risk(q), Category(q), Declared(q));
  }

  lemma RoutineVerdict(env: Env, s: Store, q: Request, m: Moment)
    requires Category(q) in ROUTINE && Enveloped(q)
    ensures var e := Evaluate(env, s, q, m); if Risk(q) in {"L0", "L1"} then e.r.Continue? else Refuses(e)
  {
    hide ROUTINE, ROUTINE_OPERATIONS, Evaluate, DANGEROUS;
    CategoriesAre(Category(q));
    Enters(env, s, q, m);
    RoutineIsNotSpecial(Category(q));
    RoutineDecides(env, s, q, m);
  }

  lemma RoutineDecides(env: Env, s: Store, q: Request, m: Moment)
    requires Category(q) in ROUTINE_OPERATIONS && Among(q, {}) && Risk(q) in {"L0", "L1", "L2", "L3"}
    requires !IsForcedHuman(Category(q)) && Category(q) !in {"product_decision", "uncertainty", "integrity_mismatch", "checkpoint"}
    ensures
      var e := Decide(env, s, q, Risk(q), Category(q), Declared(q), m);
      if Risk(q) in {"L0", "L1"} then e.r.Continue? else Refuses(e)
  {
    hide ROUTINE_OPERATIONS, Spend, ReuseDecision, Present, Among;
    NoPackage(env, s, q, m.now);
  }

  lemma NoPackage(env: Env, s: Store, q: Request, now: int)
    requires Among(q, {})
    ensures "approval_id" !in q && Refuses(Present(env, s, q, Risk(q), Category(q), Declared(q), now))
  {
    hide AskOwner, PackageOk, Bound;
    assert "decision_package" !in q;
  }

  lemma ReportVerdict(env: Env, s: Store, q: Request, m: Moment)
    requires Category(q) in {"checkpoint", "integrity_mismatch", "uncertainty"} && TextOf(q, "category") == Some(Category(q)) && Enveloped(q)
    ensures Evaluate(env, s, q, m).r.Continue? || Refuses(Evaluate(env, s, q, m))
    ensures Evaluate(env, s, q, m).r.Continue? <==>
            || Category(q) == "checkpoint"
            || (Category(q) == "integrity_mismatch" && Elsewhere(q))
            || (Category(q) == "uncertainty" && (IsTrue(q, "machine_verifiable") || Elsewhere(q)))
  {
    hide Evaluate, Enveloped;
    if Category(q) == "checkpoint" {
      CheckpointContinueIff(env, s, q, m);
    } else if Category(q) == "integrity_mismatch" {
      MismatchContinueIff(env, s, q, m);
    } else {
      UncertaintyContinueIff(env, s, q, m);
    }
  }

  // ---------------------------------------------------------------- errors

  lemma PastTheEnvelopes(env: Env, s: Store, q: Request, m: Moment)
    requires NonceLedger.Sound(s.ledger) && NonceLedger.IsStamp(m.at)
    ensures !Decide(env, s, q, Risk(q), Category(q), Declared(q), m).r.Raised?
  {
    hide Present, Spend, ReuseDecision, NonceLedger.Sound, NonceLedger.IsStamp, IsForcedHuman;
    PresentingIsNoError(env, s, q, Risk(q), m.now);
    if Category(q) == "product_decision" {
      ReusingIsNoError(env, s, q, m.now);
    }
    SpendingIsNoError(env, s, q, m);
  }

  lemma ReusingIsNoError(env: Env, s: Store, q: Request, now: int)
    requires Category(q) == "product_decision"
    ensures !ReuseDecision(env, s, q, Declared(q), now).r.Raised?
  {
    hide Present, PlainMatches, L2Matches, Recorded;
    PresentingIsNoError(env, s, q, "L2", now);
  }

  lemma PresentingIsNoError(env: Env, s: Store, q: Request, risk: string, now: int)
    ensures Category(q) == "product_decision" ==> !Present(env, s, q, risk, "product_decision", Declared(q), now).r.Raised?
    ensures !Present(env, s, q, risk, Category(q), Declared(q), now).r.Raised?
  {
    hide PackageOk, Bound, AskOwner;
    if "decision_package" in q && q["decision_package"].PackageValue? {
      OwnersAreNoErrors(env, s, q, risk, now);
    }
  }

  lemma SpendingIsNoError(env: Env, s: Store, q: Request, m: Moment)
    requires NonceLedger.Sound(s.ledger) && NonceLedger.IsStamp(m.at)
    ensures !Spend(env, s, q, Category(q), Declared(q), m).r.Raised?
  {
    hide ConsumeApproval, ValidPayload, Approved, NonceLedger.Sound, NonceLedger.IsStamp, Present, PayloadFits, Known;
    if PayloadOf(q).Some? {
      var payload := PayloadOf(q).value;
      ConsumptionEffect(env.trust, s.rows, s.ledger, TextOf(q, "approval_id"), TextOf(q, "operation_id"), payload, m);
      var c := Consume(env, s, q, payload, m);
      PresentingIsNoError(env, s.(rows := c.rows, ledger := c.ledger), q, "L3", m.now);
    }
  }

  lemma OwnersAreNoErrors(env: Env, s: Store, q: Request, risk: string, now: int)
    requires "decision_package" in q && q["decision_package"].PackageValue?
    ensures !AskOwner(env, s, q, q["decision_package"].package, risk, Category(q), now).r.Raised?
  {
    hide ExternalActions.Enqueue, Resolves, ActionOf, LifetimeOf, Blank;
  }

  /** An evaluation ends in an error exactly if the risk is one of the four and there is no category, or one
      of the known ones without well-formed effects. */
  lemma RaisedIff(env: Env, s: Store, q: Request, m: Moment)
    requires NonceLedger.Sound(s.ledger) && NonceLedger.IsStamp(m.at)
    ensures
      var category := TextOf(q, "category");
      Evaluate(env, s, q, m).r.Raised? <==>
      && (exists risk :: risk in {"L0", "L1", "L2", "L3"} && HasText(q, "risk_level", risk))
      && (category in {None, Some("")}
          || ((category.value in ROUTINE || category.value in DANGEROUS
               || category.value in {"checkpoint", "integrity_mismatch", "uncertainty", "product_decision", "operational_action", "necessary_uat"})
              && !("effects" in q && q["effects"].Effects?
                   && forall e :: e in q["effects"].effects ==> q["effects"].effects[e] && e in EFFECTS)))
  {
    hide Decide, ROUTINE, DANGEROUS, ROUTINE_OPERATIONS, HIGH_RISK_CATEGORIES, KNOWN_CATEGORIES, SENSITIVE_EFFECTS, LowRiskEnvelopeOk,
         CategoryEnvelopeOk, Downgrade, AUTHORITY_FIELDS, NonceLedger.Sound, NonceLedger.IsStamp, EFFECTS;
    PastTheEnvelopes(env, s, q, m);
    CategoriesAre(Category(q));
    EffectsAre(Declared(q));
    if Risk(q) in {"L0", "L1", "L2", "L3"} {
      assert HasText(q, "risk_level", Risk(q));
    }
  }

  // ---------------------------------------------------------------- deployments

  /** The gate of a deployment: L3 and the eight guards true. */
  predicate Guarded(gate: Request) {
    && HasText(gate, "risk_level", "L3")
    && IsTrue(gate, "all_required_checks_pass") && IsTrue(gate, "rollback_available")
    && IsTrue(gate, "no_unresolved_security_findings") && IsTrue(gate, "no_destructive_schema_change")
    && IsTrue(gate, "no_secret_change") && IsTrue(gate, "no_permission_boundary_change")
    && IsTrue(gate, "health_check_pass") && IsTrue(gate, "blast_radius_within_policy")
  }

  /** The nested request names no other risk or category. */
  predicate Agrees(q: Request) {
    && ("risk_level" in q ==> q["risk_level"] == Null || q["risk_level"] == Text("L3"))
    && ("category" in q ==> q["category"] == Null || q["category"] == Text("high_risk_operation"))
  }

  lemma GuardedIff(gate: Request)
    ensures Guarded(gate) <==>
            && TextOf(gate, "risk_level") == Some("L3")
            && forall k :: 0 <= k < |DEPLOY_GUARDS| ==> GuardHolds(gate, DEPLOY_GUARDS[k])
  {
    if forall k :: 0 <= k < |DEPLOY_GUARDS| ==> GuardHolds(gate, DEPLOY_GUARDS[k]) {
      assert GuardHolds(gate, DEPLOY_GUARDS[0]) && GuardHolds(gate, DEPLOY_GUARDS[1]) && GuardHolds(gate, DEPLOY_GUARDS[2]);
      assert GuardHolds(gate, DEPLOY_GUARDS[3]) && GuardHolds(gate, DEPLOY_GUARDS[4]) && GuardHolds(gate, DEPLOY_GUARDS[5]);
      assert GuardHolds(gate, DEPLOY_GUARDS[6]) && GuardHolds(gate, DEPLOY_GUARDS[7]);
    }
  }

  /** A deployment is let through, or put before a human, exactly as the nested request is when it is made an
      L3 high-risk operation, if every guard holds and the nested request agrees; it is blocked otherwise. */
  lemma DeploymentIff(env: Env, s: Store, gate: Request, escalation: Option<Request>, m: Moment)
    ensures
      var e := Deploy(env, s, gate, escalation, m);
      if Guarded(gate) && escalation.Some? && Agrees(escalation.value) then
        var q := escalation.value["category" := Text("high_risk_operation")]["risk_level" := Text("L3")];
        var inner := Evaluate(env, s, q, m);
        e.s == inner.s && if inner.r.Raised? then e.r.Blocked? else e.r == inner.r
      else e.r.Blocked? && e.s == s
  {
    hide Evaluate, DEPLOY_GUARDS, GuardHolds, Guarded;
    GuardedIff(gate);
    if escalation.Some? {
      var q := escalation.value;
      assert q["category" := Text("high_risk_operation")]["risk_level" := Text("L3")] == DeployRequest(q);
    }
  }
}
