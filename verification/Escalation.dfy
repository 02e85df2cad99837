/** `evaluate_escalation` and `evaluate_deployment` (src/sddgov/autonomy.py): may the agent go on?

    A request is a JSON object. It is evaluated against a decision store, a queue of owner actions and
    the Broker's ledger, all of which it may change: spending an approval consumes its nonce, asking the
    owner queues an action. Signature checks and the other rules that lie outside are parameters. */
module Escalation {
  import opened Common
  import opened Operations
  import opened Approval
  import NonceLedger
  import ExternalActions

  // ---------------------------------------------------------------- requests

  datatype Alternative = Alternative(label_: string, description: string)

  datatype Package = Package(
    decisionId: string, riskLevel: string, reason: string, verified: seq<string>, options: seq<Alternative>,
    recommended: string, why: string, impact: string, scope: string, payload: Option<Payload>)

  /** A JSON value, as far as the evaluation can tell them apart. */
  datatype Value =
    | Text(text: string)
    | Flag(flag: bool)
    | Number(number: int)
    | Effects(effects: map<string, bool>)
    | PayloadValue(payload: Payload)
    | PackageValue(package: Package)
    | Null
    | Other(truthy: bool)

  type Request = map<string, Value>

  predicate Truthy(v: Value) {
    match v
    case Text(text) => text != ""
    case Flag(flag) => flag
    case Number(number) => number != 0
    case Effects(effects) => effects != map[]
    case PayloadValue(_) => true
    case PackageValue(_) => true
    case Null => false
    case Other(truthy) => truthy
  }

  predicate Asserted(q: Request, field: string) {
    field in q && Truthy(q[field])
  }

  // ---------------------------------------------------------------- what requests are evaluated against

  /** What a verified product-decision envelope says, with its digest. */
  datatype ProductReceipt = ProductReceipt(
    decisionId: string, summary: string, scope: string, terms: string, approvedBy: string, expiresAt: int,
    nonce: string, sha: string)

  /** The rules that lie outside: L3 trust, product envelopes verified at a time, the binding of a
      plain-language choice to its request file, request digests, and verified action resolutions. */
  datatype Env = Env(
    trust: Trust,
    product: (string, int) -> Option<ProductReceipt>,
    binding: (Row, Option<Value>) -> bool,
    hash: ExternalActions.RequestHash,
    resolution: string -> Option<ExternalActions.Resolution>)

  datatype Store = Store(rows: seq<Row>, actions: seq<ExternalActions.Row>, ledger: NonceLedger.Ledger)

  datatype Result =
    | Continue(reason: string, authorised: Option<Payload>, attached: Option<Package>)
    | Blocked(reason: string)
    | ActionRequired(package: Package)
    | Raised

  datatype Evaluated = Evaluated(r: Result, s: Store)

  // ---------------------------------------------------------------- closed envelopes

  const RISK_LEVELS: set<string> := {"L0", "L1", "L2", "L3"}
  const KNOWN_CATEGORIES: set<string> :=
    ROUTINE_OPERATIONS + ESCALATION_CATEGORIES + HIGH_RISK_CATEGORIES + {"checkpoint", "integrity_mismatch"}
  const AUTHORITY_FIELDS: set<string> := {
    "approval_id", "operation_id", "operation_payload", "decision_id", "decision_scope", "decision_package"}
  const COMMON_FIELDS: set<string> := {"risk_level", "category", "effects"}

  predicate IsLow(risk: string) {
    risk == "L0" || risk == "L1"
  }

  predicate IsForcedHuman(category: string) {
    category == "operational_action" || category == "necessary_uat"
  }

  function LowRiskFields(category: string): set<string> {
    if category == "integrity_mismatch" then COMMON_FIELDS + {"unrelated_work_exists"}
    else if category == "uncertainty" then COMMON_FIELDS + {"machine_verifiable", "unrelated_work_exists"}
    else COMMON_FIELDS
  }

  predicate IsFlagIfPresent(q: Request, field: string) {
    field in q ==> q[field].Flag?
  }

  /** _l0_l1_envelope_error */
  predicate LowRiskEnvelopeOk(q: Request, category: string, effects: map<string, bool>) {
    IsForcedHuman(category) ||
    (q.Keys <= LowRiskFields(category)
     && (effects != map[] || (IsFlagIfPresent(q, "machine_verifiable") && IsFlagIfPresent(q, "unrelated_work_exists"))))
  }

  function CategoryFields(category: string): set<string> {
    COMMON_FIELDS +
    (if category == "product_decision" then
       {"decision_id", "decision_scope", "assumptions_sha256", "reopen_condition_triggered", "decision_package",
        "unrelated_work_exists", "assumption_paths", "approver_id", "valid_days", "owner_client"}
     else if IsHighRisk(category) then
       {"approval_id", "operation_id", "operation_payload", "decision_package", "machine_verifiable", "unrelated_work_exists"}
     else if category == "operational_action" then
       {"action_id", "action_owner", "action_scope", "action_ttl_minutes", "decision_package", "unrelated_work_exists"}
     else if category == "necessary_uat" then
       {"uat_id", "uat_owner", "uat_scope", "uat_ttl_minutes", "decision_package", "unrelated_work_exists"}
     else if category == "uncertainty" then {"machine_verifiable", "unrelated_work_exists", "decision_package"}
     else if category == "integrity_mismatch" then {"unrelated_work_exists"}
     else {})
  }

  /** _closed_category_envelope_error */
  predicate CategoryEnvelopeOk(q: Request, category: string) {
    !(category == "necessary_uat" && "machine_verifiable" in q) && q.Keys <= CategoryFields(category)
  }

  // ---------------------------------------------------------------- the decision package

  /** build_action_required */
  predicate PackageOk(p: Package, sensitive: string -> bool) {
    && p.riskLevel in {"L2", "L3", "Operational", "UAT"}
    && !Blank(p.decisionId) && !Blank(p.reason)
    && (exists k :: 0 <= k < |p.verified| && !Blank(p.verified[k]))
    && |p.options| >= 2
    && (forall k :: 0 <= k < |p.options| ==> !Blank(p.options[k].label_) && !Blank(p.options[k].description))
    && (exists k :: 0 <= k < |p.options| && p.options[k].label_ == p.recommended)
    && (if p.riskLevel == "L3" then p.payload.Some? && ValidPayload(p.payload.value, sensitive) else p.payload.None?)
    && !Blank(p.why) && !Blank(p.impact) && !Blank(p.scope)
  }

  function TextOf(q: Request, field: string): Option<string> {
    if field in q && q[field].Text? then Some(q[field].text) else None
  }

  function PayloadOf(q: Request): Option<Payload> {
    if "operation_payload" in q && q["operation_payload"].PayloadValue? then Some(q["operation_payload"].payload) else None
  }

  /** Does a payload name this category and these effects? */
  predicate PayloadFits(p: Payload, category: string, effects: map<string, bool>) {
    p.category == category && p.effects == effects.Keys
  }

  /** _action_required_binding_error: the package shown is about the request made. */
  predicate Bound(q: Request, p: Package, risk: string, category: string, effects: map<string, bool>, sensitive: string -> bool) {
    var (expected, identity, scope) :=
      if category == "product_decision" then ("L2", TextOf(q, "decision_id"), TextOf(q, "decision_scope"))
      else if IsHighRisk(category) then
        ("L3", TextOf(q, "approval_id"), if PayloadOf(q).Some? then Some(PayloadOf(q).value.scope) else None)
      else if category == "operational_action" then ("Operational", TextOf(q, "action_id"), TextOf(q, "action_scope"))
      else if category == "necessary_uat" then ("UAT", TextOf(q, "uat_id"), TextOf(q, "uat_scope"))
      else (risk, Some(p.decisionId), Some(p.scope));
    && p.riskLevel == expected
    && (IsHighRisk(category) ==>
          && PayloadOf(q).Some? && ValidPayload(PayloadOf(q).value, sensitive)
          && PayloadFits(PayloadOf(q).value, category, effects) && p.payload == PayloadOf(q)
          && TextOf(q, "operation_id").Some? && !Blank(TextOf(q, "operation_id").value))
    && identity.Some? && !Blank(identity.value) && p.decisionId == identity.value
    && scope.Some? && !Blank(scope.value) && p.scope == scope.value
  }

  // ---------------------------------------------------------------- recorded product decisions

  const PLAIN_MODE: string := "plain_language_owner_choice"

  predicate NamesScope(scope: Option<string>, row: Row) {
    scope.Some? && !Blank(scope.value) && row.scope == scope.value
  }

  /** _plain_l2_approval_matches */
  predicate PlainMatches(env: Env, row: Row, scope: Option<string>, package: Option<Value>) {
    && row.riskLevel == "L2" && row.status == "approved" && row.mode == PLAIN_MODE
    && row.approvedBy == "project_owner" && NamesScope(scope, row) && env.binding(row, package)
  }

  /** _l2_approval_matches_verified over _verify_product_envelope */
  predicate SignedMatches(env: Env, row: Row, scope: Option<string>, now: int) {
    && row.riskLevel == "L2" && row.status == "approved" && NamesScope(scope, row)
    && row.product.Some? && env.product(row.product.value, now).Some?
    && var r := env.product(row.product.value, now).value;
       && row.decisionId == r.decisionId && row.summary == r.summary && row.scope == r.scope && row.terms == r.terms
       && row.approvedBy == r.approvedBy && row.expiresAt == r.expiresAt && row.nonce == r.nonce
       && row.receiptSha == r.sha && row.algorithm == "ed25519"
  }

  /** _l2_approval_matches */
  predicate L2Matches(env: Env, row: Row, scope: Option<string>, now: int) {
    if row.mode == PLAIN_MODE then PlainMatches(env, row, scope, None) else SignedMatches(env, row, scope, now)
  }

  /** _find_decision */
  function Recorded(rows: seq<Row>, id: Option<string>): (r: Option<Row>)
    ensures r.Some? ==> r.value in rows && id == Some(r.value.decisionId)
  {
    if id.None? || id.value == "" || FindRow(rows, id.value) == |rows| then None else Some(rows[FindRow(rows, id.value)])
  }

  /** request.get(field): null and no such field are the same. */
  function Raw(q: Request, field: string): Option<Value> {
    if field in q && q[field] != Null then Some(q[field]) else None
  }

  // ---------------------------------------------------------------- evaluation

  function Go(reason: string): Result {
    Continue(reason, None, None)
  }

  predicate Unrelated(q: Request) {
    Asserted(q, "unrelated_work_exists")
  }

  /** The identity of the owner action a request asks for. */
  function ActionOf(q: Request, package: Package, risk: string, category: string): Option<ExternalActions.Identity> {
    var (id, owner, scope) := if category == "operational_action"
                              then (TextOf(q, "action_id"), TextOf(q, "action_owner"), TextOf(q, "action_scope"))
                              else (TextOf(q, "uat_id"), TextOf(q, "uat_owner"), TextOf(q, "uat_scope"));
    if id.None? || owner.None? || scope.None? then None
    else Some(ExternalActions.Identity(id.value, package.reason, risk, owner.value, category, scope.value))
  }

  /** The lifetime asked for, in minutes; a day unless the request says otherwise, none if it is not a
      number. */
  function LifetimeOf(q: Request, category: string): Option<int> {
    var field := if category == "operational_action" then "action_ttl_minutes" else "uat_ttl_minutes";
    if field !in q then Some(1440) else if q[field].Number? then Some(q[field].number) else None
  }

  /** Is the resolution a row carries verified, and about exactly this row? */
  predicate Resolves(env: Env, row: ExternalActions.Row) {
    && row.envelope.Some? && env.resolution(row.envelope.value).Some?
    && var s := env.resolution(row.envelope.value).value;
       && s.actionId == row.id.actionId && s.actionClass == row.id.actionClass && s.owner == row.id.owner
       && s.scope == row.id.scope && s.requestSha == row.requestSha && s.status == row.status
       && row.receipt == Some(s.receipt)
  }

  /** The answer to an operational action or acceptance test: queue it, or look at the queued row. */
  function AskOwner(env: Env, s: Store, q: Request, package: Package, risk: string, category: string, now: int): Evaluated {
    var id, ttl := ActionOf(q, package, risk, category), LifetimeOf(q, category);
    if id.None? || ttl.None? || Blank(id.value.owner) then Evaluated(Blocked("owner_or_bounds_are_required"), s) else
      var out := ExternalActions.Enqueue(env.hash, s.actions, id.value, ttl.value, now);
      var s1 := s.(actions := out.rows);
      match out.answer
      case Refused => Evaluated(Blocked("state_is_invalid"), s1)
      case Resolved(_, _) => Evaluated(Blocked("state_is_invalid"), s1)
      case Created(row) =>
        Evaluated(if Unrelated(q) then Continue("blocks_only_dependent_work", None, Some(package)) else ActionRequired(package), s1)
      case Existing(row) =>
        Evaluated(match row.status
                  case Completed => if Resolves(env, row) then Go("already_completed") else Blocked("resolution_is_untrusted")
                  case Cancelled => Blocked(if Resolves(env, row) then "cancelled" else "resolution_is_untrusted")
                  case Expired => Blocked("expired")
                  case Pending => if Unrelated(q) then Go("already_pending") else Blocked("already_pending"), s1)
  }

  /** The last part: a human must decide, and is shown one strict package. */
  function Present(env: Env, s: Store, q: Request, risk: string, category: string, effects: map<string, bool>, now: int): Evaluated {
    if "decision_package" !in q || !q["decision_package"].PackageValue? then
      Evaluated(Blocked("decision_package_has_an_invalid_contract"), s)
    else
      var package := q["decision_package"].package;
      if !PackageOk(package, env.trust.sensitive) then Evaluated(Blocked("decision_package_has_an_invalid_contract"), s)
      else if !Bound(q, package, risk, category, effects, env.trust.sensitive) then
        Evaluated(Blocked("package_is_not_bound_to_the_request"), s)
      else if IsForcedHuman(category) then AskOwner(env, s, q, package, risk, category, now)
      else if Unrelated(q) then Evaluated(Continue("human_decision_blocks_only_dependent_work", None, Some(package)), s)
      else Evaluated(ActionRequired(package), s)
  }

  /** Is there a row with the approval this request names? */
  predicate Known(rows: seq<Row>, approvalId: Option<string>) {
    approvalId.Some? && FindRow(rows, approvalId.value) < |rows|
  }

  function Consume(env: Env, s: Store, q: Request, payload: Payload, m: Moment): Consumption {
    ConsumeApproval(env.trust, s.rows, s.ledger, TextOf(q, "approval_id"), TextOf(q, "operation_id"), payload, m)
  }

  /** An L3 request that names an approval: spend it through the Broker. */
  function Spend(env: Env, s: Store, q: Request, category: string, effects: map<string, bool>, m: Moment): Evaluated {
    var payload := PayloadOf(q);
    if payload.None? || !ValidPayload(payload.value, env.trust.sensitive) then
      Evaluated(Blocked("exact_operation_payload_required"), s)
    else if !PayloadFits(payload.value, category, effects) then Evaluated(Blocked("operation_payload_does_not_match_request"), s)
    else
      var c := Consume(env, s, q, payload.value, m);
      var s1 := s.(rows := c.rows, ledger := c.ledger);
      match c.verdict
      case ContextMismatch => Evaluated(Blocked("l3_runtime_context_mismatch"), s1)
      case LedgerUnavailable => Evaluated(Blocked("l3_external_nonce_ledger_unavailable"), s1)
      case Authorised(row) =>
        if row.envelope.None? then Evaluated(Raised, s1)
        else Evaluated(Continue("fresh_l3_operation_approval_verified", Some(ReceiptOf(row).payload), None), s1)
      case NotAvailable =>
        if Known(s1.rows, TextOf(q, "approval_id")) then
          Evaluated(Blocked("l3_approval_is_unavailable_expired_or_consumed"), s1)
        else Present(env, s1, q, "L3", category, effects, m.now)
  }

  function ReuseDecision(env: Env, s: Store, q: Request, effects: map<string, bool>, now: int): Evaluated {
    var row, scope := Recorded(s.rows, TextOf(q, "decision_id")), TextOf(q, "decision_scope");
    var plain := row.Some? && PlainMatches(env, row.value, scope, Raw(q, "decision_package"));
    if row.None? || !(plain || L2Matches(env, row.value, scope, now)) then
      Present(env, s, q, "L2", "product_decision", effects, now)
    else if "decision_package" in q && !plain then Evaluated(Blocked("existing_decision_package_changed"), s)
    else Evaluated(Go("existing_decision_reused_without_duplicate_question"), s)
  }

  predicate MachineVerifiable(q: Request) {
    "machine_verifiable" in q && q["machine_verifiable"] == Flag(true)
  }

  /** Past the envelope and downgrade checks. */
  function Decide(env: Env, s: Store, q: Request, risk: string, category: string, effects: map<string, bool>, m: Moment): Evaluated {
    if category == "checkpoint" then Evaluated(Go("checkpoint_is_informational"), s)
    else if category == "integrity_mismatch" then
      Evaluated(if Unrelated(q) then Go("integrity_mismatch_requires_machine_investigation")
                else Blocked("integrity_mismatch_requires_machine_investigation"), s)
    else if category == "uncertainty" then
      Evaluated(if MachineVerifiable(q) then Go("machine_verifiable_uncertainty")
                else if Unrelated(q) then Go("uncertainty_must_be_investigated_not_escalated")
                else Blocked("uncertainty_must_be_investigated_not_escalated"), s)
    else if IsLow(risk) && !IsForcedHuman(category) then Evaluated(Go("l0_l1_engineering_is_pre_authorized"), s)
    else if risk == "L2" && category == "product_decision" then ReuseDecision(env, s, q, effects, m.now)
    else if risk == "L3" && Asserted(q, "approval_id") then Spend(env, s, q, category, effects, m)
    else Present(env, s, q, risk, category, effects, m.now)
  }

  /** The downgrade checks: the reason to stop, if there is one. */
  function Downgrade(risk: string, category: string, effects: map<string, bool>): Option<string> {
    if "public_publish" in effects && category != "public_release" then Some("public_publish_requires_public_release")
    else if category == "public_release" && "public_publish" !in effects then Some("public_release_requires_public_publish")
    else if category in {"merge", "release_readiness"} && effects != map[] then Some("reality_effect_requires_l3_operation")
    else if category in {"merge", "release_readiness"} && risk != "L1" then Some("requires_exact_l1")
    else if category == "product_decision" && risk != "L2" then Some("product_decision_requires_exact_l2_risk")
    else if category == "high_risk_operation" && risk != "L3" then Some("high_risk_operation_cannot_be_downgraded")
    else if (category in HIGH_RISK_CATEGORIES || effects != map[]) && risk != "L3" then Some("dangerous_action_cannot_be_downgraded")
    else None
  }

  /** The envelope checks: the result if they stop the request. */
  function Stopped(q: Request): Option<Result> {
    var risk, category := TextOf(q, "risk_level"), TextOf(q, "category");
    if risk.None? || risk.value !in RISK_LEVELS then Some(Blocked("autonomy_request_has_an_invalid_contract"))
    else if category.None? || category.value == "" then Some(Raised)
    else if category.value !in KNOWN_CATEGORIES then Some(Blocked("unrecognized_action_category"))
    else if "effects" !in q || !q["effects"].Effects? then Some(Raised)
    else
      var effects := q["effects"].effects;
      if exists e :: e in effects && (e !in SENSITIVE_EFFECTS || !effects[e]) then Some(Raised)
      else if IsLow(risk.value) && category.value in ROUTINE_OPERATIONS && q.Keys * AUTHORITY_FIELDS != {} then
        Some(Blocked("authority_bearing_fields_not_allowed_for_routine_action"))
      else if IsLow(risk.value) && !LowRiskEnvelopeOk(q, category.value, effects) then Some(Blocked("low_risk_envelope"))
      else if !CategoryEnvelopeOk(q, category.value) then
        Some(Blocked("request_contains_fields_outside_closed_category_schema"))
      else
        var reason := Downgrade(risk.value, category.value, effects);
        if reason.Some? then Some(Blocked(reason.value)) else None
  }

  function Risk(q: Request): string {
    if TextOf(q, "risk_level").Some? then TextOf(q, "risk_level").value else ""
  }

  function Category(q: Request): string {
    if TextOf(q, "category").Some? then TextOf(q, "category").value else ""
  }

  function Declared(q: Request): map<string, bool> {
    if "effects" in q && q["effects"].Effects? then q["effects"].effects else map[]
  }

  /** evaluate_escalation */
  function Evaluate(env: Env, s: Store, q: Request, m: Moment): Evaluated {
    var stop := Stopped(q);
    if stop.Some? then Evaluated(stop.value, s) else Decide(env, s, q, Risk(q), Category(q), Declared(q), m)
  }

  const DEPLOY_GUARDS: seq<string> := [
    "all_required_checks_pass", "rollback_available", "no_unresolved_security_findings",
    "no_destructive_schema_change", "no_secret_change", "no_permission_boundary_change", "health_check_pass",
    "blast_radius_within_policy"]

  predicate GuardHolds(gate: Request, name: string) {
    name in gate && gate[name] == Flag(true)
  }

  predicate AgreesOrAbsent(q: Request, field: string, value: string) {
    field in q ==> q[field] in {Null, Text(value)}
  }

  /** The request a deployment gate passes on. */
  function DeployRequest(q: Request): Request {
    q["risk_level" := Text("L3")]["category" := Text("high_risk_operation")]
  }

  /** evaluate_deployment; `escalation` is the nested request object, if it is one. */
  function Deploy(env: Env, s: Store, gate: Request, escalation: Option<Request>, m: Moment): Evaluated {
    var risk := TextOf(gate, "risk_level");
    if risk.None? || risk.value !in RISK_LEVELS then Evaluated(Blocked("deployment_gate_has_an_invalid_contract"), s)
    else if exists k :: 0 <= k < |DEPLOY_GUARDS| && !GuardHolds(gate, DEPLOY_GUARDS[k]) then
      Evaluated(Blocked("production_guardrails_not_satisfied"), s)
    else if risk.value != "L3" then Evaluated(Blocked("actual_production_deploy_requires_exact_l3_operation"), s)
    else if escalation.None? then Evaluated(Blocked("deployment_escalation_request_has_an_invalid_contract"), s)
    else if !AgreesOrAbsent(escalation.value, "risk_level", "L3")
         || !AgreesOrAbsent(escalation.value, "category", "high_risk_operation") then
      Evaluated(Blocked("deployment_escalation_request_does_not_match_the_exact_l3_gate"), s)
    else
      var e := Evaluate(env, s, DeployRequest(escalation.value), m);
      if e.r.Raised? then e.(r := Blocked("deployment_escalation_request_has_an_invalid_contract")) else e
  }

  // ---------------------------------------------------------------- past the envelopes

  /** What every request that is evaluated at all looks like. */
  lemma NotStopped(q: Request)
    requires Stopped(q).None?
    ensures Category(q) in KNOWN_CATEGORIES && CategoryEnvelopeOk(q, Category(q)) && Risk(q) in RISK_LEVELS
    ensures "effects" in q && q["effects"].Effects?
    ensures forall e :: e in Declared(q) ==> e in SENSITIVE_EFFECTS && Declared(q)[e]
    ensures Downgrade(Risk(q), Category(q), Declared(q)).None?
    ensures IsLow(Risk(q)) ==> LowRiskEnvelopeOk(q, Category(q), Declared(q))
  {
    hide CategoryEnvelopeOk, LowRiskEnvelopeOk, Downgrade, ROUTINE_OPERATIONS, KNOWN_CATEGORIES, SENSITIVE_EFFECTS;
  }

  lemma StoppedIsNoContinue(q: Request)
    ensures Stopped(q).Some? ==> Stopped(q).value.Blocked? || Stopped(q).value.Raised?
  {
    hide CategoryEnvelopeOk, LowRiskEnvelopeOk, Downgrade, ROUTINE_OPERATIONS, KNOWN_CATEGORIES, SENSITIVE_EFFECTS;
  }

  /** And for a category that is not routine the converse. */
  lemma Passes(q: Request)
    requires Category(q) in KNOWN_CATEGORIES && Category(q) != "" && CategoryEnvelopeOk(q, Category(q)) && Risk(q) in RISK_LEVELS
    requires "effects" in q && q["effects"].Effects?
    requires forall e :: e in Declared(q) ==> e in SENSITIVE_EFFECTS && Declared(q)[e]
    requires Downgrade(Risk(q), Category(q), Declared(q)).None? && !IsLow(Risk(q))
    ensures Stopped(q).None?
  {
    hide CategoryEnvelopeOk, LowRiskEnvelopeOk, Downgrade, ROUTINE_OPERATIONS, KNOWN_CATEGORIES, SENSITIVE_EFFECTS;
  }

  lemma RoutineIsNotSpecial(category: string)
    requires category in ROUTINE_OPERATIONS
    ensures !IsHighRisk(category) && !IsForcedHuman(category)
    ensures category != "product_decision" && category != "uncertainty" && category != "integrity_mismatch" && category != "checkpoint"
    ensures CategoryFields(category) == COMMON_FIELDS
  {
    assert COMMON_FIELDS + {} == COMMON_FIELDS;
  }

  lemma RoutineIsKnown(category: string)
    requires category in ROUTINE_OPERATIONS
    ensures category in KNOWN_CATEGORIES && category != ""
  {}

  lemma NotDangerous(category: string)
    requires !IsHighRisk(category)
    ensures category !in HIGH_RISK_CATEGORIES && category != "public_release" && category != "high_risk_operation"
  {}

  lemma HighRiskIsNotSpecial(category: string)
    requires IsHighRisk(category)
    ensures category != "product_decision" && category != "uncertainty" && category != "integrity_mismatch"
    ensures category != "checkpoint" && !IsForcedHuman(category) && category !in {"merge", "release_readiness"}
  {}

  lemma HighRiskIsKnown(category: string)
    requires IsHighRisk(category)
    ensures category in KNOWN_CATEGORIES && category != ""
  {}

  lemma PresentNeedsPackage(env: Env, s: Store, q: Request, risk: string, category: string, effects: map<string, bool>, now: int)
    requires "decision_package" !in q
    ensures !Present(env, s, q, risk, category, effects, now).r.Continue?
  {}

  // ---------------------------------------------------------------- routine categories

  /** Exactly when a routine category is let through: low risk (L1 for merge and release readiness),
      no declared effect, and not one field beyond the three common ones. */
  lemma RoutineContinueIff(env: Env, s: Store, q: Request, m: Moment)
    requires Category(q) in ROUTINE_OPERATIONS
    ensures Evaluate(env, s, q, m).r.Continue? <==>
            && IsLow(Risk(q)) && (Category(q) in {"merge", "release_readiness"} ==> Risk(q) == "L1")
            && q.Keys <= COMMON_FIELDS && "effects" in q && q["effects"] == Effects(map[])
  {
    hide Evaluate, ROUTINE_OPERATIONS;
    if PlainRoutine(q) {
      RoutinePasses(env, s, q, m);
    }
    if Evaluate(env, s, q, m).r.Continue? {
      RoutineNeeds(env, s, q, m);
    }
  }

  /** The fields and the risk of a routine request that needs nobody. */
  predicate PlainRoutine(q: Request) {
    && IsLow(Risk(q)) && (Category(q) in {"merge", "release_readiness"} ==> Risk(q) == "L1")
    && q.Keys <= COMMON_FIELDS && "effects" in q && q["effects"] == Effects(map[])
  }

  lemma RoutinePasses(env: Env, s: Store, q: Request, m: Moment)
    requires Category(q) in ROUTINE_OPERATIONS && PlainRoutine(q)
    ensures Evaluate(env, s, q, m).r.Continue?
  {
    hide Present, Spend, CategoryFields, IsHighRisk, IsForcedHuman, ROUTINE_OPERATIONS, ESCALATION_CATEGORIES, HIGH_RISK_CATEGORIES;
    RoutineIsNotSpecial(Category(q));
    RoutineIsKnown(Category(q));
    NotDangerous(Category(q));
    assert q.Keys * AUTHORITY_FIELDS == {};
  }

  lemma RoutineNeeds(env: Env, s: Store, q: Request, m: Moment)
    requires Category(q) in ROUTINE_OPERATIONS && Evaluate(env, s, q, m).r.Continue?
    ensures PlainRoutine(q)
  {
    hide Present, Spend, CategoryFields, IsHighRisk, IsForcedHuman, ROUTINE_OPERATIONS, ESCALATION_CATEGORIES, HIGH_RISK_CATEGORIES,
         KNOWN_CATEGORIES, AUTHORITY_FIELDS, SENSITIVE_EFFECTS, ReuseDecision;
    RoutineIsNotSpecial(Category(q));
    NotDangerous(Category(q));
    if q.Keys <= COMMON_FIELDS {
      PresentNeedsPackage(env, s, q, Risk(q), Category(q), Declared(q), m.now);
    }
  }

  /** A routine category with any declared effect is never let through, at any risk level, whatever
      else the request says and whatever the stores hold. */
  lemma RoutineWithEffectsNeverContinues(env: Env, s: Store, q: Request, m: Moment)
    requires Category(q) in ROUTINE_OPERATIONS && Declared(q) != map[]
    ensures !Evaluate(env, s, q, m).r.Continue?
  {
    hide Evaluate, ROUTINE_OPERATIONS;
    RoutineContinueIff(env, s, q, m);
  }

  /** A dangerous category, or any declared effect, below L3 is never let through. */
  lemma DangerousIsNeverDowngraded(env: Env, s: Store, q: Request, m: Moment)
    requires (IsHighRisk(Category(q)) || Declared(q) != map[]) && Risk(q) != "L3"
    ensures !Evaluate(env, s, q, m).r.Continue?
  {
    hide Decide, CategoryEnvelopeOk, LowRiskEnvelopeOk, KNOWN_CATEGORIES, SENSITIVE_EFFECTS, ROUTINE_OPERATIONS;
    if Stopped(q).None? {
      NotStopped(q);
    }
  }

  // ---------------------------------------------------------------- high-risk categories

  /** A well-formed L3 request of a high-risk category that names an approval. */
  predicate WellFormed(env: Env, q: Request) {
    && Risk(q) == "L3" && IsHighRisk(Category(q)) && CategoryEnvelopeOk(q, Category(q))
    && "effects" in q && q["effects"].Effects?
    && (forall e :: e in Declared(q) ==> e in SENSITIVE_EFFECTS && Declared(q)[e])
    && ("public_publish" in Declared(q) <==> Category(q) == "public_release")
    && Asserted(q, "approval_id")
    && PayloadOf(q).Some? && ValidPayload(PayloadOf(q).value, env.trust.sensitive)
    && PayloadFits(PayloadOf(q).value, Category(q), Declared(q))
  }

  /** The approval the request names can be spent on it now: it is in the store, signed, fresh and for
      this payload; its nonce and digests are well formed; the ledger has room, is whole and does not
      have the nonce; and the Broker neither dies nor goes unheard. */
  ghost predicate Spendable(env: Env, s: Store, q: Request, m: Moment)
    requires PayloadOf(q).Some?
  {
    var choice := ChooseFor(env.trust, s.rows, TextOf(q, "approval_id"), TextOf(q, "operation_id"), PayloadOf(q).value, m.now);
    && choice.Ask? && m.crash.None? && m.heard
    && Servable(s.ledger, LineOf(env.trust, choice.receipt, m.at))
  }

  /** No such approval is known, and the strict package for exactly this operation is attached while
      unrelated work is declared. */
  ghost predicate Pending(env: Env, s: Store, q: Request, m: Moment)
    requires PayloadOf(q).Some?
  {
    && ChooseFor(env.trust, s.rows, TextOf(q, "approval_id"), TextOf(q, "operation_id"), PayloadOf(q).value, m.now).Unavailable?
    && !Known(s.rows, TextOf(q, "approval_id"))
    && "decision_package" in q && q["decision_package"].PackageValue?
    && PackageOk(q["decision_package"].package, env.trust.sensitive)
    && Bound(q, q["decision_package"].package, "L3", Category(q), Declared(q), env.trust.sensitive)
    && Unrelated(q)
  }

  lemma WellFormedSpends(env: Env, s: Store, q: Request, m: Moment)
    requires WellFormed(env, q)
    ensures Evaluate(env, s, q, m) == Spend(env, s, q, Category(q), Declared(q), m)
  {
    hide IsHighRisk, CategoryEnvelopeOk, ValidPayload, Spend, KNOWN_CATEGORIES, Blank, SENSITIVE_EFFECTS;
    HighRiskIsKnown(Category(q));
    HighRiskIsNotSpecial(Category(q));
    Passes(q);
  }

  lemma PresentHighRisk(env: Env, s: Store, q: Request, now: int)
    requires IsHighRisk(Category(q))
    ensures
      var e := Present(env, s, q, "L3", Category(q), Declared(q), now);
      && e.s == s
      && (e.r.Continue? <==>
            && "decision_package" in q && q["decision_package"].PackageValue?
            && PackageOk(q["decision_package"].package, env.trust.sensitive)
            && Bound(q, q["decision_package"].package, "L3", Category(q), Declared(q), env.trust.sensitive)
            && Unrelated(q))
      && (e.r.Continue? ==> e.r.authorised.None? && e.r.attached == Some(q["decision_package"].package) && BoundPayload(env, q))
  {
    hide PackageOk, ValidPayload, IsHighRisk;
    HighRiskIsNotSpecial(Category(q));
  }

  /** What binding a package to a high-risk request asks of the request. */
  predicate BoundPayload(env: Env, q: Request) {
    && PayloadOf(q).Some? && ValidPayload(PayloadOf(q).value, env.trust.sensitive)
    && PayloadFits(PayloadOf(q).value, Category(q), Declared(q)) && Asserted(q, "approval_id")
  }

  /** A high-risk CONTINUE comes from a well-formed request. */
  lemma ContinueIsWellFormed(env: Env, s: Store, q: Request, m: Moment)
    requires IsHighRisk(Category(q)) && Evaluate(env, s, q, m).r.Continue?
    ensures WellFormed(env, q)
  {
    hide Present, Consume, IsHighRisk, ValidPayload, CategoryEnvelopeOk, LowRiskEnvelopeOk, ROUTINE_OPERATIONS, KNOWN_CATEGORIES, SENSITIVE_EFFECTS, Blank;
    NotStopped(q);
    HighRiskIsNotSpecial(Category(q));
    if Risk(q) != "L3" {
      DangerousIsNeverDowngraded(env, s, q, m);
    }
    PresentHighRisk(env, s, q, m.now);
  }

  /** Exactly when a high-risk category is let through: the request is well formed, and its approval can
      be spent, or none is known and the strict package is pending beside unrelated work. */
  lemma HighRiskContinueIff(env: Env, s: Store, q: Request, m: Moment)
    requires IsHighRisk(Category(q)) && NonceLedger.Sound(s.ledger) && NonceLedger.IsStamp(m.at)
    ensures Evaluate(env, s, q, m).r.Continue? <==> WellFormed(env, q) && (Spendable(env, s, q, m) || Pending(env, s, q, m))
  {
    hide Evaluate, IsHighRisk, WellFormed, Spendable, Pending;
    if WellFormed(env, q) {
      WellFormedSpends(env, s, q, m);
      SpendContinueIff(env, s, q, m);
    } else if Evaluate(env, s, q, m).r.Continue? {
      ContinueIsWellFormed(env, s, q, m);
    }
  }

  lemma SpendContinueIff(env: Env, s: Store, q: Request, m: Moment)
    requires WellFormed(env, q) && NonceLedger.Sound(s.ledger) && NonceLedger.IsStamp(m.at)
    ensures Spend(env, s, q, Category(q), Declared(q), m).r.Continue? <==> Spendable(env, s, q, m) || Pending(env, s, q, m)
  {
    hide IsHighRisk, ValidPayload, PackageOk, Bound, CategoryEnvelopeOk, SENSITIVE_EFFECTS, Blank, Present, ConsumeApproval,
         NonceLedger.Sound, NonceLedger.IsStamp, Servable, Approved;
    var payload := PayloadOf(q).value;
    SpentIff(env.trust, s.rows, s.ledger, TextOf(q, "approval_id"), TextOf(q, "operation_id"), payload, m);
    ConsumptionEffect(env.trust, s.rows, s.ledger, TextOf(q, "approval_id"), TextOf(q, "operation_id"), payload, m);
    var c := Consume(env, s, q, payload, m);
    PresentHighRisk(env, s.(rows := c.rows, ledger := c.ledger), q, m.now);
  }

  // ---------------------------------------------------------------- what a CONTINUE did

  /** One approval was spent: a receipt that verified, was fresh, and named this approval and
      operation; exactly its line was added to the ledger; and the payload it signed, which has the
      requested digest, is the one authorised. */
  ghost predicate SpentOn(env: Env, s: Store, q: Request, m: Moment, e: Evaluated) {
    && e.r.Continue? && e.r.authorised.Some? && e.r.attached.None?
    && PayloadOf(q).Some? && PayloadFits(PayloadOf(q).value, Category(q), Declared(q))
    && exists row: Row ::
         && row in e.s.rows && row.envelope.Some? && row.consumed
         && Approved(env.trust, row, ReceiptOf(row), PayloadOf(q).value, m.now)
         && TextOf(q, "approval_id") == Some(ReceiptOf(row).approvalId)
         && TextOf(q, "operation_id") == Some(ReceiptOf(row).operationId)
         && e.r.authorised.value == ReceiptOf(row).payload
         && e.s.ledger.written == s.ledger.written + [LineOf(env.trust, ReceiptOf(row), m.at)]
  }

  /** A result that spent nothing. The ledger moves only if the Broker was asked for this request and
      died or went unheard. */
  ghost predicate NothingSpent(s: Store, m: Moment, e: Evaluated) {
    && (e.r.Continue? ==> e.r.authorised.None?)
    && e.s.rows == s.rows
    && s.ledger.written <= e.s.ledger.written
    && (e.s.ledger != s.ledger ==> e.r.Blocked? && (m.crash.Some? || !m.heard))
  }

  lemma PresentSpendsNothing(env: Env, s: Store, q: Request, risk: string, category: string, effects: map<string, bool>, now: int)
    ensures
      var e := Present(env, s, q, risk, category, effects, now);
      e.s.rows == s.rows && e.s.ledger == s.ledger && (e.r.Continue? ==> e.r.authorised.None?)
  {
    hide PackageOk, Bound, ExternalActions.Enqueue;
  }

  lemma ReuseSpendsNothing(env: Env, s: Store, q: Request, effects: map<string, bool>, now: int)
    ensures
      var e := ReuseDecision(env, s, q, effects, now);
      e.s.rows == s.rows && e.s.ledger == s.ledger && (e.r.Continue? ==> e.r.authorised.None?)
  {
    hide Present, PlainMatches, L2Matches;
    PresentSpendsNothing(env, s, q, "L2", "product_decision", effects, now);
  }

  lemma SpendEffect(env: Env, s: Store, q: Request, category: string, effects: map<string, bool>, m: Moment)
    requires NonceLedger.Sound(s.ledger) && NonceLedger.IsStamp(m.at) && category == Category(q) && effects == Declared(q)
    ensures
      var e := Spend(env, s, q, category, effects, m);
      NonceLedger.Sound(e.s.ledger) && (SpentOn(env, s, q, m, e) || NothingSpent(s, m, e))
  {
    hide ValidPayload, Present, NonceLedger.Sound, NonceLedger.IsStamp, Approved, ConsumeApproval;
    var payload := PayloadOf(q);
    if payload.Some? && ValidPayload(payload.value, env.trust.sensitive) && PayloadFits(payload.value, category, effects) {
      ConsumptionEffect(env.trust, s.rows, s.ledger, TextOf(q, "approval_id"), TextOf(q, "operation_id"), payload.value, m);
      var c := Consume(env, s, q, payload.value, m);
      PresentSpendsNothing(env, s.(rows := c.rows, ledger := c.ledger), q, "L3", category, effects, m.now);
      if c.verdict.Authorised? {
        AuthorisedRow(env.trust, s.rows, s.ledger, TextOf(q, "approval_id"), TextOf(q, "operation_id"), payload.value, m);
      }
    }
  }

  /** Every evaluation, of any request against any stores: either it spent one approval on exactly this
      request, or it spent nothing and left decisions and ledger alone. */
  lemma EvaluationEffect(env: Env, s: Store, q: Request, m: Moment)
    requires NonceLedger.Sound(s.ledger) && NonceLedger.IsStamp(m.at)
    ensures
      var e := Evaluate(env, s, q, m);
      && NonceLedger.Sound(e.s.ledger)
      && (SpentOn(env, s, q, m, e) || NothingSpent(s, m, e))
  {
    hide Spend, Present, ReuseDecision, SpentOn, NonceLedger.Sound, NonceLedger.IsStamp, Stopped, IsForcedHuman;
    StoppedIsNoContinue(q);
    ReuseSpendsNothing(env, s, q, Declared(q), m.now);
    PresentSpendsNothing(env, s, q, Risk(q), Category(q), Declared(q), m.now);
    SpendEffect(env, s, q, Category(q), Declared(q), m);
  }

  /** A high-risk category is let through only at L3, and then either one approval, signed for exactly
      the requested payload, was spent, or the strict package for that payload is attached, unanswered,
      and unrelated work was declared. */
  lemma HighRiskContinue(env: Env, s: Store, q: Request, m: Moment)
    requires IsHighRisk(Category(q)) && Evaluate(env, s, q, m).r.Continue? && CollisionFree(env.trust)
    requires NonceLedger.Sound(s.ledger) && NonceLedger.IsStamp(m.at)
    ensures Risk(q) == "L3" && PayloadOf(q).Some?
    ensures
      var e := Evaluate(env, s, q, m);
      || (SpentOn(env, s, q, m, e) && e.r.authorised == PayloadOf(q))
      || (e.s == s && e.r.authorised.None? && Pending(env, s, q, m) && e.r.attached.Some? && e.r.attached.value.payload == PayloadOf(q))
  {
    hide Evaluate, NonceLedger.Sound, NonceLedger.IsStamp, IsHighRisk, ValidPayload, CategoryEnvelopeOk, Blank, Pending;
    ContinueIsWellFormed(env, s, q, m);
    EvaluationEffect(env, s, q, m);
    WellFormedSpends(env, s, q, m);
    var e := Evaluate(env, s, q, m);
    if !SpentOn(env, s, q, m, e) {
      UnansweredPackage(env, s, q, m);
    }
  }

  lemma UnansweredPackage(env: Env, s: Store, q: Request, m: Moment)
    requires WellFormed(env, q) && NonceLedger.Sound(s.ledger) && NonceLedger.IsStamp(m.at)
    requires var e := Spend(env, s, q, Category(q), Declared(q), m); e.r.Continue? && e.r.authorised.None?
    ensures
      var e := Spend(env, s, q, Category(q), Declared(q), m);
      e.s == s && Pending(env, s, q, m) && e.r.attached.Some? && e.r.attached.value.payload == PayloadOf(q)
  {
    hide ValidPayload, PackageOk, CategoryEnvelopeOk, SENSITIVE_EFFECTS, Blank, Present, ConsumeApproval,
         NonceLedger.Sound, NonceLedger.IsStamp, Approved;
    var payload := PayloadOf(q).value;
    SpentIff(env.trust, s.rows, s.ledger, TextOf(q, "approval_id"), TextOf(q, "operation_id"), payload, m);
    ConsumptionEffect(env.trust, s.rows, s.ledger, TextOf(q, "approval_id"), TextOf(q, "operation_id"), payload, m);
    var c := Consume(env, s, q, payload, m);
    PresentHighRisk(env, s.(rows := c.rows, ledger := c.ledger), q, m.now);
  }

  /** A deployment is let through only with all eight guards true, at L3, and then on the authority a
      high-risk operation needs. */
  lemma DeploymentContinue(env: Env, s: Store, gate: Request, escalation: Option<Request>, m: Moment)
    requires Deploy(env, s, gate, escalation, m).r.Continue? && CollisionFree(env.trust)
    requires NonceLedger.Sound(s.ledger) && NonceLedger.IsStamp(m.at)
    ensures forall k :: 0 <= k < |DEPLOY_GUARDS| ==> GuardHolds(gate, DEPLOY_GUARDS[k])
    ensures Risk(gate) == "L3" && escalation.Some? && PayloadOf(DeployRequest(escalation.value)).Some?
    ensures
      var q, e := DeployRequest(escalation.value), Deploy(env, s, gate, escalation, m);
      || (SpentOn(env, s, q, m, e) && e.r.authorised == PayloadOf(q))
      || (e.s == s && e.r.authorised.None? && Pending(env, s, q, m) && e.r.attached.Some? && e.r.attached.value.payload == PayloadOf(q))
  {
    hide Evaluate, GuardHolds, SpentOn, Pending, NonceLedger.Sound, NonceLedger.IsStamp;
    var q := DeployRequest(escalation.value);
    assert Category(q) == "high_risk_operation";
    HighRiskContinue(env, s, q, m);
  }

  // ---------------------------------------------------------------- the point at which the Broker is asked

  predicate Reports(category: string) {
    category == "checkpoint" || category == "integrity_mismatch" || category == "uncertainty"
  }

  /** Does this evaluation ask the Broker, and then for which row's receipt? */
  function Asks(env: Env, rows: seq<Row>, q: Request, now: int): (c: Option<Choice>)
    ensures c.Some? ==> c.value.Ask? && c.value.k < |rows| && PayloadOf(q).Some?
  {
    if Stopped(q).Some? || Risk(q) != "L3" || !Asserted(q, "approval_id") || Reports(Category(q)) then None
    else if PayloadOf(q).None? || !ValidPayload(PayloadOf(q).value, env.trust.sensitive)
         || !PayloadFits(PayloadOf(q).value, Category(q), Declared(q)) then None
    else
      var c := ChooseFor(env.trust, rows, TextOf(q, "approval_id"), TextOf(q, "operation_id"), PayloadOf(q).value, now);
      if c.Ask? then Some(c) else None
  }

  /** The result of an evaluation whose approval was spent. */
  function SpentResult(r: Receipt): Result {
    Continue("fresh_l3_operation_approval_verified", Some(r.payload), None)
  }

  lemma AsksSpends(env: Env, s: Store, q: Request, m: Moment)
    requires Asks(env, s.rows, q, m.now).Some?
    ensures Evaluate(env, s, q, m) == Spend(env, s, q, Category(q), Declared(q), m)
  {
    hide Stopped, Spend, ChooseFor, ValidPayload, CategoryEnvelopeOk, LowRiskEnvelopeOk, KNOWN_CATEGORIES, SENSITIVE_EFFECTS;
    NotStopped(q);
  }

  /** From the ask on, an evaluation is exactly: let the Broker handle one request, then mark the row and
      go on if the answer CONSUMED was heard, and stop otherwise. */
  lemma AskedEvaluation(env: Env, s: Store, q: Request, m: Moment)
    requires Asks(env, s.rows, q, m.now).Some?
    ensures
      var c := Asks(env, s.rows, q, m.now).value;
      var (after, answer) := NonceLedger.Next(s.ledger, NonceLedger.Event(RequestFor(env.trust, c.receipt), m.at, m.crash));
      Evaluate(env, s, q, m) ==
        if answer == NonceLedger.Consumed && m.heard
        then Evaluated(SpentResult(c.receipt), s.(rows := Approval.Spent(s.rows, c.k), ledger := after))
        else Evaluated(Blocked("l3_external_nonce_ledger_unavailable"), s.(ledger := after))
  {
    hide Evaluate, NonceLedger.Next, RequestFor, ValidPayload, Stopped, Choose, Present;
    AsksSpends(env, s, q, m);
    var c := Asks(env, s.rows, q, m.now).value;
    assert s.rows[c.k].envelope.Some? && ReceiptOf(s.rows[c.k]) == c.receipt by {
      ChosenIsApproved(env.trust, s.rows, TextOf(q, "approval_id").value, TextOf(q, "operation_id").value, PayloadOf(q).value, m.now);
    }
  }

  /** An evaluation that asks nothing spends nothing. */
  lemma UnaskedEvaluation(env: Env, s: Store, q: Request, m: Moment)
    requires Asks(env, s.rows, q, m.now).None?
    ensures
      var e := Evaluate(env, s, q, m);
      e.s.ledger == s.ledger && e.s.rows == s.rows && (e.r.Continue? ==> e.r.authorised.None?)
  {
    hide Stopped, Present, Spend, ReuseDecision, ValidPayload, PayloadFits, ChooseFor, IsForcedHuman, IsHighRisk;
    StoppedIsNoContinue(q);
    ReuseSpendsNothing(env, s, q, Declared(q), m.now);
    PresentSpendsNothing(env, s, q, Risk(q), Category(q), Declared(q), m.now);
    UnaskedSpend(env, s, q, Category(q), Declared(q), m);
  }

  lemma UnaskedSpend(env: Env, s: Store, q: Request, category: string, effects: map<string, bool>, m: Moment)
    ensures
      var e, payload := Spend(env, s, q, category, effects, m), PayloadOf(q);
      payload.None? || !ValidPayload(payload.value, env.trust.sensitive) || !PayloadFits(payload.value, category, effects)
      || !ChooseFor(env.trust, s.rows, TextOf(q, "approval_id"), TextOf(q, "operation_id"), payload.value, m.now).Ask?
      ==> e.s.ledger == s.ledger && e.s.rows == s.rows && (e.r.Continue? ==> e.r.authorised.None?)
  {
    hide Present, ValidPayload, PayloadFits, ChooseFor;
    PresentSpendsNothing(env, s, q, "L3", category, effects, m.now);
  }

  // ---------------------------------------------------------------- the rest of the table

  /** What an owner action needs to be let through: the owner's verified completion of exactly this
      action on record, or the action pending, unexpired, beside unrelated work. */
  ghost predicate OwnerAnswered(env: Env, s: Store, q: Request, m: Moment) {
    && "decision_package" in q && q["decision_package"].PackageValue?
    && PackageOk(q["decision_package"].package, env.trust.sensitive)
    && Bound(q, q["decision_package"].package, Risk(q), Category(q), Declared(q), env.trust.sensitive)
    && var id, ttl := ActionOf(q, q["decision_package"].package, Risk(q), Category(q)), LifetimeOf(q, Category(q));
       && id.Some? && ttl.Some? && !Blank(id.value.owner)
       && var answer := ExternalActions.Enqueue(env.hash, s.actions, id.value, ttl.value, m.now).answer;
          || (answer.Existing? && answer.row.status == ExternalActions.Completed && Resolves(env, answer.row))
          || (Unrelated(q) && (answer.Created? || (answer.Existing? && answer.row.status == ExternalActions.Pending)))
  }

  lemma NoApprovalField(q: Request)
    requires IsForcedHuman(Category(q)) && CategoryEnvelopeOk(q, Category(q))
    ensures "approval_id" !in q
  {}

  lemma OwnerPresents(env: Env, s: Store, q: Request, m: Moment)
    requires IsForcedHuman(Category(q)) && Stopped(q).None?
    ensures Evaluate(env, s, q, m) == Present(env, s, q, Risk(q), Category(q), Declared(q), m.now)
  {
    hide Stopped, Present, Spend, ReuseDecision, CategoryEnvelopeOk, LowRiskEnvelopeOk, KNOWN_CATEGORIES, SENSITIVE_EFFECTS;
    NotStopped(q);
    NoApprovalField(q);
  }

  /** Exactly when an owner action that passes the envelopes is let through. */
  lemma OwnerActionContinueIff(env: Env, s: Store, q: Request, m: Moment)
    requires IsForcedHuman(Category(q)) && Stopped(q).None?
    ensures Evaluate(env, s, q, m).r.Continue? <==> OwnerAnswered(env, s, q, m)
  {
    hide Stopped, Evaluate, Bound, PackageOk, ExternalActions.Enqueue, Resolves, Blank, ActionOf, LifetimeOf;
    OwnerPresents(env, s, q, m);
  }

  /** The owner action a request is about, with every field its digest covers. */
  function AskedAction(q: Request): Option<ExternalActions.Identity> {
    if "decision_package" in q && q["decision_package"].PackageValue?
    then ActionOf(q, q["decision_package"].package, Risk(q), Category(q)) else None
  }

  /** And what it then says of the queue: the row it rests on carries the digest of this very action, with
      its identifier; its resolution is verified and about the row; and a pending row has not expired. */
  lemma OwnerActionContinue(env: Env, s: Store, q: Request, m: Moment)
    requires IsForcedHuman(Category(q)) && Evaluate(env, s, q, m).r.Continue? && ExternalActions.Sound(env.hash, s.actions)
    ensures ExternalActions.Sound(env.hash, Evaluate(env, s, q, m).s.actions)
    ensures exists row: ExternalActions.Row ::
              && row in Evaluate(env, s, q, m).s.actions
              && AskedAction(q).Some? && row.id.actionId == AskedAction(q).value.actionId
              && env.hash(row.id) == env.hash(AskedAction(q).value)
              && TextOf(q, if Category(q) == "operational_action" then "action_id" else "uat_id") == Some(row.id.actionId)
              && ((row.status == ExternalActions.Completed && Resolves(env, row))
                  || (row.status == ExternalActions.Pending && m.now < row.expiresAt && Unrelated(q)))
  {
    hide Stopped, Evaluate, Bound, PackageOk, ExternalActions.Enqueue, ExternalActions.Sound, Resolves, Blank;
    if Stopped(q).Some? {
      StoppedBlocks(env, s, q, m);
    }
    OwnerPresents(env, s, q, m);
    OwnerActionContinueIff(env, s, q, m);
    var package := q["decision_package"].package;
    var id, ttl := ActionOf(q, package, Risk(q), Category(q)).value, LifetimeOf(q, Category(q)).value;
    var out := ExternalActions.Enqueue(env.hash, s.actions, id, ttl, m.now);
    ExternalActions.ApplyKeeps(env.hash, s.actions, ExternalActions.DoEnqueue(id, ttl, m.now));
    assert Evaluate(env, s, q, m).s.actions == out.rows;
    if out.answer.Existing? {
      ExternalActions.ExistingIsCurrent(env.hash, s.actions, id, ttl, m.now);
    } else {
      ExternalActions.CreatedIsCurrent(env.hash, s.actions, id, ttl, m.now);
    }
  }

  /** A product decision is let through only at exactly L2 and without effects: on the recorded
      decision with its identifier, approved for its scope by a plain-language choice bound to its
      request or by a verified signature, or with its bound package attached and unrelated work declared. */
  lemma ProductContinue(env: Env, s: Store, q: Request, m: Moment)
    requires Category(q) == "product_decision" && Evaluate(env, s, q, m).r.Continue?
    ensures Risk(q) == "L2" && Declared(q) == map[] && Evaluate(env, s, q, m).s == s
    ensures
      var scope := TextOf(q, "decision_scope");
      || (exists row: Row ::
            && row in s.rows && TextOf(q, "decision_id") == Some(row.decisionId) && NamesScope(scope, row)
            && (PlainMatches(env, row, scope, Raw(q, "decision_package"))
                || ("decision_package" !in q && L2Matches(env, row, scope, m.now))))
      || (Evaluate(env, s, q, m).r.attached.Some? && Unrelated(q)
          && Bound(q, Evaluate(env, s, q, m).r.attached.value, "L2", "product_decision", map[], env.trust.sensitive))
  {
    hide Evaluate, ReuseDecision, Bound, PlainMatches, L2Matches, NamesScope;
    ProductReuses(env, s, q, m);
    ReuseContinue(env, s, q, m.now);
  }

  lemma ProductReuses(env: Env, s: Store, q: Request, m: Moment)
    requires Category(q) == "product_decision" && Evaluate(env, s, q, m).r.Continue?
    ensures Risk(q) == "L2" && Declared(q) == map[]
    ensures Evaluate(env, s, q, m) == ReuseDecision(env, s, q, map[], m.now)
  {
    hide Stopped, ReuseDecision, Present, Spend, CategoryEnvelopeOk, LowRiskEnvelopeOk, ROUTINE_OPERATIONS, KNOWN_CATEGORIES, SENSITIVE_EFFECTS;
    StoppedIsNoContinue(q);
    NotStopped(q);
  }

  lemma ReuseContinue(env: Env, s: Store, q: Request, now: int)
    requires ReuseDecision(env, s, q, map[], now).r.Continue?
    ensures ReuseDecision(env, s, q, map[], now).s == s
    ensures
      var scope := TextOf(q, "decision_scope");
      || (exists row: Row ::
            && row in s.rows && TextOf(q, "decision_id") == Some(row.decisionId) && NamesScope(scope, row)
            && (PlainMatches(env, row, scope, Raw(q, "decision_package"))
                || ("decision_package" !in q && L2Matches(env, row, scope, now))))
      || (ReuseDecision(env, s, q, map[], now).r.attached.Some? && Unrelated(q)
          && Bound(q, ReuseDecision(env, s, q, map[], now).r.attached.value, "L2", "product_decision", map[], env.trust.sensitive))
  {
    hide Bound, PackageOk, NamesScope, Blank;
  }

  /** Categories that only report: the code answers them whatever effects they declare. */
  predicate Informational(q: Request) {
    || Category(q) == "checkpoint"
    || (Category(q) == "integrity_mismatch" && Unrelated(q))
    || (Category(q) == "uncertainty" && (MachineVerifiable(q) || Unrelated(q)))
  }

  /** Exactly when a request that declares an effect is let through: at L3, past the envelopes, and on
      the authority of its category. A checkpoint, an integrity mismatch or an uncertainty needs none. */
  lemma EffectsContinueIff(env: Env, s: Store, q: Request, m: Moment)
    requires Declared(q) != map[] && NonceLedger.Sound(s.ledger) && NonceLedger.IsStamp(m.at)
    ensures Evaluate(env, s, q, m).r.Continue? <==>
            && Stopped(q).None? && Risk(q) == "L3"
            && ((WellFormed(env, q) && (Spendable(env, s, q, m) || Pending(env, s, q, m)))
                || (IsForcedHuman(Category(q)) && OwnerAnswered(env, s, q, m))
                || Informational(q))
  {
    hide Evaluate, Stopped, WellFormed, Spendable, Pending, OwnerAnswered, IsHighRisk, IsForcedHuman;
    if Stopped(q).None? {
      if Risk(q) != "L3" {
        DangerousIsNeverDowngraded(env, s, q, m);
      } else if IsHighRisk(Category(q)) {
        HighRiskIsNotSpecial(Category(q));
        HighRiskContinueIff(env, s, q, m);
      } else if IsForcedHuman(Category(q)) {
        NotHighRisk(env, q);
        ForcedIsNotInformational(q);
        OwnerActionContinueIff(env, s, q, m);
      } else {
        NotHighRisk(env, q);
        OtherCategories(env, s, q, m);
      }
    } else {
      StoppedBlocks(env, s, q, m);
    }
  }

  /** A checkpoint at L3 that declares these effects, and nothing else. */
  function CheckpointWith(effects: map<string, bool>): Request {
    map["risk_level" := Text("L3"), "category" := Text("checkpoint"), "effects" := Effects(effects)]
  }

  /** It is let through by nobody's authority, and nothing is spent or asked, whichever effects of the
      closed list but publication it declares. */
  lemma CheckpointWithEffectsContinues(env: Env, s: Store, effects: map<string, bool>, m: Moment)
    requires effects.Keys <= SENSITIVE_EFFECTS && "public_publish" !in effects && forall e :: e in effects ==> effects[e]
    ensures
      var q := CheckpointWith(effects);
      Declared(q) == effects && Evaluate(env, s, q, m) == Evaluated(Continue("checkpoint_is_informational", None, None), s)
  {
    hide Stopped;
    CheckpointPasses(effects);
  }

  lemma CheckpointPasses(effects: map<string, bool>)
    requires effects.Keys <= SENSITIVE_EFFECTS && "public_publish" !in effects && forall e :: e in effects ==> effects[e]
    ensures Stopped(CheckpointWith(effects)).None?
  {
    hide SENSITIVE_EFFECTS, RISK_LEVELS, KNOWN_CATEGORIES, ROUTINE_OPERATIONS, HIGH_RISK_CATEGORIES, AUTHORITY_FIELDS, LowRiskEnvelopeOk;
    CheckpointIsKnown();
    CheckpointIsClosed(effects);
  }

  lemma CheckpointIsKnown()
    ensures "L3" in RISK_LEVELS && "checkpoint" in KNOWN_CATEGORIES && "checkpoint" !in HIGH_RISK_CATEGORIES
  {
    hide ROUTINE_OPERATIONS, ESCALATION_CATEGORIES;
  }

  lemma CheckpointIsClosed(effects: map<string, bool>)
    ensures CategoryEnvelopeOk(CheckpointWith(effects), "checkpoint")
  {
    assert CheckpointWith(effects).Keys == COMMON_FIELDS;
  }

  /** Production, for one. */
  lemma ProductionCheckpointContinues(env: Env, s: Store, m: Moment)
    ensures
      var e := Evaluate(env, s, CheckpointWith(map["production" := true]), m);
      e.r == Continue("checkpoint_is_informational", None, None) && e.s == s
  {
    hide Evaluate;
    assert (map["production" := true]).Keys <= SENSITIVE_EFFECTS;
    CheckpointWithEffectsContinues(env, s, map["production" := true], m);
  }

  lemma ForcedIsNotInformational(q: Request)
    requires IsForcedHuman(Category(q))
    ensures !Informational(q)
  {}

  lemma StoppedBlocks(env: Env, s: Store, q: Request, m: Moment)
    requires Stopped(q).Some?
    ensures !Evaluate(env, s, q, m).r.Continue?
  {
    hide Stopped;
    StoppedIsNoContinue(q);
  }

  lemma NotHighRisk(env: Env, q: Request)
    requires !IsHighRisk(Category(q))
    ensures !WellFormed(env, q)
  {}

  /** At L3 with effects only these three categories remain, and routine ones, which need a package
      their closed fields do not allow. */
  lemma OtherCategories(env: Env, s: Store, q: Request, m: Moment)
    requires Stopped(q).None? && Risk(q) == "L3" && Declared(q) != map[] && !IsHighRisk(Category(q)) && !IsForcedHuman(Category(q))
    ensures Evaluate(env, s, q, m).r.Continue? <==> Informational(q)
  {
    hide Stopped, Spend, CategoryEnvelopeOk, SENSITIVE_EFFECTS;
    NotStopped(q);
    if Category(q) in ROUTINE_OPERATIONS {
      RoutineIsNotSpecial(Category(q));
      RoutineWithEffectsNeverContinues(env, s, q, m);
    } else {
      NamedCategories(Category(q));
    }
  }

  lemma NamedCategories(category: string)
    requires category in KNOWN_CATEGORIES && category !in ROUTINE_OPERATIONS && !IsHighRisk(category) && !IsForcedHuman(category)
    ensures category in {"checkpoint", "integrity_mismatch", "uncertainty", "product_decision"}
  {}
}
