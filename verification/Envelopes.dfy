/** Which requests `evaluate_escalation` (src/sddgov/autonomy.py) looks at at all, field by field, and what
    the categories that only report get. The tables are written out here a second time, by category, with
    the names a caller would use. */
module Envelopes {
  import opened Common
  import opened Operations
  import opened Approval
  import opened Escalation
  import opened Receipts

  // ---------------------------------------------------------------- the table

  predicate Among(q: Request, fields: set<string>) {
    q.Keys <= {"risk_level", "category", "effects"} + fields
  }

  predicate TrueOrFalse(q: Request, field: string) {
    field in q ==> q[field].Flag?
  }

  const ROUTINE: set<string> := {
    "issue", "branch", "implementation", "commit", "feature_branch_push", "pull_request", "review", "review_fix",
    "lint", "typecheck", "test", "e2e", "security_scan", "dependency_conflict", "git_conflict", "recoverable_retry",
    "integrity_verification", "ci", "merge", "release_readiness"}

  /** The fields a category may carry beside the three common ones, and the risk and effects it asks for. */
  predicate Row(q: Request, risk: string, category: string, effects: map<string, bool>) {
    if category in ROUTINE then
      Among(q, {}) && (category in {"merge", "release_readiness"} ==> risk == "L1" && effects == map[])
    else if category in DANGEROUS then
      && Among(q, {"approval_id", "operation_id", "operation_payload", "decision_package", "machine_verifiable", "unrelated_work_exists"})
      && risk == "L3"
    else if category == "checkpoint" then Among(q, {})
    else if category == "integrity_mismatch" then
      Among(q, {"unrelated_work_exists"}) && (risk in {"L0", "L1"} ==> TrueOrFalse(q, "unrelated_work_exists"))
    else if category == "uncertainty" then
      if risk in {"L0", "L1"} then
        && Among(q, {"machine_verifiable", "unrelated_work_exists"})
        && TrueOrFalse(q, "machine_verifiable") && TrueOrFalse(q, "unrelated_work_exists")
      else Among(q, {"machine_verifiable", "unrelated_work_exists", "decision_package"})
    else if category == "product_decision" then
      && Among(q, {"decision_id", "decision_scope", "assumptions_sha256", "reopen_condition_triggered", "decision_package",
                   "unrelated_work_exists", "assumption_paths", "approver_id", "valid_days", "owner_client"})
      && risk == "L2"
    else if category == "operational_action" then
      Among(q, {"action_id", "action_owner", "action_scope", "action_ttl_minutes", "decision_package", "unrelated_work_exists"})
    else if category == "necessary_uat" then
      Among(q, {"uat_id", "uat_owner", "uat_scope", "uat_ttl_minutes", "decision_package", "unrelated_work_exists"})
    else false
  }

  /** A request that is looked at: a risk level, a category and effects of the closed lists, effects only at
      L3, publication exactly with public release, and what its category asks. */
  predicate Enveloped(q: Request) {
    && "risk_level" in q && q["risk_level"].Text? && q["risk_level"].text in {"L0", "L1", "L2", "L3"}
    && "category" in q && q["category"].Text?
    && "effects" in q && q["effects"].Effects?
    && var risk, category, effects := q["risk_level"].text, q["category"].text, q["effects"].effects;
       && (forall e :: e in effects ==>
             effects[e] && e in EFFECTS)
       && (effects != map[] ==> risk == "L3")
       && ("public_publish" in effects <==> category == "public_release")
       && Row(q, risk, category, effects)
  }

  lemma SameNames()
    ensures ROUTINE == ROUTINE_OPERATIONS && DANGEROUS == HIGH_RISK_CATEGORIES + {"high_risk_operation"}
    ensures "high_risk_operation" !in HIGH_RISK_CATEGORIES
  {}

  /** The categories of the table are those known, each in one row. */
  lemma CategoriesAre(category: string)
    ensures category in KNOWN_CATEGORIES <==>
            || category in ROUTINE || category in DANGEROUS
            || category in {"checkpoint", "integrity_mismatch", "uncertainty", "product_decision", "operational_action", "necessary_uat"}
    ensures IsHighRisk(category) <==> category in DANGEROUS
    ensures category in ROUTINE <==> category in ROUTINE_OPERATIONS
    ensures category in ROUTINE ==> category !in DANGEROUS
    ensures category in ROUTINE || category in DANGEROUS ==>
              category !in {"checkpoint", "integrity_mismatch", "uncertainty", "product_decision", "operational_action", "necessary_uat"}
    ensures category in HIGH_RISK_CATEGORIES <==> category in DANGEROUS && category != "high_risk_operation"
    ensures category in KNOWN_CATEGORIES ==> category != ""
    ensures category in {"merge", "release_readiness"} ==> category in ROUTINE
  {
    hide ROUTINE, ROUTINE_OPERATIONS, DANGEROUS, HIGH_RISK_CATEGORIES;
    SameNames();
    RoutineIs(category);
    DangerousIs(category);
  }

  lemma RoutineIs(category: string)
    ensures category in ROUTINE ==>
              && category !in DANGEROUS && category != ""
              && category !in {"checkpoint", "integrity_mismatch", "uncertainty", "product_decision", "operational_action", "necessary_uat"}
    ensures category in {"merge", "release_readiness"} ==> category in ROUTINE
  {}

  lemma DangerousIs(category: string)
    ensures category in DANGEROUS ==>
              && category != ""
              && category !in {"checkpoint", "integrity_mismatch", "uncertainty", "product_decision", "operational_action", "necessary_uat"}
  {}

  lemma NoAuthority(q: Request)
    requires Among(q, {})
    ensures q.Keys * AUTHORITY_FIELDS == {}
  {}

  lemma EffectsAre(effects: map<string, bool>)
    ensures (exists e :: e in effects && (e !in SENSITIVE_EFFECTS || !effects[e])) <==>
            !(forall e :: e in effects ==>
                effects[e] && e in EFFECTS)
  {}

  /** The low-risk and the category envelopes together are the category's fields in the table. */
  lemma FieldsAre(q: Request, risk: string, category: string, effects: map<string, bool>)
    requires category in KNOWN_CATEGORIES && Downgrade(risk, category, effects).None?
    ensures
      (IsLow(risk) ==> LowRiskEnvelopeOk(q, category, effects)) && CategoryEnvelopeOk(q, category) <==> Row(q, risk, category, effects)
  {
    hide ROUTINE, ROUTINE_OPERATIONS, DANGEROUS, HIGH_RISK_CATEGORIES, KNOWN_CATEGORIES;
    CategoriesAre(category);
    assert COMMON_FIELDS + {} == COMMON_FIELDS;
  }

  /** The downgrade checks, in the table's words. */
  lemma DowngradeIff(risk: string, category: string, effects: map<string, bool>)
    requires risk in {"L0", "L1", "L2", "L3"}
    ensures Downgrade(risk, category, effects).None? <==>
            && (effects != map[] ==> risk == "L3")
            && ("public_publish" in effects <==> category == "public_release")
            && (category in {"merge", "release_readiness"} ==> risk == "L1" && effects == map[])
            && (category == "product_decision" ==> risk == "L2")
            && (category in DANGEROUS ==> risk == "L3")
  {
    hide DANGEROUS, HIGH_RISK_CATEGORIES;
    SameNames();
    assert "public_publish" in effects ==> effects != map[];
  }

  /** Exactly which requests are looked at. */
  lemma NotStoppedIff(q: Request)
    ensures Stopped(q).None? <==> Enveloped(q)
  {
    hide ROUTINE, ROUTINE_OPERATIONS, DANGEROUS, HIGH_RISK_CATEGORIES, KNOWN_CATEGORIES, SENSITIVE_EFFECTS, LowRiskEnvelopeOk,
         CategoryEnvelopeOk, Downgrade, Row, AUTHORITY_FIELDS;
    var risk, category, effects := Risk(q), Category(q), Declared(q);
    CategoriesAre(category);
    EffectsAre(effects);
    if risk in RISK_LEVELS {
      DowngradeIff(risk, category, effects);
      if category in KNOWN_CATEGORIES && Downgrade(risk, category, effects).None? {
        FieldsAre(q, risk, category, effects);
      }
    }
    if Row(q, risk, category, effects) {
      RowNeeds(q, risk, category, effects);
    }
  }

  lemma RowNeeds(q: Request, risk: string, category: string, effects: map<string, bool>)
    requires Row(q, risk, category, effects)
    ensures category in KNOWN_CATEGORIES
    ensures category in ROUTINE ==> q.Keys * AUTHORITY_FIELDS == {}
    ensures category in {"merge", "release_readiness"} ==> risk == "L1" && effects == map[]
    ensures category == "product_decision" ==> risk == "L2"
    ensures category in DANGEROUS ==> risk == "L3"
  {
    hide ROUTINE, ROUTINE_OPERATIONS, DANGEROUS, HIGH_RISK_CATEGORIES, KNOWN_CATEGORIES, AUTHORITY_FIELDS;
    CategoriesAre(category);
    if category in ROUTINE {
      NoAuthority(q);
    }
  }

  // ---------------------------------------------------------------- the categories that only report

  /** A result that lets nobody act, or an error. */
  predicate Holds(r: Result) {
    r.Blocked? || r.Raised?
  }

  lemma Enters(env: Env, s: Store, q: Request, m: Moment)
    ensures Enveloped(q) ==> Evaluate(env, s, q, m) == Decide(env, s, q, Risk(q), Category(q), Declared(q), m)
    ensures !Enveloped(q) ==> Evaluate(env, s, q, m).s == s && Holds(Evaluate(env, s, q, m).r)
  {
    hide Stopped, Decide, Enveloped;
    NotStoppedIff(q);
    StoppedIsNoContinue(q);
  }

  /** An integrity mismatch, at any risk and with any effects, whatever the stores hold: a request that is
      looked at is let through exactly if it declares unrelated work, blocked otherwise; no store changes. */
  lemma MismatchContinueIff(env: Env, s: Store, q: Request, m: Moment)
    requires TextOf(q, "category") == Some("integrity_mismatch")
    ensures
      var e := Evaluate(env, s, q, m);
      && e.s == s && (e.r.Continue? || Holds(e.r))
      && (e.r.Continue? <==> Enveloped(q) && "unrelated_work_exists" in q && Truthy(q["unrelated_work_exists"]))
      && (Enveloped(q) && !e.r.Continue? ==> e.r.Blocked?)
      && (e.r.Continue? ==> e.r.authorised.None? && e.r.attached.None?)
  {
    hide Evaluate, Enveloped;
    Enters(env, s, q, m);
  }

  /** An uncertainty: exactly if it is machine-verifiable or declares unrelated work. */
  lemma UncertaintyContinueIff(env: Env, s: Store, q: Request, m: Moment)
    requires TextOf(q, "category") == Some("uncertainty")
    ensures
      var e := Evaluate(env, s, q, m);
      && e.s == s && (e.r.Continue? || Holds(e.r))
      && (e.r.Continue? <==>
            && Enveloped(q)
            && (("machine_verifiable" in q && q["machine_verifiable"] == Flag(true))
                || ("unrelated_work_exists" in q && Truthy(q["unrelated_work_exists"]))))
      && (Enveloped(q) && !e.r.Continue? ==> e.r.Blocked?)
      && (e.r.Continue? ==> e.r.authorised.None? && e.r.attached.None?)
  {
    hide Evaluate, Enveloped;
    Enters(env, s, q, m);
  }

  /** A checkpoint: whenever it is looked at. */
  lemma CheckpointContinueIff(env: Env, s: Store, q: Request, m: Moment)
    requires TextOf(q, "category") == Some("checkpoint")
    ensures
      var e := Evaluate(env, s, q, m);
      && e.s == s && (e.r.Continue? || Holds(e.r)) && (e.r.Continue? <==> Enveloped(q))
      && (e.r.Continue? ==> e.r.authorised.None? && e.r.attached.None?)
  {
    hide Evaluate, Enveloped;
    Enters(env, s, q, m);
  }
}
