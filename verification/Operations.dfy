/** The closed vocabularies of src/sddgov/autonomy.py and the exact operation payload that an L3
    approval signs. */
module Operations {
  import opened Common

  const ROUTINE_OPERATIONS: set<string> := {
    "issue", "branch", "implementation", "commit", "feature_branch_push", "pull_request", "review",
    "review_fix", "lint", "typecheck", "test", "e2e", "security_scan", "dependency_conflict",
    "git_conflict", "recoverable_retry", "integrity_verification", "ci", "merge", "release_readiness"}
  const ESCALATION_CATEGORIES: set<string> := {
    "uncertainty", "product_decision", "high_risk_operation", "operational_action", "necessary_uat"}
  const HIGH_RISK_CATEGORIES: set<string> := {
    "production_data_deletion", "irreversible_migration", "secret_change", "permission_boundary_change",
    "real_payment", "high_privilege_production_operation", "public_release"}
  const SENSITIVE_EFFECTS: set<string> := {
    "production", "destructive", "irreversible", "secret_change", "permission_boundary_change",
    "real_payment", "high_privilege", "public_publish"}

  predicate IsHighRisk(category: string) {
    category in HIGH_RISK_CATEGORIES || category == "high_risk_operation"
  }

  /** `parameters` stands for the canonical JSON text of the parameter object. */
  datatype Payload = Payload(
    repository: string, project: string, environment: string, scope: string, category: string,
    target: string, parameters: string, effects: set<string>)

  /** not v.strip() */
  predicate Blank(v: string) {
    forall k :: 0 <= k < |v| ==> IsWhite(v[k])
  }

  /** _validate_operation_payload; `sensitive` is the search for secret-bearing parameter names. */
  predicate ValidPayload(p: Payload, sensitive: string -> bool) {
    && IsHighRisk(p.category)
    && !Blank(p.target) && !Blank(p.repository) && !Blank(p.project) && !Blank(p.environment) && !Blank(p.scope)
    && !sensitive(p.parameters)
    && p.effects <= SENSITIVE_EFFECTS
    && ("public_publish" in p.effects <==> p.category == "public_release")
  }
}
