/** The constant texts of audit events. */
module AuditTexts {
  import opened AuditNames
  import opened ReceiptContract
  import opened KeyRegistry
  import opened VerificationWaves
  import opened ComponentSummaries

  const AUDIT_SCHEMA := "shield.verification_audit.v1"
  const AUDIT_VERIFIER := "adamantineos.v1"
  const PREFLIGHT_EVENT := "verification_preflight"
  const SIGNATURE_EVENT := "signature_verification"
  const ARTIFACT_EVENT := "artifact_verification"
  const COMPONENT_KIND := "component_verdict"
  const RECEIPT_KIND := "orchestrator_receipt"
  const MAX_CONSTANT: nat := 28

  function ReasonName(r: AuditReason): string {
    match r
    case VerifyOk => "V4_VERIFY_OK"
    case ContractInvalid => "V4_CONTRACT_INVALID"
    case ContextMismatch => "V4_CONTEXT_MISMATCH"
    case RequestMismatch => "V4_REQUEST_MISMATCH"
    case ReceiptHashMismatch => "V4_HASH_MISMATCH"
    case DowngradeRejected => "V4_DOWNGRADE_REJECTED"
    case AuthorityBypassed => "V4_AUTHORITY_BYPASS"
    case PolicyInvalid => "V4_POLICY_INVALID"
    case RegistryInvalid => "V4_REGISTRY_INVALID"
    case FreshnessInvalid => "V4_FRESHNESS_INVALID"
    case ReplayRejected => "V4_REPLAY_REJECTED"
    case SignatureInvalid => "V4_SIGNATURE_INVALID"
    case BackendUnavailable => "V4_BACKEND_UNAVAILABLE"
    case BackendFailure => "V4_BACKEND_FAILURE"
  }

  predicate Constant(s: string) {
    Plain(s) && |s| <= MAX_CONSTANT
  }

  lemma ReasonsA(r: AuditReason)
    requires r.VerifyOk? || r.ContractInvalid? || r.ContextMismatch?
    ensures Constant(ReasonName(r)) && (ReasonName(r) == ReasonName(VerifyOk) <==> r == VerifyOk)
  {
    assert |ReasonName(VerifyOk)| == 12;
  }

  lemma ReasonsB(r: AuditReason)
    requires r.RequestMismatch? || r.ReceiptHashMismatch? || r.DowngradeRejected?
    ensures Constant(ReasonName(r)) && |ReasonName(r)| > 12
  {
  }

  lemma ReasonsC(r: AuditReason)
    requires r.AuthorityBypassed? || r.PolicyInvalid? || r.RegistryInvalid?
    ensures Constant(ReasonName(r)) && |ReasonName(r)| > 12
  {
  }

  lemma ReasonsD(r: AuditReason)
    requires r.FreshnessInvalid? || r.ReplayRejected? || r.SignatureInvalid?
    ensures Constant(ReasonName(r)) && |ReasonName(r)| > 12
  {
  }

  lemma ReasonsE(r: AuditReason)
    requires r.BackendUnavailable? || r.BackendFailure?
    ensures Constant(ReasonName(r)) && |ReasonName(r)| > 12
  {
  }

  /** Reason texts are constants, and only success is called V4_VERIFY_OK. */
  lemma ReasonsFit(r: AuditReason)
    ensures Constant(ReasonName(r)) && (ReasonName(r) == ReasonName(VerifyOk) <==> r == VerifyOk)
  {
    hide ReasonName, Constant;
    ReasonsA(VerifyOk);
    OkIsShort();
    match r
    case VerifyOk => ReasonsA(r);
    case ContractInvalid => ReasonsA(r);
    case ContextMismatch => ReasonsA(r);
    case RequestMismatch => ReasonsB(r);
    case ReceiptHashMismatch => ReasonsB(r);
    case DowngradeRejected => ReasonsB(r);
    case AuthorityBypassed => ReasonsC(r);
    case PolicyInvalid => ReasonsC(r);
    case RegistryInvalid => ReasonsC(r);
    case FreshnessInvalid => ReasonsD(r);
    case ReplayRejected => ReasonsD(r);
    case SignatureInvalid => ReasonsD(r);
    case BackendUnavailable => ReasonsE(r);
    case BackendFailure => ReasonsE(r);
  }

  lemma OkIsShort()
    ensures |ReasonName(VerifyOk)| == 12
  {
  }

  lemma HeadersFit()
    ensures Constant(AUDIT_SCHEMA) && Constant(AUDIT_VERIFIER) && Constant(SIGNATURE_POLICY)
  {
  }

  lemma EventsFit()
    ensures Constant(PREFLIGHT_EVENT) && Constant(SIGNATURE_EVENT) && Constant(ARTIFACT_EVENT)
  {
  }

  lemma KindsFit()
    ensures Constant(COMPONENT_KIND) && Constant(RECEIPT_KIND) && Constant(VERDICT_SCHEMA) && Constant(RECEIPT_SCHEMA)
  {
  }

  lemma RolesFit(id: string)
    requires id in COMPONENT_ROLES || id == ORCHESTRATOR_ROLE
    ensures Constant(id)
  {
  }

  lemma ProfileFits(a: Algorithm)
    ensures Constant(ProfileOf(a))
  {
  }

  lemma AlgorithmsFit(a: Algorithm)
    ensures Constant(NameOf(a)) && Constant(ProfileOf(a))
  {
    ProfileFits(a);
    hide ProfileOf;
  }

  lemma EventsDiffer()
    ensures PREFLIGHT_EVENT != SIGNATURE_EVENT && PREFLIGHT_EVENT != ARTIFACT_EVENT && SIGNATURE_EVENT != ARTIFACT_EVENT
    ensures COMPONENT_KIND != RECEIPT_KIND
  {
    assert PREFLIGHT_EVENT[0] == 'v' && SIGNATURE_EVENT[0] == 's' && ARTIFACT_EVENT[0] == 'a';
    assert COMPONENT_KIND[0] == 'c' && RECEIPT_KIND[0] == 'o';
  }
}
