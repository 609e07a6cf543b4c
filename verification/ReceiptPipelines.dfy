/** Receipt preflight and the two acceptance pipelines: the one-shot contract validator and the staged verifier. */
module ReceiptPipelines {
  import opened Wrappers
  import opened Trimming
  import opened ReceiptContract

  const FINAL_OUTCOMES := {"ALLOW", "DENY", "HUMAN_REVIEW_REQUIRED"}
  const COMPONENT_DECISIONS := {"ALLOW", "ESCALATE", "DENY", "ERROR", "SKIPPED"}
  const FORBIDDEN_AUTHORITY_KEYS := {
    "allow", "approved", "authority", "auto_approve", "broadcast", "bypass", "can_sign", "decision", "execute",
    "final_approval", "force_allow", "human_approved", "override", "sign", "trusted"}
  const OPTIONAL_FIELDS := {"verification_summary"}
  const RECEIPT_FIELDS := {
    "schema_version", "contract_version", "request_id", "context_hash", "freshness_nonce", "not_before", "not_after",
    "component_verdicts", "component_signature_results", "final_outcome", "dominant_reason_ids",
    "canonicalization_profile", "signature_policy", "key_registry_version", "adamantineos_handoff", "fail_closed",
    "receipt_hash", "signed_payload_hash", "signature_bundle"}
  const COMPONENT_FIELDS := {
    "component_id", "contract_version", "schema_version", "request_id", "context_hash", "freshness_nonce",
    "not_before", "not_after", "decision", "reason_ids", "evidence_hash", "evidence_families", "metadata",
    "fail_closed", "canonicalization_profile", "signature_policy", "key_registry_version", "signed_payload_hash",
    "signature_bundle"}
  const RESULT_FIELDS := {
    "component_id", "component_role", "verified", "verified_algorithms", "verified_standard_profiles",
    "signature_policy"}
  const UNSIGNED_RECEIPT_EXCLUDED := {"receipt_hash", "signed_payload_hash", "signature_bundle", "verification_summary"}
  const UNSIGNED_COMPONENT_EXCLUDED := {"signed_payload_hash", "signature_bundle", "verification_summary"}
  const COMPONENT_COUNT: nat := 5

  // ------------------------------------------------------------ shared checks

  predicate ForbiddenAuthority(v: Wire) {
    match v
    case WDict(fields) =>
      (exists k :: k in fields && k in FORBIDDEN_AUTHORITY_KEYS)
      || (exists k :: k in fields && ForbiddenAuthority(fields[k]))
    case WList(items) => exists i :: 0 <= i < |items| && ForbiddenAuthority(items[i])
    case _ => false
  }

  /** A non-empty list of distinct non-empty texts, compared after stripping. */
  predicate TextList(v: Wire) {
    && v.WList? && v.items != []
    && (forall i :: 0 <= i < |v.items| ==> NonEmpty(v.items[i]).Some?)
    && forall i, j :: 0 <= i < j < |v.items| ==> NonEmpty(v.items[i]) != NonEmpty(v.items[j])
  }

  function TextAt(v: Wire, i: nat): string
    requires TextList(v) && i < |v.items|
  {
    NonEmpty(v.items[i]).value
  }

  predicate FieldsMatch(v: Wire, required: set<string>) {
    v.WDict? && v.fields.Keys - OPTIONAL_FIELDS == required
  }

  /** A field of a dict; null where there is none. */
  function Field(v: Wire, key: string): Wire {
    if v.WDict? && key in v.fields then v.fields[key] else WNull
  }

  // -------------------------------------------------------- component verdicts

  /** Identity, version and policy of a component verdict. */
  predicate ComponentHeaderHolds(c: Wire) {
    && FieldsMatch(c, COMPONENT_FIELDS)
    && NonEmpty(Field(c, "component_id")).Some? && NonEmpty(Field(c, "component_id")).value in COMPONENT_ROLES
    && Field(c, "contract_version") == WInt(4) && Field(c, "schema_version") == WText(VERDICT_SCHEMA)
    && Field(c, "fail_closed") == WBool(true) && Field(c, "canonicalization_profile") == WText(CANON_PROFILE)
    && Field(c, "signature_policy") == WText(SIGNATURE_POLICY)
    && Field(c, "decision").WText? && Field(c, "decision").s in COMPONENT_DECISIONS
  }

  predicate ComponentBodyHolds(c: Wire, context: string, env: Oracles) {
    && HashText(Field(c, "context_hash"), env).Some?
    && HashText(Field(c, "context_hash"), env) == HashText(WText(context), env)
    && NonEmpty(Field(c, "request_id")).Some? && NonEmpty(Field(c, "freshness_nonce")).Some?
    && NonEmpty(Field(c, "not_before")).Some? && NonEmpty(Field(c, "not_after")).Some?
    && HashText(Field(c, "evidence_hash"), env).Some?
    && TextList(Field(c, "reason_ids")) && TextList(Field(c, "evidence_families"))
    && PositiveInt(Field(c, "key_registry_version"))
    && Field(c, "metadata").WDict? && !ForbiddenAuthority(Field(c, "metadata"))
    && HashText(Field(c, "signed_payload_hash"), env).Some?
  }

  predicate ComponentHolds(c: Wire, context: string, env: Oracles) {
    ComponentHeaderHolds(c) && ComponentBodyHolds(c, context, env)
  }

  predicate ContextAgrees(v: Wire, context: string, env: Oracles) {
    HashText(Field(v, "context_hash"), env).Some? && HashText(Field(v, "context_hash"), env) == HashText(WText(context), env)
  }

  /** Every class of fault but the unspecific one is reported only for its own cause. */
  predicate ComponentCause(c: Wire, context: string, env: Oracles, f: ContractFault) {
    match f
    case Invalid => true
    case Context => !ContextAgrees(c, context, env)
    case Policy => Field(c, "signature_policy") != WText(SIGNATURE_POLICY)
    case AuthorityBypass => ForbiddenAuthority(Field(c, "metadata"))
    case _ => false
  }

  /** _preflight_component_verdict_contract, check by check. */
  method PreflightComponent(c: Wire, context: string, env: Oracles) returns (fault: Option<ContractFault>)
    ensures fault.None? <==> ComponentHolds(c, context, env)
    ensures fault.Some? ==> ComponentCause(c, context, env, fault.value)
  {
    hide ComponentHeaderHolds, ComponentBodyHolds, ComponentCause;
    fault := PreflightComponentHeader(c);
    if fault.None? { fault := PreflightComponentBody(c, context, env); }
  }

  method PreflightComponentHeader(c: Wire) returns (fault: Option<ContractFault>)
    ensures fault.None? <==> ComponentHeaderHolds(c)
    ensures forall context, env :: fault.Some? ==> ComponentCause(c, context, env, fault.value)
  {
    hide FieldsMatch, Field, NonEmpty;
    if !FieldsMatch(c, COMPONENT_FIELDS) { return Some(Invalid); }
    var id := NonEmpty(Field(c, "component_id"));
    if id.None? || id.value !in COMPONENT_ROLES { return Some(Invalid); }
    if Field(c, "contract_version") != WInt(4) { return Some(Invalid); }
    if Field(c, "schema_version") != WText(VERDICT_SCHEMA) { return Some(Invalid); }
    if Field(c, "fail_closed") != WBool(true) { return Some(Invalid); }
    if Field(c, "canonicalization_profile") != WText(CANON_PROFILE) { return Some(Invalid); }
    if Field(c, "signature_policy") != WText(SIGNATURE_POLICY) { return Some(Policy); }
    if !Field(c, "decision").WText? || Field(c, "decision").s !in COMPONENT_DECISIONS { return Some(Invalid); }
    return None;
  }

  method PreflightComponentBody(c: Wire, context: string, env: Oracles) returns (fault: Option<ContractFault>)
    ensures fault.None? <==> ComponentBodyHolds(c, context, env)
    ensures fault.Some? ==> ComponentCause(c, context, env, fault.value)
  {
    hide Field, NonEmpty, HashText, TextList, PositiveInt, ForbiddenAuthority;
    if HashText(Field(c, "context_hash"), env).None? { return Some(Context); }
    if HashText(Field(c, "context_hash"), env) != HashText(WText(context), env) { return Some(Context); }
    if NonEmpty(Field(c, "request_id")).None? { return Some(Invalid); }
    if NonEmpty(Field(c, "freshness_nonce")).None? { return Some(Invalid); }
    if NonEmpty(Field(c, "not_before")).None? || NonEmpty(Field(c, "not_after")).None? { return Some(Invalid); }
    if HashText(Field(c, "evidence_hash"), env).None? { return Some(Invalid); }
    if !TextList(Field(c, "reason_ids")) || !TextList(Field(c, "evidence_families")) { return Some(Invalid); }
    if !PositiveInt(Field(c, "key_registry_version")) { return Some(Invalid); }
    if !Field(c, "metadata").WDict? { return Some(Invalid); }
    if ForbiddenAuthority(Field(c, "metadata")) { return Some(AuthorityBypass); }
    if HashText(Field(c, "signed_payload_hash"), env).None? { return Some(Invalid); }
    return None;
  }

  predicate ComponentSetHolds(v: Wire, context: string, env: Oracles) {
    && v.WList? && |v.items| == COMPONENT_COUNT
    && (forall i :: 0 <= i < |v.items| ==> ComponentHolds(v.items[i], context, env))
    && forall i, j :: 0 <= i < j < |v.items| ==>
         Field(v.items[i], "component_id") != Field(v.items[j], "component_id")
  }

  predicate SetCause(v: Wire, context: string, env: Oracles, f: ContractFault) {
    || f == Invalid
    || (!f.Downgrade? && !f.HashMismatch? && v.WList?
        && exists i :: 0 <= i < |v.items| && ComponentCause(v.items[i], context, env, f))
  }

  lemma CauseClass(c: Wire, context: string, env: Oracles, f: ContractFault)
    requires ComponentCause(c, context, env, f)
    ensures !f.Downgrade? && !f.HashMismatch?
  {
  }

  /** _preflight_component_set: identities are compared as written, not stripped. */
  method PreflightComponentSet(v: Wire, context: string, env: Oracles) returns (fault: Option<ContractFault>)
    ensures fault.None? <==> ComponentSetHolds(v, context, env)
    ensures fault.Some? ==> SetCause(v, context, env, fault.value)
  {
    hide ComponentHolds, ComponentCause, Field;
    if !v.WList? || |v.items| != COMPONENT_COUNT { return Some(Invalid); }
    var seen: set<Wire> := {};
    var i := 0;
    while i < |v.items|
      invariant i <= |v.items|
      invariant forall j :: 0 <= j < i ==> ComponentHolds(v.items[j], context, env)
      invariant seen == set j | 0 <= j < i :: Field(v.items[j], "component_id")
      invariant forall j, k :: 0 <= j < k < i ==>
        Field(v.items[j], "component_id") != Field(v.items[k], "component_id")
    {
      fault := PreflightComponent(v.items[i], context, env);
      if fault.Some? {
        CauseClass(v.items[i], context, env, fault.value);
        return;
      }
      if Field(v.items[i], "component_id") in seen {
        return Some(Invalid);
      }
      seen := seen + {Field(v.items[i], "component_id")};
      i := i + 1;
    }
    return None;
  }

  // ----------------------------------------------- claimed component results

  /** Which component a claimed result is about, and that it claims verification. */
  predicate ResultIdentified(x: Wire) {
    && HasExactly(x, RESULT_FIELDS)
    && NonEmpty(Field(x, "component_id")).Some? && NonEmpty(Field(x, "component_id")).value in COMPONENT_ROLES
    && Field(x, "component_role") == WText(COMPONENT_ROLES[NonEmpty(Field(x, "component_id")).value])
    && Field(x, "verified") == WBool(true)
  }

  predicate ResultHolds(x: Wire) {
    && ResultIdentified(x) && Field(x, "signature_policy") == WText(SIGNATURE_POLICY)
    && TextList(Field(x, "verified_algorithms")) && TextList(Field(x, "verified_standard_profiles"))
    && AlgorithmsMatchProfiles(Field(x, "verified_algorithms"), Field(x, "verified_standard_profiles"))
  }

  /** Allowed algorithms, both required ones among them, each with its own profile. */
  predicate AlgorithmsMatchProfiles(algorithms: Wire, profiles: Wire)
    requires TextList(algorithms) && TextList(profiles)
  {
    && |algorithms.items| == |profiles.items|
    && (forall i :: 0 <= i < |algorithms.items| ==> AlgorithmOf(TextAt(algorithms, i)).Some?)
    && (exists i :: 0 <= i < |algorithms.items| && AlgorithmOf(TextAt(algorithms, i)) == Some(Ed25519))
    && (exists i :: 0 <= i < |algorithms.items| && AlgorithmOf(TextAt(algorithms, i)) == Some(MlDsa))
    && forall i :: 0 <= i < |algorithms.items| ==>
         TextAt(profiles, i) == ProfileOf(AlgorithmOf(TextAt(algorithms, i)).value)
  }

  predicate ResultsHold(v: Wire) {
    && v.WList? && |v.items| == COMPONENT_COUNT
    && (forall i :: 0 <= i < |v.items| ==> ResultHolds(v.items[i]))
    && forall i, j :: 0 <= i < j < |v.items| ==>
         NonEmpty(Field(v.items[i], "component_id")) != NonEmpty(Field(v.items[j], "component_id"))
  }

  predicate ResultsCause(v: Wire, f: ContractFault) {
    || f == Invalid
    || (f == Policy && v.WList?
        && exists i :: 0 <= i < |v.items| && Field(v.items[i], "signature_policy") != WText(SIGNATURE_POLICY))
  }

  /** _validate_component_signature_results: identities are compared stripped here. */
  method ValidateSignatureResults(v: Wire) returns (fault: Option<ContractFault>)
    ensures fault.None? <==> ResultsHold(v)
    ensures fault.Some? ==> ResultsCause(v, fault.value)
  {
    hide ResultHolds, ResultIdentified, Field, NonEmpty;
    if !v.WList? || |v.items| != COMPONENT_COUNT { return Some(Invalid); }
    var seen: set<Option<string>> := {};
    var i := 0;
    while i < |v.items|
      invariant i <= |v.items|
      invariant forall j :: 0 <= j < i ==> ResultHolds(v.items[j])
      invariant seen == set j | 0 <= j < i :: NonEmpty(Field(v.items[j], "component_id"))
      invariant forall j, k :: 0 <= j < k < i ==>
        NonEmpty(Field(v.items[j], "component_id")) != NonEmpty(Field(v.items[k], "component_id"))
    {
      var id := NonEmpty(Field(v.items[i], "component_id"));
      if !ResultHolds(v.items[i]) || id in seen {
        var policy := Field(v.items[i], "signature_policy");
        var reached := ResultIdentified(v.items[i]) && id !in seen;
        return Some(if reached && policy != WText(SIGNATURE_POLICY) then Policy else Invalid);
      }
      seen := seen + {id};
      i := i + 1;
    }
    return None;
  }

  // ------------------------------------------------------------ final outcome

  /** _expected_final_outcome: denial dominates, then escalation. */
  function ExpectedOutcome(components: seq<Wire>): string {
    var decisions := set i | 0 <= i < |components| :: Field(components[i], "decision");
    if WText("DENY") in decisions || WText("ERROR") in decisions then "DENY"
    else if WText("ESCALATE") in decisions || WText("SKIPPED") in decisions then "HUMAN_REVIEW_REQUIRED"
    else "ALLOW"
  }

  predicate Denies(c: Wire) {
    Field(c, "decision") in {WText("DENY"), WText("ERROR")}
  }

  predicate Escalates(c: Wire) {
    Field(c, "decision") in {WText("ESCALATE"), WText("SKIPPED")}
  }

  lemma OutcomeExact(cs: seq<Wire>)
    ensures ExpectedOutcome(cs) == "DENY" <==> exists i :: 0 <= i < |cs| && Denies(cs[i])
    ensures ExpectedOutcome(cs) == "ALLOW" <==> forall i :: 0 <= i < |cs| ==> !Denies(cs[i]) && !Escalates(cs[i])
  {
    var decisions := set i | 0 <= i < |cs| :: Field(cs[i], "decision");
    forall i | 0 <= i < |cs| ensures Field(cs[i], "decision") in decisions {}
  }

  /** An accepted receipt offers a handoff only when all five components said ALLOW. */
  lemma HandoffNeedsUnanimity(r: Wire, context: string, env: Oracles)
    requires ReceiptHolds(r, context, env)
    requires Field(Field(r, "adamantineos_handoff"), "handoff_allowed") == WBool(true)
    ensures |Components(r)| == COMPONENT_COUNT
    ensures forall i :: 0 <= i < |Components(r)| ==> Field(Components(r)[i], "decision") == WText("ALLOW")
  {
    hide ReceiptHeaderHolds, ReceiptBodyHolds, ComponentBodyHolds, HashText, ExpectedOutcome;
    var cs := Components(r);
    OutcomeExact(cs);
    forall i | 0 <= i < |cs| ensures Field(cs[i], "decision") == WText("ALLOW") {
      assert ComponentHeaderHolds(cs[i]);
    }
  }

  // ------------------------------------------------------------------ receipts

  predicate ReceiptHeaderHolds(r: Wire, context: string, env: Oracles) {
    && r.WDict?
    && Field(r, "schema_version") != WText("shield.receipt.v1") && Field(r, "contract_version") != WInt(3)
    && FieldsMatch(r, RECEIPT_FIELDS)
    && Field(r, "schema_version") == WText(RECEIPT_SCHEMA) && Field(r, "contract_version") == WInt(4)
    && Field(r, "fail_closed") == WBool(true) && Field(r, "canonicalization_profile") == WText(CANON_PROFILE)
    && Field(r, "signature_policy") == WText(SIGNATURE_POLICY)
    && Field(r, "final_outcome").WText? && Field(r, "final_outcome").s in FINAL_OUTCOMES
    && HashText(Field(r, "context_hash"), env).Some?
    && HashText(Field(r, "context_hash"), env) == HashText(WText(context), env)
  }

  predicate ReceiptBodyHolds(r: Wire) {
    && NonEmpty(Field(r, "request_id")).Some? && NonEmpty(Field(r, "freshness_nonce")).Some?
    && NonEmpty(Field(r, "not_before")).Some? && NonEmpty(Field(r, "not_after")).Some?
    && PositiveInt(Field(r, "key_registry_version")) && TextList(Field(r, "dominant_reason_ids"))
    && Field(r, "adamantineos_handoff").WDict? && !ForbiddenAuthority(Field(r, "adamantineos_handoff"))
    && ResultsHold(Field(r, "component_signature_results"))
  }

  predicate ReceiptHolds(r: Wire, context: string, env: Oracles) {
    && ReceiptHeaderHolds(r, context, env) && ReceiptBodyHolds(r)
    && ComponentSetHolds(Field(r, "component_verdicts"), HashText(Field(r, "context_hash"), env).value, env)
    && Field(r, "final_outcome") == WText(ExpectedOutcome(Field(r, "component_verdicts").items))
    && (Field(r, "final_outcome") != WText("ALLOW") ==>
         Field(Field(r, "adamantineos_handoff"), "handoff_allowed") != WBool(true))
    && HashText(Field(r, "receipt_hash"), env).Some? && HashText(Field(r, "signed_payload_hash"), env).Some?
  }

  /** A Shield v3 receipt. */
  predicate IsDowngrade(r: Wire) {
    r.WDict? && (Field(r, "schema_version") == WText("shield.receipt.v1") || Field(r, "contract_version") == WInt(3))
  }

  function ReadContext(r: Wire, env: Oracles): string {
    match HashText(Field(r, "context_hash"), env)
    case Some(hash) => hash
    case None => ""
  }

  /** What a class of fault says about the receipt. */
  predicate ReceiptCause(r: Wire, context: string, env: Oracles, f: ContractFault) {
    var parts, read := Field(r, "component_verdicts"), ReadContext(r, env);
    match f
    case Invalid => true
    case Downgrade => IsDowngrade(r)
    case HashMismatch => false
    case Context => !ContextAgrees(r, context, env) || SetCause(parts, read, env, Context)
    case Policy =>
      || Field(r, "signature_policy") != WText(SIGNATURE_POLICY) || SetCause(parts, read, env, Policy)
      || ResultsCause(Field(r, "component_signature_results"), Policy)
    case AuthorityBypass =>
      || ForbiddenAuthority(Field(r, "adamantineos_handoff")) || SetCause(parts, read, env, AuthorityBypass)
      || (Field(r, "final_outcome") != WText("ALLOW")
          && Field(Field(r, "adamantineos_handoff"), "handoff_allowed") == WBool(true))
  }

  method PreflightReceiptHeader(r: Wire, context: string, env: Oracles) returns (fault: Option<ContractFault>)
    ensures fault.None? <==> ReceiptHeaderHolds(r, context, env)
    ensures fault.Some? ==> ReceiptCause(r, context, env, fault.value)
    ensures fault == Some(Downgrade) <==> IsDowngrade(r)
  {
    hide FieldsMatch, Field, HashText;
    if !r.WDict? { return Some(Invalid); }
    if Field(r, "schema_version") == WText("shield.receipt.v1") || Field(r, "contract_version") == WInt(3) {
      return Some(Downgrade);
    }
    if !FieldsMatch(r, RECEIPT_FIELDS) { return Some(Invalid); }
    if Field(r, "schema_version") != WText(RECEIPT_SCHEMA) { return Some(Invalid); }
    if Field(r, "contract_version") != WInt(4) { return Some(Invalid); }
    if Field(r, "fail_closed") != WBool(true) { return Some(Invalid); }
    if Field(r, "canonicalization_profile") != WText(CANON_PROFILE) { return Some(Invalid); }
    if Field(r, "signature_policy") != WText(SIGNATURE_POLICY) { return Some(Policy); }
    if !Field(r, "final_outcome").WText? || Field(r, "final_outcome").s !in FINAL_OUTCOMES { return Some(Invalid); }
    if HashText(Field(r, "context_hash"), env).None? { return Some(Context); }
    if HashText(Field(r, "context_hash"), env) != HashText(WText(context), env) { return Some(Context); }
    return None;
  }

  method PreflightReceiptBody(r: Wire) returns (fault: Option<ContractFault>)
    ensures fault.None? <==> ReceiptBodyHolds(r)
    ensures forall context, env :: fault.Some? ==> ReceiptCause(r, context, env, fault.value)
    ensures fault != Some(Downgrade)
  {
    hide SetCause, Field, NonEmpty, TextList, PositiveInt, ForbiddenAuthority, ResultsHold;
    if NonEmpty(Field(r, "request_id")).None? || NonEmpty(Field(r, "freshness_nonce")).None? { return Some(Invalid); }
    if NonEmpty(Field(r, "not_before")).None? || NonEmpty(Field(r, "not_after")).None? { return Some(Invalid); }
    if !PositiveInt(Field(r, "key_registry_version")) { return Some(Invalid); }
    if !TextList(Field(r, "dominant_reason_ids")) { return Some(Invalid); }
    if !Field(r, "adamantineos_handoff").WDict? { return Some(Invalid); }
    if ForbiddenAuthority(Field(r, "adamantineos_handoff")) { return Some(AuthorityBypass); }
    fault := ValidateSignatureResults(Field(r, "component_signature_results"));
  }

  /** _preflight_bounded_shield_v4_receipt_contract. */
  method PreflightReceipt(r: Wire, context: string, env: Oracles) returns (fault: Option<ContractFault>)
    ensures fault.None? <==> ReceiptHolds(r, context, env)
    ensures fault.Some? ==> ReceiptCause(r, context, env, fault.value)
    ensures fault == Some(Downgrade) <==> IsDowngrade(r)
  {
    hide Field, HashText, ReceiptHeaderHolds, ReceiptBodyHolds, ComponentSetHolds, ExpectedOutcome;
    hide ContextAgrees, ResultsCause, ForbiddenAuthority, IsDowngrade, ComponentCause;
    fault := PreflightReceiptHeader(r, context, env);
    if fault.Some? { return; }
    fault := PreflightReceiptBody(r);
    if fault.Some? { return; }
    HeaderHash(r, context, env);
    fault := PreflightComponentSet(Field(r, "component_verdicts"), HashText(Field(r, "context_hash"), env).value, env);
    if fault.Some? { return; }
    SetIsList(r, context, env);
    if Field(r, "final_outcome") != WText(ExpectedOutcome(Field(r, "component_verdicts").items)) {
      return Some(Invalid);
    }
    if Field(r, "final_outcome") != WText("ALLOW")
      && Field(Field(r, "adamantineos_handoff"), "handoff_allowed") == WBool(true) {
      return Some(AuthorityBypass);
    }
    if HashText(Field(r, "receipt_hash"), env).None? { return Some(Invalid); }
    if HashText(Field(r, "signed_payload_hash"), env).None? { return Some(Invalid); }
  }

  lemma HeaderHash(r: Wire, context: string, env: Oracles)
    requires ReceiptHeaderHolds(r, context, env)
    ensures HashText(Field(r, "context_hash"), env).Some?
  {
  }

  lemma SetIsList(r: Wire, context: string, env: Oracles)
    requires ReceiptHeaderHolds(r, context, env)
    requires ComponentSetHolds(Field(r, "component_verdicts"), HashText(Field(r, "context_hash"), env).value, env)
    ensures Field(r, "component_verdicts").WList?
  {
  }

  // ---------------------------------------------------------------- integrity

  function Components(r: Wire): seq<Wire> {
    if Field(r, "component_verdicts").WList? then Field(r, "component_verdicts").items else []
  }

  function HashOf(v: Wire): string {
    if Field(v, "signed_payload_hash").WText? then Field(v, "signed_payload_hash").s else ""
  }

  function Unsigned(v: Wire, excluded: set<string>): Wire {
    if v.WDict? then WDict(v.fields - excluded) else v
  }

  predicate ComponentIntegrity(c: Wire, env: Oracles) {
    env.payloadHash(COMPONENT_DOMAIN, Unsigned(c, UNSIGNED_COMPONENT_EXCLUDED)) == HashOf(c)
  }

  predicate CanonicalReceiptFits(r: Wire, env: Oracles) {
    match env.canonicalSize(r)
    case Err(_) => false
    case Ok(n) => n <= MAX_CANONICAL_RECEIPT_BYTES
  }

  predicate ReceiptIntegrity(r: Wire, env: Oracles) {
    && Field(r, "receipt_hash") == WText(env.receiptHash(Unsigned(r, UNSIGNED_RECEIPT_EXCLUDED)))
    && env.payloadHash(RECEIPT_DOMAIN, Unsigned(r, UNSIGNED_RECEIPT_EXCLUDED)) == HashOf(r)
  }

  datatype IntegrityFault = NotCanonical(words: Uncanonical) | ReceiptOversized | BundleOversized | HashesDiffer

  predicate BundlesSized(r: Wire, env: Oracles) {
    && (forall i :: 0 <= i < |Components(r)| ==> BundleSized(Field(Components(r)[i], "signature_bundle"), env))
    && BundleSized(Field(r, "signature_bundle"), env)
  }

  /** Why a value is not within its size: it has no canonical form, or too long a one. */
  function SizeFault(v: Wire, oversized: IntegrityFault, env: Oracles): IntegrityFault {
    match env.canonicalSize(v)
    case Err(words) => NotCanonical(words)
    case Ok(_) => oversized
  }

  /** Receipt size, bundle sizes, hashes: the first that fails is reported. */
  predicate IntegrityCause(r: Wire, env: Oracles, f: IntegrityFault) {
    if !CanonicalReceiptFits(r, env) then f == SizeFault(r, ReceiptOversized, env)
    else if !BundlesSized(r, env) then
      exists b :: b in Bundles(r) && !BundleSized(b, env) && f == SizeFault(b, BundleOversized, env)
    else f == HashesDiffer && !IntegrityHolds(r, env)
  }

  function Bundles(r: Wire): seq<Wire> {
    seq(|Components(r)|, i requires 0 <= i < |Components(r)| => Field(Components(r)[i], "signature_bundle"))
    + [Field(r, "signature_bundle")]
  }

  /** validate_preflighted_shield_v4_receipt_integrity: both sizes before any hash. */
  method CheckIntegrity(r: Wire, env: Oracles) returns (fault: Option<IntegrityFault>)
    ensures fault.None? <==> IntegrityHolds(r, env)
    ensures fault.Some? ==> IntegrityCause(r, env, fault.value)
  {
    hide ComponentIntegrity, CanonicalReceiptFits, ReceiptIntegrity, BundleSized, Components, Field, SizeFault;
    if !CanonicalReceiptFits(r, env) { return Some(SizeFault(r, ReceiptOversized, env)); }
    var cs := Components(r);
    var i := 0;
    while i < |cs|
      invariant i <= |cs| && forall j :: 0 <= j < i ==> BundleSized(Field(cs[j], "signature_bundle"), env)
    {
      if !BundleSized(Field(cs[i], "signature_bundle"), env) {
        assert Bundles(r)[i] == Field(cs[i], "signature_bundle");
        return Some(SizeFault(Field(cs[i], "signature_bundle"), BundleOversized, env));
      }
      i := i + 1;
    }
    if !BundleSized(Field(r, "signature_bundle"), env) {
      assert Bundles(r)[|cs|] == Field(r, "signature_bundle");
      return Some(SizeFault(Field(r, "signature_bundle"), BundleOversized, env));
    }
    i := 0;
    while i < |cs|
      invariant i <= |cs| && forall j :: 0 <= j < i ==> ComponentIntegrity(cs[j], env)
    {
      if !ComponentIntegrity(cs[i], env) { return Some(HashesDiffer); }
      i := i + 1;
    }
    if !ReceiptIntegrity(r, env) { return Some(HashesDiffer); }
    return None;
  }

  predicate IntegrityHolds(r: Wire, env: Oracles) {
    var cs := Components(r);
    && CanonicalReceiptFits(r, env) && BundlesSized(r, env)
    && (forall i :: 0 <= i < |cs| ==> ComponentIntegrity(cs[i], env))
    && ReceiptIntegrity(r, env)
  }

  // ----------------------------------------------------- the one-shot pipeline

  ghost predicate ComponentBundleShape(c: Wire, env: Oracles) {
    BundleShape(Field(c, "signature_bundle"), HashOf(c), COMPONENT_DOMAIN, env)
  }

  ghost predicate ReceiptBundleShape(r: Wire, env: Oracles) {
    BundleShape(Field(r, "signature_bundle"), HashOf(r), RECEIPT_DOMAIN, env)
  }

  ghost predicate BundlesShaped(r: Wire, env: Oracles) {
    (forall i :: 0 <= i < |Components(r)| ==> ComponentBundleShape(Components(r)[i], env)) && ReceiptBundleShape(r, env)
  }

  /** validate_shield_v4_receipt_contract, on a value already snapshotted. */
  method ValidateReceiptContract(r: Wire, context: string, env: Oracles) returns (ok: bool)
    ensures ok <==> ReceiptHolds(r, context, env) && IntegrityHolds(r, env) && BundlesShaped(r, env)
  {
    hide ReceiptHolds, ComponentIntegrity, CanonicalReceiptFits, ReceiptIntegrity, BundleSized, BundleShape,
      Components, Field, HashOf;
    var fault := PreflightReceipt(r, context, env);
    if fault.Some? { return false; }
    if !CanonicalReceiptFits(r, env) { return false; }
    var cs := Components(r);
    var i := 0;
    while i < |cs|
      invariant i <= |cs|
      invariant forall j :: 0 <= j < i ==> ComponentIntegrity(cs[j], env) && ComponentBundleShape(cs[j], env)
      invariant forall j :: 0 <= j < i ==> BundleSized(Field(cs[j], "signature_bundle"), env)
    {
      if !ComponentIntegrity(cs[i], env) { return false; }
      var shaped := ValidateSignatureBundleShape(Field(cs[i], "signature_bundle"), HashOf(cs[i]), COMPONENT_DOMAIN, env);
      if shaped.Some? { return false; }
      i := i + 1;
    }
    if !ReceiptIntegrity(r, env) { return false; }
    var shaped := ValidateSignatureBundleShape(Field(r, "signature_bundle"), HashOf(r), RECEIPT_DOMAIN, env);
    ok := shaped.None?;
  }

  // ------------------------------------------------------- the staged pipeline

  /** A key error escapes when a component identity is not, as written, a known role. */
  datatype Staged<+T> = Accepted(value: T) | Rejected(fault: BundleFault) | KeyErrorRaised

  datatype PreparedBundles = PreparedBundles(components: seq<seq<Prepared>>, receipt: seq<Prepared>)

  predicate IdentityKnown(c: Wire) {
    Field(c, "component_id").WText? && Field(c, "component_id").s in COMPONENT_ROLES
  }

  ghost predicate ComponentPrepared(c: Wire, env: Oracles, ps: seq<Prepared>) {
    BundleHolds(Field(c, "signature_bundle"), HashOf(c), COMPONENT_DOMAIN, env, ps)
  }

  ghost predicate ReceiptPrepared(r: Wire, env: Oracles, ps: seq<Prepared>) {
    BundleHolds(Field(r, "signature_bundle"), HashOf(r), RECEIPT_DOMAIN, env, ps)
  }

  /** pb holds the entries of every bundle, no key named twice, every component identity known as written. */
  ghost predicate BundlesPrepared(r: Wire, env: Oracles, pb: PreparedBundles) {
    && |pb.components| == |Components(r)|
    && (forall i :: 0 <= i < |Components(r)| ==> BundlePrepared(Components(r)[i], env, pb.components[i]))
    && ReceiptPrepared(r, env, pb.receipt) && !KeyRepeated(pb.receipt)
  }

  ghost predicate BundlePrepared(c: Wire, env: Oracles, ps: seq<Prepared>) {
    IdentityKnown(c) && ComponentPrepared(c, env, ps) && !KeyRepeated(ps)
  }

  /** Some bundle of the receipt names one (key id, key version) twice. */
  ghost predicate RepeatsAKey(r: Wire, env: Oracles) {
    || (exists i, ps :: 0 <= i < |Components(r)| && ComponentPrepared(Components(r)[i], env, ps) && KeyRepeated(ps))
    || (exists ps :: ReceiptPrepared(r, env, ps) && KeyRepeated(ps))
  }

  /** Some bundle of the receipt shows the fault. */
  predicate BundleFaultFound(r: Wire, env: Oracles, f: BundleFault) {
    || (exists i :: 0 <= i < |Components(r)| && ComponentFaultFound(Components(r)[i], env, f))
    || FaultFound(Field(r, "signature_bundle"), HashOf(r), env, f)
  }

  predicate ComponentFaultFound(c: Wire, env: Oracles, f: BundleFault) {
    FaultFound(Field(c, "signature_bundle"), HashOf(c), env, f)
  }

  /** _preflight_receipt_bundles. */
  method PreflightReceiptBundles(r: Wire, env: Oracles) returns (s: Staged<PreparedBundles>)
    ensures s.Accepted? ==> BundlesPrepared(r, env, s.value)
    ensures s.Rejected? ==> !BundlesShaped(r, env) || RepeatsAKey(r, env)
    ensures s.Rejected? ==> BundleFaultFound(r, env, s.fault)
    ensures s.KeyErrorRaised? ==> exists i :: 0 <= i < |Components(r)| && !IdentityKnown(Components(r)[i])
  {
    hide Components, Field, HashOf, BundleHolds, KeyRepeated, IdentityKnown, FaultFound;
    var prepared: seq<seq<Prepared>> := [];
    var cs := Components(r);
    var i := 0;
    while i < |cs|
      invariant i <= |cs| && |prepared| == i
      invariant forall j :: 0 <= j < i ==> BundlePrepared(cs[j], env, prepared[j])
    {
      if !IdentityKnown(cs[i]) { return KeyErrorRaised; }
      var b := PreflightBundle(Field(cs[i], "signature_bundle"), HashOf(cs[i]), COMPONENT_DOMAIN, env);
      if b.Err? {
        if ComponentBundleShape(cs[i], env) {
          var ps :| BundleHolds(Field(cs[i], "signature_bundle"), HashOf(cs[i]), COMPONENT_DOMAIN, env, ps);
          assert ComponentPrepared(cs[i], env, ps) && KeyRepeated(ps);
        }
        assert ComponentFaultFound(cs[i], env, b.error);
        return Rejected(b.error);
      }
      prepared := prepared + [b.value];
      i := i + 1;
    }
    var b := PreflightBundle(Field(r, "signature_bundle"), HashOf(r), RECEIPT_DOMAIN, env);
    if b.Err? {
      if ReceiptBundleShape(r, env) {
        var ps :| BundleHolds(Field(r, "signature_bundle"), HashOf(r), RECEIPT_DOMAIN, env, ps);
        assert ReceiptPrepared(r, env, ps) && KeyRepeated(ps);
      }
      return Rejected(b.error);
    }
    s := Accepted(PreparedBundles(prepared, b.value));
  }
}
