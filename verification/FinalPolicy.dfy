/** The final policy engine: eight gates in a locked order, and which of them decides. */
module FinalPolicy {
  import opened Wrappers
  import opened Trimming
  import opened ReceiptContract
  import opened ReceiptPipelines
  import opened ReceiptVerifier

  datatype EngineState =
    | AllowFinalDecision | HumanReviewRequired | DenyMissingEvidence | DenyEvidenceRejected | DenyAuthorityBypass
    | DenyHandoffBlocked | DenyReplayGate | DenyWalletPolicyGate | DenyHumanGate | DenyGateShapeInvalid
    | DenyContextMismatch | DenyShieldV4Required

  /** An evidence object with the attributes the engine knows and whatever else it carries, or a bare mapping. */
  datatype Evidence =
    | Missing
    | Bare(items: map<string, Wire>)
    | Object(state: Wire, outcome: Wire, finalOutcome: Wire, finalApproval: Wire, handoffAllowed: Wire, accepted: Wire,
             contextHash: Wire, reason: Wire, dominant: Wire, verified: Wire, receipt: Wire, summary: Wire,
             others: map<string, Wire>)

  /** A local gate result; anything else in its place is NotAGate. */
  datatype Local = NotAGate | LocalGate(gate: string, passed: bool, reason: string, requiresHumanReview: bool)

  datatype Decision = Decision(
    state: EngineState, reason: string, stoppedAt: string, order: seq<string>, dominant: seq<string>,
    finalApproval: bool, handoffAllowed: bool)

  const EVIDENCE_GATES: seq<string> := ["shield", "wsqk_v2", "qid", "adaptive_core", "ai_gateway"]
  const LOCAL_GATES: seq<string> := ["replay", "wallet_policy", "human"]
  const GATES: seq<string> := EVIDENCE_GATES + LOCAL_GATES
  const FINAL := "final_adamantineos_decision"
  const FORBIDDEN_AUTHORITY := {
    "approved", "authority", "auto_approve", "broadcast", "bypass", "can_sign", "execute", "force_allow",
    "grant_execution", "human_approved", "override", "sign", "trusted", "wallet_signing_approval"}
  const HUMAN_REVIEW := WText("HUMAN_REVIEW_REQUIRED")
  const DENY_POLICY := "DENY_POLICY"
  const DENY_AUTHORITY_INVALID := "DENY_AUTHORITY_INVALID"
  const DENY_AUTHORITY_INSUFFICIENT := "DENY_AUTHORITY_INSUFFICIENT"
  const CONFLICTING_EVIDENCE := "EQC_CONFLICTING_EVIDENCE"
  const INVALID_SHIELD_BUNDLE := "EQC_INVALID_SHIELD_BUNDLE"
  const UNKNOWN_REASON := "UNKNOWN_EXTERNAL_REASON"
  const OK_ALLOW := "OK_ALLOW"

  // ---------------------------------------------------------- authority signals

  /** _contains_forbidden_authority_mapping: a forbidden key only counts with a true value. */
  predicate ForbiddenIn(v: Wire) {
    match v
    case WDict(fields) =>
      exists k :: k in fields && ((k in FORBIDDEN_AUTHORITY && Truthy(fields[k])) || ForbiddenIn(fields[k]))
    case WList(items) => exists i :: 0 <= i < |items| && ForbiddenIn(items[i])
    case _ => false
  }

  predicate HiddenAuthority(e: Evidence) {
    match e
    case Missing => false
    case Bare(items) => ForbiddenIn(WDict(items))
    case Object(_, _, _, _, _, _, _, _, dominant, _, receipt, summary, others) =>
      ForbiddenIn(WList([e.state, e.outcome, e.finalOutcome, e.accepted, e.contextHash, e.reason, e.verified]))
      || ForbiddenIn(dominant) || ForbiddenIn(receipt) || ForbiddenIn(summary) || ForbiddenIn(WDict(others))
  }

  // ------------------------------------------------------------------- reasons

  predicate Blank(s: string) {
    Strip(s) == ""
  }

  /** _safe_reason: a reason the enumeration knows, or the unknown one. */
  function SafeReason(s: string, known: string -> bool): string {
    if !Blank(s) && known(s) then s else UNKNOWN_REASON
  }

  /** The non-blank texts of a reason list. */
  function Stated(v: Wire): seq<string> {
    if !v.WList? then [] else StatedItems(v.items)
  }

  function StatedItems(items: seq<Wire>): seq<string> {
    if items == [] then []
    else (if items[0].WText? && !Blank(items[0].s) then [items[0].s] else []) + StatedItems(items[1..])
  }

  function DominantOf(e: Evidence): Wire {
    if e.Object? then e.dominant else WNull
  }

  function ReasonField(e: Evidence): Wire {
    if e.Object? then e.reason else WNull
  }

  /** _first_reason */
  function FirstReason(e: Evidence, fallback: string, known: string -> bool): string {
    if Stated(DominantOf(e)) != [] then SafeReason(Stated(DominantOf(e))[0], known)
    else if ReasonField(e).WText? then SafeReason(ReasonField(e).s, known)
    else fallback
  }

  function SafeReasons(ss: seq<string>, known: string -> bool): seq<string> {
    seq(|ss|, i requires 0 <= i < |ss| => SafeReason(ss[i], known))
  }

  /** _dominant_reasons */
  function DominantReasons(e: Evidence, fallback: string, known: string -> bool): seq<string> {
    if Stated(DominantOf(e)) != [] then SafeReasons(Stated(DominantOf(e)), known) else [FirstReason(e, fallback, known)]
  }

  // ----------------------------------------------------------- Shield v4 demand

  /** Iterating over a list gives its items, over a dict its keys. */
  predicate Iterates(v: Wire, s: string) {
    (v.WList? && WText(s) in v.items) || (v.WDict? && s in v.fields)
  }

  predicate NamesBoth(v: Wire) {
    && v.WDict? && Iterates(Field(v, "verified_algorithms"), "classical-ed25519")
    && Iterates(Field(v, "verified_algorithms"), "ml-dsa")
  }

  /** _component_summaries_satisfy_v4: every summary names both algorithms, and the ids are exactly the five. */
  predicate ComponentsSatisfy(v: Wire) {
    && v.WList?
    && (forall i :: 0 <= i < |v.items| ==> NamesBoth(v.items[i]) && Field(v.items[i], "component_id").WText?)
    && (set i | 0 <= i < |v.items| :: Field(v.items[i], "component_id")) == set id | id in COMPONENT_ROLES :: WText(id)
  }

  predicate SatisfiesShieldV4(e: Evidence) {
    && e.Object? && e.verified == WBool(true) && e.receipt.WDict?
    && Field(e.receipt, "schema_version") == WText(RECEIPT_SCHEMA) && Field(e.receipt, "contract_version") == WInt(4)
    && e.summary.WDict? && Field(e.summary, "policy_version") == WText(SIGNATURE_POLICY)
    && NamesBoth(Field(e.summary, "orchestrator")) && ComponentsSatisfy(Field(e.summary, "components"))
  }

  /** _shield_v4_requirement_failure: the first thing that is missing. */
  function ShieldV4Failure(e: Evidence): Option<string>
    requires e.Object?
  {
    if e.verified != WBool(true) then Some("SHIELD_V4_VERIFIED_RESULT_REQUIRED")
    else if !e.receipt.WDict? then Some("SHIELD_V4_RECEIPT_REQUIRED")
    else if Field(e.receipt, "schema_version") != WText(RECEIPT_SCHEMA) || Field(e.receipt, "contract_version") != WInt(4)
    then Some("SHIELD_V4_DOWNGRADE_REJECTED")
    else if !e.summary.WDict? then Some("SHIELD_V4_VERIFICATION_SUMMARY_REQUIRED")
    else if Field(e.summary, "policy_version") != WText(SIGNATURE_POLICY) then Some("SHIELD_V4_POLICY_REQUIRED")
    else if !NamesBoth(Field(e.summary, "orchestrator")) then Some("SHIELD_V4_ORCHESTRATOR_SIGNATURE_SUMMARY_REQUIRED")
    else if !ComponentsSatisfy(Field(e.summary, "components")) then Some("SHIELD_V4_COMPONENT_SIGNATURE_SUMMARY_REQUIRED")
    else None
  }

  lemma ShieldV4FailureExact(e: Evidence)
    requires e.Object?
    ensures ShieldV4Failure(e).None? <==> SatisfiesShieldV4(e)
  {
    hide NamesBoth, ComponentsSatisfy, Field;
  }

  // ---------------------------------------------------------------- single gates

  predicate AsksHumanReview(e: Evidence) {
    e.Object? && (e.state == HUMAN_REVIEW || e.outcome == HUMAN_REVIEW || e.finalOutcome == HUMAN_REVIEW)
  }

  /** What an evidence gate needs, in no particular order. */
  predicate EvidencePasses(gate: string, e: Evidence, context: string, v4Required: bool) {
    && e.Object? && !Truthy(e.finalApproval) && !HiddenAuthority(e)
    && e.accepted == WBool(true) && e.handoffAllowed == WBool(true) && e.contextHash == WText(context)
    && !AsksHumanReview(e) && (gate == "shield" && v4Required ==> SatisfiesShieldV4(e))
  }

  predicate LocalPasses(gate: string, l: Local) {
    l.LocalGate? && l.gate == gate && l.passed && !l.requiresHumanReview
  }

  function Deny(state: EngineState, reason: string, gate: string, order: seq<string>, dominant: seq<string>): Decision {
    Decision(state, reason, gate, order, dominant, false, false)
  }

  /** _evaluate_evidence_gate: the first objection, in the engine's order of asking. */
  function EvidenceObjection(gate: string, e: Evidence, order: seq<string>, context: string, v4Required: bool,
                             known: string -> bool): Option<Decision> {
    if e.Missing? then Some(Deny(DenyMissingEvidence, DENY_POLICY, gate, order, ["MISSING_EVIDENCE:" + gate]))
    else if e.Object? && Truthy(e.finalApproval) then
      Some(Deny(DenyAuthorityBypass, DENY_AUTHORITY_INVALID, gate, order, ["UPSTREAM_FINAL_APPROVAL_BYPASS:" + gate]))
    else if HiddenAuthority(e) then
      Some(Deny(DenyAuthorityBypass, DENY_AUTHORITY_INVALID, gate, order, ["HIDDEN_AUTHORITY_BYPASS:" + gate]))
    else if !e.Object? || e.accepted != WBool(true) then
      Some(Deny(DenyEvidenceRejected, FirstReason(e, DENY_POLICY, known), gate, order, DominantReasons(e, DENY_POLICY, known)))
    else if gate == "shield" && v4Required && ShieldV4Failure(e).Some? then
      Some(Deny(DenyShieldV4Required, INVALID_SHIELD_BUNDLE, "shield", order, [ShieldV4Failure(e).value]))
    else if e.handoffAllowed != WBool(true) then
      Some(Deny(DenyHandoffBlocked, FirstReason(e, DENY_POLICY, known), gate, order, DominantReasons(e, DENY_POLICY, known)))
    else if e.contextHash != WText(context) then
      Some(Deny(DenyContextMismatch, CONFLICTING_EVIDENCE, gate, order, ["CONTEXT_MISMATCH:" + gate]))
    else if AsksHumanReview(e) then
      Some(Deny(HumanReviewRequired, FirstReason(e, DENY_AUTHORITY_INSUFFICIENT, known), gate, order,
                DominantReasons(e, DENY_AUTHORITY_INSUFFICIENT, known)))
    else None
  }

  function GateDenyState(gate: string): EngineState {
    if gate == "replay" then DenyReplayGate else if gate == "wallet_policy" then DenyWalletPolicyGate else DenyHumanGate
  }

  /** _evaluate_local_gate */
  function LocalObjection(gate: string, l: Local, order: seq<string>, known: string -> bool): Option<Decision> {
    if !l.LocalGate? || l.gate != gate then
      Some(Deny(DenyGateShapeInvalid, DENY_POLICY, gate, order, ["INVALID_LOCAL_GATE:" + gate]))
    else if !l.passed then Some(Deny(GateDenyState(gate), l.reason, gate, order, [SafeReason(l.reason, known)]))
    else if l.requiresHumanReview then
      Some(Deny(HumanReviewRequired, SafeReason(l.reason, known), gate, order, [SafeReason(l.reason, known)]))
    else None
  }

  lemma EvidenceObjectionExact(gate: string, e: Evidence, order: seq<string>, context: string, v4Required: bool,
                               known: string -> bool)
    ensures EvidenceObjection(gate, e, order, context, v4Required, known).None?
      <==> EvidencePasses(gate, e, context, v4Required)
  {
    hide HiddenAuthority, Truthy, SatisfiesShieldV4, ShieldV4Failure, FirstReason, DominantReasons;
    if e.Object? { ShieldV4FailureExact(e); }
  }

  lemma LocalObjectionExact(gate: string, l: Local, order: seq<string>, known: string -> bool)
    ensures LocalObjection(gate, l, order, known).None? <==> LocalPasses(gate, l)
  {
  }

  // ------------------------------------------------------------------ the engine

  /** The engine's inputs: evidence and local results in gate order. */
  datatype Inputs = Inputs(evidence: seq<Evidence>, local: seq<Local>, context: string, v4Flag: Wire)

  predicate Complete(q: Inputs) {
    |q.evidence| == 5 && |q.local| == 3
  }

  predicate WellPosed(q: Inputs) {
    IsHex64(q.context) && q.v4Flag.WBool?
  }

  predicate GatePasses(q: Inputs, k: nat)
    requires Complete(q) && WellPosed(q) && k < 8
  {
    if k < 5 then EvidencePasses(GATES[k], q.evidence[k], q.context, q.v4Flag.b) else LocalPasses(GATES[k], q.local[k - 5])
  }

  function GateObjection(q: Inputs, k: nat, known: string -> bool): Option<Decision>
    requires Complete(q) && WellPosed(q) && k < 8
  {
    if k < 5 then EvidenceObjection(GATES[k], q.evidence[k], GATES[..k + 1], q.context, q.v4Flag.b, known)
    else LocalObjection(GATES[k], q.local[k - 5], GATES[..k + 1], known)
  }

  predicate AllPass(q: Inputs)
    requires Complete(q) && WellPosed(q)
  {
    forall k :: 0 <= k < 8 ==> GatePasses(q, k)
  }

  predicate FirstFailure(q: Inputs, k: nat)
    requires Complete(q) && WellPosed(q)
  {
    k < 8 && !GatePasses(q, k) && forall j :: 0 <= j < k ==> GatePasses(q, j)
  }

  const ALLOWED := Decision(AllowFinalDecision, OK_ALLOW, FINAL, GATES + [FINAL], [OK_ALLOW], true, true)

  lemma ObjectionExact(q: Inputs, k: nat, known: string -> bool)
    requires Complete(q) && WellPosed(q) && k < 8
    ensures GateObjection(q, k, known).None? <==> GatePasses(q, k)
    ensures GateObjection(q, k, known).Some? ==>
      var d := GateObjection(q, k, known).value;
      d.stoppedAt == GATES[k] && d.order == GATES[..k + 1] && !d.finalApproval && !d.handoffAllowed
      && d.state != AllowFinalDecision
  {
    hide EvidencePasses, HiddenAuthority, Truthy, ShieldV4Failure, FirstReason, DominantReasons, AsksHumanReview;
    if k < 5 {
      EvidenceObjectionExact(GATES[k], q.evidence[k], GATES[..k + 1], q.context, q.v4Flag.b, known);
      ShieldIsFirst(k);
    } else {
      LocalObjectionExact(GATES[k], q.local[k - 5], GATES[..k + 1], known);
    }
  }

  lemma ShieldIsFirst(k: nat)
    requires k < 5
    ensures GATES[k] == EVIDENCE_GATES[k]
  {
  }

  /**
   * evaluate_final_policy_engine: allows exactly when all eight gates pass; otherwise the first failing gate decides,
   * with the gates up to it visited and none after it.
   */
  method EvaluateFinalPolicy(q: Inputs, known: string -> bool) returns (d: Decision)
    requires Complete(q)
    ensures d.state == AllowFinalDecision <==> WellPosed(q) && AllPass(q)
    ensures d.state == AllowFinalDecision ==> d == ALLOWED
    ensures d.finalApproval <==> d.state == AllowFinalDecision
    ensures WellPosed(q) && !AllPass(q) ==>
      exists k :: FirstFailure(q, k) && GateObjection(q, k, known) == Some(d)
    ensures !IsHex64(q.context) ==> d.state == DenyContextMismatch && d.order == ["expected_context_hash"]
    ensures IsHex64(q.context) && !q.v4Flag.WBool? ==>
      d.state == DenyShieldV4Required && d.order == ["shield_v4_required"]
  {
    hide EvidencePasses, LocalPasses, EvidenceObjection, LocalObjection, IsHex64;
    if !IsHex64(q.context) {
      return Deny(DenyContextMismatch, CONFLICTING_EVIDENCE, "expected_context_hash", ["expected_context_hash"],
                  ["EXPECTED_CONTEXT_HASH_REQUIRED"]);
    }
    if !q.v4Flag.WBool? {
      return Deny(DenyShieldV4Required, INVALID_SHIELD_BUNDLE, "shield_v4_required", ["shield_v4_required"],
                  ["SHIELD_V4_REQUIRED_MODE_INVALID"]);
    }
    var visited: seq<string> := [];
    var k := 0;
    while k < 5
      invariant k <= 5 && visited == GATES[..k] && forall j :: 0 <= j < k ==> GatePasses(q, j)
    {
      visited := visited + [EVIDENCE_GATES[k]];
      VisitedGrows(k);
      ObjectionExact(q, k, known);
      var objection := EvidenceObjection(EVIDENCE_GATES[k], q.evidence[k], visited, q.context, q.v4Flag.b, known);
      if objection.Some? {
        assert FirstFailure(q, k);
        return objection.value;
      }
      k := k + 1;
    }
    k := 0;
    while k < 3
      invariant k <= 3 && visited == GATES[..5 + k] && forall j :: 0 <= j < 5 + k ==> GatePasses(q, j)
    {
      visited := visited + [LOCAL_GATES[k]];
      VisitedGrows(5 + k);
      ObjectionExact(q, 5 + k, known);
      var objection := LocalObjection(LOCAL_GATES[k], q.local[k], visited, known);
      if objection.Some? {
        assert FirstFailure(q, 5 + k);
        return objection.value;
      }
      k := k + 1;
    }
    d := Decision(AllowFinalDecision, OK_ALLOW, FINAL, visited + [FINAL], [OK_ALLOW], true, true);
  }

  lemma VisitedGrows(k: nat)
    requires k < 8
    ensures GATES[..k] + [GATES[k]] == GATES[..k + 1]
    ensures GATES[k] == if k < 5 then EVIDENCE_GATES[k] else LOCAL_GATES[k - 5]
    ensures |GATES| == 8 && GATES[..8] == GATES
  {
  }

  /** Which gate decides does not depend on how the search is carried out. */
  lemma FirstFailureUnique(q: Inputs, j: nat, k: nat)
    requires Complete(q) && WellPosed(q) && FirstFailure(q, j) && FirstFailure(q, k)
    ensures j == k
  {
  }
}
