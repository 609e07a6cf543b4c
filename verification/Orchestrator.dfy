/** One host call: boundaries, the final policy engine, the nonce mark, and at most one execution. */
module Orchestrator {
  import opened Wrappers
  import opened Trimming
  import opened ReceiptContract
  import opened ReceiptPipelines
  import opened FinalPolicy
  import opened TruthGate
  import opened AuthorityMeaning

  // ------------------------------------------------------------------ a call

  /** The exceptions the host tells apart, with the reason each is reported by. */
  datatype Raised = EnvelopeRaised(reason: string) | AdapterRaised(reason: string) | TvaRaised(reason: string) | OtherRaised

  /** What a parser, adapter or verifier outside this model does: fine, a reasoned rejection, or another exception. */
  datatype Stage = Fine | RejectedFor(reason: string) | Broken

  /** The receipt verifier's result at the Shield boundary, as far as it is used. */
  datatype ReceiptResult = ReceiptResult(
    accepted: bool, reason: string, contextHash: Option<string>, handoffAllowed: bool, dominant: seq<string>,
    finalOutcome: Option<string>)

  datatype ShieldBoundary =
    | ReceiptBoundary(authenticity: Stage, result: ReceiptResult, bundle: Stage)
    | BundleBoundary(adapter: Stage, contextHash: string)

  /** A parsed envelope. */
  datatype Envelope = Envelope(
    context: ExecutionContext, nonce: string, issuedAt: int, expiresAt: int, proofs: Option<Wire>,
    fields: Option<map<string, string>>, families: Option<seq<string>>, posture: Option<string>)

  datatype Policy = Policy(requireProtected: bool, requireFull: bool, requireReplayProof: bool, registry: Stage)

  /** Everything a call depends on besides the store and the executor. */
  datatype HostCall = HostCall(
    parsed: Result<Envelope, Raised>, now: int, policy: Policy, qid: Stage, qidReplay: Stage, oracle: Stage,
    oracleContext: string, shield: ShieldBoundary, layersComplete: bool, eqc: Verdict, eqcReason: string,
    uiConfirmed: Wire)

  datatype ExecutionRequest = ExecutionRequest(wallet: string, action: string)

  datatype Status = Allowed | Denied | Errored

  datatype Response = Response(
    status: Status, reason: string, tvaAllowed: bool, eqcAllowed: bool, wsqkAllowed: bool, nonceConsumed: bool)

  /** The injected executor. It may raise, and has then been run all the same. */
  class Executor {
    const raises: nat -> Option<Raised>
    var log: seq<ExecutionRequest>

    constructor (raises: nat -> Option<Raised>)
      ensures this.raises == raises && log == []
    {
      this.raises := raises;
      log := [];
    }

    method Execute(r: ExecutionRequest) returns (out: Option<Raised>)
      modifies `log
      ensures log == old(log) + [r] && out == raises(|old(log)|)
    {
      out := raises(|log|);
      log := log + [r];
    }
  }

  const SCHEMA_INVALID := "DENY_SCHEMA_INVALID"
  const EVIDENCE_OK := "EVIDENCE_OK"
  const UI_CONFIRMED := "ui_confirmed"

  // ----------------------------------------------------------------- evidence

  /** _runtime_evidence_from_boundary */
  function RuntimeEvidence(context: string, reason: string, accepted: bool): Evidence {
    Object(WText(if accepted then "ALLOW_EVIDENCE_CONTINUE_CHECKS" else "DENY_EVIDENCE_REJECTED"),
           WText(if accepted then "ALLOW_EVIDENCE" else "DENY"), WNull, WBool(false), WBool(accepted), WBool(accepted),
           WText(context), WText(reason), WList([WText(reason)]), WNull, WNull, WNull, map[])
  }

  function AcceptedEvidence(context: string): Evidence {
    RuntimeEvidence(context, EVIDENCE_OK, true)
  }

  function RejectedEvidence(context: string, reason: string): Evidence {
    RuntimeEvidence(context, reason, false)
  }

  function TextItemsOf(ss: seq<string>): seq<Wire> {
    seq(|ss|, i requires 0 <= i < |ss| => WText(ss[i]))
  }

  /** _runtime_evidence_from_shield_receipt */
  function ReceiptEvidence(r: ReceiptResult, context: string): Evidence {
    var bound := if r.contextHash.Some? then r.contextHash.value else context;
    Object(WText(if r.accepted then "VERIFIED_ALLOW_EVIDENCE_CONTINUE_CHECKS" else "DENY_EVIDENCE_REJECTED"),
           WText(if r.accepted then "ALLOW_EVIDENCE" else "DENY"),
           if r.finalOutcome.Some? then WText(r.finalOutcome.value) else WNull,
           WBool(false), WBool(r.accepted && r.handoffAllowed), WBool(r.accepted), WText(bound), WText(r.reason),
           WList(if r.accepted then TextItemsOf(r.dominant) else [WText(r.reason)]), WNull, WNull, WNull, map[])
  }

  function Passing(gate: string): Local {
    LocalGate(gate, true, EVIDENCE_OK, false)
  }

  function Failing(gate: string, reason: string): Local {
    LocalGate(gate, false, reason, false)
  }

  const LOCAL_PASSING: seq<Local> := [Passing("replay"), Passing("wallet_policy"), Passing("human")]

  /** Evidence accepted everywhere, as far as the branch knows. */
  function AllAccepted(context: string, oracleContext: string): seq<Evidence> {
    [AcceptedEvidence(context), AcceptedEvidence(context), AcceptedEvidence(context), AcceptedEvidence(oracleContext),
     AcceptedEvidence(context)]
  }

  /** _bound_human_confirmation_gate */
  function HumanGate(uiConfirmed: Wire, fields: Option<map<string, string>>): Local {
    var bound := fields.Some? && UI_CONFIRMED in fields.value && fields.value[UI_CONFIRMED] == "true";
    if uiConfirmed == WBool(true) && bound then Passing("human") else Failing("human", DENY_AUTHORITY_INSUFFICIENT)
  }

  // ----------------------------------------------------------------- responses

  /** The outer handlers. */
  function Handled(x: Raised): Response {
    match x
    case AdapterRaised(reason) => Response(Denied, reason, false, false, false, false)
    case TvaRaised(reason) => Response(Denied, reason, false, true, true, false)
    case EnvelopeRaised(reason) => Response(Errored, reason, false, false, false, false)
    case OtherRaised => Response(Errored, SCHEMA_INVALID, false, false, false, false)
  }

  function RaisedBy(s: Stage): Raised
    requires !s.Fine?
  {
    if s.RejectedFor? then AdapterRaised(s.reason) else OtherRaised
  }

  /** _reason_from_message: what the enumeration does not know counts as a schema error. */
  function ReasonFromMessage(message: string, known: string -> bool): string {
    if known(message) then message else SCHEMA_INVALID
  }

  /** _reject_branch_invariant_result */
  function CoerceAllow(d: Decision): Decision {
    if d.state != AllowFinalDecision then d
    else Deny(DenyGateShapeInvalid, DENY_POLICY, "reject_branch_final_policy_invariant", d.order,
              ["FINAL_POLICY_UNEXPECTED_ALLOW_ON_REJECT_BRANCH"])
  }

  /** _final_policy_denied_response_v2 */
  function DeniedResponse(d: Decision, tva: bool, eqc: bool, wsqk: bool, consumed: bool, known: string -> bool): Response {
    var reason := CoerceAllow(d).reason;
    Response(Denied, if known(reason) then reason else UNKNOWN_REASON, tva, eqc, wsqk, consumed)
  }

  // --------------------------------------------- a boundary's own reason decides

  predicate IsReason(s: string, known: string -> bool) {
    known(s) && !Blank(s)
  }

  lemma TextsHideNothing(ss: seq<string>)
    ensures !ForbiddenIn(WList(TextItemsOf(ss)))
  {
  }

  lemma StatesDiffer()
    ensures HUMAN_REVIEW != WText("ALLOW_EVIDENCE_CONTINUE_CHECKS") && HUMAN_REVIEW != WText("ALLOW_EVIDENCE")
    ensures HUMAN_REVIEW != WText("VERIFIED_ALLOW_EVIDENCE_CONTINUE_CHECKS")
  {
    assert |HUMAN_REVIEW.s| == 21 && |"ALLOW_EVIDENCE"| == 14 && |"ALLOW_EVIDENCE_CONTINUE_CHECKS"| == 30;
    assert HUMAN_REVIEW.s[0] == 'H' && "VERIFIED_ALLOW_EVIDENCE_CONTINUE_CHECKS"[0] == 'V';
  }

  lemma NothingHidden(e: Evidence)
    requires e.Object? && e.others == map[] && e.receipt == WNull && e.summary == WNull && e.verified == WNull
    requires e.state.WText? && e.outcome.WText? && (e.finalOutcome.WText? || e.finalOutcome.WNull?) && e.accepted.WBool?
    requires e.contextHash.WText? && e.reason.WText? && !ForbiddenIn(e.dominant)
    ensures !HiddenAuthority(e)
  {
    var items := [e.state, e.outcome, e.finalOutcome, e.accepted, e.contextHash, e.reason, e.verified];
    assert forall i :: 0 <= i < |items| ==> !ForbiddenIn(items[i]);
  }

  lemma RuntimeHidesNothing(context: string, reason: string, accepted: bool)
    ensures !HiddenAuthority(RuntimeEvidence(context, reason, accepted))
  {
    TextsHideNothing([reason]);
    assert TextItemsOf([reason]) == [WText(reason)];
    NothingHidden(RuntimeEvidence(context, reason, accepted));
  }

  lemma AcceptedPasses(gate: string, context: string)
    ensures EvidencePasses(gate, AcceptedEvidence(context), context, false)
  {
    RuntimeHidesNothing(context, EVIDENCE_OK, true);
    StatesDiffer();
  }

  lemma RejectedObjection(gate: string, context: string, reason: string, order: seq<string>, expected: string, known: string -> bool)
    requires IsReason(reason, known)
    ensures var o := EvidenceObjection(gate, RejectedEvidence(context, reason), order, expected, false, known);
      o.Some? && o.value.reason == reason && o.value.state == DenyEvidenceRejected
    ensures !EvidencePasses(gate, RejectedEvidence(context, reason), expected, false)
  {
    hide HiddenAuthority, Blank;
    RuntimeHidesNothing(context, reason, false);
    OneStated(reason);
  }

  lemma OneStated(reason: string)
    requires !Blank(reason)
    ensures Stated(WList([WText(reason)])) == [reason]
  {
    assert [WText(reason)][1..] == [];
    assert StatedItems([WText(reason)]) == [reason] + StatedItems([]);
  }

  // ------------------------------------------------------- who rejects first

  datatype Boundary =
    | AtEnvelope | AtPolicy | AtQid | AtQidReplay | AtOracle | AtShield | AtLayers | AtEqc | AtAuthority

  datatype Stop = Stop(boundary: Boundary, reason: string, status: Status)

  function StopFor(b: Boundary, s: Stage): Option<Stop> {
    match s
    case Fine => None
    case RejectedFor(reason) => Some(Stop(b, reason, Denied))
    case Broken => Some(Stop(b, SCHEMA_INVALID, Errored))
  }

  predicate Protected(e: Envelope) {
    e.proofs.Some? && e.proofs.value.WDict? && "wsqk" in e.proofs.value.fields
  }

  function BindingOf(e: Envelope): Binding {
    Binding(e.context, e.nonce, e.issuedAt, e.expiresAt)
  }

  /** _map_shield_adapter_reason */
  function MapShieldReason(reason: string): string {
    if reason == "DENY_ADAPTER_INVALID" || reason == "DENY_VERSION_MISMATCH" then INVALID_SHIELD_BUNDLE else reason
  }

  function ShieldStop(b: ShieldBoundary): Option<Stop> {
    match b
    case ReceiptBoundary(authenticity, result, bundle) =>
      if !authenticity.Fine? then StopFor(AtShield, authenticity)
      else if !result.accepted then Some(Stop(AtShield, result.reason, Denied))
      else StopFor(AtShield, bundle)
    case BundleBoundary(adapter, _) =>
      if adapter.RejectedFor? then Some(Stop(AtShield, MapShieldReason(adapter.reason), Denied)) else StopFor(AtShield, adapter)
  }

  function PolicyStop(p: Policy, protectedCall: bool): Option<Stop> {
    if (p.requireProtected || p.requireFull) && !protectedCall then Some(Stop(AtPolicy, DENY_POLICY, Denied))
    else if !p.registry.Fine? then Some(Stop(AtPolicy, DENY_POLICY, Denied))
    else None
  }

  /** The boundaries in the order the host asks them, without any engine. */
  function FirstRejection(c: HostCall): Option<Stop> {
    if c.parsed.Err? then Some(Stop(AtEnvelope, Handled(c.parsed.error).reason, Handled(c.parsed.error).status))
    else
      var e := c.parsed.value;
      if PolicyStop(c.policy, Protected(e)).Some? then PolicyStop(c.policy, Protected(e))
      else if !c.qid.Fine? then StopFor(AtQid, c.qid)
      else if Protected(e) && c.policy.requireReplayProof && !c.qidReplay.Fine? then StopFor(AtQidReplay, c.qidReplay)
      else if !c.oracle.Fine? then StopFor(AtOracle, c.oracle)
      else if ShieldStop(c.shield).Some? then ShieldStop(c.shield)
      else if !c.layersComplete then Some(Stop(AtLayers, INVALID_SHIELD_BUNDLE, Denied))
      else if c.eqc != Allow then Some(Stop(AtEqc, c.eqcReason, Denied))
      else if ExtractAuthority(BindingOf(e), e.proofs).None? then Some(Stop(AtAuthority, DENY_AUTHORITY_INVALID, Denied))
      else None
  }

  // ------------------------------------------------ what adapters keep in check

  predicate StageReasoned(s: Stage, known: string -> bool) {
    s.RejectedFor? ==> IsReason(s.reason, known)
  }

  /** Adapters bind accepted evidence to the request's context and reject with enumerated reasons. */
  predicate ShieldSound(b: ShieldBoundary, context: string, known: string -> bool) {
    match b
    case ReceiptBoundary(_, result, bundle) =>
      && IsReason(result.reason, known)
      && (result.accepted && bundle.Fine? ==>
            result.contextHash == Some(context) && result.handoffAllowed && result.finalOutcome != Some("HUMAN_REVIEW_REQUIRED"))
    case BundleBoundary(adapter, bound) => StageReasoned(adapter, known) && (adapter.Fine? ==> bound == context)
  }

  predicate SoundCall(c: HostCall, known: string -> bool) {
    && (c.parsed.Ok? ==>
          && IsHex64(c.parsed.value.context.contextHash) && c.oracleContext == c.parsed.value.context.contextHash
          && ShieldSound(c.shield, c.parsed.value.context.contextHash, known))
    && StageReasoned(c.qid, known) && StageReasoned(c.qidReplay, known) && StageReasoned(c.oracle, known)
    && IsReason(c.eqcReason, known) && IsReason(DENY_POLICY, known) && IsReason(INVALID_SHIELD_BUNDLE, known)
    && IsReason(DENY_AUTHORITY_INVALID, known) && IsReason(DENY_AUTHORITY_INSUFFICIENT, known)
  }

  // -------------------------------------------------------------- the branches

  lemma Decided(q: Inputs, d: Decision, k: nat, known: string -> bool)
    requires Complete(q) && WellPosed(q) && FirstFailure(q, k)
    requires exists j :: FirstFailure(q, j) && GateObjection(q, j, known) == Some(d)
    ensures GateObjection(q, k, known) == Some(d) && d.state != AllowFinalDecision
  {
    hide WellPosed, GateObjection, GatePasses;
    var j :| FirstFailure(q, j) && GateObjection(q, j, known) == Some(d);
    FirstFailureUnique(q, j, k);
    FailureIsGate(q, k);
    ObjectionExact(q, k, known);
  }

  lemma FailureIsGate(q: Inputs, k: nat)
    requires Complete(q) && WellPosed(q) && FirstFailure(q, k)
    ensures k < 8
  {
  }

  /** The engine decides with this reason, and does not allow. */
  ghost predicate DecidesFor(evidence: seq<Evidence>, local: seq<Local>, context: string, reason: string, known: string -> bool)
    requires |evidence| == 5 && |local| == 3
  {
    var q := Inputs(evidence, local, context, WBool(false));
    && WellPosed(q) && !AllPass(q)
    && forall d :: (exists j :: FirstFailure(q, j) && GateObjection(q, j, known) == Some(d)) ==>
         d.reason == reason && d.state != AllowFinalDecision
  }

  /** The objection of the first gate that fails is the decision. */
  lemma FirstDecides(q: Inputs, k: nat, reason: string, known: string -> bool)
    requires Complete(q) && q.v4Flag == WBool(false) && WellPosed(q) && FirstFailure(q, k)
    requires GateObjection(q, k, known).Some? && GateObjection(q, k, known).value.reason == reason
    ensures DecidesFor(q.evidence, q.local, q.context, reason, known)
  {
    hide GateObjection, GatePasses, WellPosed;
    assert q == Inputs(q.evidence, q.local, q.context, WBool(false));
    forall d | exists j :: FirstFailure(q, j) && GateObjection(q, j, known) == Some(d)
      ensures d.reason == reason && d.state != AllowFinalDecision
    {
      Decided(q, d, k, known);
    }
  }

  lemma EvidenceDecides(evidence: seq<Evidence>, local: seq<Local>, context: string, k: nat, reason: string, known: string -> bool)
    requires |evidence| == 5 && |local| == 3 && k < 5 && IsHex64(context) && IsReason(reason, known)
    requires forall j :: 0 <= j < k ==> EvidencePasses(GATES[j], evidence[j], context, false)
    requires forall order ::
      var o := EvidenceObjection(GATES[k], evidence[k], order, context, false, known); o.Some? && o.value.reason == reason
    ensures DecidesFor(evidence, local, context, reason, known)
  {
    hide EvidencePasses, LocalPasses, EvidenceObjection, LocalObjection, IsHex64;
    var q := Inputs(evidence, local, context, WBool(false));
    ObjectionExact(q, k, known);
    FirstDecides(q, k, reason, known);
  }

  lemma RejectedDecides(evidence: seq<Evidence>, local: seq<Local>, context: string, k: nat, bound: string, reason: string,
                        known: string -> bool)
    requires |evidence| == 5 && |local| == 3 && k < 5 && IsHex64(context) && IsReason(reason, known)
    requires forall j :: 0 <= j < k ==> EvidencePasses(GATES[j], evidence[j], context, false)
    requires evidence[k] == RejectedEvidence(bound, reason)
    ensures DecidesFor(evidence, local, context, reason, known)
  {
    hide EvidencePasses, EvidenceObjection, IsHex64, RejectedEvidence, DecidesFor, IsReason;
    forall order
      ensures var o := EvidenceObjection(GATES[k], evidence[k], order, context, false, known);
        o.Some? && o.value.reason == reason
    {
      RejectedObjection(GATES[k], bound, reason, order, context, known);
    }
    EvidenceDecides(evidence, local, context, k, reason, known);
  }

  /** Evidence the Shield boundary hands to the engine when it accepts. */
  function ShieldEvidence(b: ShieldBoundary, context: string): Evidence {
    match b
    case ReceiptBoundary(_, result, _) => ReceiptEvidence(result, context)
    case BundleBoundary(_, bound) => AcceptedEvidence(bound)
  }

  lemma ShieldEvidencePasses(b: ShieldBoundary, context: string, known: string -> bool)
    requires ShieldStop(b).None? && ShieldSound(b, context, known)
    ensures EvidencePasses("shield", ShieldEvidence(b, context), context, false)
  {
    match b
    case ReceiptBoundary(_, result, _) =>
      hide HiddenAuthority, IsReason;
      ReceiptHidesNothing(result, context);
      StatesDiffer();
    case BundleBoundary(_, bound) => AcceptedPasses("shield", context);
  }

  lemma ReceiptHidesNothing(r: ReceiptResult, context: string)
    ensures !HiddenAuthority(ReceiptEvidence(r, context))
  {
    TextsHideNothing(r.dominant);
    TextsHideNothing([r.reason]);
    assert TextItemsOf([r.reason]) == [WText(r.reason)];
    NothingHidden(ReceiptEvidence(r, context));
  }

  lemma ReceiptRejected(r: ReceiptResult, gate: string, order: seq<string>, context: string, known: string -> bool)
    requires !r.accepted && IsReason(r.reason, known)
    ensures var o := EvidenceObjection(gate, ReceiptEvidence(r, context), order, context, false, known);
      o.Some? && o.value.reason == r.reason
  {
    hide HiddenAuthority, Blank;
    ReceiptHidesNothing(r, context);
    OneStated(r.reason);
  }

  /** With all evidence passing, the first local gate that fails decides with its own reason. */
  lemma LocalDecides(evidence: seq<Evidence>, local: seq<Local>, context: string, k: nat, reason: string, known: string -> bool)
    requires |evidence| == 5 && |local| == 3 && IsHex64(context) && k < 3
    requires forall j :: 0 <= j < 5 ==> EvidencePasses(GATES[j], evidence[j], context, false)
    requires forall j :: 0 <= j < k ==> LocalPasses(LOCAL_GATES[j], local[j])
    requires local[k] == Failing(LOCAL_GATES[k], reason)
    ensures DecidesFor(evidence, local, context, reason, known)
  {
    hide EvidencePasses, EvidenceObjection, IsHex64, Strip, DecidesFor;
    var q := Inputs(evidence, local, context, WBool(false));
    VisitedGrows(5 + k);
    forall j | 0 <= j < 5 + k ensures GatePasses(q, j) { VisitedGrows(j); }
    ObjectionExact(q, 5 + k, known);
    FirstDecides(q, 5 + k, reason, known);
  }

  /** The evidence of a call whose boundaries all accepted. */
  function CallEvidence(c: HostCall, context: string): seq<Evidence> {
    [ShieldEvidence(c.shield, context), AcceptedEvidence(context), AcceptedEvidence(context),
     AcceptedEvidence(c.oracleContext), AcceptedEvidence(context)]
  }

  lemma CallEvidencePasses(c: HostCall, known: string -> bool)
    requires c.parsed.Ok? && SoundCall(c, known) && ShieldStop(c.shield).None?
    ensures var context := c.parsed.value.context.contextHash;
      forall j :: 0 <= j < 5 ==> EvidencePasses(GATES[j], CallEvidence(c, context)[j], context, false)
  {
    hide EvidencePasses, AcceptedEvidence, ShieldEvidence, ShieldSound, IsHex64, IsReason;
    var context := c.parsed.value.context.contextHash;
    ShieldEvidencePasses(c.shield, context, known);
    assert GATES[0] == "shield";
    forall j | 0 <= j < 5 ensures EvidencePasses(GATES[j], CallEvidence(c, context)[j], context, false) {
      if j > 0 { AcceptedPasses(GATES[j], context); }
    }
  }

  /** Accepted evidence passes exactly where it is bound to the context asked for. */
  lemma AcceptedWhere(gate: string, context: string, expected: string)
    ensures EvidencePasses(gate, AcceptedEvidence(context), expected, false) <==> context == expected
  {
    RuntimeHidesNothing(context, EVIDENCE_OK, true);
    StatesDiffer();
  }

  /** What the Shield boundary accepted is bound to the context, allows the handoff and leaves nothing to a human. */
  predicate ShieldBinds(b: ShieldBoundary, context: string) {
    match b
    case ReceiptBoundary(_, result, _) =>
      && (result.contextHash.None? || result.contextHash.value == context) && result.handoffAllowed
      && result.finalOutcome != Some("HUMAN_REVIEW_REQUIRED")
    case BundleBoundary(_, bound) => bound == context
  }

  lemma ShieldPassesExactly(b: ShieldBoundary, context: string)
    requires ShieldStop(b).None?
    ensures EvidencePasses("shield", ShieldEvidence(b, context), context, false) <==> ShieldBinds(b, context)
  {
    match b
    case ReceiptBoundary(_, result, _) =>
      hide HiddenAuthority;
      ReceiptHidesNothing(result, context);
      StatesDiffer();
    case BundleBoundary(_, bound) => AcceptedWhere("shield", bound, context);
  }

  /** The evidence of a call agrees with the request: one context throughout, and nothing left to a human. */
  predicate EvidenceAgrees(c: HostCall) {
    && c.parsed.Ok? && IsHex64(c.parsed.value.context.contextHash)
    && c.oracleContext == c.parsed.value.context.contextHash
    && ShieldBinds(c.shield, c.parsed.value.context.contextHash)
  }

  lemma CallEvidenceExactly(c: HostCall)
    requires c.parsed.Ok? && ShieldStop(c.shield).None?
    ensures var context := c.parsed.value.context.contextHash;
      (forall j :: 0 <= j < 5 ==> EvidencePasses(GATES[j], CallEvidence(c, context)[j], context, false))
      <==> c.oracleContext == context && ShieldBinds(c.shield, context)
  {
    hide EvidencePasses, AcceptedEvidence, ShieldEvidence, ShieldBinds, IsHex64;
    var context := c.parsed.value.context.contextHash;
    var evidence := CallEvidence(c, context);
    ShieldPassesExactly(c.shield, context);
    assert GATES[0] == "shield" && evidence[0] == ShieldEvidence(c.shield, context);
    assert |evidence| == 5;
    forall j | 1 <= j < 5
      ensures EvidencePasses(GATES[j], evidence[j], context, false) <==> (if j == 3 then c.oracleContext else context) == context
    {
      AcceptedWhere(GATES[j], if j == 3 then c.oracleContext else context, context);
    }
    assert EvidencePasses(GATES[0], evidence[0], context, false) <==> ShieldBinds(c.shield, context);
    assert EvidencePasses(GATES[3], evidence[3], context, false) <==> c.oracleContext == context;
  }

  /** Sound adapters always see to that. */
  lemma SoundAgrees(c: HostCall, known: string -> bool)
    requires c.parsed.Ok? && SoundCall(c, known) && ShieldStop(c.shield).None?
    ensures EvidenceAgrees(c)
  {
    hide IsHex64, IsReason;
  }

  /** Some boundary has already said no. */
  predicate SomeRejection(evidence: seq<Evidence>, local: seq<Local>) {
    || (exists k :: 0 <= k < |evidence| && evidence[k].Object? && evidence[k].accepted == WBool(false))
    || (exists k :: 0 <= k < |local| && local[k].LocalGate? && !local[k].passed)
  }

  /** So the coercion of an unexpected allow can never fire, whatever the adapters do. */
  lemma RejectionNeverAllows(q: Inputs)
    requires Complete(q) && SomeRejection(q.evidence, q.local)
    ensures !WellPosed(q) || !AllPass(q)
  {
    hide HiddenAuthority, SatisfiesShieldV4, AsksHumanReview;
    if WellPosed(q) {
      if k :| 0 <= k < |q.evidence| && q.evidence[k].Object? && q.evidence[k].accepted == WBool(false) {
        assert !GatePasses(q, k);
      } else {
        var k :| 0 <= k < |q.local| && q.local[k].LocalGate? && !q.local[k].passed;
        assert !GatePasses(q, 5 + k);
      }
    }
  }

  /** The only reasons a decision is reported with. */
  predicate Reportable(reason: string, known: string -> bool) {
    known(reason) || reason == "UNKNOWN_EXTERNAL_REASON"
  }

  /** A reject branch: the engine is asked all the same, and its answer is the response. */
  method DenyThrough(evidence: seq<Evidence>, local: seq<Local>, context: string, eqc: bool, known: string -> bool,
                     ghost reason: string)
    returns (r: Response)
    requires |evidence| == 5 && |local| == 3 && SomeRejection(evidence, local)
    ensures r.status == Denied && !r.tvaAllowed && !r.nonceConsumed
    ensures r.eqcAllowed == eqc && !r.wsqkAllowed && Reportable(r.reason, known)
    ensures DecidesFor(evidence, local, context, reason, known) && IsReason(reason, known) ==> r.reason == reason
  {
    hide WellPosed, AllPass, FirstFailure, GateObjection, SomeRejection;
    var q := Inputs(evidence, local, context, WBool(false));
    var d := EvaluateFinalPolicy(q, known);
    RejectionNeverAllows(q);
    assert CoerceAllow(d) == d;
    r := DeniedResponse(d, false, eqc, false, false, known);
  }

  lemma AcceptedPrefix(context: string, k: nat)
    requires k <= 5
    ensures forall j :: 0 <= j < k ==> EvidencePasses(GATES[j], AllAccepted(context, context)[j], context, false)
  {
    hide EvidencePasses, AcceptedEvidence;
    forall j | 0 <= j < k ensures EvidencePasses(GATES[j], AllAccepted(context, context)[j], context, false) {
      AcceptedPasses(GATES[j], context);
    }
  }

  /** The Q-ID branches, with the replay gate failing as well in the second of them. */
  method DenyQid(context: string, reason: string, local: seq<Local>, known: string -> bool) returns (r: Response)
    requires |local| == 3
    ensures r.status == Denied && !r.tvaAllowed && !r.nonceConsumed
    ensures !r.eqcAllowed && !r.wsqkAllowed && Reportable(r.reason, known)
    ensures IsHex64(context) && IsReason(reason, known) ==> r.reason == reason
  {
    hide EvidencePasses, AcceptedEvidence, RejectedEvidence, IsHex64, IsReason, DecidesFor;
    var evidence := AllAccepted(context, context)[2 := RejectedEvidence(context, reason)];
    if IsHex64(context) && IsReason(reason, known) {
      AcceptedPrefix(context, 2);
      RejectedDecides(evidence, local, context, 2, context, reason, known);
    }
    RejectedIsRejection(evidence, local, 2, context, reason);
    r := DenyThrough(evidence, local, context, false, known, reason);
  }

  lemma RejectedIsRejection(evidence: seq<Evidence>, local: seq<Local>, k: nat, bound: string, reason: string)
    requires k < |evidence| && evidence[k] == RejectedEvidence(bound, reason)
    ensures SomeRejection(evidence, local)
  {
  }

  method DenyOracle(context: string, reason: string, known: string -> bool) returns (r: Response)
    ensures r.status == Denied && !r.tvaAllowed && !r.nonceConsumed
    ensures !r.eqcAllowed && !r.wsqkAllowed && Reportable(r.reason, known)
    ensures IsHex64(context) && IsReason(reason, known) ==> r.reason == reason
  {
    hide EvidencePasses, AcceptedEvidence, RejectedEvidence, IsHex64, IsReason, DecidesFor;
    var evidence := AllAccepted(context, context)[3 := RejectedEvidence(context, reason)];
    if IsHex64(context) && IsReason(reason, known) {
      AcceptedPrefix(context, 3);
      RejectedDecides(evidence, LOCAL_PASSING, context, 3, context, reason, known);
    }
    RejectedIsRejection(evidence, LOCAL_PASSING, 3, context, reason);
    r := DenyThrough(evidence, LOCAL_PASSING, context, false, known, reason);
  }

  /** The Shield branches: bundle rejected, or its layers incomplete. */
  method DenyShield(context: string, oracleContext: string, bound: string, reason: string, known: string -> bool)
    returns (r: Response)
    ensures r.status == Denied && !r.tvaAllowed && !r.nonceConsumed
    ensures !r.eqcAllowed && !r.wsqkAllowed && Reportable(r.reason, known)
    ensures IsHex64(context) && IsReason(reason, known) ==> r.reason == reason
  {
    hide EvidencePasses, AcceptedEvidence, RejectedEvidence, IsHex64, IsReason, DecidesFor;
    var evidence := AllAccepted(context, oracleContext)[0 := RejectedEvidence(bound, reason)];
    if IsHex64(context) && IsReason(reason, known) {
      RejectedDecides(evidence, LOCAL_PASSING, context, 0, bound, reason, known);
    }
    RejectedIsRejection(evidence, LOCAL_PASSING, 0, bound, reason);
    r := DenyThrough(evidence, LOCAL_PASSING, context, false, known, reason);
  }

  method DenyReceipt(context: string, oracleContext: string, result: ReceiptResult, known: string -> bool) returns (r: Response)
    requires !result.accepted
    ensures r.status == Denied && !r.tvaAllowed && !r.nonceConsumed
    ensures !r.eqcAllowed && !r.wsqkAllowed && Reportable(r.reason, known)
    ensures IsHex64(context) && IsReason(result.reason, known) ==> r.reason == result.reason
  {
    hide EvidencePasses, AcceptedEvidence, ReceiptEvidence, EvidenceObjection, IsHex64, IsReason, DecidesFor;
    var evidence := AllAccepted(context, oracleContext)[0 := ReceiptEvidence(result, context)];
    if IsHex64(context) && IsReason(result.reason, known) {
      forall order
        ensures var o := EvidenceObjection(GATES[0], evidence[0], order, context, false, known);
          o.Some? && o.value.reason == result.reason
      {
        ReceiptRejected(result, GATES[0], order, context, known);
      }
      EvidenceDecides(evidence, LOCAL_PASSING, context, 0, result.reason, known);
    }
    ReceiptIsRejection(evidence, result, context);
    r := DenyThrough(evidence, LOCAL_PASSING, context, false, known, result.reason);
  }

  lemma ReceiptIsRejection(evidence: seq<Evidence>, result: ReceiptResult, context: string)
    requires |evidence| > 0 && evidence[0] == ReceiptEvidence(result, context) && !result.accepted
    ensures SomeRejection(evidence, LOCAL_PASSING)
  {
  }

  /** EQC denies: the wallet policy gate carries its reason. */
  method DenyEqc(c: HostCall, known: string -> bool) returns (r: Response)
    requires c.parsed.Ok?
    ensures r.status == Denied && !r.tvaAllowed && !r.nonceConsumed
    ensures !r.eqcAllowed && !r.wsqkAllowed && Reportable(r.reason, known)
    ensures SoundCall(c, known) && ShieldStop(c.shield).None? ==> r.reason == c.eqcReason
  {
    hide EvidencePasses, AcceptedEvidence, ShieldEvidence, IsHex64, IsReason, DecidesFor, ShieldSound, ShieldStop,
      StageReasoned;
    var context := c.parsed.value.context.contextHash;
    var evidence := CallEvidence(c, context);
    var local := [Passing("replay"), Failing("wallet_policy", c.eqcReason), Passing("human")];
    if SoundCall(c, known) && ShieldStop(c.shield).None? {
      CallEvidencePasses(c, known);
      LocalDecides(evidence, local, context, 1, c.eqcReason, known);
    }
    assert local[1] == Failing("wallet_policy", c.eqcReason);
    r := DenyThrough(evidence, local, context, false, known, c.eqcReason);
  }

  /** No authority proof bound to the request: the WSQK gate rejects. */
  method DenyAuthority(c: HostCall, known: string -> bool) returns (r: Response)
    requires c.parsed.Ok?
    ensures r.status == Denied && !r.tvaAllowed && !r.nonceConsumed
    ensures r.eqcAllowed && !r.wsqkAllowed && Reportable(r.reason, known)
    ensures SoundCall(c, known) && ShieldStop(c.shield).None? ==> r.reason == DENY_AUTHORITY_INVALID
  {
    hide EvidencePasses, AcceptedEvidence, RejectedEvidence, ShieldEvidence, IsHex64, IsReason, DecidesFor, ShieldSound,
      ShieldStop, StageReasoned;
    var context := c.parsed.value.context.contextHash;
    var evidence := CallEvidence(c, context)[1 := RejectedEvidence(context, DENY_AUTHORITY_INVALID)];
    if SoundCall(c, known) && ShieldStop(c.shield).None? {
      CallEvidencePasses(c, known);
      assert evidence[0] == CallEvidence(c, context)[0];
      RejectedDecides(evidence, LOCAL_PASSING, context, 1, context, DENY_AUTHORITY_INVALID, known);
    }
    RejectedIsRejection(evidence, LOCAL_PASSING, 1, context, DENY_AUTHORITY_INVALID);
    r := DenyThrough(evidence, LOCAL_PASSING, context, true, known, DENY_AUTHORITY_INVALID);
  }

  // -------------------------------------------------------------- the host step

  predicate StopsWith(r: Response, stop: Stop) {
    r.status == stop.status && r.status != Allowed && !r.tvaAllowed && !r.nonceConsumed
  }

  /** The truth gate's own exception, raised while the envelope is read. */
  predicate GateRaised(c: HostCall) {
    c.parsed.Err? && c.parsed.error.TvaRaised?
  }

  /** What a stopped call reports as allowed so far. */
  predicate Flagged(r: Response, b: Boundary, c: HostCall) {
    (r.eqcAllowed <==> b == AtAuthority || GateRaised(c)) && (r.wsqkAllowed <==> GateRaised(c))
  }

  /** Everything before the truth gate. Nothing here can reach the store or the executor. */
  method CheckBoundaries(c: HostCall, known: string -> bool) returns (r: Option<Response>)
    ensures r.Some? <==> FirstRejection(c).Some?
    ensures r.Some? ==> StopsWith(r.value, FirstRejection(c).value)
    ensures r.Some? ==> Flagged(r.value, FirstRejection(c).value.boundary, c)
    ensures r.Some? && SoundCall(c, known) ==> r.value.reason == FirstRejection(c).value.reason
  {
    hide IsHex64, IsReason, ExtractAuthority;
    if c.parsed.Err? { return Some(Handled(c.parsed.error)); }
    var e := c.parsed.value;
    var context := e.context.contextHash;
    if (c.policy.requireProtected || c.policy.requireFull) && !Protected(e) {
      return Some(Response(Denied, DENY_POLICY, false, false, false, false));
    }
    if !c.policy.registry.Fine? { return Some(Response(Denied, DENY_POLICY, false, false, false, false)); }
    if !c.qid.Fine? {
      if c.qid.Broken? { return Some(Handled(RaisedBy(c.qid))); }
      var d := DenyQid(context, c.qid.reason, LOCAL_PASSING, known);
      return Some(d);
    }
    if Protected(e) && c.policy.requireReplayProof && !c.qidReplay.Fine? {
      if c.qidReplay.Broken? { return Some(Handled(RaisedBy(c.qidReplay))); }
      var d := DenyQid(context, c.qidReplay.reason,
                       [Failing("replay", c.qidReplay.reason), Passing("wallet_policy"), Passing("human")], known);
      return Some(d);
    }
    if !c.oracle.Fine? {
      if c.oracle.Broken? { return Some(Handled(RaisedBy(c.oracle))); }
      var d := DenyOracle(context, c.oracle.reason, known);
      return Some(d);
    }
    r := CheckShield(c, known);
    if r.Some? { return; }
    if !c.layersComplete {
      var d := DenyShield(context, c.oracleContext, context, INVALID_SHIELD_BUNDLE, known);
      return Some(d);
    }
    if c.eqc != Allow {
      var d := DenyEqc(c, known);
      return Some(d);
    }
    if ExtractAuthority(BindingOf(e), e.proofs).None? {
      var d := DenyAuthority(c, known);
      return Some(d);
    }
    return None;
  }

  method CheckShield(c: HostCall, known: string -> bool) returns (r: Option<Response>)
    requires c.parsed.Ok?
    ensures r.Some? <==> ShieldStop(c.shield).Some?
    ensures r.Some? ==> StopsWith(r.value, ShieldStop(c.shield).value) && !r.value.eqcAllowed && !r.value.wsqkAllowed
    ensures r.Some? && SoundCall(c, known) ==> r.value.reason == ShieldStop(c.shield).value.reason
  {
    hide IsHex64, IsReason;
    var context := c.parsed.value.context.contextHash;
    match c.shield
    case ReceiptBoundary(authenticity, result, bundle) =>
      if !authenticity.Fine? { return Some(Handled(RaisedBy(authenticity))); }
      if !result.accepted {
        var d := DenyReceipt(context, c.oracleContext, result, known);
        return Some(d);
      }
      if !bundle.Fine? { return Some(Handled(RaisedBy(bundle))); }
      return None;
    case BundleBoundary(adapter, _) =>
      if adapter.Broken? { return Some(Handled(RaisedBy(adapter))); }
      if adapter.RejectedFor? {
        var d := DenyShield(context, c.oracleContext, context, MapShieldReason(adapter.reason), known);
        return Some(d);
      }
      return None;
  }

  /** What a call did to the store and the executor: at most one mark, and a run only with that mark. */
  ghost predicate Effect(used0: map<NonceKey, int>, used1: map<NonceKey, int>, log0: seq<ExecutionRequest>,
                         log1: seq<ExecutionRequest>, marked: Option<NonceKey>, ran: Option<ExecutionRequest>)
  {
    && (match marked
        case None => used1 == used0
        case Some(key) => key !in used0 && key in used1 && used1 == used0[key := used1[key]])
    && match ran
       case None => log1 == log0
       case Some(request) => log1 == log0 + [request] && marked.Some? && marked.value.0 == request.wallet
  }

  function EnvelopeKey(e: Envelope): NonceKey {
    (e.context.wallet, Strip(e.nonce))
  }

  /** What the call puts before the truth gate. */
  function ClaimOf(c: HostCall, e: Envelope): Claim {
    Claim(Some(e.context), Some(c.eqc), ExtractAuthority(BindingOf(e), e.proofs), Some(c.now), e.families, e.posture)
  }

  /** The truth gate lets the call through: every boundary accepted, the authority holds now, the nonce is new. */
  predicate TruthHolds(c: HostCall, env: WsqkEnv, used: map<NonceKey, int>) {
    && FirstRejection(c).None? && c.parsed.Ok?
    && var e := c.parsed.value;
      && Authorizes(ClaimOf(c, e), env) && EnvelopeKey(e) !in used
  }

  /** Every boundary accepted, but the truth gate did not: the response names the first thing that is wrong. */
  ghost predicate NamesFault(r: Response, c: HostCall, known: string -> bool, env: WsqkEnv, used: map<NonceKey, int>) {
    c.parsed.Ok? && exists f, name ::
      && FirstWrong(f, ClaimOf(c, c.parsed.value), Some(used), env) && Called(f, name)
      && (IsReason(name, known) ==> r.reason == name)
      && (!known(name) && IsReason(SCHEMA_INVALID, known) ==> r.reason == SCHEMA_INVALID)
  }

  // -------------------------------------------- what a call must be to be executed

  predicate ShieldAccepts(b: ShieldBoundary) {
    match b
    case ReceiptBoundary(authenticity, result, bundle) => authenticity.Fine? && result.accepted && bundle.Fine?
    case BundleBoundary(adapter, _) => adapter.Fine?
  }

  /** Every boundary says yes. */
  predicate BoundariesAccept(c: HostCall) {
    && c.policy.registry.Fine? && c.qid.Fine? && (c.policy.requireReplayProof ==> c.qidReplay.Fine?) && c.oracle.Fine?
    && ShieldAccepts(c.shield) && c.layersComplete && c.eqc == Allow
  }

  /** The authority that the envelope's own proofs attest says what the envelope says, and entitles to it now. */
  ghost predicate EntitledBy(a: Authority, c: HostCall, e: Envelope, env: WsqkEnv) {
    && AttestedBy(a, e) && Entitles(a, e.context, c.now, e.families, e.posture, env)
  }

  /** The wallet's nonce, whitespace around it aside, has not been used. */
  ghost predicate Unused(e: Envelope, used: map<NonceKey, int>) {
    forall nonce :: Cuts(e.nonce, nonce) ==> (e.context.wallet, nonce) !in used
  }

  ghost predicate Entitled(c: HostCall, env: WsqkEnv, used: map<NonceKey, int>) {
    && c.parsed.Ok? && BoundariesAccept(c) && Unused(c.parsed.value, used)
    && exists a :: EntitledBy(a, c, c.parsed.value, env)
  }

  lemma AcceptedExactly(c: HostCall)
    ensures FirstRejection(c).None? <==>
      c.parsed.Ok? && BoundariesAccept(c) && ExtractAuthority(BindingOf(c.parsed.value), c.parsed.value.proofs).Some?
  {
    hide ExtractAuthority;
    if c.parsed.Ok? && ExtractAuthority(BindingOf(c.parsed.value), c.parsed.value.proofs).Some? {
      ExtractedIsBound(BindingOf(c.parsed.value), c.parsed.value.proofs);
    }
  }

  predicate HasProof(e: Envelope) {
    e.proofs.Some? && e.proofs.value.WDict? && "wsqk" in e.proofs.value.fields
  }

  /** What each boundary says no to. */
  ghost predicate RejectsAt(b: Boundary, c: HostCall) {
    match b
    case AtEnvelope => c.parsed.Err?
    case AtPolicy =>
      && c.parsed.Ok?
      && (((c.policy.requireProtected || c.policy.requireFull) && !HasProof(c.parsed.value)) || !c.policy.registry.Fine?)
    case AtQid => !c.qid.Fine?
    case AtQidReplay =>
      c.parsed.Ok? && HasProof(c.parsed.value) && c.policy.requireReplayProof && !c.qidReplay.Fine?
    case AtOracle => !c.oracle.Fine?
    case AtShield => !ShieldAccepts(c.shield)
    case AtLayers => !c.layersComplete
    case AtEqc => c.eqc != Allow
    case AtAuthority => c.parsed.Ok? && !exists a :: AttestedBy(a, c.parsed.value)
  }

  /** The envelope's own proofs attest an authority that says what the envelope says. */
  ghost predicate AttestedBy(a: Authority, e: Envelope) {
    && Proves(e.proofs, a) && a.wallet == e.context.wallet && a.action == e.context.action
    && a.contextHash == e.context.contextHash && a.nonce == e.nonce
    && a.issuedAt == e.issuedAt && a.expiresAt == e.expiresAt
  }

  function Place(b: Boundary): nat {
    match b
    case AtEnvelope => 0
    case AtPolicy => 1
    case AtQid => 2
    case AtQidReplay => 3
    case AtOracle => 4
    case AtShield => 5
    case AtLayers => 6
    case AtEqc => 7
    case AtAuthority => 8
  }

  /** A rejection is passed on with its own reason; what a stage did not mean to raise is an error. */
  predicate PassesOn(stop: Stop, s: Stage) {
    match s
    case Fine => false
    case RejectedFor(reason) => stop.status == Denied && stop.reason == reason
    case Broken => stop.status == Errored && stop.reason == "DENY_SCHEMA_INVALID"
  }

  predicate PassesOnRaised(stop: Stop, x: Raised) {
    match x
    case EnvelopeRaised(reason) => stop.status == Errored && stop.reason == reason
    case AdapterRaised(reason) => stop.status == Denied && stop.reason == reason
    case TvaRaised(reason) => stop.status == Denied && stop.reason == reason
    case OtherRaised => stop.status == Errored && stop.reason == "DENY_SCHEMA_INVALID"
  }

  /** Two adapter reasons have a name of their own in the host. */
  predicate PassesOnShield(stop: Stop, b: ShieldBoundary) {
    match b
    case ReceiptBoundary(authenticity, result, bundle) =>
      || PassesOn(stop, authenticity)
      || (authenticity.Fine? && !result.accepted && stop.status == Denied && stop.reason == result.reason)
      || (authenticity.Fine? && result.accepted && PassesOn(stop, bundle))
    case BundleBoundary(adapter, _) =>
      if adapter.RejectedFor? && adapter.reason in {"DENY_ADAPTER_INVALID", "DENY_VERSION_MISMATCH"}
      then stop.status == Denied && stop.reason == "EQC_INVALID_SHIELD_BUNDLE"
      else PassesOn(stop, adapter)
  }

  /** With what it stops the call. */
  predicate Reports(stop: Stop, c: HostCall) {
    match stop.boundary
    case AtEnvelope => c.parsed.Err? && PassesOnRaised(stop, c.parsed.error)
    case AtPolicy => stop.status == Denied && stop.reason == "DENY_POLICY"
    case AtQid => PassesOn(stop, c.qid)
    case AtQidReplay => PassesOn(stop, c.qidReplay)
    case AtOracle => PassesOn(stop, c.oracle)
    case AtShield => PassesOnShield(stop, c.shield)
    case AtLayers => stop.status == Denied && stop.reason == "EQC_INVALID_SHIELD_BUNDLE"
    case AtEqc => stop.status == Denied && stop.reason == c.eqcReason
    case AtAuthority => stop.status == Denied && stop.reason == "DENY_AUTHORITY_INVALID"
  }

  /** The first boundary that says no stops the call, and reports why. */
  lemma RejectionExactly(c: HostCall)
    ensures FirstRejection(c).Some? ==>
      var stop := FirstRejection(c).value;
      && RejectsAt(stop.boundary, c) && Reports(stop, c)
      && forall b :: Place(b) < Place(stop.boundary) ==> !RejectsAt(b, c)
  {
    hide ExtractAuthority, Proves;
    if c.parsed.Ok? {
      var e := c.parsed.value;
      forall a ensures ExtractAuthority(BindingOf(e), e.proofs) == Some(a) <==> Proves(e.proofs, a) && Matches(a, BindingOf(e)) {
        ExtractExactly(BindingOf(e), e.proofs, a);
      }
      if exists a :: AttestedBy(a, e) {
        var a :| AttestedBy(a, e);
        assert ExtractAuthority(BindingOf(e), e.proofs) == Some(a);
      }
    }
  }

  lemma AuthorityExactly(c: HostCall, e: Envelope, env: WsqkEnv)
    requires c.eqc == Allow
    ensures Authorizes(ClaimOf(c, e), env) <==> exists a :: EntitledBy(a, c, e, env)
  {
    hide ExtractAuthority, Authorizes, Proves, Postured, Spaces;
    AuthorizesExactly(ClaimOf(c, e), env);
    forall a ensures ExtractAuthority(BindingOf(e), e.proofs) == Some(a) <==> Proves(e.proofs, a) && Matches(a, BindingOf(e)) {
      ExtractExactly(BindingOf(e), e.proofs, a);
    }
    if a :| EntitledBy(a, c, e, env) { assert ExtractAuthority(BindingOf(e), e.proofs) == Some(a); }
    if Authorizes(ClaimOf(c, e), env) { assert EntitledBy(ClaimOf(c, e).authority.value, c, e, env); }
  }

  /** The truth gate lets through exactly the entitled calls. */
  lemma TruthExactly(c: HostCall, env: WsqkEnv, used: map<NonceKey, int>)
    ensures TruthHolds(c, env, used) <==> Entitled(c, env, used)
  {
    hide FirstRejection, ExtractAuthority, Authorizes, Strip, Cuts, EntitledBy;
    AcceptedExactly(c);
    if c.parsed.Ok? {
      var e := c.parsed.value;
      CutExactly(e.nonce);
      if BoundariesAccept(c) { AuthorityExactly(c, e, env); }
      if Authorizes(ClaimOf(c, e), env) { AuthorizedExtracted(c, e, env); }
    }
  }

  lemma AuthorizedExtracted(c: HostCall, e: Envelope, env: WsqkEnv)
    requires Authorizes(ClaimOf(c, e), env)
    ensures ExtractAuthority(BindingOf(e), e.proofs).Some?
  {
    hide ExtractAuthority, PostureFault, Strip;
  }

  /** The nonce of the envelope's wallet. */
  ghost predicate KeyFor(key: NonceKey, e: Envelope) {
    key.0 == e.context.wallet && Cuts(e.nonce, key.1)
  }

  /** The user has confirmed, and the confirmation is bound into the context. */
  predicate UserConfirmed(c: HostCall) {
    && c.uiConfirmed == WBool(true) && c.parsed.Ok? && c.parsed.value.fields.Some?
    && "ui_confirmed" in c.parsed.value.fields.value && c.parsed.value.fields.value["ui_confirmed"] == "true"
  }

  lemma ConfirmedExactly(c: HostCall)
    ensures Confirmed(c) <==> UserConfirmed(c)
  {
  }

  predicate Confirmed(c: HostCall) {
    c.parsed.Ok? && HumanGate(c.uiConfirmed, c.parsed.value.fields) == Passing("human")
  }

  /** orchestrate_execution_v2 */
  method OrchestrateExecution(c: HostCall, known: string -> bool, env: WsqkEnv, store: NonceStore, executor: Executor)
    returns (r: Response, ghost marked: Option<NonceKey>, ghost ran: Option<ExecutionRequest>)
    modifies store, executor`log
    ensures Effect(old(store.used), store.used, old(executor.log), executor.log, marked, ran)
    ensures marked.Some? <==> Entitled(c, env, old(store.used))
    ensures marked.Some? ==>
      KeyFor(marked.value, c.parsed.value) && store.used[marked.value] == c.parsed.value.expiresAt
    ensures r.nonceConsumed ==> marked.Some?
    ensures ran.Some? ==> UserConfirmed(c) && ran.value == ExecutionRequest(c.parsed.value.context.wallet, c.parsed.value.context.action)
    ensures r.status == Allowed ==> ran.Some? && r.nonceConsumed
    ensures FirstRejection(c).Some? ==> StopsWith(r, FirstRejection(c).value) && Flagged(r, FirstRejection(c).value.boundary, c)
    ensures FirstRejection(c).None? && ran.None? ==> r.eqcAllowed && r.wsqkAllowed && Reportable(r.reason, known)
    ensures FirstRejection(c).Some? && SoundCall(c, known) ==> r.reason == FirstRejection(c).value.reason
    ensures ran.Some? <==> marked.Some? && UserConfirmed(c) && EvidenceAgrees(c)
    ensures SoundCall(c, known) ==> (ran.Some? <==> marked.Some? && UserConfirmed(c))
    ensures ran.Some? ==>
      r == match executor.raises(|old(executor.log)|)
           case None => Response(Allowed, OK_ALLOW, true, true, true, true)
           case Some(x) => Handled(x)
    ensures marked.Some? && ran.None? ==> r.status == Denied && r.tvaAllowed && r.nonceConsumed
    ensures FirstRejection(c).None? && marked.None? ==> r.status == Denied && !r.tvaAllowed && !r.nonceConsumed
    ensures SoundCall(c, known) && marked.Some? && !UserConfirmed(c) ==> r.reason == DENY_AUTHORITY_INSUFFICIENT
    ensures SoundCall(c, known) && FirstRejection(c).None? && marked.None? ==>
      NamesFault(r, c, known, env, old(store.used))
  {
    hide FirstWrong, FaultName, IsReason, FirstRejection, SoundCall, Authorizes, ExtractAuthority, CallEvidence, Strip;
    hide Entitled, UserConfirmed, Cuts, Called, ReasonFromMessage, EvidenceAgrees, Flagged;
    TruthExactly(c, env, store.used);
    ConfirmedExactly(c);
    marked, ran := None, None;
    var stopped := CheckBoundaries(c, known);
    if stopped.Some? { return stopped.value, None, None; }
    Reached(c);
    var e := c.parsed.value;
    ExtractedIsBound(BindingOf(e), e.proofs);
    CutExactly(e.nonce);
    if SoundCall(c, known) { SoundAgrees(c, known); }
    var human := HumanGate(c.uiConfirmed, e.fields);
    var fault := EnforceTva(ClaimOf(c, e), store, env);
    if fault.None? { marked := Some(EnvelopeKey(e)); } else { FaultKept(fault.value, known); }
    var replay := if fault.None? then Passing("replay") else Failing("replay", ReasonFromMessage(FaultName(fault.value), known));
    var allowed, reason := DecideExecution(c, replay, human, known);
    if !allowed {
      r := Response(Denied, reason, fault.None?, true, true, fault.None?);
      return;
    }
    var request := ExecutionRequest(e.context.wallet, e.context.action);
    var raised := executor.Execute(request);
    ran := Some(request);
    r := if raised.Some? then Handled(raised.value) else Response(Allowed, OK_ALLOW, true, true, true, true);
  }

  /** A fault is passed on by its name if that is a reason, and else as a schema error. */
  lemma FaultKept(f: TvaFault, known: string -> bool)
    ensures Called(f, FaultName(f))
    ensures IsReason(FaultName(f), known) ==> ReasonFromMessage(FaultName(f), known) == FaultName(f)
    ensures !known(FaultName(f)) ==> ReasonFromMessage(FaultName(f), known) == SCHEMA_INVALID
  {
    hide Called, FaultName, Blank;
    FaultsCalled(f);
  }

  lemma Reached(c: HostCall)
    requires FirstRejection(c).None?
    ensures c.parsed.Ok? && ShieldStop(c.shield).None?
    ensures ExtractAuthority(BindingOf(c.parsed.value), c.parsed.value.proofs).Some?
  {
    hide ExtractAuthority;
  }

  /** The last question to the engine. */
  method DecideExecution(c: HostCall, replay: Local, human: Local, known: string -> bool) returns (allowed: bool, reason: string)
    requires c.parsed.Ok? && ShieldStop(c.shield).None?
    requires replay == Passing("replay") || exists why :: replay == Failing("replay", why)
    requires human == Passing("human") || human == Failing("human", DENY_AUTHORITY_INSUFFICIENT)
    ensures allowed <==> replay.passed && human.passed && EvidenceAgrees(c)
    ensures Reportable(reason, known)
    ensures SoundCall(c, known) && replay.passed && !human.passed ==> reason == DENY_AUTHORITY_INSUFFICIENT
    ensures SoundCall(c, known) && !replay.passed && IsReason(replay.reason, known) ==> reason == replay.reason
  {
    hide EvidencePasses, CallEvidence, SoundCall, ShieldStop, DecidesFor, FirstFailure, GateObjection, IsReason,
      EvidenceAgrees;
    var context := c.parsed.value.context.contextHash;
    var evidence := CallEvidence(c, context);
    EvidenceCount(c, context);
    var local := [replay, Passing("wallet_policy"), human];
    var q := Inputs(evidence, local, context, WBool(false));
    var d := EvaluateFinalPolicy(q, known);
    allowed := d.state == AllowFinalDecision;
    reason := DeniedResponse(d, false, true, true, false, known).reason;
    AllowedExactly(c, q, replay, human);
    if SoundCall(c, known) {
      CallEvidencePasses(c, known);
      SoundFacts(c, known);
      if replay.passed && !human.passed {
        LocalDecides(evidence, local, context, 2, DENY_AUTHORITY_INSUFFICIENT, known);
        DecidedReason(q, d, DENY_AUTHORITY_INSUFFICIENT, known);
      }
      if !replay.passed && IsReason(replay.reason, known) {
        LocalDecides(evidence, local, context, 0, replay.reason, known);
        DecidedReason(q, d, replay.reason, known);
      }
    }
  }

  lemma EvidenceCount(c: HostCall, context: string)
    ensures |CallEvidence(c, context)| == 5
  {
  }

  /** The engine allows exactly when both gates pass and the evidence agrees. */
  lemma AllowedExactly(c: HostCall, q: Inputs, replay: Local, human: Local)
    requires c.parsed.Ok? && ShieldStop(c.shield).None? && |q.evidence| == 5
    requires q == Inputs(CallEvidence(c, q.context), [replay, Passing("wallet_policy"), human], q.context, WBool(false))
    requires q.context == c.parsed.value.context.contextHash
    requires replay == Passing("replay") || exists why :: replay == Failing("replay", why)
    requires human == Passing("human") || human == Failing("human", DENY_AUTHORITY_INSUFFICIENT)
    ensures WellPosed(q) && AllPass(q) <==> replay.passed && human.passed && EvidenceAgrees(c)
  {
    hide EvidencePasses, CallEvidence, ShieldBinds, ShieldStop, IsHex64;
    CallEvidenceExactly(c);
    if WellPosed(q) && AllPass(q) {
      LocalsPassed(q);
      forall j | 0 <= j < 5 ensures EvidencePasses(GATES[j], q.evidence[j], q.context, false) { assert GatePasses(q, j); }
    }
    if replay.passed && human.passed && EvidenceAgrees(c) { AllGatesPass(q); }
  }

  lemma LocalsPassed(q: Inputs)
    requires Complete(q) && WellPosed(q) && AllPass(q)
    ensures q.local[0].LocalGate? && q.local[0].passed && q.local[2].LocalGate? && q.local[2].passed
  {
    hide EvidencePasses;
    assert GatePasses(q, 5) && GatePasses(q, 7);
  }

  lemma SoundFacts(c: HostCall, known: string -> bool)
    requires c.parsed.Ok? && SoundCall(c, known)
    ensures IsHex64(c.parsed.value.context.contextHash) && IsReason(DENY_AUTHORITY_INSUFFICIENT, known)
  {
    hide IsReason, IsHex64;
  }

  lemma AllGatesPass(q: Inputs)
    requires Complete(q) && IsHex64(q.context) && q.v4Flag == WBool(false)
    requires forall j :: 0 <= j < 5 ==> EvidencePasses(GATES[j], q.evidence[j], q.context, false)
    requires q.local == LOCAL_PASSING
    ensures WellPosed(q) && AllPass(q)
  {
    hide EvidencePasses, IsHex64;
    forall k | 0 <= k < 8 ensures GatePasses(q, k) { VisitedGrows(k); }
  }

  lemma DecidedReason(q: Inputs, d: Decision, reason: string, known: string -> bool)
    requires Complete(q) && q.v4Flag == WBool(false) && IsReason(reason, known)
    requires DecidesFor(q.evidence, q.local, q.context, reason, known)
    requires WellPosed(q) && !AllPass(q) ==> exists k :: FirstFailure(q, k) && GateObjection(q, k, known) == Some(d)
    ensures d.state != AllowFinalDecision
    ensures DeniedResponse(d, false, true, true, false, known).reason == reason
  {
    hide WellPosed, AllPass, FirstFailure, GateObjection;
    assert q == Inputs(q.evidence, q.local, q.context, WBool(false));
  }

  // --------------------------------------------------------- sequences of calls

  /** Which key each execution ran under. */
  datatype Execution = Execution(key: NonceKey, request: ExecutionRequest)

  function Requests(history: seq<Execution>): seq<ExecutionRequest> {
    seq(|history|, i requires 0 <= i < |history| => history[i].request)
  }

  ghost predicate KeptBy(before: map<NonceKey, int>, after: map<NonceKey, int>) {
    forall key :: key in before ==> key in after && after[key] == before[key]
  }

  /** Every execution in the history had a fresh key of its own, now used up. */
  ghost predicate AtMostOnce(history: seq<Execution>, before: map<NonceKey, int>, after: map<NonceKey, int>) {
    && (forall i, j :: 0 <= i < j < |history| ==> history[i].key != history[j].key)
    && (forall i :: 0 <= i < |history| ==> history[i].key !in before && history[i].key in after)
    && forall i :: 0 <= i < |history| ==> history[i].key.0 == history[i].request.wallet
  }

  /**
   * Any sequence of calls over one store: whatever the payloads, the clocks and the adapters, no (wallet, nonce) is
   * executed twice, none that was used before is executed at all, and no mark is ever lost.
   */
  method RunCalls(cs: seq<HostCall>, known: string -> bool, env: WsqkEnv, store: NonceStore, executor: Executor)
    returns (rs: seq<Response>, ghost history: seq<Execution>)
    modifies store, executor`log
    ensures |rs| == |cs|
    ensures executor.log == old(executor.log) + Requests(history)
    ensures AtMostOnce(history, old(store.used), store.used)
    ensures KeptBy(old(store.used), store.used)
  {
    hide Entitled, FirstRejection, SoundCall, UserConfirmed, StopsWith, KeyFor;
    rs, history := [], [];
    for i := 0 to |cs|
      invariant |rs| == i && executor.log == old(executor.log) + Requests(history)
      invariant AtMostOnce(history, old(store.used), store.used) && KeptBy(old(store.used), store.used)
    {
      ghost var used1, log1 := store.used, executor.log;
      var r, marked, ran := OrchestrateExecution(cs[i], known, env, store, executor);
      rs := rs + [r];
      if ran.Some? {
        HistoryGrows(history, Execution(marked.value, ran.value), old(store.used), used1, store.used);
        history := history + [Execution(marked.value, ran.value)];
      }
    }
  }

  lemma HistoryGrows(history: seq<Execution>, x: Execution, before: map<NonceKey, int>, used: map<NonceKey, int>,
                     after: map<NonceKey, int>)
    requires AtMostOnce(history, before, used) && KeptBy(before, used) && KeptBy(used, after)
    requires x.key !in used && x.key in after && x.key.0 == x.request.wallet
    ensures AtMostOnce(history + [x], before, after)
    ensures Requests(history + [x]) == Requests(history) + [x.request]
  {
  }
}
