/** What each gate of the final policy engine objects to, and how it puts its objection. */
module PolicyMeaning {
  import opened Wrappers
  import opened Trimming
  import opened ReceiptContract
  import opened ReceiptPipelines
  import opened ReceiptVerifier
  import opened ReceiptMeaning
  import opened VerifierOutcomes
  import opened FinalPolicy

  // ------------------------------------------------------------ hidden authority

  const AUTHORITY_WORDS := {
    "approved", "authority", "auto_approve", "broadcast", "bypass", "can_sign", "execute", "force_allow",
    "grant_execution", "human_approved", "override", "sign", "trusted", "wallet_signing_approval"}

  /** A dict that grants itself something. */
  ghost predicate Grants(v: Wire) {
    v.WDict? && exists k :: k in v.fields && k in AUTHORITY_WORDS && v.fields[k] !in FALSE_VALUES
  }

  /** Somewhere inside, at any depth. */
  ghost predicate GrantsInside(v: Wire) {
    exists part :: Occurs(part, v) && Grants(part)
  }

  lemma {:induction false} ForbiddenInExactly(v: Wire)
    ensures ForbiddenIn(v) <==> GrantsInside(v)
  {
    match v
    case WDict(fields) =>
      forall k | k in fields ensures ForbiddenIn(fields[k]) <==> GrantsInside(fields[k]) { ForbiddenInExactly(fields[k]); }
      GrantsInDict(fields);
    case WList(items) =>
      forall i | 0 <= i < |items| ensures ForbiddenIn(items[i]) <==> GrantsInside(items[i]) { ForbiddenInExactly(items[i]); }
      GrantsInList(items);
    case _ =>
  }

  lemma GrantsInDict(fields: map<string, Wire>)
    requires forall k :: k in fields ==> (ForbiddenIn(fields[k]) <==> GrantsInside(fields[k]))
    ensures ForbiddenIn(WDict(fields)) <==> GrantsInside(WDict(fields))
  {
    hide Truthy;
    var v := WDict(fields);
    forall k | k in fields ensures Truthy(fields[k]) <==> fields[k] !in FALSE_VALUES { TruthyExactly(fields[k]); }
    if ForbiddenIn(v) {
      if k :| k in fields && k in FORBIDDEN_AUTHORITY && Truthy(fields[k]) {
        assert Occurs(v, v) && Grants(v);
      } else {
        var k :| k in fields && ForbiddenIn(fields[k]);
        var part :| Occurs(part, fields[k]) && Grants(part);
        assert Occurs(part, v);
      }
    }
    if part :| Occurs(part, v) && Grants(part) {
      if part != v {
        var k :| k in fields && Occurs(part, fields[k]);
        assert ForbiddenIn(fields[k]);
      }
    }
  }

  lemma GrantsInList(items: seq<Wire>)
    requires forall i :: 0 <= i < |items| ==> (ForbiddenIn(items[i]) <==> GrantsInside(items[i]))
    ensures ForbiddenIn(WList(items)) <==> GrantsInside(WList(items))
  {
    var v := WList(items);
    if ForbiddenIn(v) {
      var i :| 0 <= i < |items| && ForbiddenIn(items[i]);
      var part :| Occurs(part, items[i]) && Grants(part);
      assert Occurs(part, v);
    }
    if part :| Occurs(part, v) && Grants(part) {
      var i :| 0 <= i < |items| && Occurs(part, items[i]);
      assert ForbiddenIn(items[i]);
    }
  }

  /** The attributes the engine searches: all but the two it asks about outright. */
  function Attributes(e: Evidence): set<Wire> {
    match e
    case Missing => {}
    case Bare(items) => {WDict(items)}
    case Object(state, outcome, finalOutcome, _, _, accepted, contextHash, reason, dominant, verified, receipt, summary, others) =>
      {state, outcome, finalOutcome, accepted, contextHash, reason, dominant, verified, receipt, summary, WDict(others)}
  }

  lemma HiddenExactly(e: Evidence)
    ensures HiddenAuthority(e) <==> exists v :: v in Attributes(e) && GrantsInside(v)
  {
    hide ForbiddenIn, GrantsInside, HiddenAuthority, Attributes;
    forall v ensures ForbiddenIn(v) <==> GrantsInside(v) { ForbiddenInExactly(v); }
    HiddenInAttributes(e);
  }

  lemma HiddenInAttributes(e: Evidence)
    ensures HiddenAuthority(e) <==> exists v :: v in Attributes(e) && ForbiddenIn(v)
  {
    hide ForbiddenIn;
    if e.Object? {
      var items := [e.state, e.outcome, e.finalOutcome, e.accepted, e.contextHash, e.reason, e.verified];
      ListForbidden(items);
      forall v ensures v in Attributes(e) <==> v in items || v in {e.dominant, e.receipt, e.summary, WDict(e.others)} {
        AttributeListed(e, v);
      }
    }
    if e.Bare? { assert WDict(e.items) in Attributes(e); }
  }

  lemma AttributeListed(e: Evidence, v: Wire)
    requires e.Object?
    ensures var items := [e.state, e.outcome, e.finalOutcome, e.accepted, e.contextHash, e.reason, e.verified];
      v in Attributes(e) <==> v in items || v in {e.dominant, e.receipt, e.summary, WDict(e.others)}
  {
  }

  lemma ListForbidden(items: seq<Wire>)
    ensures ForbiddenIn(WList(items)) <==> exists v :: v in items && ForbiddenIn(v)
  {
    if ForbiddenIn(WList(items)) {
      var i :| 0 <= i < |items| && ForbiddenIn(items[i]);
      assert items[i] in items;
    }
  }

  // ------------------------------------------------------------------- reasons

  predicate StatedText(v: Wire) {
    v.WText? && !Spaces(v.s)
  }

  function Counted(items: seq<Wire>): nat {
    if items == [] then 0 else (if StatedText(items[0]) then 1 else 0) + Counted(items[1..])
  }

  /** ss are the non-blank texts of the list, each at the place that the number of those before it gives it. */
  ghost predicate Picks(items: seq<Wire>, ss: seq<string>) {
    && |ss| == Counted(items)
    && forall i :: 0 <= i < |items| && StatedText(items[i]) ==>
         Counted(items[..i]) < |ss| && items[i] == WText(ss[Counted(items[..i])])
  }

  lemma BlankExactly(s: string)
    ensures Blank(s) <==> Spaces(s)
  {
    StripExactly(s, "");
    if Spaces(s) { assert s == s + "" + "" && Spaces(""); }
    if Blank(s) {
      var before, after :| Spaces(before) && Spaces(after) && s == before + "" + after;
      assert s == before + after;
    }
  }

  lemma TextStated(v: Wire)
    ensures StatedText(v) <==> v.WText? && !Blank(v.s)
  {
    hide Blank, Spaces;
    if v.WText? { BlankExactly(v.s); }
  }

  lemma {:induction false} StatedExactly(items: seq<Wire>)
    ensures Picks(items, StatedItems(items))
  {
    hide Blank, StatedText;
    if items != [] {
      var rest := items[1..];
      TextStated(items[0]);
      StatedExactly(rest);
      forall i | 0 < i < |items| && StatedText(items[i])
        ensures Counted(items[..i]) == Counted(items[..1]) + Counted(rest[..i - 1])
        ensures Counted(rest[..i - 1]) < |StatedItems(rest)| && items[i] == WText(StatedItems(rest)[Counted(rest[..i - 1])])
      {
        assert items[..i][1..] == rest[..i - 1] && items[..1][1..] == [];
        assert rest[i - 1] == items[i];
      }
    }
  }

  function ListOf(v: Wire): seq<Wire> {
    if v.WList? then v.items else []
  }

  /** A reason the enumeration does not know is called unknown. */
  predicate Becomes(s: string, reason: string, known: string -> bool) {
    if !Spaces(s) && known(s) then reason == s else reason == "UNKNOWN_EXTERNAL_REASON"
  }

  /** The reason is the first stated one, or else the evidence's own, or else the gate's. */
  ghost predicate GivesReason(e: Evidence, fallback: string, known: string -> bool, reason: string) {
    exists ss ::
      && Picks(ListOf(DominantOf(e)), ss)
      && if ss != [] then Becomes(ss[0], reason, known)
         else if e.Object? && e.reason.WText? then Becomes(e.reason.s, reason, known)
         else reason == fallback
  }

  /** And so are the dominant reasons, all of them. */
  ghost predicate GivesReasons(e: Evidence, reason: string, known: string -> bool, reasons: seq<string>) {
    exists ss ::
      && Picks(ListOf(DominantOf(e)), ss)
      && if ss != [] then |reasons| == |ss| && forall i :: 0 <= i < |ss| ==> Becomes(ss[i], reasons[i], known)
         else reasons == [reason]
  }

  lemma SafeBecomes(s: string, known: string -> bool)
    ensures Becomes(s, SafeReason(s, known), known)
  {
    hide Blank, Spaces;
    BlankExactly(s);
  }

  lemma ReasonGiven(e: Evidence, fallback: string, known: string -> bool)
    ensures GivesReason(e, fallback, known, FirstReason(e, fallback, known))
    ensures GivesReasons(e, FirstReason(e, fallback, known), known, DominantReasons(e, fallback, known))
  {
    hide SafeReason, Becomes, Picks;
    var items := ListOf(DominantOf(e));
    StatedExactly(items);
    var ss := StatedItems(items);
    assert ss == Stated(DominantOf(e));
    forall s ensures Becomes(s, SafeReason(s, known), known) { SafeBecomes(s, known); }
    assert Picks(items, ss);
  }

  // ----------------------------------------------------------- Shield v4 demand

  predicate HasBoth(v: Wire) {
    && v.WDict? && "verified_algorithms" in v.fields
    && Iterates(v.fields["verified_algorithms"], "classical-ed25519") && Iterates(v.fields["verified_algorithms"], "ml-dsa")
  }

  lemma BothExactly(v: Wire)
    ensures NamesBoth(v) <==> HasBoth(v)
  {
  }

  const FIVE := {"adn", "dqsn", "guardian_wallet", "qwg", "sentinel_ai"}

  /** One or more summaries for each of the five components and for no other, each with both algorithms. */
  ghost predicate CoversFive(v: Wire) {
    && v.WList?
    && (forall i :: 0 <= i < |v.items| ==>
          HasBoth(v.items[i]) && exists id :: id in FIVE && Field(v.items[i], "component_id") == WText(id))
    && forall id :: id in FIVE ==> exists i :: 0 <= i < |v.items| && Field(v.items[i], "component_id") == WText(id)
  }

  lemma FiveExactly(v: Wire)
    ensures ComponentsSatisfy(v) <==> CoversFive(v)
  {
    hide NamesBoth, HasBoth, Field;
    forall w ensures NamesBoth(w) <==> HasBoth(w) { BothExactly(w); }
    if v.WList? {
      var ids := seq(|v.items|, i requires 0 <= i < |v.items| => Field(v.items[i], "component_id"));
      var got := set i | 0 <= i < |v.items| :: Field(v.items[i], "component_id");
      forall w ensures w in got <==> w in ids {
        if w in ids {
          var i :| 0 <= i < |ids| && ids[i] == w;
          assert Field(v.items[i], "component_id") in got;
        }
        if w in got {
          var i :| 0 <= i < |v.items| && w == Field(v.items[i], "component_id");
          assert ids[i] == w;
        }
      }
      FiveIds(ids, got);
      assert forall i :: 0 <= i < |ids| ==> ids[i] == Field(v.items[i], "component_id");
    }
  }

  lemma FiveIds(ids: seq<Wire>, got: set<Wire>)
    requires forall w :: w in got <==> w in ids
    ensures got == (set id | id in COMPONENT_ROLES :: WText(id)) <==>
      (forall i :: 0 <= i < |ids| ==> exists id :: id in FIVE && ids[i] == WText(id))
      && forall id :: id in FIVE ==> exists i :: 0 <= i < |ids| && ids[i] == WText(id)
  {
    var wanted := set id | id in FIVE :: WText(id);
    assert COMPONENT_ROLES.Keys == FIVE;
    assert (set id | id in COMPONENT_ROLES :: WText(id)) == wanted;
    hide FIVE, COMPONENT_ROLES;
    forall w ensures w in wanted <==> exists id :: id in FIVE && w == WText(id) {}
    if got == wanted {
      forall i | 0 <= i < |ids| ensures exists id :: id in FIVE && ids[i] == WText(id) { assert ids[i] in got; }
      forall id | id in FIVE ensures exists i :: 0 <= i < |ids| && ids[i] == WText(id) { assert WText(id) in got; }
    }
  }

  /** The seven demands, in order. */
  ghost predicate LacksV4(e: Evidence, demand: nat)
    requires e.Object?
  {
    match demand
    case 0 => e.verified != WBool(true)
    case 1 => !e.receipt.WDict?
    case 2 => Field(e.receipt, "schema_version") != WText("shield.receipt.v2") || Field(e.receipt, "contract_version") != WInt(4)
    case 3 => !e.summary.WDict?
    case 4 => Field(e.summary, "policy_version") != WText("policy.v1")
    case 5 => !HasBoth(Field(e.summary, "orchestrator"))
    case 6 => !CoversFive(Field(e.summary, "components"))
    case _ => false
  }

  function DemandName(demand: nat): string {
    match demand
    case 0 => "SHIELD_V4_VERIFIED_RESULT_REQUIRED"
    case 1 => "SHIELD_V4_RECEIPT_REQUIRED"
    case 2 => "SHIELD_V4_DOWNGRADE_REJECTED"
    case 3 => "SHIELD_V4_VERIFICATION_SUMMARY_REQUIRED"
    case 4 => "SHIELD_V4_POLICY_REQUIRED"
    case 5 => "SHIELD_V4_ORCHESTRATOR_SIGNATURE_SUMMARY_REQUIRED"
    case _ => "SHIELD_V4_COMPONENT_SIGNATURE_SUMMARY_REQUIRED"
  }

  ghost predicate FirstLackV4(e: Evidence, demand: nat)
    requires e.Object?
  {
    LacksV4(e, demand) && forall j: nat :: j < demand ==> !LacksV4(e, j)
  }

  /** The first demand that is not met is named; none is exactly when all are met. */
  lemma ShieldV4Exactly(e: Evidence)
    requires e.Object?
    ensures ShieldV4Failure(e).None? <==> forall j: nat :: !LacksV4(e, j)
    ensures ShieldV4Failure(e).Some? ==>
      exists j: nat :: FirstLackV4(e, j) && ShieldV4Failure(e).value == DemandName(j)
  {
    hide NamesBoth, HasBoth, Field, ComponentsSatisfy, CoversFive;
    BothExactly(Field(e.summary, "orchestrator"));
    FiveExactly(Field(e.summary, "components"));
    ShieldV4Ordered(e);
  }

  lemma ShieldV4Ordered(e: Evidence)
    requires e.Object? && (NamesBoth(Field(e.summary, "orchestrator")) <==> HasBoth(Field(e.summary, "orchestrator")))
    requires ComponentsSatisfy(Field(e.summary, "components")) <==> CoversFive(Field(e.summary, "components"))
    ensures ShieldV4Failure(e).None? <==> forall j: nat :: !LacksV4(e, j)
    ensures ShieldV4Failure(e).Some? ==>
      exists j: nat :: FirstLackV4(e, j) && ShieldV4Failure(e).value == DemandName(j)
  {
    hide NamesBoth, HasBoth, Field, ComponentsSatisfy, CoversFive;
    var j: nat := if LacksV4(e, 0) then 0 else if LacksV4(e, 1) then 1 else if LacksV4(e, 2) then 2 else if LacksV4(e, 3) then 3
                  else if LacksV4(e, 4) then 4 else if LacksV4(e, 5) then 5 else 6;
    if LacksV4(e, j) { assert FirstLackV4(e, j); }
  }

  // -------------------------------------------------------------------- gates

  /** What an evidence gate may object to. */
  datatype Grievance =
    | NoEvidence | ClaimsApproval | HidesAuthority | NotAccepted | FallsShort | NotHandedOff | OtherContext | WantsReview

  /** When it is asked. */
  function Turn(g: Grievance): nat {
    match g
    case NoEvidence => 0
    case ClaimsApproval => 1
    case HidesAuthority => 2
    case NotAccepted => 3
    case FallsShort => 4
    case NotHandedOff => 5
    case OtherContext => 6
    case WantsReview => 7
  }

  /** The evidence gives cause. */
  ghost predicate Cause(g: Grievance, gate: string, e: Evidence, context: string, v4Required: bool) {
    match g
    case NoEvidence => e.Missing?
    case ClaimsApproval => e.Object? && e.finalApproval !in FALSE_VALUES
    case HidesAuthority => exists v :: v in Attributes(e) && GrantsInside(v)
    case NotAccepted => !e.Object? || e.accepted != WBool(true)
    case FallsShort => gate == "shield" && v4Required && e.Object? && exists j: nat :: LacksV4(e, j)
    case NotHandedOff => e.Object? && e.handoffAllowed != WBool(true)
    case OtherContext => e.Object? && e.contextHash != WText(context)
    case WantsReview => e.Object? && WText("HUMAN_REVIEW_REQUIRED") in {e.state, e.outcome, e.finalOutcome}
  }

  /** The state, the reason and the dominant reasons that go with it. */
  ghost predicate Voices(d: Decision, g: Grievance, gate: string, e: Evidence, known: string -> bool) {
    match g
    case NoEvidence =>
      d.state == DenyMissingEvidence && d.reason == "DENY_POLICY" && d.dominant == ["MISSING_EVIDENCE:" + gate]
    case ClaimsApproval =>
      && d.state == DenyAuthorityBypass && d.reason == "DENY_AUTHORITY_INVALID"
      && d.dominant == ["UPSTREAM_FINAL_APPROVAL_BYPASS:" + gate]
    case HidesAuthority =>
      && d.state == DenyAuthorityBypass && d.reason == "DENY_AUTHORITY_INVALID"
      && d.dominant == ["HIDDEN_AUTHORITY_BYPASS:" + gate]
    case NotAccepted =>
      && d.state == DenyEvidenceRejected && GivesReason(e, "DENY_POLICY", known, d.reason)
      && GivesReasons(e, d.reason, known, d.dominant)
    case FallsShort =>
      && d.state == DenyShieldV4Required && d.reason == "EQC_INVALID_SHIELD_BUNDLE" && e.Object?
      && exists j: nat :: FirstLackV4(e, j) && d.dominant == [DemandName(j)]
    case NotHandedOff =>
      && d.state == DenyHandoffBlocked && GivesReason(e, "DENY_POLICY", known, d.reason)
      && GivesReasons(e, d.reason, known, d.dominant)
    case OtherContext =>
      d.state == DenyContextMismatch && d.reason == "EQC_CONFLICTING_EVIDENCE" && d.dominant == ["CONTEXT_MISMATCH:" + gate]
    case WantsReview =>
      && d.state == HumanReviewRequired && GivesReason(e, "DENY_AUTHORITY_INSUFFICIENT", known, d.reason)
      && GivesReasons(e, d.reason, known, d.dominant)
  }

  ghost predicate FirstCause(g: Grievance, gate: string, e: Evidence, context: string, v4Required: bool) {
    && Cause(g, gate, e, context, v4Required)
    && forall h :: Turn(h) < Turn(g) ==> !Cause(h, gate, e, context, v4Required)
  }

  /** An evidence gate voices the first cause there is, and is silent exactly when there is none. */
  lemma EvidenceSays(gate: string, e: Evidence, order: seq<string>, context: string, v4Required: bool, known: string -> bool)
    ensures var o := EvidenceObjection(gate, e, order, context, v4Required, known);
      && (o.None? <==> forall g :: !Cause(g, gate, e, context, v4Required))
      && (o.Some? ==> o.value.stoppedAt == gate && o.value.order == order && !o.value.finalApproval && !o.value.handoffAllowed)
      && (o.Some? ==> exists g :: FirstCause(g, gate, e, context, v4Required) && Voices(o.value, g, gate, e, known))
  {
    hide HiddenAuthority, Truthy, GrantsInside, Attributes, LacksV4, ShieldV4Failure, FirstReason, DominantReasons,
      GivesReason, GivesReasons, FirstLackV4, FALSE_VALUES, DemandName;
    HiddenExactly(e);
    if e.Object? {
      TruthyExactly(e.finalApproval);
      ShieldV4Exactly(e);
    }
    ReasonGiven(e, "DENY_POLICY", known);
    ReasonGiven(e, "DENY_AUTHORITY_INSUFFICIENT", known);
    var o := EvidenceObjection(gate, e, order, context, v4Required, known);
    if o.Some? {
      var g := if Cause(NoEvidence, gate, e, context, v4Required) then NoEvidence
               else if Cause(ClaimsApproval, gate, e, context, v4Required) then ClaimsApproval
               else if Cause(HidesAuthority, gate, e, context, v4Required) then HidesAuthority
               else if Cause(NotAccepted, gate, e, context, v4Required) then NotAccepted
               else if Cause(FallsShort, gate, e, context, v4Required) then FallsShort
               else if Cause(NotHandedOff, gate, e, context, v4Required) then NotHandedOff
               else if Cause(OtherContext, gate, e, context, v4Required) then OtherContext
               else WantsReview;
      assert FirstCause(g, gate, e, context, v4Required) && Voices(o.value, g, gate, e, known);
    }
  }

  predicate DenialOf(gate: string, state: EngineState) {
    match state
    case DenyReplayGate => gate == "replay"
    case DenyWalletPolicyGate => gate == "wallet_policy"
    case DenyHumanGate => gate == "human"
    case _ => false
  }

  /** How a local gate denies: it is no result of this gate, or it did not pass, or it wants a human. */
  predicate LocalVoices(d: Decision, gate: string, l: Local, known: string -> bool) {
    if !(l.LocalGate? && l.gate == gate) then
      d.state == DenyGateShapeInvalid && d.reason == "DENY_POLICY" && d.dominant == ["INVALID_LOCAL_GATE:" + gate]
    else if !l.passed then
      DenialOf(gate, d.state) && d.reason == l.reason && |d.dominant| == 1 && Becomes(l.reason, d.dominant[0], known)
    else
      && l.requiresHumanReview && d.state == HumanReviewRequired && Becomes(l.reason, d.reason, known)
      && d.dominant == [d.reason]
  }

  lemma LocalSays(gate: string, l: Local, order: seq<string>, known: string -> bool)
    requires gate in LOCAL_GATES
    ensures var o := LocalObjection(gate, l, order, known);
      && (o.None? <==> l.LocalGate? && l.gate == gate && l.passed && !l.requiresHumanReview)
      && (o.Some? ==> o.value.stoppedAt == gate && o.value.order == order && !o.value.finalApproval && !o.value.handoffAllowed)
      && (o.Some? ==> LocalVoices(o.value, gate, l, known))
  {
    hide SafeReason, Becomes;
    if l.LocalGate? { SafeBecomes(l.reason, known); }
    assert gate in {"replay", "wallet_policy", "human"};
  }

  const EIGHT: seq<string> :=
    ["shield", "wsqk_v2", "qid", "adaptive_core", "ai_gateway", "replay", "wallet_policy", "human"]

  lemma EightGates()
    ensures GATES == EIGHT && |EIGHT| == 8 && forall k :: 5 <= k < 8 ==> EIGHT[k] in LOCAL_GATES
  {
  }

  /** The first gate that does not pass decides, and says why, whatever the later ones would have said. */
  lemma DecisionSays(q: Inputs, k: nat, d: Decision, known: string -> bool)
    requires Complete(q) && WellPosed(q) && FirstFailure(q, k) && GateObjection(q, k, known) == Some(d)
    ensures d.stoppedAt == EIGHT[k] && d.order == EIGHT[..k + 1] && !d.finalApproval && !d.handoffAllowed
    ensures k < 5 ==> exists g ::
      FirstCause(g, EIGHT[k], q.evidence[k], q.context, q.v4Flag.b) && Voices(d, g, EIGHT[k], q.evidence[k], known)
    ensures k >= 5 ==> LocalVoices(d, EIGHT[k], q.local[k - 5], known)
  {
    hide EvidenceObjection, LocalObjection, FirstCause, Voices, LocalVoices, EvidencePasses, LocalPasses, GATES,
      IsHex64;
    EightGates();
    if k < 5 {
      EvidenceSays(EIGHT[k], q.evidence[k], EIGHT[..k + 1], q.context, q.v4Flag.b, known);
    } else {
      LocalSays(EIGHT[k], q.local[k - 5], EIGHT[..k + 1], known);
    }
  }
}
