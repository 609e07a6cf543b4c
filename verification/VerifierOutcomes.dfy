/** What each outcome of the verifier says about the receipt, and why each refusal was given. */
module VerifierOutcomes {
  import opened Wrappers
  import opened Trimming
  import opened ReceiptContract
  import opened ReceiptPipelines
  import opened ReceiptStaging
  import opened ReceiptMeaning
  import opened KeyRegistry
  import opened VerificationWaves
  import opened BundleResolution
  import opened Identifiers
  import opened ReceiptVerifier

  // ---------------------------------------------------------------- verified

  /** The values that do not count as true. */
  const FALSE_VALUES := {WNull, WBool(false), WInt(0), WText(""), WList([]), WDict(map[])}

  function HandoffValue(r: Wire): Wire {
    Field(Field(r, "adamantineos_handoff"), "handoff_allowed")
  }

  lemma TruthyExactly(v: Wire)
    ensures Truthy(v) <==> v !in FALSE_VALUES
  {
  }

  /** The decisions of a receipt's components. */
  predicate AllAllow(r: Wire) {
    forall i :: 0 <= i < |Components(r)| ==> Field(Components(r)[i], "decision") == WText("ALLOW")
  }

  predicate SomeDeny(r: Wire) {
    exists i :: 0 <= i < |Components(r)| && Field(Components(r)[i], "decision") in {WText("DENY"), WText("ERROR")}
  }

  const DECISIONS := {WText("ALLOW"), WText("ESCALATE"), WText("DENY"), WText("ERROR"), WText("SKIPPED")}

  lemma DecisionsKnown(r: Wire, context: string, env: Oracles)
    requires ReceiptHolds(r, context, env)
    ensures Field(r, "final_outcome") == WText(ExpectedOutcome(Components(r)))
    ensures forall i :: 0 <= i < |Components(r)| ==> Field(Components(r)[i], "decision") in DECISIONS
  {
    hide ReceiptHeaderHolds, ReceiptBodyHolds, ComponentBodyHolds, HashText, ExpectedOutcome, FieldsMatch, NonEmpty;
    forall i | 0 <= i < |Components(r)|
      ensures Field(Components(r)[i], "decision").WText? && Field(Components(r)[i], "decision").s in COMPONENT_DECISIONS
    {
      assert ComponentHeaderHolds(Components(r)[i]);
    }
  }

  /**
   * A verified receipt is reported with the state its components' decisions ask for: denial before review before
   * allowance; and it is reported to hand off exactly when its handoff value counts as true.
   */
  lemma VerifiedSays(r: Wire, context: string, env: Oracles)
    requires ReceiptHolds(r, context, env) && WaveOutcome(r, None).Verified?
    ensures var o := WaveOutcome(r, None);
      && (o.state == VerifiedDeny <==> SomeDeny(r)) && (o.state == VerifiedAllow <==> AllAllow(r))
      && (o.state == VerifiedHumanReview <==> !SomeDeny(r) && !AllAllow(r))
      && Field(r, "final_outcome") == WText(o.finalOutcome)
      && (o.handoffAllowed <==> HandoffValue(r) !in FALSE_VALUES)
  {
    hide ReceiptHolds, ExpectedOutcome, Truthy, Components, Field;
    DecisionsKnown(r, context, env);
    OutcomeExact(Components(r));
    OutcomeWords(Components(r));
    TruthyExactly(HandoffValue(r));
    hide Denies, Escalates;
    DecisionClasses(r, context, env);
    OutcomesDiffer();
  }

  lemma DecisionClasses(r: Wire, context: string, env: Oracles)
    requires ReceiptHolds(r, context, env)
    ensures SomeDeny(r) <==> exists i :: 0 <= i < |Components(r)| && Denies(Components(r)[i])
    ensures AllAllow(r) <==>
      forall i :: 0 <= i < |Components(r)| ==> !Denies(Components(r)[i]) && !Escalates(Components(r)[i])
  {
    hide ReceiptHolds, Components, Field;
    DecisionsKnown(r, context, env);
    DecisionsDiffer();
  }

  lemma DecisionsDiffer()
    ensures "ALLOW" !in {"DENY", "ERROR", "ESCALATE", "SKIPPED"}
  {
    assert |"ALLOW"| == 5 && |"DENY"| == 4 && |"ERROR"| == 5 && |"ESCALATE"| == 8 && |"SKIPPED"| == 7;
    assert "ALLOW"[0] == 'A' && "ERROR"[0] == 'E';
  }

  lemma OutcomesDiffer()
    ensures "ALLOW" != "DENY" && "ALLOW" != "HUMAN_REVIEW_REQUIRED" && "DENY" != "HUMAN_REVIEW_REQUIRED"
  {
    assert |"ALLOW"| == 5 && |"DENY"| == 4 && |"HUMAN_REVIEW_REQUIRED"| == 21;
  }

  /**
   * The contract refuses a handoff of `true` without allowance and no other value, while the result reports every value
   * that counts as true. So a report of handoff fails to mean allowance exactly when such a value is no boolean.
   */
  lemma HandoffMeansAllow(r: Wire, context: string, env: Oracles)
    requires ReceiptHolds(r, context, env) && WaveOutcome(r, None).Verified?
    ensures (WaveOutcome(r, None).handoffAllowed ==> AllAllow(r))
      <==> AllAllow(r) || HandoffValue(r).WBool? || HandoffValue(r) in FALSE_VALUES
  {
    hide ReceiptHeaderHolds, ReceiptBodyHolds, ComponentSetHolds, HashText, ExpectedOutcome, Components, Field,
      AllAllow, SomeDeny;
    VerifiedSays(r, context, env);
    AllowedByAll(r, context, env);
  }

  lemma AllowedByAll(r: Wire, context: string, env: Oracles)
    requires ReceiptHolds(r, context, env)
    ensures Field(r, "final_outcome") == WText("ALLOW") <==> AllAllow(r)
  {
    hide ReceiptHolds, ExpectedOutcome, Components, Field, Denies, Escalates, AllAllow, SomeDeny;
    DecisionsKnown(r, context, env);
    OutcomeExact(Components(r));
    DecisionClasses(r, context, env);
  }

  // ----------------------------------------------------------------- refused

  predicate SomeFault(r: Wire, context: string, env: Oracles, faults: set<ContractFault>) {
    exists f :: f in faults && ReceiptCause(r, context, env, f)
  }

  /** The receipt or one of its bundles has no canonical form, for a reason in the given words. */
  predicate Uncanonicalized(r: Wire, env: Oracles, words: Uncanonical) {
    env.canonicalSize(r) == Err(words) || exists b :: b in Bundles(r) && env.canonicalSize(b) == Err(words)
  }

  predicate AllSized(r: Wire, env: Oracles) {
    CanonicalReceiptFits(r, env) && BundlesSized(r, env)
  }

  ghost predicate Unprepared(r: Wire, env: Oracles) {
    forall pb :: !BundlesPrepared(r, env, pb)
  }

  predicate OfShieldV3(r: Wire) {
    Field(r, "schema_version") == WText("shield.receipt.v1") || Field(r, "contract_version") == WInt(3)
  }

  /** What a refusal in this state says of the request and the receipt. */
  ghost predicate Says(s: State, q: Request, env: Oracles) {
    match s
    case VerifiedAllow => false
    case VerifiedDeny => false
    case VerifiedHumanReview => false
    case InvalidReceipt =>
      || !NamesRequest(q, env) || !PositiveInt(q.minimumRegistry) || q.snapshot.None?
      || SomeFault(q.snapshot.value, TextOf(q.expectedContext), env, {ContractFault.Invalid, ContractFault.Policy})
      || Unprepared(q.snapshot.value, env)
      || !Drains(q.seenRequestIds) || !Drains(q.rejectedHashes) || !AllSized(q.snapshot.value, env)
    case ContextMismatched =>
      && q.snapshot.Some?
      && (SomeFault(q.snapshot.value, TextOf(q.expectedContext), env, {ContractFault.Context})
          || Uncanonicalized(q.snapshot.value, env, ContextWords))
    case Downgraded => q.snapshot.Some? && OfShieldV3(q.snapshot.value)
    case AuthorityBypassing =>
      q.snapshot.Some? && SomeFault(q.snapshot.value, TextOf(q.expectedContext), env, {ContractFault.AuthorityBypass})
    case Tampered =>
      && q.snapshot.Some?
      && (BundleFaultFound(q.snapshot.value, env, EntryHashMismatch)
          || (AllSized(q.snapshot.value, env) && !IntegrityHolds(q.snapshot.value, env)))
    case RequestMismatched => q.snapshot.Some? && Field(q.snapshot.value, "request_id") != q.expectedRequestId
    case SignatureRejected => !q.verifierConfigured
    case ReplayRisk =>
      && q.snapshot.Some?
      && (Listed(q.seenRequestIds, TextOf(Field(q.snapshot.value, "request_id")))
          || Listed(q.rejectedHashes, TextOf(Field(q.snapshot.value, "receipt_hash"))))
    case PolicyRejected => q.snapshot.Some? && (BundleFaultFound(q.snapshot.value, env, DuplicateKey) || TrustIn(q, env, s))
    case RegistryRejected => TrustIn(q, env, s)
    case FreshnessRejected => (NamesRequest(q, env) && !(q.time.WText? && |q.time.s| == 20)) || TrustIn(q, env, s)
  }

  /** The stage of trust that failed first is reported in this state. */
  ghost predicate TrustIn(q: Request, env: Oracles, s: State) {
    && TrustInputs(q)
    && match s
       case RegistryRejected =>
         || q.registry.None? || LoadFault(q.registry.value, env, RegistryFault)
         || Strip(q.time.s) == "" || RegistryUnfit(q, env)
       case FreshnessRejected =>
         || (q.registry.Some? && LoadFault(q.registry.value, env, TimeFault))
         || (q.snapshot.Some? && Strip(q.time.s) != "" && !FreshnessHolds(q.snapshot.value, q.time.s, env))
       case PolicyRejected =>
         exists reg :: RegistryLoads(q, reg, env) && VersionsOf(q, reg) && q.snapshot.Some?
           && FreshnessHolds(q.snapshot.value, q.time.s, env)
       case _ => false
  }

  predicate VersionsOf(q: Request, reg: Registry) {
    q.snapshot.Some? && q.minimumRegistry.WInt? && VersionsHold(q.snapshot.value, reg, q.minimumRegistry.n)
  }

  /** The registry loads, but its version or its keys are not those the receipt needs. */
  ghost predicate RegistryUnfit(q: Request, env: Oracles) {
    exists reg :: RegistryLoads(q, reg, env) && (!VersionsOf(q, reg) || KeyMissing(q, env, reg))
  }

  ghost predicate KeyMissing(q: Request, env: Oracles, reg: Registry) {
    exists pb :: MissesKey(q, env, reg, pb)
  }

  ghost predicate MissesKey(q: Request, env: Oracles, reg: Registry, pb: PreparedBundles) {
    && q.snapshot.Some? && q.time.WText? && BundlesPrepared(q.snapshot.value, env, pb)
    && !KeysHold(q.snapshot.value, pb, reg, q.time.s, env)
  }

  lemma ContractSays(q: Request, env: Oracles, o: Outcome)
    requires q.snapshot.Some? && ContractRefusal(q, env, o)
    ensures o.Refused? && Says(o.state, q, env)
  {
    hide ReceiptCause, TrustIn, Bundles, NamesRequest;
    var r, context := q.snapshot.value, q.expectedContext.s;
    var f :| ReceiptCause(r, context, env, f) && (f == Downgrade <==> IsDowngrade(r))
      && o == Outcome.Refused(ContractState(f), OtherDominant);
    assert SomeFault(r, context, env, {f});
    if f == HashMismatch { NoHashMismatch(r, context, env); }
  }

  lemma NoHashMismatch(r: Wire, context: string, env: Oracles)
    ensures !ReceiptCause(r, context, env, HashMismatch)
  {
  }

  lemma IntegritySays(q: Request, env: Oracles, f: IntegrityFault)
    requires q.snapshot.Some? && IntegrityCause(q.snapshot.value, env, f)
    ensures Says(IntegrityState(f), q, env)
  {
    hide TrustIn, NamesRequest, SomeFault, IntegrityHolds, Drains, Unprepared, BundlesSized, Bundles, BundleFaultFound;
    var r := q.snapshot.value;
    if f.NotCanonical? && CanonicalReceiptFits(r, env) {
      var b :| b in Bundles(r) && !BundleSized(b, env) && f == SizeFault(b, BundleOversized, env);
      assert env.canonicalSize(b) == Err(f.words);
    }
  }

  lemma TrustSays(q: Request, env: Oracles, pb: PreparedBundles, s: State)
    requires q.snapshot.Some? && TrustInputs(q) && |pb.components| == |Components(q.snapshot.value)|
    requires BundlesPrepared(q.snapshot.value, env, pb) && TrustRefusal(q, q.snapshot.value, env, pb, s)
    ensures s in {RegistryRejected, FreshnessRejected, PolicyRejected} && TrustIn(q, env, s)
  {
    hide BundlesPrepared, Components, RegistryHolds, LoadFault, VersionsHold, FreshnessHolds, KeysHold, Strip,
      Countable;
    var r := q.snapshot.value;
    if q.registry.Some? && exists reg :: RegistryLoads(q, reg, env) {
      var reg :| RegistryLoads(q, reg, env) &&
        if !VersionsHold(r, reg, q.minimumRegistry.n) then s == RegistryRejected
        else if !FreshnessHolds(r, q.time.s, env) then s == LateState(q)
        else if !KeysHold(r, pb, reg, q.time.s, env) then s == if Countable(r, pb) then RegistryRejected else PolicyRejected
        else s == PolicyRejected;
      if !KeysHold(r, pb, reg, q.time.s, env) { assert MissesKey(q, env, reg, pb); }
    }
  }

  /** And the fault that was met first decides the state: each class of fault has its own. */
  lemma StatesOfFaults()
    ensures ContractState(Downgrade) == Downgraded && ContractState(HashMismatch) == Tampered
    ensures ContractState(AuthorityBypass) == AuthorityBypassing && ContractState(ContractFault.Context) == ContextMismatched
    ensures ContractState(ContractFault.Invalid) == ContractState(ContractFault.Policy) == InvalidReceipt
    ensures BundleState(BundleInvalid) == InvalidReceipt && BundleState(DuplicateKey) == PolicyRejected
    ensures BundleState(EntryHashMismatch) == Tampered
    ensures TrustState(TimeFault) == FreshnessRejected && TrustState(RegistryFault) == RegistryRejected
    ensures IntegrityState(HashesDiffer) == Tampered && IntegrityState(NotCanonical(ContextWords)) == ContextMismatched
    ensures forall f :: f != HashesDiffer && f != NotCanonical(ContextWords) ==> IntegrityState(f) == InvalidReceipt
    ensures forall a: Answer :: FaultOutcome(Unverified(a)).state == SignatureRejected
  {
  }

  /** Every refusal is given in a state that says what is wrong. */
  lemma RefusalSays(q: Request, env: Oracles, o: Outcome)
    requires Explained(q, env, o) && o.Refused?
    ensures Says(o.state, q, env)
  {
    hide NamesRequest, ReceiptCause, PreparedBlocked, InputsHold, ContractHolds, Formed, TrustIn, SomeFault,
      Uncanonicalized,
      AllSized, Unprepared, BundleFaultFound, HasPaddedIdentity, IntegrityHolds, Listed, Drains, ContractRefusal;
    if !InputsHold(q, env) {
      InputSays(q, env);
    } else if q.snapshot.None? {
    } else if !ContractHolds(q, env) {
      ContractSays(q, env, o);
    } else if !(exists pb :: Formed(q, env, pb)) {
      FormSays(q, env, o);
    } else {
      var pb :| Formed(q, env, pb) && PreparedBlocked(q, env, pb, o);
      PreparedSays(q, env, pb, o);
    }
  }

  lemma InputSays(q: Request, env: Oracles)
    requires !InputsHold(q, env)
    ensures Says(InputFault(q, env).0, q, env)
  {
    hide NamesRequest, TrustIn, SomeFault, AllSized, Unprepared, Drains, PositiveInt;
  }

  lemma FormSays(q: Request, env: Oracles, o: Outcome)
    requires q.snapshot.Some? && InputsHold(q, env) && ContractHolds(q, env) && !(exists pb :: Formed(q, env, pb))
    requires FormRefusal(q.snapshot.value, env, o) && o.Refused?
    ensures Says(o.state, q, env)
  {
    hide NamesRequest, TrustIn, SomeFault, AllSized, Drains, InputsHold, ContractHolds, BundlesPrepared,
      BundleFaultFound,
      HasPaddedIdentity, IntegrityHolds;
    forall pb ensures !BundlesPrepared(q.snapshot.value, env, pb) { assert !Formed(q, env, pb); }
  }

  lemma PreparedSays(q: Request, env: Oracles, pb: PreparedBundles, o: Outcome)
    requires Formed(q, env, pb) && PreparedBlocked(q, env, pb, o) && o.Refused?
    ensures Says(o.state, q, env)
  {
    hide NamesRequest, TrustIn, SomeFault, AllSized, InputsHold, ContractHolds, BundlesPrepared, BundleFaultFound,
      IntegrityCause, IntegrityHolds, TrustRefusal, Trusted, Components, Listed, Drains, Unprepared, Uncanonicalized;
    var r := q.snapshot.value;
    if RequestFault(q, r).Some? {
    } else if !(exists reg, bs :: Trusted(q, r, env, pb, reg, bs)) {
      TrustSays(q, env, pb, o.state);
    } else {
      var f :| IntegrityCause(r, env, f) && o == Outcome.Refused(IntegrityState(f), OtherDominant);
      IntegritySays(q, env, f);
    }
  }
}
