/** The staged receipt verifier: cheap checks, key resolution, predicted cross-check, integrity, and only then callbacks. */
module ReceiptVerifier {
  import opened Wrappers
  import opened Trimming
  import opened ReceiptContract
  import opened ReceiptPipelines
  import opened ReceiptStaging
  import opened KeyRegistry
  import opened VerificationWaves
  import opened BundleResolution
  import opened WaveProperties
  import opened PerBundleChecking
  import opened ComponentSummaries
  import opened Identifiers

  /** What a caller passes in. A snapshot is absent when the bounded copy failed. */
  datatype Request = Request(
    snapshot: Option<Wire>, expectedContext: Wire, expectedRequestId: Wire, registry: Option<Wire>, time: Wire,
    seenRequestIds: Iterable, rejectedHashes: Iterable, minimumRegistry: Wire, verifierConfigured: bool)

  /** ShieldV4ReceiptVerificationState. */
  datatype State =
    | VerifiedAllow | VerifiedDeny | VerifiedHumanReview
    | InvalidReceipt | ContextMismatched | RequestMismatched | Tampered | Downgraded | AuthorityBypassing
    | PolicyRejected | SignatureRejected | RegistryRejected | ReplayRisk | FreshnessRejected

  /** The dominant reason texts that anything later distinguishes. */
  datatype Dominant = BackendNotConfigured | VerifierFailedClosed | VerifierNotBool | OtherDominant

  /** Escaped: an exception other than a rejection leaves the verifier. */
  datatype Outcome =
    | Verified(state: State, finalOutcome: string, handoffAllowed: bool)
    | Refused(state: State, dominant: Dominant)
    | Escaped

  predicate Accepting(s: State) {
    s.VerifiedAllow? || s.VerifiedDeny? || s.VerifiedHumanReview?
  }

  const MAX_IDENTIFIERS: nat := 4096

  // -------------------------------------------------------------- the receipt

  function TextOf(v: Wire): string {
    if v.WText? then v.s else ""
  }

  function IntOf(v: Wire): int {
    if v.WInt? then v.n else 0
  }

  function ArtifactOf(v: Wire, kind: string, schema: string, id: string): Artifact {
    Artifact(kind, schema, id, HashOf(v), TextOf(Field(v, "request_id")), TextOf(Field(v, "context_hash")),
             TextOf(Field(v, "signature_policy")), IntOf(Field(v, "key_registry_version")))
  }

  function RoleOf(id: string): string {
    if id in COMPONENT_ROLES then COMPONENT_ROLES[id] else ""
  }

  function ComponentCandidate(c: Wire, ps: seq<Prepared>): Candidate {
    var id := TextOf(Field(c, "component_id"));
    Candidate(id, RoleOf(id), ps, TextOf(Field(c, "not_before")), TextOf(Field(c, "not_after")),
              ArtifactOf(c, "component_verdict", VERDICT_SCHEMA, id))
  }

  function ReceiptArtifact(r: Wire): Artifact {
    ArtifactOf(r, "orchestrator_receipt", RECEIPT_SCHEMA, ORCHESTRATOR_ROLE)
  }

  function OrchestratorCandidate(r: Wire, ps: seq<Prepared>): Candidate {
    Candidate(ORCHESTRATOR_ROLE, ORCHESTRATOR_ROLE, ps, TextOf(Field(r, "not_before")), TextOf(Field(r, "not_after")),
              ReceiptArtifact(r))
  }

  function ComponentCandidates(r: Wire, pb: PreparedBundles): seq<Candidate>
    requires |pb.components| == |Components(r)|
  {
    seq(|pb.components|, i requires 0 <= i < |pb.components| => ComponentCandidate(Components(r)[i], pb.components[i]))
  }

  // --------------------------------------------- what must hold before callbacks

  predicate InputsHold(q: Request, env: Oracles) {
    && NamesRequest(q, env)
    && q.time.WText? && |q.time.s| == 20
    && PositiveInt(q.minimumRegistry)
  }

  ghost predicate ContractHolds(q: Request, env: Oracles) {
    q.expectedContext.WText? && q.snapshot.Some? && ReceiptHolds(q.snapshot.value, q.expectedContext.s, env)
  }

  ghost predicate Unlisted(values: Iterable, id: string) {
    exists n :: Yields(values, MAX_IDENTIFIERS, n) && id !in Yielded(values, n)
  }

  ghost predicate Listed(values: Iterable, id: string) {
    exists n :: Yields(values, MAX_IDENTIFIERS, n) && id in Yielded(values, n)
  }

  /** The right request, a verifier to ask, and no sign of replay. */
  ghost predicate RequestHolds(q: Request, r: Wire) {
    && Field(r, "request_id") == q.expectedRequestId && q.verifierConfigured
    && Unlisted(q.seenRequestIds, TextOf(Field(r, "request_id")))
    && Unlisted(q.rejectedHashes, TextOf(Field(r, "receipt_hash")))
  }

  /** _enforce_registry_versions. */
  predicate VersionsHold(r: Wire, reg: Registry, minimum: int) {
    && reg.version >= minimum && Field(r, "key_registry_version") == WInt(reg.version)
    && forall i :: 0 <= i < |Components(r)| ==> Field(Components(r)[i], "key_registry_version") == WInt(reg.version)
  }

  predicate FreshAt(v: Wire, now: int, env: Oracles) {
    match (ParseUtc(TextOf(Field(v, "not_before")), env), ParseUtc(TextOf(Field(v, "not_after")), env))
    case (Some(start), Some(end)) => start < end && start <= now <= end
    case _ => false
  }

  /** _enforce_freshness. */
  predicate FreshnessHolds(r: Wire, time: string, env: Oracles) {
    match ParseUtc(time, env)
    case None => false
    case Some(now) => FreshAt(r, now, env) && forall i :: 0 <= i < |Components(r)| ==> FreshAt(Components(r)[i], now, env)
  }

  /** Every component once, and no more signatures than may be checked. */
  predicate Countable(r: Wire, pb: PreparedBundles)
    requires |pb.components| == |Components(r)|
  {
    var cs, orchestrator := ComponentCandidates(r, pb), OrchestratorCandidate(r, pb.receipt);
    Complete(cs) && WithinCallBudget(InOrder(cs, orchestrator))
  }

  predicate KeysHold(r: Wire, pb: PreparedBundles, reg: Registry, time: string, env: Oracles)
    requires |pb.components| == |Components(r)|
  {
    var cs, orchestrator := ComponentCandidates(r, pb), OrchestratorCandidate(r, pb.receipt);
    && Countable(r, pb)
    && forall c :: c in InOrder(cs, orchestrator) ==> Resolvable(c, reg, time, env)
  }

  ghost predicate ResolvedTo(r: Wire, pb: PreparedBundles, reg: Registry, time: string, env: Oracles, bs: seq<Bundle>)
    requires |pb.components| == |Components(r)|
  {
    var cs, orchestrator := ComponentCandidates(r, pb), OrchestratorCandidate(r, pb.receipt);
    Complete(cs) && AllResolved(InOrder(cs, orchestrator), bs, reg, time, env)
  }

  predicate TrustInputs(q: Request) {
    q.time.WText? && q.minimumRegistry.WInt?
  }

  ghost predicate Trusted(q: Request, r: Wire, env: Oracles, pb: PreparedBundles, reg: Registry, bs: seq<Bundle>)
    requires TrustInputs(q) && |pb.components| == |Components(r)|
  {
    && q.registry.Some? && RegistryHolds(q.registry.value, reg, env)
    && VersionsHold(r, reg, q.minimumRegistry.n) && FreshnessHolds(r, q.time.s, env)
    && KeysHold(r, pb, reg, q.time.s, env) && ResolvedTo(r, pb, reg, q.time.s, env, bs)
    && Field(r, "component_signature_results").WList?
    && CrossChecks(Field(r, "component_signature_results").items, Predicted(bs))
  }

  /** The receipt's own form is right, down to every bundle. */
  ghost predicate Formed(q: Request, env: Oracles, pb: PreparedBundles) {
    InputsHold(q, env) && ContractHolds(q, env) && BundlesPrepared(q.snapshot.value, env, pb)
  }

  lemma FormedFacts(q: Request, env: Oracles, pb: PreparedBundles)
    requires Formed(q, env, pb)
    ensures q.snapshot.Some? && TrustInputs(q) && |pb.components| == |Components(q.snapshot.value)|
    ensures Field(q.snapshot.value, "component_signature_results").WList?
  {
    hide HashText, BoundedText, Strip, ReceiptHeaderHolds, ComponentSetHolds, ExpectedOutcome, Components;
    hide ResultHolds, NonEmpty, TextList, ForbiddenAuthority;
  }

  /** Every check that does not ask the signature verifier. */
  ghost predicate Cleared(q: Request, env: Oracles, pb: PreparedBundles, reg: Registry, bs: seq<Bundle>) {
    && Formed(q, env, pb)
    && var r := q.snapshot.value;
      && TrustInputs(q) && |pb.components| == |Components(r)|
      && RequestHolds(q, r) && Trusted(q, r, env, pb, reg, bs) && IntegrityHolds(r, env)
  }

  datatype Clearance = Clear(pb: PreparedBundles, registry: Registry, bundles: seq<Bundle>) | Blocked(outcome: Outcome)

  // ------------------------------------------------------------------ stages

  predicate NamesRequest(q: Request, env: Oracles) {
    && HashText(q.expectedContext, env).Some?
    && BoundedText(q.expectedRequestId) && Strip(q.expectedRequestId.s) != ""
  }

  function InputFault(q: Request, env: Oracles): (State, AuditReason) {
    if NamesRequest(q, env) && !(q.time.WText? && |q.time.s| == 20) then (FreshnessRejected, FreshnessInvalid)
    else (InvalidReceipt, ContractInvalid)
  }

  method CheckInputs(q: Request, env: Oracles) returns (fault: Option<(State, AuditReason)>)
    ensures fault.None? <==> InputsHold(q, env)
    ensures fault.Some? ==> fault.value == InputFault(q, env)
  {
    hide HashText, BoundedText, Strip;
    if HashText(q.expectedContext, env).None? { return Some((InvalidReceipt, ContractInvalid)); }
    if !BoundedText(q.expectedRequestId) { return Some((InvalidReceipt, ContractInvalid)); }
    BoundedIsText(q.expectedRequestId);
    if Strip(q.expectedRequestId.s) == "" { return Some((InvalidReceipt, ContractInvalid)); }
    if !q.time.WText? || |q.time.s| != 20 { return Some((FreshnessRejected, FreshnessInvalid)); }
    if !PositiveInt(q.minimumRegistry) { return Some((InvalidReceipt, ContractInvalid)); }
    return None;
  }

  lemma BoundedIsText(v: Wire)
    requires BoundedText(v)
    ensures v.WText?
  {
  }

  function ContractReason(f: ContractFault): (r: AuditReason)
    ensures r != VerifyOk
  {
    match f
    case Invalid => ContractInvalid
    case Context => ContextMismatch
    case Policy => PolicyInvalid
    case Downgrade => DowngradeRejected
    case HashMismatch => ReceiptHashMismatch
    case AuthorityBypass => AuthorityBypassed
  }

  /** _classify_contract_error. */
  function ContractState(f: ContractFault): State {
    match f
    case Downgrade => Downgraded
    case HashMismatch => Tampered
    case AuthorityBypass => AuthorityBypassing
    case Context => ContextMismatched
    case _ => InvalidReceipt
  }

  ghost predicate Drains(values: Iterable) {
    exists n :: Yields(values, MAX_IDENTIFIERS, n)
  }

  /** The first objection to the request itself: wrong id, nobody to ask, unusable lists, or replay. */
  ghost function RequestFault(q: Request, r: Wire): Option<Outcome> {
    if Field(r, "request_id") != q.expectedRequestId then Some(Outcome.Refused(RequestMismatched, OtherDominant))
    else if !q.verifierConfigured then Some(Outcome.Refused(SignatureRejected, BackendNotConfigured))
    else if !Drains(q.seenRequestIds) || !Drains(q.rejectedHashes) then
      Some(Outcome.Refused(InvalidReceipt, OtherDominant))
    else if Listed(q.seenRequestIds, TextOf(Field(r, "request_id")))
      || Listed(q.rejectedHashes, TextOf(Field(r, "receipt_hash"))) then Some(Outcome.Refused(ReplayRisk, OtherDominant))
    else None
  }

  method CheckRequest(q: Request, r: Wire) returns (fault: Option<Outcome>)
    ensures fault.None? <==> RequestHolds(q, r)
    ensures fault == RequestFault(q, r)
    ensures fault.Some? ==> Refusing(fault.value)
  {
    hide Yields, Yielded, Field;
    if Field(r, "request_id") != q.expectedRequestId { return Some(Outcome.Refused(RequestMismatched, OtherDominant)); }
    if !q.verifierConfigured { return Some(Outcome.Refused(SignatureRejected, BackendNotConfigured)); }
    var seen, _ := BoundedIdentifierSet(q.seenRequestIds, MAX_IDENTIFIERS);
    if seen.None? { return Some(Outcome.Refused(InvalidReceipt, OtherDominant)); }
    var rejected, _ := BoundedIdentifierSet(q.rejectedHashes, MAX_IDENTIFIERS);
    if rejected.None? { return Some(Outcome.Refused(InvalidReceipt, OtherDominant)); }
    if TextOf(Field(r, "request_id")) in seen.value || TextOf(Field(r, "receipt_hash")) in rejected.value {
      return Some(Outcome.Refused(ReplayRisk, OtherDominant));
    }
    return None;
  }

  predicate Refusing(o: Outcome) {
    o.Refused? && !Accepting(o.state)
  }

  method CheckVersions(r: Wire, reg: Registry, minimum: int) returns (ok: bool)
    ensures ok <==> VersionsHold(r, reg, minimum)
  {
    hide Components, Field;
    if reg.version < minimum || Field(r, "key_registry_version") != WInt(reg.version) { return false; }
    var cs := Components(r);
    for i := 0 to |cs|
      invariant forall j :: 0 <= j < i ==> Field(cs[j], "key_registry_version") == WInt(reg.version)
    {
      if Field(cs[i], "key_registry_version") != WInt(reg.version) { return false; }
    }
    return true;
  }

  method CheckFreshness(r: Wire, time: string, env: Oracles) returns (ok: bool)
    ensures ok <==> FreshnessHolds(r, time, env)
  {
    hide Components, FreshAt, ParseUtc;
    var now := ParseUtc(time, env);
    if now.None? || !FreshAt(r, now.value, env) { return false; }
    var cs := Components(r);
    for i := 0 to |cs|
      invariant forall j :: 0 <= j < i ==> FreshAt(cs[j], now.value, env)
    {
      if !FreshAt(cs[i], now.value, env) { return false; }
    }
    return true;
  }

  function TrustState(f: TrustFault): State {
    if f == TimeFault then FreshnessRejected else RegistryRejected
  }

  /** A blank time is refused as a blank registry field would be. */
  function LateState(q: Request): State
    requires q.time.WText?
  {
    if Strip(q.time.s) == "" then RegistryRejected else FreshnessRejected
  }

  ghost predicate RegistryLoads(q: Request, reg: Registry, env: Oracles) {
    q.registry.Some? && RegistryHolds(q.registry.value, reg, env)
  }

  /** The first stage of trust that fails names the state. */
  ghost predicate TrustRefusal(q: Request, r: Wire, env: Oracles, pb: PreparedBundles, s: State)
    requires TrustInputs(q) && |pb.components| == |Components(r)|
  {
    if q.registry.None? then s == RegistryRejected
    else if !(exists reg :: RegistryLoads(q, reg, env)) then
      exists f :: LoadFault(q.registry.value, env, f) && s == TrustState(f)
    else
      exists reg :: RegistryLoads(q, reg, env) &&
        if !VersionsHold(r, reg, q.minimumRegistry.n) then s == RegistryRejected
        else if !FreshnessHolds(r, q.time.s, env) then s == LateState(q)
        else if !KeysHold(r, pb, reg, q.time.s, env) then s == if Countable(r, pb) then RegistryRejected else PolicyRejected
        else s == PolicyRejected
  }

  /** Registry, freshness, keys and the cross-check, in this order. */
  method EstablishTrust(q: Request, r: Wire, env: Oracles, pb: PreparedBundles)
    returns (t: Result<(Registry, seq<Bundle>), State>)
    requires TrustInputs(q) && |pb.components| == |Components(r)|
    ensures t.Ok? ==> Trusted(q, r, env, pb, t.value.0, t.value.1)
    ensures t.Err? ==> !Accepting(t.error) && forall reg, bs :: !Trusted(q, r, env, pb, reg, bs)
    ensures t.Err? ==> TrustRefusal(q, r, env, pb, t.error)
  {
    hide RegistryHolds, VersionsHold, FreshnessHolds, KeysHold, ResolvedTo, Predicted, CrossChecks, Components, Field;
    if q.registry.None? { return Err(RegistryRejected); }
    var loaded := LoadRegistry(q.registry.value, env);
    if loaded.Err? {
      assert !exists reg :: RegistryLoads(q, reg, env);
      return Err(TrustState(loaded.error));
    }
    var reg := loaded.value;
    assert RegistryLoads(q, reg, env);
    forall other | RegistryHolds(q.registry.value, other, env) ensures other == reg {
      RegistryUnique(q.registry.value, reg, other, env);
    }
    var versions := CheckVersions(r, reg, q.minimumRegistry.n);
    if !versions { return Err(RegistryRejected); }
    var timely := CheckFreshness(r, q.time.s, env);
    if !timely { return Err(LateState(q)); }
    var resolved := ResolveReceipt(r, pb, reg, q.time.s, env);
    if resolved.Err? { return Err(resolved.error); }
    var claims := Field(r, "component_signature_results");
    if !claims.WList? || !CrossChecks(claims.items, Predicted(resolved.value)) {
      forall bs | ResolvedTo(r, pb, reg, q.time.s, env, bs) ensures bs == resolved.value {
        ResolutionUnique(r, pb, reg, q.time.s, env, bs, resolved.value);
      }
      return Err(PolicyRejected);
    }
    t := Ok((reg, resolved.value));
  }

  /** In a fresh receipt all windows can be read, so that only a key itself can be refused. */
  lemma FreshTimes(r: Wire, pb: PreparedBundles, time: string, env: Oracles)
    requires |pb.components| == |Components(r)| && FreshnessHolds(r, time, env)
    ensures var cs, o := ComponentCandidates(r, pb), OrchestratorCandidate(r, pb.receipt);
      Complete(cs) ==> forall c :: c in InOrder(cs, o) ==> Timed(c, time, env)
  {
    hide Components, Complete, ParseUtc, InOrder;
    var cs, o := ComponentCandidates(r, pb), OrchestratorCandidate(r, pb.receipt);
    if Complete(cs) { OrderKeepsBundles(cs, o); }
  }

  method ResolveReceipt(r: Wire, pb: PreparedBundles, reg: Registry, time: string, env: Oracles)
    returns (t: Result<seq<Bundle>, State>)
    requires |pb.components| == |Components(r)| && FreshnessHolds(r, time, env)
    ensures t.Ok? <==> KeysHold(r, pb, reg, time, env)
    ensures t.Ok? ==> ResolvedTo(r, pb, reg, time, env, t.value)
    ensures t.Err? ==> t.error == if Countable(r, pb) then RegistryRejected else PolicyRejected
  {
    hide FreshnessHolds, Timed;
    FreshTimes(r, pb, time, env);
    hide Components, ComponentCandidates, InOrder, Resolvable, Complete, AllResolved, WithinCallBudget;
    var b := ResolveBundles(ComponentCandidates(r, pb), OrchestratorCandidate(r, pb.receipt), reg, time, env);
    if b.Ok? { return Ok(b.value); }
    t := Err(if b.error.KeyRejected? then TrustState(b.error.fault) else PolicyRejected);
  }

  lemma ResolutionUnique(r: Wire, pb: PreparedBundles, reg: Registry, time: string, env: Oracles,
                         a: seq<Bundle>, b: seq<Bundle>)
    requires |pb.components| == |Components(r)|
    requires ResolvedTo(r, pb, reg, time, env, a) && ResolvedTo(r, pb, reg, time, env, b)
    ensures a == b
  {
    hide Components, ComponentCandidates, InOrder, Complete, ResolveEntry;
    var all := InOrder(ComponentCandidates(r, pb), OrchestratorCandidate(r, pb.receipt));
    forall i | 0 <= i < |all| ensures a[i] == b[i] {
      assert ResolvedAs(all[i], a[i], reg, time, env) && ResolvedAs(all[i], b[i], reg, time, env);
      assert forall k :: 0 <= k < |all[i].entries| ==> Some(a[i].entries[k]) == Some(b[i].entries[k]);
      assert a[i].entries == b[i].entries;
    }
  }

  // ---------------------------------------------------------------- the whole

  /** The audit reasons noted for a refusal, by its state. */
  predicate ReasonFits(reason: AuditReason, s: State) {
    match reason
    case ContractInvalid => s == InvalidReceipt
    case ContextMismatch => s == ContextMismatched
    case PolicyInvalid => s in {InvalidReceipt, PolicyRejected}
    case DowngradeRejected => s == Downgraded
    case ReceiptHashMismatch => s == Tampered
    case AuthorityBypassed => s == AuthorityBypassing
    case FreshnessInvalid => s == FreshnessRejected
    case _ => false
  }

  /** A noted reason fits the refusal that follows. */
  twostate predicate RejectionNoted(capture: TranscriptCapture, o: Outcome)
    reads capture
  {
    || capture.rejection == old(capture.rejection)
    || (capture.rejection.Some? && o.Refused? && ReasonFits(capture.rejection.value, o.state))
  }

  ghost predicate Clearable(q: Request, env: Oracles) {
    exists pb, reg, bs :: Cleared(q, env, pb, reg, bs)
  }

  lemma InputsTyped(q: Request, env: Oracles)
    requires InputsHold(q, env)
    ensures q.expectedContext.WText? && TrustInputs(q)
  {
  }

  /** Preparation is unique, so trust may be judged on the bundles found. */
  lemma PreparationUnique(r: Wire, env: Oracles, a: PreparedBundles, b: PreparedBundles)
    requires BundlesPrepared(r, env, a) && BundlesPrepared(r, env, b)
    ensures a == b
  {
    hide Components, BundleHolds, KeyRepeated, IdentityKnown, Field, HashOf;
    forall i | 0 <= i < |a.components| ensures a.components[i] == b.components[i] {
      var c := Components(r)[i];
      assert BundlePrepared(c, env, a.components[i]) && BundlePrepared(c, env, b.components[i]);
      BundleUnique(Field(c, "signature_bundle"), HashOf(c), COMPONENT_DOMAIN, env, a.components[i], b.components[i]);
    }
    BundleUnique(Field(r, "signature_bundle"), HashOf(r), RECEIPT_DOMAIN, env, a.receipt, b.receipt);
  }

  lemma ClearableMeans(q: Request, env: Oracles, pb: PreparedBundles)
    requires Formed(q, env, pb) && TrustInputs(q) && q.snapshot.Some?
    requires |pb.components| == |Components(q.snapshot.value)|
    ensures var r := q.snapshot.value;
      Clearable(q, env) <==>
        RequestHolds(q, r) && IntegrityHolds(r, env) && exists reg, bs :: Trusted(q, r, env, pb, reg, bs)
  {
    hide InputsHold, ContractHolds, BundlesPrepared, RequestHolds, Trusted, IntegrityHolds, Components;
    var r := q.snapshot.value;
    forall other | Formed(q, env, other) ensures other == pb { PreparationUnique(r, env, pb, other); }
    if RequestHolds(q, r) && IntegrityHolds(r, env) && exists reg, bs :: Trusted(q, r, env, pb, reg, bs) {
      var reg, bs :| Trusted(q, r, env, pb, reg, bs);
      assert Cleared(q, env, pb, reg, bs);
    }
  }

  lemma ClearedFrom(q: Request, env: Oracles, pb: PreparedBundles, reg: Registry, bs: seq<Bundle>)
    requires Formed(q, env, pb) && TrustInputs(q) && q.snapshot.Some?
    requires |pb.components| == |Components(q.snapshot.value)|
    requires RequestHolds(q, q.snapshot.value) && Trusted(q, q.snapshot.value, env, pb, reg, bs)
    requires IntegrityHolds(q.snapshot.value, env)
    ensures Cleared(q, env, pb, reg, bs)
  {
    hide Formed, RequestHolds, Trusted, IntegrityHolds, Components, TrustInputs;
  }

  /** _audit_reason_for_contract_error, on the messages of the integrity checks. */
  function IntegrityReason(f: IntegrityFault): (reason: AuditReason)
    ensures reason != VerifyOk
  {
    match f
    case NotCanonical(words) =>
      (match words case ContextWords => ContextMismatch case PolicyWords => PolicyInvalid case OtherWords => ContractInvalid)
    case ReceiptOversized => ContractInvalid
    case BundleOversized => PolicyInvalid
    case HashesDiffer => ReceiptHashMismatch
  }

  /** _classify_contract_error, on the same messages. */
  function IntegrityState(f: IntegrityFault): State {
    if f.HashesDiffer? then Tampered
    else if f == NotCanonical(ContextWords) then ContextMismatched
    else InvalidReceipt
  }

  /** Why a receipt with well-formed bundles was refused: the first stage that fails says so. */
  ghost predicate PreparedRefusal(q: Request, r: Wire, env: Oracles, pb: PreparedBundles, o: Outcome)
    requires TrustInputs(q) && |pb.components| == |Components(r)|
  {
    if RequestFault(q, r).Some? then Some(o) == RequestFault(q, r)
    else if !(exists reg, bs :: Trusted(q, r, env, pb, reg, bs)) then
      o.Refused? && o.dominant == OtherDominant && TrustRefusal(q, r, env, pb, o.state)
    else exists f :: IntegrityCause(r, env, f) && o == Outcome.Refused(IntegrityState(f), OtherDominant)
  }

  ghost predicate PreparedBlocked(q: Request, env: Oracles, pb: PreparedBundles, o: Outcome) {
    && q.snapshot.Some? && TrustInputs(q) && |pb.components| == |Components(q.snapshot.value)|
    && PreparedRefusal(q, q.snapshot.value, env, pb, o)
  }

  /** The checks that follow bundle preflight. */
  method ClearPrepared(q: Request, env: Oracles, pb: PreparedBundles, capture: TranscriptCapture) returns (c: Clearance)
    requires Formed(q, env, pb)
    modifies capture`rejection
    ensures c.Clear? ==> Cleared(q, env, c.pb, c.registry, c.bundles) && capture.rejection == old(capture.rejection)
    ensures c.Blocked? ==> !Clearable(q, env) && Refusing(c.outcome)
    ensures c.Blocked? ==> PreparedBlocked(q, env, pb, c.outcome)
    ensures c.Blocked? ==> RejectionNoted(capture, c.outcome)
  {
    hide Formed, Cleared, Clearable, RequestHolds, Trusted, IntegrityHolds, Components, TrustInputs;
    hide RequestFault, TrustRefusal, IntegrityCause;
    FormedFacts(q, env, pb);
    ClearableMeans(q, env, pb);
    var r := q.snapshot.value;
    var request := CheckRequest(q, r);
    if request.Some? { return Blocked(request.value); }
    var trust := EstablishTrust(q, r, env, pb);
    if trust.Err? { return Blocked(Outcome.Refused(trust.error, OtherDominant)); }
    var damage := CheckIntegrity(r, env);
    if damage.Some? {
      capture.ContractRejection(IntegrityReason(damage.value));
      return Blocked(Outcome.Refused(IntegrityState(damage.value), OtherDominant));
    }
    ClearedFrom(q, env, pb, trust.value.0, trust.value.1);
    c := Clear(pb, trust.value.0, trust.value.1);
  }

  lemma NotFormed(q: Request, env: Oracles)
    ensures Clearable(q, env) ==> exists pb :: Formed(q, env, pb)
  {
    hide Formed;
  }

  /** Why nothing was asked: the first check that fails, in the order of the program, gives the outcome. */
  ghost predicate Explained(q: Request, env: Oracles, o: Outcome) {
    if !InputsHold(q, env) then o == Outcome.Refused(InputFault(q, env).0, OtherDominant)
    else if q.snapshot.None? then o == Outcome.Refused(InvalidReceipt, OtherDominant)
    else if !ContractHolds(q, env) then ContractRefusal(q, env, o)
    else if !(exists pb :: Formed(q, env, pb)) then FormRefusal(q.snapshot.value, env, o)
    else exists pb :: Formed(q, env, pb) && PreparedBlocked(q, env, pb, o)
  }

  ghost predicate ContractRefusal(q: Request, env: Oracles, o: Outcome)
    requires q.snapshot.Some?
  {
    q.expectedContext.WText? && exists f ::
      && ReceiptCause(q.snapshot.value, q.expectedContext.s, env, f)
      && (f == Downgrade <==> IsDowngrade(q.snapshot.value))
      && o == Outcome.Refused(ContractState(f), OtherDominant)
  }

  ghost predicate FormRefusal(r: Wire, env: Oracles, o: Outcome) {
    || (o.Escaped? && HasPaddedIdentity(r))
    || exists f :: BundleFaultFound(r, env, f) && o == Outcome.Refused(BundleState(f), OtherDominant)
  }

  function BundleState(f: BundleFault): State {
    match f
    case BundleInvalid => InvalidReceipt
    case DuplicateKey => PolicyRejected
    case EntryHashMismatch => Tampered
  }

  /** Everything up to the first callback: it has no access to the signature verifier. */
  method ClearReceipt(q: Request, env: Oracles, capture: TranscriptCapture) returns (c: Clearance)
    modifies capture`rejection
    ensures c.Clear? ==> Cleared(q, env, c.pb, c.registry, c.bundles) && capture.rejection == old(capture.rejection)
    ensures c.Blocked? ==> !Clearable(q, env) && (Refusing(c.outcome) || c.outcome.Escaped?)
    ensures c.Blocked? ==> Explained(q, env, c.outcome)
    ensures c.Blocked? ==> RejectionNoted(capture, c.outcome)
  {
    hide NamesRequest, ReceiptCause, IsDowngrade, BundleFaultFound, PreparedBlocked;
    hide InputsHold, ReceiptHolds, BundlesPrepared, RequestHolds, Trusted, IntegrityHolds, BundlesShaped, RepeatsAKey,
      HasPaddedIdentity, Components, Cleared, Clearable;
    NotFormed(q, env);
    var input := CheckInputs(q, env);
    if input.Some? {
      capture.ContractRejection(input.value.1);
      return Blocked(Outcome.Refused(input.value.0, OtherDominant));
    }
    InputsTyped(q, env);
    if q.snapshot.None? {
      capture.ContractRejection(ContractInvalid);
      return Blocked(Outcome.Refused(InvalidReceipt, OtherDominant));
    }
    var r := q.snapshot.value;
    var fault := PreflightReceipt(r, q.expectedContext.s, env);
    if fault.Some? {
      capture.ContractRejection(ContractReason(fault.value));
      return Blocked(Outcome.Refused(ContractState(fault.value), OtherDominant));
    }
    IdentityKnownExactly(r, q.expectedContext.s, env);
    forall pb | BundlesPrepared(r, env, pb)
      ensures BundlesShaped(r, env) && !RepeatsAKey(r, env) && !HasPaddedIdentity(r)
    {
      PreparedMeansShaped(r, env, pb);
    }
    var prepared := PreflightReceiptBundles(r, env);
    if prepared.KeyErrorRaised? { return Blocked(Escaped); }
    if prepared.Rejected? {
      capture.ContractRejection(if prepared.fault.EntryHashMismatch? then ReceiptHashMismatch else PolicyInvalid);
      return Blocked(Outcome.Refused(BundleState(prepared.fault), OtherDominant));
    }
    c := ClearPrepared(q, env, prepared.value, capture);
  }

  /** _state_for_final_outcome. */
  function StateFor(finalOutcome: string): (s: State)
    ensures Accepting(s)
  {
    if finalOutcome == "DENY" then VerifiedDeny
    else if finalOutcome == "HUMAN_REVIEW_REQUIRED" then VerifiedHumanReview
    else VerifiedAllow
  }

  /** Python's truth value. */
  predicate Truthy(v: Wire) {
    match v
    case WNull => false
    case WBool(b) => b
    case WInt(n) => n != 0
    case WText(s) => s != ""
    case WList(items) => items != []
    case WDict(fields) => fields != map[]
  }

  predicate HasHandoff(r: Wire) {
    var handoff := Field(r, "adamantineos_handoff");
    handoff.WDict? && "handoff_allowed" in handoff.fields
  }

  /** What a wave fault is reported as. */
  function FaultOutcome(f: WaveFault): (o: Outcome)
    ensures Refusing(o)
  {
    match f
    case Unverified(Raises) => Outcome.Refused(SignatureRejected, VerifierFailedClosed)
    case Unverified(NotBool) => Outcome.Refused(SignatureRejected, VerifierNotBool)
    case Unverified(_) => Outcome.Refused(SignatureRejected, OtherDominant)
    case _ => Outcome.Refused(PolicyRejected, OtherDominant)
  }

  /** The outcome of a cleared receipt, given how its waves went. */
  function WaveOutcome(r: Wire, fault: Option<WaveFault>): Outcome {
    match fault
    case Some(f) => FaultOutcome(f)
    case None =>
      var final := TextOf(Field(r, "final_outcome"));
      if !HasHandoff(r) then Escaped
      else Verified(StateFor(final), final, Truthy(Field(Field(r, "adamantineos_handoff"), "handoff_allowed")))
  }

  /** The verifier was never asked, and nobody was told of a validated receipt. */
  twostate predicate NothingCalled(backend: SignatureBackend, capture: TranscriptCapture)
    reads backend, capture
  {
    && backend.log == old(backend.log) && capture.observations == old(capture.observations)
    && capture.validated == old(capture.validated)
  }

  /** The verifier was asked exactly what the plan over bs asks, and the observer saw it. */
  twostate predicate WavesRan(backend: SignatureBackend, capture: TranscriptCapture, r: Wire, bs: seq<Bundle>, o: Outcome)
    reads backend, capture
  {
    var x := Execute(Plan(bs), backend.answers, |old(backend.log)|, 0, 0);
    && Logged(old(backend.log), backend.log, x.calls)
    && Observed(old(capture.observations), capture.observations, x.calls)
    && capture.validated == Some(ReceiptArtifact(r)) && capture.rejection == old(capture.rejection)
    && o == WaveOutcome(r, x.fault)
  }

  method RunCleared(r: Wire, bs: seq<Bundle>, backend: SignatureBackend, capture: TranscriptCapture) returns (o: Outcome)
    modifies backend`log, capture`validated, capture`observations
    ensures WavesRan(backend, capture, r, bs, o)
  {
    hide Execute, Plan, WaveOutcome, Logged, Observed, ResultsFor, ReceiptArtifact;
    capture.ValidatedReceipt(ReceiptArtifact(r));
    var results, fault, calls := VerifyWaves(bs, backend, capture);
    o := WaveOutcome(r, fault);
  }

  /** What clearance found: preparation, registry and bundles, unless something was wrong. */
  ghost predicate Found(q: Request, env: Oracles, found: Option<(PreparedBundles, Registry, seq<Bundle>)>) {
    match found
    case None => !Clearable(q, env)
    case Some(f) => Cleared(q, env, f.0, f.1, f.2)
  }

  /** _verify_shield_v4_orchestrator_receipt. */
  method VerifyReceipt(q: Request, env: Oracles, backend: SignatureBackend, capture: TranscriptCapture)
    returns (o: Outcome, ghost found: Option<(PreparedBundles, Registry, seq<Bundle>)>)
    modifies backend`log, capture
    ensures Found(q, env, found)
    ensures found.Some? ==> q.snapshot.Some? && WavesRan(backend, capture, q.snapshot.value, found.value.2, o)
    ensures found.None? ==> NothingCalled(backend, capture) && RejectionNoted(capture, o) && (Refusing(o) || o.Escaped?)
    ensures found.None? ==> Explained(q, env, o)
  {
    hide Explained, Cleared, Clearable, Execute, Plan, WaveOutcome, ReceiptArtifact;
    var c := ClearReceipt(q, env, capture);
    if c.Blocked? { return c.outcome, None; }
    ClearedSnapshot(q, env, c.pb, c.registry, c.bundles);
    o := RunCleared(q.snapshot.value, c.bundles, backend, capture);
    found := Some((c.pb, c.registry, c.bundles));
  }

  lemma ClearedSnapshot(q: Request, env: Oracles, pb: PreparedBundles, reg: Registry, bs: seq<Bundle>)
    requires Cleared(q, env, pb, reg, bs)
    ensures q.snapshot.Some? && Formed(q, env, pb)
  {
    hide InputsHold, ReceiptHolds, BundlesPrepared, RequestHolds, Trusted, IntegrityHolds, Components, TrustInputs;
  }
}
