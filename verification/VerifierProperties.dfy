/** What clearance guarantees for the callbacks that follow it. */
module VerifierProperties {
  import opened Wrappers
  import opened Strings
  import opened ReceiptContract
  import opened ReceiptPipelines
  import opened KeyRegistry
  import opened VerificationWaves
  import opened BundleResolution
  import opened WaveProperties
  import opened PerBundleChecking
  import opened ReceiptVerifier

  lemma SubsetSameSize<T>(a: set<T>, b: set<T>)
    requires a <= b && |a| == |b|
    ensures a == b
  {
    assert |b - a| == |b| - |a|;
  }

  lemma ContractComponents(q: Request, env: Oracles)
    requires ContractHolds(q, env)
    ensures var cs := Components(q.snapshot.value);
      && |cs| == 5
      && forall i, j :: 0 <= i < j < 5 ==> Field(cs[i], "component_id") != Field(cs[j], "component_id")
  {
    hide ReceiptHeaderHolds, ReceiptBodyHolds, ComponentHolds, HashText, ExpectedOutcome;
  }

  /** The roles known are the components supported. */
  lemma RolesAreComponents()
    ensures COMPONENT_ROLES.Keys == Elements(SUPPORTED_COMPONENTS)
  {
    var names := SUPPORTED_COMPONENTS;
    assert names[0] in names && names[1] in names && names[2] in names && names[3] in names && names[4] in names;
  }

  /** In a receipt of the right form every supported component is present, exactly once. */
  lemma FormedComplete(q: Request, env: Oracles, pb: PreparedBundles)
    requires Formed(q, env, pb) && |pb.components| == |Components(q.snapshot.value)|
    ensures Complete(ComponentCandidates(q.snapshot.value, pb))
  {
    hide InputsHold, ReceiptHolds, ComponentPrepared, ReceiptPrepared, KeyRepeated, Components, Field, ArtifactOf,
      RoleOf, ById;
    var r := q.snapshot.value;
    var cs, ids := ComponentCandidates(r, pb), Ids(ComponentCandidates(r, pb));
    ContractComponents(q, env);
    forall i | 0 <= i < 5 ensures Components(r)[i] == Components(r)[i] && IdentityKnown(Components(r)[i]) {
      assert BundlePrepared(Components(r)[i], env, pb.components[i]);
    }
    forall i, j | 0 <= i < j < 5 ensures ids[i] != ids[j] {
      assert Field(Components(r)[i], "component_id") != Field(Components(r)[j], "component_id");
    }
    ByIdExact(cs);
    assert ById(cs).Keys == Elements(ids) by {
      forall i | 0 <= i < 5 ensures cs[i].id in Elements(ids) { assert ids[i] == cs[i].id; }
    }
    DistinctSize(ids);
    NamesDistinct();
    RolesAreComponents();
    SubsetSameSize(Elements(ids), Elements(SUPPORTED_COMPONENTS));
  }

  lemma FormedPreflighted(q: Request, env: Oracles, pb: PreparedBundles)
    requires Formed(q, env, pb) && |pb.components| == |Components(q.snapshot.value)|
    ensures Preflighted(ComponentCandidates(q.snapshot.value, pb), OrchestratorCandidate(q.snapshot.value, pb.receipt))
  {
    hide InputsHold, ReceiptHolds, Components, Complete, IdentityKnown, Field, HashOf, Reading, PolicyOrder,
      ArtifactOf, RoleOf;
    FormedComplete(q, env, pb);
    var r := q.snapshot.value;
    forall i | 0 <= i < |pb.components| ensures PolicyOrder(Algorithms(pb.components[i])) {
      assert BundlePrepared(Components(r)[i], env, pb.components[i]);
    }
  }

  /** Neither the bundle-set rejection nor the up-front call budget can refuse a receipt of the right form. */
  lemma ResolutionNeverOverBudget(q: Request, env: Oracles, pb: PreparedBundles)
    requires Formed(q, env, pb) && |pb.components| == |Components(q.snapshot.value)|
    ensures var cs, o := ComponentCandidates(q.snapshot.value, pb), OrchestratorCandidate(q.snapshot.value, pb.receipt);
      Complete(cs) && WithinCallBudget(InOrder(cs, o))
  {
    hide Formed, Components, Complete, ComponentCandidates, OrchestratorCandidate, PolicyOrder;
    FormedFacts(q, env, pb);
    FormedPreflighted(q, env, pb);
    var cs, o := ComponentCandidates(q.snapshot.value, pb), OrchestratorCandidate(q.snapshot.value, pb.receipt);
    OrderKeepsBundles(cs, o);
    PolicyWithinBudget(InOrder(cs, o));
  }

  /** So a receipt of the right form gets the policy refusal only when its own claims fail the cross-check. */
  lemma PolicyMeansCrossCheck(q: Request, env: Oracles, pb: PreparedBundles)
    requires Formed(q, env, pb) && TrustInputs(q) && |pb.components| == |Components(q.snapshot.value)|
    requires TrustRefusal(q, q.snapshot.value, env, pb, PolicyRejected)
    ensures exists reg ::
      && RegistryLoads(q, reg, env) && VersionsHold(q.snapshot.value, reg, q.minimumRegistry.n)
      && FreshnessHolds(q.snapshot.value, q.time.s, env) && KeysHold(q.snapshot.value, pb, reg, q.time.s, env)
  {
    hide Formed, Components, RegistryLoads, LoadFault, VersionsHold, FreshnessHolds, KeysHold;
    ResolutionNeverOverBudget(q, env, pb);
  }

  /** Cleared receipts bring the waves the well-formed bundles their bounds need. */
  lemma ClearedWellFormed(q: Request, env: Oracles, pb: PreparedBundles, reg: Registry, bs: seq<Bundle>)
    requires Cleared(q, env, pb, reg, bs)
    ensures q.snapshot.Some? && WellFormed(bs)
  {
    hide Formed, RequestHolds, RegistryHolds, VersionsHold, FreshnessHolds, KeysHold, IntegrityHolds, Components, Field;
    hide ComponentCandidates, OrchestratorCandidate, WellFormed, AllResolved;
    ClearedSnapshot(q, env, pb, reg, bs);
    FormedPreflighted(q, env, pb);
    var r := q.snapshot.value;
    ResolvedWellFormed(ComponentCandidates(r, pb), OrchestratorCandidate(r, pb.receipt), bs, reg, q.time.s, env);
  }

  /** Each of the receipt's six bundles verifies when checked on its own. */
  ghost predicate AllVerify(r: Wire, pb: PreparedBundles, reg: Registry, now: string, env: Oracles, verdict: Resolved -> Answer)
    requires |pb.components| == |Components(r)|
  {
    var cs, o := ComponentCandidates(r, pb), OrchestratorCandidate(r, pb.receipt);
    forall c :: c in cs || c == o ==> BundleVerifies(c, reg, now, env, verdict)
  }

  /** The handoff object has the flag, whatever its value. */
  predicate HandoffKeyed(r: Wire) {
    && r.WDict? && "adamantineos_handoff" in r.fields && r.fields["adamantineos_handoff"].WDict?
    && "handoff_allowed" in r.fields["adamantineos_handoff"].fields
  }

  lemma KeyedExactly(r: Wire)
    ensures HasHandoff(r) <==> HandoffKeyed(r)
  {
  }

  /**
   * The verifier accepts exactly the cleared receipts whose six bundles each verify one by one and which carry the
   * handoff flag; without the flag the callbacks run and then an exception escapes.
   */
  lemma VerifiedExactly(q: Request, env: Oracles, pb: PreparedBundles, reg: Registry, bs: seq<Bundle>,
                        answers: (nat, Resolved) -> Answer, verdict: Resolved -> Answer, i: nat)
    requires Cleared(q, env, pb, reg, bs) && Answers(answers, verdict)
    ensures q.snapshot.Some? && |pb.components| == |Components(q.snapshot.value)| && q.time.WText?
    ensures var r := q.snapshot.value;
      var o := WaveOutcome(r, Execute(Plan(bs), answers, i, 0, 0).fault);
      var allVerify := AllVerify(r, pb, reg, q.time.s, env, verdict);
      && (o.Verified? <==> allVerify && HandoffKeyed(r))
      && (o.Escaped? <==> allVerify && !HandoffKeyed(r))
  {
    hide Formed, RequestHolds, RegistryHolds, VersionsHold, FreshnessHolds, KeysHold, IntegrityHolds, Components, Field;
    hide ComponentCandidates, OrchestratorCandidate, BundleVerifies, Execute, Plan, AllResolved, HasHandoff,
      HandoffKeyed;
    ClearedSnapshot(q, env, pb, reg, bs);
    FormedPreflighted(q, env, pb);
    var r := q.snapshot.value;
    KeyedExactly(r);
    WavesRefinePerBundle(ComponentCandidates(r, pb), OrchestratorCandidate(r, pb.receipt), bs, reg, q.time.s, env,
                         answers, verdict, i);
  }
}
