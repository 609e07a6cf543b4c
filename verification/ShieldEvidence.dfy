/** What the Shield v4 verifier reports is what the final policy engine demands of it. */
module ShieldEvidence {
  import opened Wrappers
  import opened Strings
  import opened ReceiptContract
  import opened ReceiptPipelines
  import opened KeyRegistry
  import opened VerificationWaves
  import opened BundleResolution
  import opened WaveProperties
  import opened PerBundleChecking
  import opened ComponentSummaries
  import opened ReceiptVerifier
  import opened VerifierProperties
  import opened FinalPolicy

  function TextWires(ss: seq<string>): Wire {
    WList(seq(|ss|, i requires 0 <= i < |ss| => WText(ss[i])))
  }

  /** _summary_for_results, for the orchestrator or for a component. */
  function SummaryWire(s: Summary): Wire {
    WDict(map["component_id" := WText(s.id), "component_role" := WText(s.role),
              "verified_algorithms" := TextWires(s.algorithms), "verified_standard_profiles" := TextWires(s.profiles)])
  }

  function SummaryWires(ss: seq<Summary>): Wire {
    WList(seq(|ss|, i requires 0 <= i < |ss| => SummaryWire(ss[i])))
  }

  /** The verification summary of a run over these bundles, the orchestrator's last. */
  function VerificationSummary(reg: Registry, bs: seq<Bundle>): Wire
    requires |bs| == 6
  {
    var o := bs[5];
    WDict(map[
      "key_registry_version" := WInt(reg.version), "policy_version" := WText(SIGNATURE_POLICY),
      "orchestrator" := SummaryWire(Summary(o.id, o.role, PreparedNames(o.entries), PreparedProfiles(o.entries))),
      "components" := SummaryWires(Predicted(bs))])
  }

  lemma SummaryFields(s: Summary)
    ensures Field(SummaryWire(s), "component_id") == WText(s.id)
    ensures Field(SummaryWire(s), "verified_algorithms") == TextWires(s.algorithms) && SummaryWire(s).WDict?
  {
  }

  lemma NamesBothAlgorithms(s: Summary, entries: seq<Resolved>)
    requires s.algorithms == PreparedNames(entries) && PolicyOrder(AlgorithmsOf(entries))
    ensures NamesBoth(SummaryWire(s))
  {
    hide SummaryWire, NameOf, Field;
    SummaryFields(s);
    FirstTwo(entries);
    var items := TextWires(s.algorithms).items;
    assert items[0] == WText(NameOf(Ed25519)) && items[1] == WText(NameOf(MlDsa));
    RequiredNames();
  }

  lemma FirstTwo(entries: seq<Resolved>)
    requires PolicyOrder(AlgorithmsOf(entries))
    ensures |entries| >= 2 && entries[0].prepared.algorithm == Ed25519 && entries[1].prepared.algorithm == MlDsa
  {
    assert |AlgorithmsOf(entries)| == |entries|;
    assert AlgorithmsOf(entries)[0] == entries[0].prepared.algorithm;
    assert AlgorithmsOf(entries)[1] == entries[1].prepared.algorithm;
  }

  lemma RequiredNames()
    ensures NameOf(Ed25519) == "classical-ed25519" && NameOf(MlDsa) == "ml-dsa"
  {
  }

  /** One summary for each component bundle, in order. */
  lemma {:induction false} PredictedInOrder(bs: seq<Bundle>, n: nat)
    requires n <= |bs| && forall i :: 0 <= i < |bs| ==> (bs[i].id != ORCHESTRATOR_ROLE <==> i < n)
    ensures |Predicted(bs)| == n
    ensures forall i :: 0 <= i < n ==>
      Predicted(bs)[i] == Summary(bs[i].id, bs[i].role, PreparedNames(bs[i].entries), PreparedProfiles(bs[i].entries))
  {
    if bs != [] {
      assert forall i :: 0 <= i < |bs| - 1 ==> bs[1..][i] == bs[i + 1];
      PredictedInOrder(bs[1..], if n > 0 then n - 1 else 0);
    }
  }

  lemma ComponentsComplete(bs: seq<Bundle>)
    requires WellFormed(bs) && bs[5].id == ORCHESTRATOR_ROLE
    requires forall i :: 0 <= i < 5 ==> bs[i].id == SUPPORTED_COMPONENTS[i]
    ensures ComponentsSatisfy(SummaryWires(Predicted(bs)))
  {
    hide SummaryWire, NamesBoth, Field, PolicyOrder, Predicted;
    forall i | 0 <= i < 5 ensures bs[i].id != ORCHESTRATOR_ROLE { OrchestratorApart(i); }
    PredictedInOrder(bs, 5);
    var ss, v := Predicted(bs), SummaryWires(Predicted(bs));
    forall i | 0 <= i < 5
      ensures NamesBoth(v.items[i]) && Field(v.items[i], "component_id") == WText(SUPPORTED_COMPONENTS[i])
    {
      NamesBothAlgorithms(ss[i], bs[i].entries);
      SummaryFields(ss[i]);
    }
    RolesAreComponents();
    var got := set i | 0 <= i < 5 :: Field(v.items[i], "component_id");
    forall id | id in COMPONENT_ROLES ensures WText(id) in got {
      assert id in Elements(SUPPORTED_COMPONENTS);
      var i :| 0 <= i < 5 && SUPPORTED_COMPONENTS[i] == id;
      assert Field(v.items[i], "component_id") == WText(id);
    }
    forall w | w in got ensures w in set id | id in COMPONENT_ROLES :: WText(id) {
      var i :| 0 <= i < 5 && Field(v.items[i], "component_id") == w;
      assert SUPPORTED_COMPONENTS[i] in Elements(SUPPORTED_COMPONENTS);
    }
  }

  lemma SummaryParts(reg: Registry, bs: seq<Bundle>)
    requires |bs| == 6
    ensures var v, o := VerificationSummary(reg, bs), bs[5];
      && v.WDict? && Field(v, "policy_version") == WText(SIGNATURE_POLICY)
      && Field(v, "components") == SummaryWires(Predicted(bs))
      && Field(v, "orchestrator") == SummaryWire(Summary(o.id, o.role, PreparedNames(o.entries), PreparedProfiles(o.entries)))
  {
    hide SummaryWire, Predicted;
  }

  /**
   * Evidence built from a cleared receipt and its verification summary always meets the engine's Shield v4 demand:
   * schema, contract, policy, both required algorithms for the orchestrator and for exactly the five components.
   */
  lemma VerifiedMeetsDemand(q: Request, env: Oracles, pb: PreparedBundles, reg: Registry, bs: seq<Bundle>, e: Evidence)
    requires Cleared(q, env, pb, reg, bs) && |bs| == 6 && q.snapshot.Some?
    requires e.Object? && e.verified == WBool(true) && e.receipt == q.snapshot.value
    requires e.summary == VerificationSummary(reg, bs)
    ensures SatisfiesShieldV4(e)
  {
    hide Cleared, VerificationSummary, ComponentsSatisfy, NamesBoth, Field, PolicyOrder, SummaryWire, SummaryWires;
    ClearedWellFormed(q, env, pb, reg, bs);
    ClearedNames(q, env, pb, reg, bs);
    ClearedVersions(q, env, pb, reg, bs);
    SummaryParts(reg, bs);
    ComponentsComplete(bs);
    var o := bs[5];
    NamesBothAlgorithms(Summary(o.id, o.role, PreparedNames(o.entries), PreparedProfiles(o.entries)), o.entries);
  }

  lemma ClearedNames(q: Request, env: Oracles, pb: PreparedBundles, reg: Registry, bs: seq<Bundle>)
    requires Cleared(q, env, pb, reg, bs) && |bs| == 6
    ensures bs[5].id == ORCHESTRATOR_ROLE && forall i :: 0 <= i < 5 ==> bs[i].id == SUPPORTED_COMPONENTS[i]
  {
    hide Formed, RequestHolds, RegistryHolds, VersionsHold, FreshnessHolds, KeysHold, IntegrityHolds, Components, Field;
    hide ComponentCandidates, OrchestratorCandidate, WellFormed, AllResolved;
    ClearedSnapshot(q, env, pb, reg, bs);
    FormedPreflighted(q, env, pb);
    var r := q.snapshot.value;
    ResolvedWellFormed(ComponentCandidates(r, pb), OrchestratorCandidate(r, pb.receipt), bs, reg, q.time.s, env);
  }

  lemma ClearedVersions(q: Request, env: Oracles, pb: PreparedBundles, reg: Registry, bs: seq<Bundle>)
    requires Cleared(q, env, pb, reg, bs)
    ensures q.snapshot.Some? && q.snapshot.value.WDict?
    ensures Field(q.snapshot.value, "schema_version") == WText(RECEIPT_SCHEMA)
    ensures Field(q.snapshot.value, "contract_version") == WInt(4)
  {
    hide InputsHold, BundlesPrepared, RequestHolds, Trusted, IntegrityHolds, Components, TrustInputs, ReceiptBodyHolds,
      ComponentSetHolds, ExpectedOutcome, HashText, Field, FieldsMatch;
  }
}
