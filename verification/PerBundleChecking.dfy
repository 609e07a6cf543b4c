/** Checking one bundle at a time, and why the global waves accept the same receipts. */
module PerBundleChecking {
  import opened Wrappers
  import opened Strings
  import opened ReceiptContract
  import opened KeyRegistry
  import opened VerificationWaves
  import opened BundleResolution
  import opened WaveProperties

  /** Entry k of the bundle resolves, and the verifier, called i + k times before, says yes to it. */
  predicate EntryAccepted(c: Candidate, k: nat, reg: Registry, now: string, env: Oracles, answers: (nat, Resolved) -> Answer, i: nat)
    requires k < |c.entries|
  {
    match ResolveEntry(c, c.entries[k], reg, now, env)
    case None => false
    case Some(e) => answers(i + k, e) == Yes
  }

  /** Every entry of b was called, in order, and is a result. */
  predicate Left(b: Bundle, results: seq<ResultEntry>, before: seq<Resolved>, after: seq<Resolved>) {
    results == ResultsOf(b.entries) && after == before + b.entries
  }

  /** _verify_prepared_bundle: keys are looked up one by one, between the callbacks. */
  method VerifyPreparedBundle(c: Candidate, reg: Registry, now: string, env: Oracles,
                              backend: SignatureBackend, capture: TranscriptCapture)
    returns (r: Option<seq<ResultEntry>>)
    modifies backend`log, capture`observations
    ensures r.Some? <==>
      forall k :: 0 <= k < |c.entries| ==> EntryAccepted(c, k, reg, now, env, backend.answers, |old(backend.log)|)
    ensures r.Some? ==> exists b :: ResolvedAs(c, b, reg, now, env) && Left(b, r.value, old(backend.log), backend.log)
  {
    hide Lookup, QueryFor;
    ghost var resolved: seq<Resolved> := [];
    var results: seq<ResultEntry> := [];
    var k := 0;
    while k < |c.entries|
      invariant k <= |c.entries| && |resolved| == k && results == ResultsOf(resolved)
      invariant backend.log == old(backend.log) + resolved
      invariant forall j :: 0 <= j < k ==> ResolveEntry(c, c.entries[j], reg, now, env) == Some(resolved[j])
      invariant forall j :: 0 <= j < k ==> EntryAccepted(c, j, reg, now, env, backend.answers, |old(backend.log)|)
    {
      var key := FindKey(reg, QueryFor(c, c.entries[k], now), env);
      if key.Err? {
        assert !EntryAccepted(c, k, reg, now, env, backend.answers, |old(backend.log)|);
        return None;
      }
      var e := Resolved(c.entries[k], key.value);
      var call := InvokeResolvedSignature(Bundle(c.id, c.role, [], c.artifact), e, backend, capture);
      if call.answer != Yes {
        assert !EntryAccepted(c, k, reg, now, env, backend.answers, |old(backend.log)|);
        return None;
      }
      results := results + [ResultOf(e)];
      resolved := resolved + [e];
      k := k + 1;
    }
    ghost var b := Bundle(c.id, c.role, resolved, c.artifact);
    assert ResolvedAs(c, b, reg, now, env) && Left(b, results, old(backend.log), backend.log);
    r := Some(results);
  }

  /** The bundle verifies on its own, under a deterministic verifier. */
  predicate BundleVerifies(c: Candidate, reg: Registry, now: string, env: Oracles, verdict: Resolved -> Answer) {
    forall k :: 0 <= k < |c.entries| ==> EntryVerifies(c, k, reg, now, env, verdict)
  }

  predicate EntryVerifies(c: Candidate, k: nat, reg: Registry, now: string, env: Oracles, verdict: Resolved -> Answer)
    requires k < |c.entries|
  {
    match ResolveEntry(c, c.entries[k], reg, now, env)
    case None => false
    case Some(e) => verdict(e) == Yes
  }

  lemma PerBundleVerdict(c: Candidate, reg: Registry, now: string, env: Oracles,
                         answers: (nat, Resolved) -> Answer, verdict: Resolved -> Answer, i: nat)
    requires Answers(answers, verdict)
    ensures BundleVerifies(c, reg, now, env, verdict)
      <==> forall k :: 0 <= k < |c.entries| ==> EntryAccepted(c, k, reg, now, env, answers, i)
  {
    hide ResolveEntry;
    forall k | 0 <= k < |c.entries|
      ensures EntryVerifies(c, k, reg, now, env, verdict) <==> EntryAccepted(c, k, reg, now, env, answers, i)
    {
    }
  }

  /** What bundle preflight hands over: five components and the orchestrator, each under the signature policy. */
  predicate Preflighted(cs: seq<Candidate>, orchestrator: Candidate) {
    && Complete(cs) && orchestrator.id == ORCHESTRATOR_ROLE && PolicyOrder(Algorithms(orchestrator.entries))
    && forall c :: c in cs ==> PolicyOrder(Algorithms(c.entries))
  }

  lemma ResolvedWellFormed(cs: seq<Candidate>, orchestrator: Candidate, bs: seq<Bundle>,
                           reg: Registry, now: string, env: Oracles)
    requires Preflighted(cs, orchestrator) && AllResolved(InOrder(cs, orchestrator), bs, reg, now, env)
    ensures WellFormed(bs) && forall i :: 0 <= i < 5 ==> bs[i].id == SUPPORTED_COMPONENTS[i]
    ensures bs[5].id == ORCHESTRATOR_ROLE
  {
    hide Complete, PolicyOrder, Lookup;
    var all := InOrder(cs, orchestrator);
    OrderKeepsBundles(cs, orchestrator);
    NamesDistinct();
    forall i | 0 <= i < 6 ensures PolicyOrder(AlgorithmsOf(bs[i].entries)) && bs[i].id == all[i].id {
      assert all[i] in all;
      assert ResolvedAs(all[i], bs[i], reg, now, env);
      assert AlgorithmsOf(bs[i].entries) == Algorithms(all[i].entries);
    }
    forall i, j | 0 <= i < j < 6 ensures bs[i].id != bs[j].id {
      if j < 5 { assert SUPPORTED_COMPONENTS[i] != SUPPORTED_COMPONENTS[j]; }
      else { OrchestratorApart(i); }
    }
  }

  lemma OrchestratorApart(i: nat)
    requires i < 5
    ensures SUPPORTED_COMPONENTS[i] != ORCHESTRATOR_ROLE
  {
    assert |SUPPORTED_COMPONENTS[i]| <= 15 < |ORCHESTRATOR_ROLE|;
  }

  lemma ResolvedVerifies(c: Candidate, b: Bundle, reg: Registry, now: string, env: Oracles, verdict: Resolved -> Answer)
    requires ResolvedAs(c, b, reg, now, env)
    ensures BundleVerifies(c, reg, now, env, verdict) <==> forall e :: e in b.entries ==> verdict(e) == Yes
  {
    hide ResolveEntry;
    forall k | 0 <= k < |c.entries| ensures EntryVerifies(c, k, reg, now, env, verdict) <==> verdict(b.entries[k]) == Yes {
      assert ResolveEntry(c, c.entries[k], reg, now, env) == Some(b.entries[k]);
    }
  }

  /** For a deterministic verifier, the resolved waves accept exactly when each of the six bundles verifies on its own. */
  lemma WavesRefinePerBundle(cs: seq<Candidate>, orchestrator: Candidate, bs: seq<Bundle>, reg: Registry, now: string,
                             env: Oracles, answers: (nat, Resolved) -> Answer, verdict: Resolved -> Answer, i: nat)
    requires Preflighted(cs, orchestrator) && Answers(answers, verdict)
    requires AllResolved(InOrder(cs, orchestrator), bs, reg, now, env)
    ensures Execute(Plan(bs), answers, i, 0, 0).fault.None?
      <==> forall c :: c in cs || c == orchestrator ==> BundleVerifies(c, reg, now, env, verdict)
  {
    hide Complete, ResolvedAs, BundleVerifies, Execute, Plan, PolicyOrder;
    var all := InOrder(cs, orchestrator);
    OrderKeepsBundles(cs, orchestrator);
    ResolvedWellFormed(cs, orchestrator, bs, reg, now, env);
    WavesAcceptExactly(bs, answers, verdict, i);
    forall j | 0 <= j < 6
      ensures BundleVerifies(all[j], reg, now, env, verdict) <==> forall e :: e in bs[j].entries ==> verdict(e) == Yes
    {
      ResolvedVerifies(all[j], bs[j], reg, now, env, verdict);
    }
  }

  /** A receipt whose keys do not all resolve fails both ways: the waves never start, and some bundle does not verify. */
  lemma UnresolvableFails(cs: seq<Candidate>, orchestrator: Candidate, reg: Registry, now: string, env: Oracles,
                          verdict: Resolved -> Answer)
    requires Preflighted(cs, orchestrator)
    requires exists c :: c in InOrder(cs, orchestrator) && !Resolvable(c, reg, now, env)
    ensures exists c :: (c in cs || c == orchestrator) && !BundleVerifies(c, reg, now, env, verdict)
  {
    hide Complete, ResolveEntry;
    OrderKeepsBundles(cs, orchestrator);
    var c :| c in InOrder(cs, orchestrator) && !Resolvable(c, reg, now, env);
    var k :| 0 <= k < |c.entries| && ResolveEntry(c, c.entries[k], reg, now, env).None?;
    assert !EntryVerifies(c, k, reg, now, env, verdict);
    assert !BundleVerifies(c, reg, now, env, verdict);
  }
}
