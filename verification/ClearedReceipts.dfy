/** What every callback of a cleared receipt rests on, spelled out on the receipt and on the registry it was checked against. */
module ClearedReceipts {
  import opened Wrappers
  import opened Trimming
  import opened ReceiptContract
  import opened ReceiptPipelines
  import opened ReceiptMeaning
  import opened KeyRegistry
  import opened VerificationWaves
  import opened BundleResolution
  import opened WaveProperties
  import opened PerBundleChecking
  import opened ReceiptVerifier
  import opened VerifierProperties

  /** Some entry of the registry names this key, and its status is "active". */
  ghost predicate ListedActive(raw: Wire, k: TrustedKey) {
    && k.active && raw.WDict? && "entries" in raw.fields && raw.fields["entries"].WList?
    && exists i :: 0 <= i < |raw.fields["entries"].items| && EntryNames(raw.fields["entries"].items[i], k)
  }

  /** The key is the one the entry asks for, for this role. */
  predicate KeyFits(x: Resolved, role: string) {
    && x.key.role == role && x.key.algorithm == x.prepared.algorithm
    && x.key.keyId == x.prepared.keyId && x.key.keyVersion == x.prepared.keyVersion
  }

  /** The artifact is described by its own fields. */
  predicate Describes(a: Artifact, v: Wire, kind: string, schema: string, id: string) {
    && a.kind == kind && a.schema == schema && a.id == id
    && Field(v, "signed_payload_hash") == WText(a.hash) && Field(v, "request_id") == WText(a.requestId)
    && Field(v, "context_hash") == WText(a.contextHash) && Field(v, "signature_policy") == WText(a.policy)
    && Field(v, "key_registry_version") == WInt(a.registryVersion)
  }

  function PreparedOf(b: Bundle): (ps: seq<Prepared>)
    ensures |ps| == |b.entries|
  {
    seq(|b.entries|, i requires 0 <= i < |b.entries| => b.entries[i].prepared)
  }

  /**
   * b is the signature bundle of v: its entries stand in it in this order, each made for v's own payload hash and domain,
   * each with an active key of the registry for this role that covers now and v's window.
   */
  ghost predicate Backed(v: Wire, b: Bundle, role: string, domain: string, hash: string, q: Request, env: Oracles)
    requires q.registry.Some? && q.time.WText?
  {
    && b.role == role && BundleSays(Field(v, "signature_bundle"), PreparedOf(b), hash, domain, env)
    && Field(v, "not_before").WText? && Field(v, "not_after").WText?
    && forall k :: 0 <= k < |b.entries| ==>
         && KeyFits(b.entries[k], role) && ListedActive(q.registry.value, b.entries[k].key)
         && Covers(b.entries[k].key, q.time.s, Field(v, "not_before").s, Field(v, "not_after").s, env)
  }

  lemma LoadedListed(raw: Wire, reg: Registry, env: Oracles, k: TrustedKey)
    requires RegistryHolds(raw, reg, env) && k in reg.entries && k.active
    ensures ListedActive(raw, k)
  {
    hide ReadKey, EntryNames;
    var i :| 0 <= i < |reg.entries| && reg.entries[i] == k;
    ReadKeyExactly(raw.fields["entries"].items[i], env, k);
    assert EntryNames(raw.fields["entries"].items[i], k);
  }

  /** What resolving an entry found. */
  lemma EntryBacked(c: Candidate, p: Prepared, x: Resolved, raw: Wire, reg: Registry, now: string, env: Oracles)
    requires RegistryHolds(raw, reg, env) && ResolveEntry(c, p, reg, now, env) == Some(x)
    ensures x.prepared == p && KeyFits(x, c.role) && ListedActive(raw, x.key) && Covers(x.key, now, c.start, c.end, env)
  {
    hide RegistryReads, Usable, QueryTimed, ListedActive, Covers;
    LookupExact(reg.entries, QueryFor(c, p, now), env, x.key);
    UsableExactly(x.key, QueryFor(c, p, now), env);
    LoadedListed(raw, reg, env, x.key);
  }

  lemma DigestReads(h: HexDigest, env: Oracles)
    requires HashText(WText(h), env).Some?
    ensures HashText(WText(h), env) == Some(h)
  {
    StripFixes(h);
  }

  /** v's window is open now. */
  ghost predicate Open(v: Wire, now: string, env: Oracles) {
    exists start, end, n, s, e ::
      && Field(v, "not_before") == WText(start) && Field(v, "not_after") == WText(end)
      && At(now, n, env) && At(start, s, env) && At(end, e, env) && s < e && s <= n <= e
  }

  lemma OpenExactly(v: Wire, now: string, n: int, env: Oracles)
    requires At(now, n, env)
    ensures FreshAt(v, n, env) <==> Open(v, now, env)
  {
    hide ParseUtc, At, Field;
    var start, end := TextOf(Field(v, "not_before")), TextOf(Field(v, "not_after"));
    forall t, m ensures ParseUtc(t, env) == Some(m) <==> At(t, m, env) { AtExactly(t, m, env); }
    NoTimeInNothing(env);
    if FreshAt(v, n, env) {
      var s, e := ParseUtc(start, env).value, ParseUtc(end, env).value;
      assert At(start, s, env) && At(end, e, env);
    }
  }

  lemma NoTimeInNothing(env: Oracles)
    ensures ParseUtc("", env).None?
  {
  }

  /** Fresh is a receipt whose own window and whose components' windows are all open. */
  lemma FreshnessExactly(r: Wire, now: string, env: Oracles)
    ensures FreshnessHolds(r, now, env) <==>
      Open(r, now, env) && forall i :: 0 <= i < |Components(r)| ==> Open(Components(r)[i], now, env)
  {
    hide ParseUtc, At, FreshAt, Components, Field;
    forall n ensures ParseUtc(now, env) == Some(n) <==> At(now, n, env) { AtExactly(now, n, env); }
    if ParseUtc(now, env).Some? {
      var n := ParseUtc(now, env).value;
      forall v ensures FreshAt(v, n, env) <==> Open(v, now, env) { OpenExactly(v, now, n, env); }
    }
  }

  /** A prepared and resolved bundle whose hash is a digest is backed. */
  lemma BundleBacked(v: Wire, ps: seq<Prepared>, c: Candidate, b: Bundle, domain: string, hash: HexDigest, raw: Wire,
                     reg: Registry, q: Request, env: Oracles)
    requires q.registry == Some(raw) && q.time.WText? && RegistryHolds(raw, reg, env)
    requires BundleHolds(Field(v, "signature_bundle"), hash, domain, env, ps)
    requires c.entries == ps && ResolvedAs(c, b, reg, q.time.s, env)
    requires Field(v, "not_before") == WText(c.start) && Field(v, "not_after") == WText(c.end)
    ensures Backed(v, b, c.role, domain, hash, q, env)
  {
    hide RegistryHolds, KeyFits, ListedActive, Covers, BundleSays, HashText, ResolveEntry, PolicyOrder;
    DigestReads(hash, env);
    BundleExactly(Field(v, "signature_bundle"), ps, hash, hash, domain, env);
    forall k | 0 <= k < |b.entries|
      ensures b.entries[k].prepared == ps[k] && KeyFits(b.entries[k], c.role)
      ensures ListedActive(raw, b.entries[k].key) && Covers(b.entries[k].key, q.time.s, c.start, c.end, env)
    {
      EntryBacked(c, c.entries[k], b.entries[k], raw, reg, q.time.s, env);
    }
    assert PreparedOf(b) == ps;
  }

  const COMPONENT_UNSIGNED := {"signed_payload_hash", "signature_bundle", "verification_summary"}
  const RECEIPT_UNSIGNED := {"receipt_hash", "signed_payload_hash", "signature_bundle", "verification_summary"}

  ghost predicate ComponentBacked(c: Wire, b: Bundle, id: string, q: Request, env: Oracles)
    requires q.registry.Some? && q.time.WText? && id in COMPONENT_ROLES
  {
    && Field(c, "component_id") == WText(id) && b.id == id
    && Backed(c, b, COMPONENT_ROLES[id], COMPONENT_DOMAIN, env.payloadHash(COMPONENT_DOMAIN, Signed(c, COMPONENT_UNSIGNED)), q, env)
    && Describes(b.artifact, c, "component_verdict", VERDICT_SCHEMA, id)
  }

  ghost predicate ReceiptBacked(r: Wire, b: Bundle, q: Request, env: Oracles)
    requires q.registry.Some? && q.time.WText?
  {
    && b.id == "shield_orchestrator"
    && Backed(r, b, "shield_orchestrator", RECEIPT_DOMAIN, env.payloadHash(RECEIPT_DOMAIN, Signed(r, RECEIPT_UNSIGNED)), q, env)
    && Describes(b.artifact, r, "orchestrator_receipt", RECEIPT_SCHEMA, "shield_orchestrator")
  }

  lemma ComponentTexts(c: Wire, context: string, env: Oracles)
    requires ComponentHolds(c, context, env)
    ensures Field(c, "not_before").WText? && Field(c, "not_after").WText? && Field(c, "request_id").WText?
    ensures Field(c, "context_hash").WText? && Field(c, "signature_policy").WText? && Field(c, "key_registry_version").WInt?
  {
    hide FieldsMatch, Strip, TextList, ForbiddenAuthority, Field;
  }

  lemma ReceiptTexts(r: Wire, context: string, env: Oracles)
    requires ReceiptHolds(r, context, env)
    ensures Field(r, "not_before").WText? && Field(r, "not_after").WText? && Field(r, "request_id").WText?
    ensures Field(r, "context_hash").WText? && Field(r, "signature_policy").WText? && Field(r, "key_registry_version").WInt?
  {
    hide FieldsMatch, Strip, TextList, ForbiddenAuthority, Field, ResultsHold, ComponentSetHolds, ExpectedOutcome;
  }

  lemma ComponentSigned(c: Wire, ps: seq<Prepared>, context: string, b: Bundle, raw: Wire, reg: Registry, q: Request,
                        env: Oracles)
    requires ComponentHolds(c, context, env) && BundlePrepared(c, env, ps) && ComponentIntegrity(c, env)
    requires q.registry == Some(raw) && q.time.WText? && RegistryHolds(raw, reg, env)
    requires ResolvedAs(ComponentCandidate(c, ps), b, reg, q.time.s, env)
    ensures Field(c, "component_id").WText? && Field(c, "component_id").s in COMPONENT_ROLES
    ensures ComponentBacked(c, b, Field(c, "component_id").s, q, env)
  {
    hide RegistryHolds, BundleHolds, ComponentHolds, KeyRepeated, Backed, ComponentIntegrity, Field, ResolveEntry;
    ComponentTexts(c, context, env);
    HashesExactly(c, env);
    var hash := env.payloadHash(COMPONENT_DOMAIN, Signed(c, COMPONENT_UNSIGNED));
    assert HashOf(c) == hash;
    BundleBacked(c, ps, ComponentCandidate(c, ps), b, COMPONENT_DOMAIN, hash, raw, reg, q, env);
  }

  lemma ReceiptSigned(r: Wire, ps: seq<Prepared>, context: string, b: Bundle, raw: Wire, reg: Registry, q: Request,
                      env: Oracles)
    requires ReceiptHolds(r, context, env) && ReceiptPrepared(r, env, ps) && ReceiptIntegrity(r, env)
    requires q.registry == Some(raw) && q.time.WText? && RegistryHolds(raw, reg, env)
    requires ResolvedAs(OrchestratorCandidate(r, ps), b, reg, q.time.s, env)
    ensures ReceiptBacked(r, b, q, env)
  {
    hide RegistryHolds, BundleHolds, ReceiptHolds, Backed, ReceiptIntegrity, Field, ResolveEntry;
    ReceiptTexts(r, context, env);
    HashesExactly(r, env);
    var hash := env.payloadHash(RECEIPT_DOMAIN, Signed(r, RECEIPT_UNSIGNED));
    assert HashOf(r) == hash;
    BundleBacked(r, ps, OrchestratorCandidate(r, ps), b, RECEIPT_DOMAIN, hash, raw, reg, q, env);
  }

  /** A cleared receipt is recorded under its own payload hash, request, context, policy and registry version. */
  lemma ReceiptDescribed(q: Request, env: Oracles, pb: PreparedBundles, reg: Registry, bs: seq<Bundle>)
    requires Cleared(q, env, pb, reg, bs)
    ensures q.snapshot.Some?
    ensures Describes(ReceiptArtifact(q.snapshot.value), q.snapshot.value,
                      "orchestrator_receipt", "shield.receipt.v2", "shield_orchestrator")
  {
    hide Formed, ReceiptHolds, ReceiptPrepared, ReceiptIntegrity, Field, RequestHolds, RegistryHolds, VersionsHold,
      FreshnessHolds, KeysHold, IntegrityHolds;
    ClearedSnapshot(q, env, pb, reg, bs);
    ReceiptParts(q, env, pb);
    ReceiptTexts(q.snapshot.value, q.expectedContext.s, env);
    HashesExactly(q.snapshot.value, env);
  }

  /** Bundle i is that of the component of that name. */
  ghost predicate BackedAt(r: Wire, b: Bundle, i: nat, q: Request, env: Oracles)
    requires q.registry.Some? && q.time.WText?
  {
    && i < 5 && SUPPORTED_COMPONENTS[i] in COMPONENT_ROLES
    && exists c :: c in Components(r) && ComponentBacked(c, b, SUPPORTED_COMPONENTS[i], q, env)
  }

  ghost predicate AllBacked(q: Request, env: Oracles, bs: seq<Bundle>) {
    && q.snapshot.Some? && q.registry.Some? && q.time.WText? && |bs| == 6
    && (forall i :: 0 <= i < 5 ==> BackedAt(q.snapshot.value, bs[i], i, q, env))
    && ReceiptBacked(q.snapshot.value, bs[5], q, env)
  }

  /**
   * The six bundles of a cleared receipt are those of its five components, in the order of their names, and its own. Every
   * signature in them is made for the payload it stands with, and has its key in the registry: for the signer's role,
   * active, and in force now and over the whole window of what is signed.
   */
  lemma ClearedBacked(q: Request, env: Oracles, pb: PreparedBundles, reg: Registry, bs: seq<Bundle>)
    requires Cleared(q, env, pb, reg, bs)
    ensures AllBacked(q, env, bs)
  {
    hide Formed, RequestHolds, RegistryHolds, VersionsHold, FreshnessHolds, KeysHold, IntegrityHolds, Components, Field;
    hide OrchestratorCandidate, InOrder, BackedAt, ReceiptBacked, ResolvedAs, Complete, WellFormed, ComponentCandidates;
    ClearedSnapshot(q, env, pb, reg, bs);
    ClearedWellFormed(q, env, pb, reg, bs);
    FormedPreflighted(q, env, pb);
    var r := q.snapshot.value;
    var cs, o := ComponentCandidates(r, pb), OrchestratorCandidate(r, pb.receipt);
    OrderKeepsBundles(cs, o);
    ResolvedWellFormed(cs, o, bs, reg, q.time.s, env);
    LastIsReceipt(cs, o);
    ReceiptParts(q, env, pb);
    ReceiptSigned(r, pb.receipt, q.expectedContext.s, bs[5], q.registry.value, reg, q, env);
    forall i | 0 <= i < 5 ensures BackedAt(r, bs[i], i, q, env) {
      ComponentFound(q, env, pb, reg, bs[i], i);
    }
  }

  /** The component that stands at place i. */
  lemma ComponentFound(q: Request, env: Oracles, pb: PreparedBundles, reg: Registry, b: Bundle, i: nat)
    requires q.snapshot.Some? && Formed(q, env, pb) && IntegrityHolds(q.snapshot.value, env) && i < 5
    requires q.registry.Some? && q.time.WText? && RegistryHolds(q.registry.value, reg, env)
    requires |pb.components| == |Components(q.snapshot.value)| && Complete(ComponentCandidates(q.snapshot.value, pb))
    requires var cs, o := ComponentCandidates(q.snapshot.value, pb), OrchestratorCandidate(q.snapshot.value, pb.receipt);
      ResolvedAs(InOrder(cs, o)[i], b, reg, q.time.s, env)
    ensures BackedAt(q.snapshot.value, b, i, q, env)
  {
    hide Formed, RegistryHolds, IntegrityHolds, Components, Field, ComponentCandidate, OrchestratorCandidate, InOrder,
      ComponentBacked, ResolvedAs, Complete;
    var r := q.snapshot.value;
    var cs, o := ComponentCandidates(r, pb), OrchestratorCandidate(r, pb.receipt);
    OrderKeepsBundles(cs, o);
    var all := InOrder(cs, o);
    assert all[i] in all;
    OrchestratorApart(i);
    NotOrchestrator(r, pb.receipt);
    var j :| 0 <= j < |cs| && cs[j] == all[i];
    var c := Components(r)[j];
    ComponentParts(q, env, pb, j);
    ComponentSigned(c, pb.components[j], HashText(Field(r, "context_hash"), env).value, b, q.registry.value, reg, q, env);
    CandidateNamed(c, pb.components[j]);
    assert c in Components(r) && ComponentBacked(c, b, SUPPORTED_COMPONENTS[i], q, env);
  }

  lemma CandidateNamed(c: Wire, ps: seq<Prepared>)
    requires Field(c, "component_id").WText?
    ensures ComponentCandidate(c, ps).id == Field(c, "component_id").s
  {
  }

  lemma NotOrchestrator(r: Wire, ps: seq<Prepared>)
    ensures OrchestratorCandidate(r, ps).id == ORCHESTRATOR_ROLE
  {
  }

  lemma LastIsReceipt(cs: seq<Candidate>, o: Candidate)
    requires Complete(cs)
    ensures InOrder(cs, o)[5] == o
  {
    hide ById;
  }

  /** What the form and the integrity of a cleared receipt say of the receipt itself. */
  lemma ReceiptParts(q: Request, env: Oracles, pb: PreparedBundles)
    requires Formed(q, env, pb) && IntegrityHolds(q.snapshot.value, env)
    ensures q.expectedContext.WText? && ReceiptHolds(q.snapshot.value, q.expectedContext.s, env)
    ensures ReceiptPrepared(q.snapshot.value, env, pb.receipt) && ReceiptIntegrity(q.snapshot.value, env)
  {
    hide InputsHold, ReceiptHolds, ReceiptPrepared, ReceiptIntegrity, BundlePrepared, KeyRepeated, Components;
  }

  lemma ComponentParts(q: Request, env: Oracles, pb: PreparedBundles, j: nat)
    requires Formed(q, env, pb) && IntegrityHolds(q.snapshot.value, env) && j < |Components(q.snapshot.value)|
    ensures var r := q.snapshot.value;
      && HashText(Field(r, "context_hash"), env).Some? && |pb.components| == |Components(r)|
      && ComponentHolds(Components(r)[j], HashText(Field(r, "context_hash"), env).value, env)
      && BundlePrepared(Components(r)[j], env, pb.components[j]) && ComponentIntegrity(Components(r)[j], env)
  {
    hide InputsHold, ComponentHolds, BundlePrepared, ReceiptPrepared, ReceiptIntegrity, ComponentIntegrity, HashText,
      ReceiptBodyHolds, FieldsMatch, KeyRepeated, BundlesSized, CanonicalReceiptFits, ExpectedOutcome;
  }

  /** A cleared receipt and all its components are in their windows now. */
  lemma ClearedOpen(q: Request, env: Oracles, pb: PreparedBundles, reg: Registry, bs: seq<Bundle>)
    requires Cleared(q, env, pb, reg, bs)
    ensures q.snapshot.Some? && q.time.WText? && Open(q.snapshot.value, q.time.s, env)
    ensures forall c :: c in Components(q.snapshot.value) ==> Open(c, q.time.s, env)
  {
    hide Formed, RequestHolds, RegistryHolds, VersionsHold, FreshnessHolds, KeysHold, IntegrityHolds, Components,
      Field, Open;
    ClearedSnapshot(q, env, pb, reg, bs);
    FreshnessExactly(q.snapshot.value, q.time.s, env);
  }

  /** So nothing is ever put before the signature verifier under a key that is not listed as active. */
  lemma CallsUnderActiveKeys(q: Request, env: Oracles, pb: PreparedBundles, reg: Registry, bs: seq<Bundle>,
                             answers: (nat, Resolved) -> Answer, i: nat)
    requires Cleared(q, env, pb, reg, bs)
    ensures q.registry.Some?
    ensures forall c :: c in Execute(Plan(bs), answers, i, 0, 0).calls ==> ListedActive(q.registry.value, c.entry.key)
  {
    hide Cleared, Execute, Plan, AllBacked, WellFormed, StepCosts, ListedActive;
    ClearedWellFormed(q, env, pb, reg, bs);
    ClearedBacked(q, env, pb, reg, bs);
    BackedRegistry(q, env, bs);
    var x := Execute(Plan(bs), answers, i, 0, 0);
    RunsFollowPlan(Plan(bs), answers, i, 0, 0);
    PlanBounds(bs);
    forall c | c in x.calls ensures ListedActive(q.registry.value, c.entry.key) {
      var k :| 0 <= k < |x.calls| && x.calls[k] == c;
      assert Plan(bs)[k] in Plan(bs);
      EntryActive(q, env, bs, c.bundle, c.entry);
    }
  }

  lemma BackedRegistry(q: Request, env: Oracles, bs: seq<Bundle>)
    requires AllBacked(q, env, bs)
    ensures q.registry.Some?
  {
  }

  lemma EntryActive(q: Request, env: Oracles, bs: seq<Bundle>, b: Bundle, e: Resolved)
    requires AllBacked(q, env, bs) && b in bs && e in b.entries
    ensures q.registry.Some? && ListedActive(q.registry.value, e.key)
  {
    hide ListedActive, Covers, BundleSays, Describes, KeyFits, Components, Field;
    var j :| 0 <= j < |bs| && bs[j] == b;
    var n :| 0 <= n < |b.entries| && b.entries[n] == e;
    if j < 5 {
      assert BackedAt(q.snapshot.value, bs[j], j, q, env);
      var c :| c in Components(q.snapshot.value) && ComponentBacked(c, bs[j], SUPPORTED_COMPONENTS[j], q, env);
    }
  }
}
