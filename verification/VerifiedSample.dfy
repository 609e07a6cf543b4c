/** A receipt that passes every check of the staged verifier, so that what is proved of cleared receipts speaks of some. */
module VerifiedSample {
  import opened Wrappers
  import opened Strings
  import opened Trimming
  import opened ReceiptContract
  import opened ReceiptPipelines
  import opened ReceiptStaging
  import opened KeyRegistry
  import opened VerificationWaves
  import opened WaveProperties
  import opened BundleResolution
  import opened PerBundleChecking
  import opened ComponentSummaries
  import opened Identifiers
  import opened ReceiptVerifier
  import opened VerifierProperties
  import opened AuditedArtifacts
  import opened PaddedIdentity
  import opened SampleReceipts
  import opened ShieldEvidence

  /** The one digest of the sample. */
  function D(): HexDigest {
    var zeros := seq(64, _ => '0');
    zeros
  }

  const NOW := "2030-01-01T00:00:00Z"

  /** Every hash is the same, every value is short, and times are ordered: "b", anything else, "e". */
  function SampleEnv(): Oracles {
    Oracles(s => |s| == 64, _ => true, _ => Ok(0), _ => D(), (_, _) => D(),
            s => Some(if s == "b" then 0 else if s == "e" then 2 else 1))
  }

  function TheSample(): Sample {
    Sample(SUPPORTED_COMPONENTS, D(), [D(), D(), D(), D(), D()], D(), D())
  }

  /** The sample's receipt. */
  function TheReceipt(): Wire {
    SampleIsShaped();
    SampleReceipt(TheSample())
  }

  function RoleAt(j: nat): string
    requires j < 6
  {
    if j < 5 then RoleOf(SUPPORTED_COMPONENTS[j]) else ORCHESTRATOR_ROLE
  }

  /** The key of role j for the first (a = 0) or second required algorithm. */
  function KeyAt(j: nat, a: nat): TrustedKey
    requires j < 6 && a < 2
  {
    TrustedKey(RoleAt(j), if a == 0 then "k1" else "k2", 1, if a == 0 then Ed25519 else MlDsa, "b", "e", true, "p")
  }

  function KeyWire(k: TrustedKey): Wire {
    WDict(map[
      "role" := WText(k.role), "key_id" := WText(k.keyId), "key_version" := WInt(k.keyVersion),
      "algorithm" := WText(NameOf(k.algorithm)), "not_before" := WText(k.notBefore), "not_after" := WText(k.notAfter),
      "status" := WText("active"), "public_key" := WText(k.publicKey)])
  }

  function SampleKeys(): seq<TrustedKey> {
    seq(12, i requires 0 <= i < 12 => KeyAt(i / 2, i % 2))
  }

  function SampleRegistry(): Wire {
    WDict(map[
      "schema_version" := WText(KEY_REGISTRY_SCHEMA), "registry_version" := WInt(1),
      "entries" := WList(seq(12, i requires 0 <= i < 12 => KeyWire(SampleKeys()[i])))])
  }

  function SampleBundlesPrepared(): PreparedBundles {
    PreparedBundles(seq(5, _ => SamplePrepared(D(), COMPONENT_DOMAIN)), SamplePrepared(D(), RECEIPT_DOMAIN))
  }

  function SampleRequest(): Request {
    Request(Some(TheReceipt()), WText(D()), WText("r"), Some(SampleRegistry()), WText(NOW),
            Iterator(_ => Stop), Iterator(_ => Stop), WInt(1), true)
  }

  // ------------------------------------------------------------------- its form

  lemma SampleIsHashed()
    ensures Digest(D(), SampleEnv()) && SampleHashed(TheSample(), SampleEnv())
  {
    hide SampleBody, ReceiptBody, SampleBundle, SampleReceipt, Strip;
    forall i | 0 <= i < 5 ensures Strip(SUPPORTED_COMPONENTS[i]) == SUPPORTED_COMPONENTS[i] {
      RoleNamesStripped(SUPPORTED_COMPONENTS[i]);
    }
    assert D()[0] == '0' && D()[63] == '0';
  }

  lemma SampleIsPrepared()
    ensures BundlesPrepared(TheReceipt(), SampleEnv(), SampleBundlesPrepared())
  {
    hide SampleReceipt, SampleComponent, SamplePrepared, SampleBundle, Components, Field, HashOf, BundleHolds,
      KeyRepeated,
      SampleHashed, Digest;
    var s, env := TheSample(), SampleEnv();
    SampleIsHashed();
    SampleShaped();
    DomainsPlain();
    ReceiptComponents(s);
    ReceiptHashes(s);
    SampleBundlePrepared(D(), RECEIPT_DOMAIN, env);
    forall i | 0 <= i < 5 ensures BundlePrepared(Components(SampleReceipt(s))[i], env, SampleBundlesPrepared().components[i]) {
      ComponentIsPrepared(i);
    }
  }

  lemma ComponentIsPrepared(i: nat)
    requires i < 5
    ensures BundlePrepared(SampleComponent(SUPPORTED_COMPONENTS[i], D(), D()), SampleEnv(), SamplePrepared(D(), COMPONENT_DOMAIN))
  {
    hide SampleReceipt, SampleComponent, SamplePrepared, SampleBundle, Field, HashOf, BundleHolds, KeyRepeated,
      SampleHashed,
      Digest, ComponentHashed, SampleEnv;
    SampleIsHashed();
    SampleShaped();
    DomainsPlain();
    SampleSigns();
    SampleBundlePrepared(D(), COMPONENT_DOMAIN, SampleEnv());
    SampleComponentSigned(SUPPORTED_COMPONENTS[i], D(), D(), SampleEnv());
    SampleIdentity(SUPPORTED_COMPONENTS[i], D(), D());
  }

  lemma SampleSigns()
    ensures SampleEnv().signatureBody("AA")
  {
  }

  lemma SampleShaped()
    ensures Shaped(TheSample()) && forall i :: 0 <= i < 5 ==> ComponentHashed(TheSample().ids[i], D(), D(), SampleEnv())
  {
    hide ReceiptBody, SampleBody, SampleBundle, SampleReceipt, Strip, Digest;
    SampleIsHashed();
  }

  /** Request, time and context are usable, and the receipt keeps its contract. */
  lemma SampleIsFormed()
    ensures Formed(SampleRequest(), SampleEnv(), SampleBundlesPrepared())
  {
    hide SampleReceipt, SampleHashed, ReceiptHolds, BundlesPrepared, SampleBundlesPrepared, SampleRegistry, Digest,
      HashText;
    SampleIsHashed();
    SampleReceiptHolds(TheSample(), SampleEnv());
    SampleIsPrepared();
    DigestIsHash(D(), SampleEnv());
    SmallInputs();
  }

  lemma SmallInputs()
    ensures BoundedText(WText("r")) && Strip("r") != "" && |NOW| == 20
  {
    StripFixes("r");
    assert Utf8Size("r") == 1 by { assert "r"[1..] == ""; }
  }

  // ------------------------------------------------------------------- its trust

  lemma TimesRead()
    ensures ParseUtc("b", SampleEnv()) == Some(0) && ParseUtc("e", SampleEnv()) == Some(2)
    ensures ParseUtc(NOW, SampleEnv()) == Some(1)
  {
    StripFixes("b");
    StripFixes("e");
    StripFixes(NOW);
  }

  lemma RolesPlain(j: nat)
    requires j < 6
    ensures RoleAt(j) != "" && Stripped(RoleAt(j)) && SupportedRole(RoleAt(j))
  {
    if j < 5 {
      assert RoleAt(j) == COMPONENT_ROLES[SUPPORTED_COMPONENTS[j]];
      assert SUPPORTED_COMPONENTS[j] in COMPONENT_ROLES.Keys;
      assert RoleAt(j) in COMPONENT_ROLES.Values;
    }
  }

  lemma RolesDiffer(i: nat, j: nat)
    requires i < j < 6
    ensures RoleAt(i) != RoleAt(j)
  {
    assert |RoleAt(0)| == 20 && |RoleAt(1)| == 21 && |RoleAt(2)| == 32 && |RoleAt(3)| == 20 && |RoleAt(4)| == 28;
    assert |RoleAt(5)| == 19 && RoleAt(0)[17] == 'a' && RoleAt(3)[17] == 'q';
  }

  lemma KeyReads(j: nat, a: nat)
    requires j < 6 && a < 2
    ensures ReadKey(KeyWire(KeyAt(j, a)), SampleEnv()) == Some(KeyAt(j, a))
  {
    hide NonEmpty, ParseUtc, Strip, Stripped, RoleAt, SampleEnv;
    var k := KeyAt(j, a);
    TimesRead();
    RolesPlain(j);
    SampleNamesPlain();
    SampleTexts();
    AsWritten(k.role);
    AsWritten(k.keyId);
    AsWritten(NameOf(k.algorithm));
    PlainLetters();
    assert KeyWire(k).fields.Keys == KEY_FIELDS;
  }

  lemma PlainLetters()
    ensures NonEmpty(WText("b")) == Some("b") && NonEmpty(WText("e")) == Some("e") && NonEmpty(WText("p")) == Some("p")
    ensures NonEmpty(WText("active")) == Some("active")
  {
    AsWritten("b");
    AsWritten("e");
    AsWritten("p");
    AsWritten("active");
  }

  lemma RegistryIsLoaded()
    ensures RegistryHolds(SampleRegistry(), Registry(1, SampleKeys()), SampleEnv())
  {
    hide ReadKey, KeyWire, RoleAt;
    var keys, raw := SampleKeys(), SampleRegistry();
    assert raw.fields.Keys == REGISTRY_FIELDS;
    forall i | 0 <= i < 12 ensures ReadKey(raw.fields["entries"].items[i], SampleEnv()) == Some(keys[i]) {
      KeyReads(i / 2, i % 2);
    }
    forall i, j | 0 <= i < j < 12 ensures !SameIdentity(keys[i], keys[j]) {
      if i / 2 < j / 2 { RolesDiffer(i / 2, j / 2); }
    }
  }

  lemma KeyIsFound(c: Candidate, j: nat, a: nat)
    requires j < 6 && a < 2 && c.role == RoleAt(j) && c.start == "b" && c.end == "e"
    requires |c.entries| == 2 && c.entries[a].keyId == KeyAt(j, a).keyId && c.entries[a].keyVersion == 1
    requires c.entries[a].algorithm == KeyAt(j, a).algorithm
    ensures ResolveEntry(c, c.entries[a], Registry(1, SampleKeys()), NOW, SampleEnv()) == Some(Resolved(c.entries[a], KeyAt(j, a)))
  {
    hide RoleAt, Lookup, SampleEnv, SampleKeys, SampleRegistry, RegistryReads, QueryTimed, Usable, KeyAt;
    RegistryIsLoaded();
    var q := QueryFor(c, c.entries[a], NOW);
    KeyIsUsable(q, j, a);
    KeyIsListed(j, a);
    LookupExact(SampleKeys(), q, SampleEnv(), KeyAt(j, a));
  }

  lemma KeyIsUsable(q: KeyQuery, j: nat, a: nat)
    requires j < 6 && a < 2 && q.now == NOW && q.artifactStart == "b" && q.artifactEnd == "e"
    ensures QueryTimed(q, SampleEnv()) && Usable(KeyAt(j, a), q, SampleEnv())
    ensures KeyAt(j, a).role == RoleAt(j) && KeyAt(j, a).keyVersion == 1
  {
    hide RoleAt, SampleEnv, ParseUtc;
    TimesRead();
  }

  lemma KeyIsListed(j: nat, a: nat)
    requires j < 6 && a < 2
    ensures KeyAt(j, a) in SampleKeys()
  {
    hide KeyAt;
    assert SampleKeys()[2 * j + a] == KeyAt(j, a);
  }

  lemma SampleIsFresh()
    ensures FreshnessHolds(TheReceipt(), NOW, SampleEnv())
    ensures VersionsHold(TheReceipt(), Registry(1, SampleKeys()), 1)
  {
    hide SampleReceipt, SampleComponent, ReceiptBody, Field, ParseUtc, SampleEnv, Components, Signed;
    TimesRead();
    SampleIsShaped();
    ReceiptComponents(TheSample());
    ReceiptDates();
    forall i | 0 <= i < 5
      ensures var c := SampleComponent(SUPPORTED_COMPONENTS[i], D(), D());
        && Field(c, "not_before") == WText("b") && Field(c, "not_after") == WText("e")
        && Field(c, "key_registry_version") == WInt(1)
    {
      ComponentDates(SUPPORTED_COMPONENTS[i]);
    }
  }

  lemma SampleIsShaped()
    ensures Shaped(TheSample())
  {
    hide Strip;
    SampleShaped();
  }

  lemma ReceiptDates()
    ensures Shaped(TheSample())
    ensures var r := TheReceipt();
      && Field(r, "not_before") == WText("b") && Field(r, "not_after") == WText("e")
      && Field(r, "key_registry_version") == WInt(1) && Field(r, "request_id") == WText("r")
      && Field(r, "component_signature_results") == SampleResults()
      && Field(r, "adamantineos_handoff") == WDict(map["handoff_allowed" := WBool(true)])
  {
    hide SampleReceipt, Field, SampleVerdicts, SampleResults, Shaped;
    SampleIsShaped();
    var s := TheSample();
    ReceiptField(s, "not_before");
    ReceiptField(s, "not_after");
    ReceiptField(s, "key_registry_version");
    ReceiptField(s, "request_id");
    ReceiptField(s, "component_signature_results");
    ReceiptField(s, "adamantineos_handoff");
  }

  lemma ComponentDates(id: string)
    ensures var c := SampleComponent(id, D(), D());
      && Field(c, "not_before") == WText("b") && Field(c, "not_after") == WText("e")
      && Field(c, "key_registry_version") == WInt(1)
  {
    hide SampleComponent, Field;
    SampleFields(id, D(), D());
    SampleLists(id, D(), D());
  }

  // ------------------------------------------------------------------- its keys

  function SampleCandidates(): seq<Candidate> {
    var r := TheReceipt();
    if |Components(r)| == 5 then ComponentCandidates(r, SampleBundlesPrepared()) else []
  }

  function SampleOrchestrator(): Candidate {
    OrchestratorCandidate(TheReceipt(), SamplePrepared(D(), RECEIPT_DOMAIN))
  }

  /** What a candidate of the sample is looked up by. */
  predicate CandidateAt(c: Candidate, j: nat)
    requires j < 6
  {
    && c.id == (if j < 5 then SUPPORTED_COMPONENTS[j] else ORCHESTRATOR_ROLE) && c.role == RoleAt(j)
    && c.start == "b" && c.end == "e"
    && c.entries == SamplePrepared(D(), if j < 5 then COMPONENT_DOMAIN else RECEIPT_DOMAIN)
  }

  lemma CandidatesAre()
    ensures |Components(TheReceipt())| == 5 && |SampleCandidates()| == 5
    ensures forall j :: 0 <= j < 5 ==> CandidateAt(SampleCandidates()[j], j)
    ensures CandidateAt(SampleOrchestrator(), 5)
  {
    hide SampleReceipt, SampleComponent, SamplePrepared, Field, Components, ArtifactOf, RoleOf;
    SampleIsShaped();
    ReceiptComponents(TheSample());
    ReceiptDates();
    forall j | 0 <= j < 5 ensures CandidateAt(SampleCandidates()[j], j) {
      ComponentDates(SUPPORTED_COMPONENTS[j]);
      SampleIdentity(SUPPORTED_COMPONENTS[j], D(), D());
    }
  }

  lemma InOrderAt(j: nat)
    requires j < 6
    ensures Complete(SampleCandidates()) && CandidateAt(InOrder(SampleCandidates(), SampleOrchestrator())[j], j)
  {
    hide SampleCandidates, SampleOrchestrator, Complete, CandidateAt;
    CandidatesAre();
    var cs, o := SampleCandidates(), SampleOrchestrator();
    assert Complete(cs) by { CandidatesComplete(); }
    OrderKeepsBundles(cs, o);
    var all := InOrder(cs, o);
    if j < 5 {
      assert all[j] in all;
      OrchestratorApart(j);
      assert all[j].id != o.id by { OrchestratorNamed(); }
      var i :| 0 <= i < 5 && cs[i] == all[j];
      CandidateNamed(i);
      NamesDistinct();
    }
  }

  lemma OrchestratorNamed()
    ensures SampleOrchestrator().id == ORCHESTRATOR_ROLE
  {
    hide SampleOrchestrator;
    CandidatesAre();
  }

  lemma CandidateNamed(i: nat)
    requires i < 5
    ensures |SampleCandidates()| == 5 && SampleCandidates()[i].id == SUPPORTED_COMPONENTS[i]
  {
    hide SampleCandidates, SampleOrchestrator;
    CandidatesAre();
  }

  lemma CandidatesComplete()
    ensures Complete(SampleCandidates())
  {
    hide SampleReceipt, Components, Formed;
    SampleIsFormed();
    CandidatesAre();
    FormedComplete(SampleRequest(), SampleEnv(), SampleBundlesPrepared());
  }

  function ResolvedAt(c: Candidate, j: nat): Bundle
    requires j < 6 && |c.entries| == 2
  {
    Bundle(c.id, c.role, [Resolved(c.entries[0], KeyAt(j, 0)), Resolved(c.entries[1], KeyAt(j, 1))], c.artifact)
  }

  lemma CandidateResolves(c: Candidate, j: nat)
    requires j < 6 && CandidateAt(c, j)
    ensures |c.entries| == 2 && Resolvable(c, Registry(1, SampleKeys()), NOW, SampleEnv())
    ensures ResolvedAs(c, ResolvedAt(c, j), Registry(1, SampleKeys()), NOW, SampleEnv())
  {
    hide RoleAt, SampleKeys, SampleEnv, ResolveEntry;
    KeyIsFound(c, j, 0);
    KeyIsFound(c, j, 1);
  }

  /** The sample's six bundles, resolved. */
  function SampleBundlesResolved(): seq<Bundle> {
    if Complete(SampleCandidates()) && forall c :: c in InOrder(SampleCandidates(), SampleOrchestrator()) ==> |c.entries| == 2
    then seq(6, j requires 0 <= j < 6 => ResolvedAt(InOrder(SampleCandidates(), SampleOrchestrator())[j], j))
    else []
  }

  lemma BundlesAre()
    ensures Complete(SampleCandidates()) && |SampleBundlesResolved()| == 6
    ensures var all := InOrder(SampleCandidates(), SampleOrchestrator());
      forall j :: 0 <= j < 6 ==> CandidateAt(all[j], j) && |all[j].entries| == 2 && SampleBundlesResolved()[j] == ResolvedAt(all[j], j)
  {
    hide SampleCandidates, SampleOrchestrator, Complete, CandidateAt, ResolvedAt, InOrder;
    CandidatesComplete();
    var all := InOrder(SampleCandidates(), SampleOrchestrator());
    forall j | 0 <= j < 6 ensures CandidateAt(all[j], j) && |all[j].entries| == 2 {
      InOrderAt(j);
      CandidateResolves(all[j], j);
    }
    assert forall c :: c in all ==> exists j :: 0 <= j < 6 && all[j] == c;
  }

  lemma SampleResolves()
    ensures Complete(SampleCandidates())
    ensures var all, reg := InOrder(SampleCandidates(), SampleOrchestrator()), Registry(1, SampleKeys());
      && (forall c :: c in all ==> Resolvable(c, reg, NOW, SampleEnv()))
      && AllResolved(all, SampleBundlesResolved(), reg, NOW, SampleEnv())
  {
    hide SampleCandidates, SampleOrchestrator, Complete, CandidateAt, ResolvedAt, InOrder, SampleBundlesResolved,
      Resolvable,
      ResolvedAs, SampleKeys, SampleEnv;
    BundlesAre();
    var all := InOrder(SampleCandidates(), SampleOrchestrator());
    forall j | 0 <= j < 6
      ensures Resolvable(all[j], Registry(1, SampleKeys()), NOW, SampleEnv())
      ensures ResolvedAs(all[j], SampleBundlesResolved()[j], Registry(1, SampleKeys()), NOW, SampleEnv())
    {
      CandidateResolves(all[j], j);
    }
  }

  /** What the sample claims of a component is what its bundle makes the verifier predict. */
  lemma ClaimFits(c: Candidate, j: nat)
    requires j < 5 && CandidateAt(c, j) && |c.entries| == 2
    ensures var b := ResolvedAt(c, j);
      NormalClaim(SampleResult(SUPPORTED_COMPONENTS[j]))
        == NormalSummary(Summary(b.id, b.role, PreparedNames(b.entries), PreparedProfiles(b.entries)))
    ensures NormalClaim(SampleResult(SUPPORTED_COMPONENTS[j])).Some?
  {
    hide KeyAt, SampleEntry;
    var b, x := ResolvedAt(c, j), SampleResult(SUPPORTED_COMPONENTS[j]);
    assert PreparedNames(b.entries) == ["classical-ed25519", "ml-dsa"];
    assert PreparedProfiles(b.entries) == ["rfc8032-ed25519-v1", "fips204-ml-dsa-65-v1"];
    assert Texts(Field(x, "verified_algorithms")) == ["classical-ed25519", "ml-dsa"];
    assert Texts(Field(x, "verified_standard_profiles")) == ["rfc8032-ed25519-v1", "fips204-ml-dsa-65-v1"];
  }

  lemma SampleCrossChecks()
    ensures CrossChecks(SampleResults().items, Predicted(SampleBundlesResolved()))
  {
    hide SampleCandidates, SampleOrchestrator, Complete, CandidateAt, InOrder, SampleBundlesResolved, SampleResult,
      KeyAt,
      NormalClaim, NormalSummary, PreparedNames, PreparedProfiles, Predicted;
    BundlesAre();
    var bs, all := SampleBundlesResolved(), InOrder(SampleCandidates(), SampleOrchestrator());
    forall j | 0 <= j < 6 ensures bs[j].id != ORCHESTRATOR_ROLE <==> j < 5 { BundleNamed(all[j], j); }
    PredictedInOrder(bs, 5);
    var xs, ss := SampleResults().items, Predicted(bs);
    forall j | 0 <= j < 5 ensures NormalClaim(xs[j]).Some? && NormalClaim(xs[j]) == NormalSummary(ss[j]) {
      ClaimFits(all[j], j);
    }
    assert Claims(xs) == Expected(ss);
  }

  lemma BundleNamed(c: Candidate, j: nat)
    requires j < 6 && CandidateAt(c, j) && |c.entries| == 2
    ensures ResolvedAt(c, j).id != ORCHESTRATOR_ROLE <==> j < 5
  {
    if j < 5 { OrchestratorApart(j); }
  }

  // --------------------------------------------------------------- the whole

  /** Some receipt is cleared, carries its handoff, and is ready to be audited. */
  lemma SomeReceiptIsCleared()
    returns (q: Request, env: Oracles, pb: PreparedBundles, reg: Registry, bs: seq<Bundle>)
    ensures Cleared(q, env, pb, reg, bs) && AuditReady(q)
    ensures q.snapshot.Some? && HasHandoff(q.snapshot.value)
  {
    hide SampleReceipt, SampleBundlesResolved, SampleKeys, Formed, InputsHold, VersionsHold, FreshnessHolds,
      Components, Field,
      RegistryHolds, SampleRegistry, Predicted, CrossChecks, IntegrityHolds, Complete, InOrder, Resolvable, AllResolved,
      WithinCallBudget, ComponentCandidates, OrchestratorCandidate, SampleEnv, BundlesShaped, RepeatsAKey, SampleHashed,
      TextsBounded;
    q, env, pb := SampleRequest(), SampleEnv(), SampleBundlesPrepared();
    reg, bs := Registry(1, SampleKeys()), SampleBundlesResolved();
    SampleIsFormed();
    FormedFacts(q, env, pb);
    SampleIsHashed();
    SampleBundles(TheSample(), env);
    RegistryIsLoaded();
    SampleIsFresh();
    ReceiptDates();
    SampleResolves();
    SampleCrossChecks();
    ResolutionNeverOverBudget(q, env, pb);
    NothingListed("r");
    NothingListed(TextOf(Field(q.snapshot.value, "receipt_hash")));
    SampleIsBounded();
  }

  /** So with a verifier that accepts every signature some receipt is verified, after its twelve callbacks. */
  lemma SomeReceiptVerifies(i: nat)
    returns (q: Request, env: Oracles, pb: PreparedBundles, reg: Registry, bs: seq<Bundle>)
    ensures Cleared(q, env, pb, reg, bs) && AuditReady(q) && q.snapshot.Some?
    ensures WaveOutcome(q.snapshot.value, Execute(Plan(bs), (_, _) => Yes, i, 0, 0).fault).Verified?
    ensures |Execute(Plan(bs), (_, _) => Yes, i, 0, 0).calls| >= 12
  {
    hide Cleared, Execute, Plan, AuditReady, WellFormed, HasHandoff;
    q, env, pb, reg, bs := SomeReceiptIsCleared();
    ClearedWellFormed(q, env, pb, reg, bs);
    WavesAcceptExactly(bs, (_, _) => Yes, _ => Yes, i);
    CallsBounded(bs, (_, _) => Yes, i);
  }

  function PaddedSample(): Sample {
    TheSample().(ids := PADDED_IDS)
  }

  lemma PaddedIsHashed()
    ensures Shaped(PaddedSample()) && SampleHashed(PaddedSample(), SampleEnv())
  {
    hide SampleBody, ReceiptBody, SampleBundle, SampleReceipt, Strip;
    PaddedNames();
    assert D()[0] == '0' && D()[63] == '0';
  }

  /** With a padded identity the same receipt is still accepted in one shot, and raises in the staged pipeline. */
  lemma SomeReceiptDiffers() returns (r: Wire, context: string, env: Oracles)
    ensures OneShotAccepts(r, context, env) && HasPaddedIdentity(r) && !RepeatsAKey(r, env)
  {
    hide SampleReceipt, SampleHashed, OneShotAccepts, HasPaddedIdentity, RepeatsAKey, Shaped, SampleEnv;
    PaddedIsHashed();
    r, context, env := SampleReceipt(PaddedSample()), PaddedSample().context, SampleEnv();
    PaddedReceiptDiffers(PaddedSample(), env);
  }

  lemma NothingListed(id: string)
    ensures Unlisted(Iterator(_ => Stop), id)
  {
    assert Yields(Iterator(_ => Stop), MAX_IDENTIFIERS, 0);
  }

  // ------------------------------------------------------------- its texts

  lemma Short(s: string)
    requires |s| <= 2048
    ensures TextsBounded(WText(s))
  {
    SizeCoversLength(s);
  }

  lemma OneShort(s: string)
    requires |s| <= 2048
    ensures TextsBounded(WList([WText(s)]))
  {
    Short(s);
  }

  lemma PairIsBounded(v: Wire, w: Wire)
    requires TextsBounded(v) && TextsBounded(w)
    ensures TextsBounded(WList([v, w]))
  {
  }

  predicate TextFree(v: Wire) {
    v.WBool? || v.WInt? || v == WDict(map[])
  }

  lemma BodyIsBounded(body: map<string, Wire>)
    requires forall k :: k in body ==> TextFree(body[k]) || TextsBounded(body[k])
    ensures TextsBounded(WDict(body))
  {
  }

  lemma EntryIsBounded(name: string, profile: string, key: string, domain: string)
    requires |name| <= 2048 && |profile| <= 2048 && |key| <= 2048 && |domain| <= 2048
    ensures TextsBounded(SampleEntry(name, profile, key, D(), domain))
  {
    hide TextsBounded;
    Short(name);
    Short(profile);
    Short(key);
    Short(D());
    Short(domain);
    Short("b64u:AA");
    BodyIsBounded(SampleEntry(name, profile, key, D(), domain).fields);
  }

  lemma BundleIsBounded(domain: string)
    requires |domain| <= 2048
    ensures TextsBounded(SampleBundle(D(), domain))
  {
    hide SampleEntry, TextsBounded;
    var e1 := SampleEntry("classical-ed25519", "rfc8032-ed25519-v1", "k1", D(), domain);
    var e2 := SampleEntry("ml-dsa", "fips204-ml-dsa-65-v1", "k2", D(), domain);
    EntryIsBounded("classical-ed25519", "rfc8032-ed25519-v1", "k1", domain);
    EntryIsBounded("ml-dsa", "fips204-ml-dsa-65-v1", "k2", domain);
    PairIsBounded(e1, e2);
    Short(BUNDLE_SCHEMA);
    Short(SIGNATURE_POLICY);
    BodyIsBounded(SampleBundle(D(), domain).fields);
  }

  lemma SignedIsBounded(body: map<string, Wire>, domain: string)
    requires TextsBounded(WDict(body)) && |domain| <= 2048
    ensures TextsBounded(WDict(Signed(body, D(), domain)))
  {
    hide SampleBundle, TextsBounded;
    BundleIsBounded(domain);
    Short(D());
    forall k | k in body ensures TextsBounded(body[k]) { MemberIsBounded(body, k); }
    BodyIsBounded(Signed(body, D(), domain));
  }

  lemma MemberIsBounded(body: map<string, Wire>, k: string)
    requires TextsBounded(WDict(body)) && k in body
    ensures TextsBounded(body[k])
  {
  }

  lemma SharedTexts()
    ensures TextsBounded(WText("r")) && TextsBounded(WText("n")) && TextsBounded(WText("b")) && TextsBounded(WText("e"))
    ensures TextsBounded(WText("ALLOW")) && TextsBounded(WList([WText("x")])) && TextsBounded(WText(D()))
    ensures TextsBounded(WText(CANON_PROFILE)) && TextsBounded(WText(SIGNATURE_POLICY))
    ensures TextsBounded(WText(VERDICT_SCHEMA)) && TextsBounded(WText(RECEIPT_SCHEMA))
    ensures |COMPONENT_DOMAIN| <= 2048 && |RECEIPT_DOMAIN| <= 2048
  {
    hide TextsBounded;
    Short("r");
    Short("n");
    Short("b");
    Short("e");
    Short("ALLOW");
    OneShort("x");
    Short(D());
    Short(CANON_PROFILE);
    Short(SIGNATURE_POLICY);
    Short(VERDICT_SCHEMA);
    Short(RECEIPT_SCHEMA);
  }

  lemma ComponentIsBounded(id: string)
    requires |id| <= 2048
    ensures TextsBounded(SampleComponent(id, D(), D()))
  {
    hide Signed, TextsBounded;
    SharedTexts();
    Short(id);
    var body := SampleBody(id, D());
    BodyIsBounded(body);
    SignedIsBounded(body, COMPONENT_DOMAIN);
  }

  lemma ResultIsBounded(j: nat)
    requires j < 5
    ensures TextsBounded(SampleResult(SUPPORTED_COMPONENTS[j]))
  {
    hide TextsBounded;
    var id := SUPPORTED_COMPONENTS[j];
    NamesAreShort(j);
    Short(id);
    Short(COMPONENT_ROLES[id]);
    Short(SIGNATURE_POLICY);
    Short("classical-ed25519");
    Short("ml-dsa");
    Short("rfc8032-ed25519-v1");
    Short("fips204-ml-dsa-65-v1");
    PairIsBounded(WText("classical-ed25519"), WText("ml-dsa"));
    PairIsBounded(WText("rfc8032-ed25519-v1"), WText("fips204-ml-dsa-65-v1"));
    BodyIsBounded(SampleResult(id).fields);
  }

  lemma NamesAreShort(j: nat)
    requires j < 5
    ensures SUPPORTED_COMPONENTS[j] in COMPONENT_ROLES
    ensures |SUPPORTED_COMPONENTS[j]| <= 2048 && |COMPONENT_ROLES[SUPPORTED_COMPONENTS[j]]| <= 2048
  {
  }

  lemma ListsAreBounded()
    ensures TextsBounded(SampleVerdicts(TheSample())) && TextsBounded(SampleResults())
  {
    hide SampleComponent, SampleResult;
    forall j | 0 <= j < 5
      ensures TextsBounded(SampleComponent(SUPPORTED_COMPONENTS[j], D(), D())) && TextsBounded(SampleResult(SUPPORTED_COMPONENTS[j]))
    {
      NamesAreShort(j);
      ComponentIsBounded(SUPPORTED_COMPONENTS[j]);
      ResultIsBounded(j);
    }
  }

  lemma SampleIsBounded()
    ensures TextsBounded(TheReceipt()) && IsHex64(D())
  {
    hide Signed, TextsBounded, SampleVerdicts, SampleResults, Shaped;
    SampleIsShaped();
    SharedTexts();
    ListsAreBounded();
    var body := HashedBody(TheSample());
    HandoffIsBounded();
    BodyIsBounded(body);
    SignedIsBounded(body, RECEIPT_DOMAIN);
  }

  lemma HandoffIsBounded()
    ensures TextsBounded(WDict(map["handoff_allowed" := WBool(true)]))
  {
  }
}
