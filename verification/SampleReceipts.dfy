/** Correctly hashed receipts of one shape, by the identities their components write. */
module SampleReceipts {
  import opened Wrappers
  import opened Trimming
  import opened ReceiptContract
  import opened ReceiptPipelines
  import opened ReceiptStaging
  import opened BundleResolution

  predicate Digest(s: string, env: Oracles) {
    |s| == 64 && Stripped(s) && env.hexLower(s)
  }

  function SampleEntry(algorithm: string, profile: string, key: string, hash: string, domain: string): Wire {
    WDict(map[
      "algorithm" := WText(algorithm), "standard_profile" := WText(profile), "key_id" := WText(key),
      "key_version" := WInt(1), "signed_payload_hash" := WText(hash), "domain_tag" := WText(domain),
      "signature" := WText("b64u:AA")])
  }

  function SampleBundle(hash: string, domain: string): Wire {
    WDict(map[
      "schema_version" := WText(BUNDLE_SCHEMA), "policy_version" := WText(SIGNATURE_POLICY),
      "signatures" := WList([
        SampleEntry("classical-ed25519", "rfc8032-ed25519-v1", "k1", hash, domain),
        SampleEntry("ml-dsa", "fips204-ml-dsa-65-v1", "k2", hash, domain)])])
  }

  function SampleBody(id: string, context: string): map<string, Wire> {
    map[
      "component_id" := WText(id), "contract_version" := WInt(4), "schema_version" := WText(VERDICT_SCHEMA),
      "request_id" := WText("r"), "context_hash" := WText(context), "freshness_nonce" := WText("n"),
      "not_before" := WText("b"), "not_after" := WText("e"), "decision" := WText("ALLOW"),
      "reason_ids" := WList([WText("x")]), "evidence_hash" := WText(context),
      "evidence_families" := WList([WText("x")]), "metadata" := WDict(map[]), "fail_closed" := WBool(true),
      "canonicalization_profile" := WText(CANON_PROFILE), "signature_policy" := WText(SIGNATURE_POLICY),
      "key_registry_version" := WInt(1)]
  }

  function Signed(body: map<string, Wire>, hash: string, domain: string): map<string, Wire> {
    body["signed_payload_hash" := WText(hash)]["signature_bundle" := SampleBundle(hash, domain)]
  }

  function SampleComponent(id: string, context: string, hash: string): Wire {
    WDict(Signed(SampleBody(id, context), hash, COMPONENT_DOMAIN))
  }

  function SampleResult(id: string): Wire
    requires id in COMPONENT_ROLES
  {
    WDict(map[
      "component_id" := WText(id), "component_role" := WText(COMPONENT_ROLES[id]), "verified" := WBool(true),
      "signature_policy" := WText(SIGNATURE_POLICY),
      "verified_algorithms" := WList([WText("classical-ed25519"), WText("ml-dsa")]),
      "verified_standard_profiles" := WList([WText("rfc8032-ed25519-v1"), WText("fips204-ml-dsa-65-v1")])])
  }

  /** What a sample receipt varies in: how its components write their identities, and its digests. */
  datatype Sample = Sample(ids: seq<string>, context: string, hashes: seq<string>, receiptHash: string, signedHash: string)

  /** Five components that are the supported ones once stripped. */
  predicate Shaped(s: Sample) {
    |s.ids| == 5 && |s.hashes| == 5 && forall i :: 0 <= i < 5 ==> Strip(s.ids[i]) == SUPPORTED_COMPONENTS[i]
  }

  function SampleResults(): Wire {
    WList(seq(5, i requires 0 <= i < 5 => SampleResult(SUPPORTED_COMPONENTS[i])))
  }

  function SampleVerdicts(s: Sample): Wire
    requires Shaped(s)
  {
    WList(seq(5, i requires 0 <= i < 5 => SampleComponent(s.ids[i], s.context, s.hashes[i])))
  }

  function ReceiptBody(s: Sample): map<string, Wire>
    requires Shaped(s)
  {
    map[
      "schema_version" := WText(RECEIPT_SCHEMA), "contract_version" := WInt(4), "request_id" := WText("r"),
      "context_hash" := WText(s.context), "freshness_nonce" := WText("n"), "not_before" := WText("b"),
      "not_after" := WText("e"),
      "component_verdicts" := SampleVerdicts(s), "component_signature_results" := SampleResults(),
      "final_outcome" := WText("ALLOW"), "dominant_reason_ids" := WList([WText("x")]),
      "canonicalization_profile" := WText(CANON_PROFILE), "signature_policy" := WText(SIGNATURE_POLICY),
      "key_registry_version" := WInt(1), "adamantineos_handoff" := WDict(map["handoff_allowed" := WBool(true)]),
      "fail_closed" := WBool(true)]
  }

  function SampleReceipt(s: Sample): Wire
    requires Shaped(s)
  {
    WDict(Signed(ReceiptBody(s)["receipt_hash" := WText(s.receiptHash)], s.signedHash, RECEIPT_DOMAIN))
  }

  predicate ComponentHashed(id: string, context: string, hash: string, env: Oracles) {
    && Digest(hash, env) && env.payloadHash(COMPONENT_DOMAIN, WDict(SampleBody(id, context))) == hash
    && BundleSized(SampleBundle(hash, COMPONENT_DOMAIN), env)
  }

  /** The digests of the sample are the ones the hash functions compute, and its texts are within size. */
  predicate SampleHashed(s: Sample, env: Oracles) {
    && Shaped(s)
    && var body := WDict(ReceiptBody(s));
    && Digest(s.context, env) && env.signatureBody("AA")
    && (forall i :: 0 <= i < 5 ==> ComponentHashed(s.ids[i], s.context, s.hashes[i], env))
    && Digest(s.receiptHash, env) && env.receiptHash(body) == s.receiptHash
    && Digest(s.signedHash, env) && env.payloadHash(RECEIPT_DOMAIN, body) == s.signedHash
    && BundleSized(SampleBundle(s.signedHash, RECEIPT_DOMAIN), env)
    && CanonicalReceiptFits(SampleReceipt(s), env)
  }

  lemma DigestIsHash(s: string, env: Oracles)
    requires Digest(s, env)
    ensures HashText(WText(s), env) == Some(s)
  {
    StripFixes(s);
  }

  lemma SampleSignature(env: Oracles)
    requires env.signatureBody("AA")
    ensures SignatureEncoded(WText("b64u:AA"), env)
  {
    AsWritten("b64u:AA");
    assert "b64u:AA"[5..] == "AA";
  }

  lemma SampleEntryPrepared(a: Algorithm, name: string, key: string, hash: string, domain: string, env: Oracles)
    requires Digest(hash, env) && env.signatureBody("AA") && AlgorithmOf(name) == Some(a)
    requires name != "" && Stripped(name) && key != "" && Stripped(key) && domain != "" && Stripped(domain)
    ensures PrepareEntry(SampleEntry(name, ProfileOf(a), key, hash, domain), hash, domain, env)
      == Some(Prepared(SampleEntry(name, ProfileOf(a), key, hash, domain), a, ProfileOf(a), key, 1))
  {
    hide NonEmpty, HashText, SignatureEncoded, Digest, Strip, Stripped, AlgorithmOf;
    DigestIsHash(hash, env);
    SampleSignature(env);
    AsWritten(name);
    AsWritten(key);
    AsWritten(domain);
    PlainProfile(a);
    assert SampleEntry(name, ProfileOf(a), key, hash, domain).fields.Keys == ENTRY_FIELDS;
  }

  lemma PlainProfile(a: Algorithm)
    ensures NonEmpty(WText(ProfileOf(a))) == Some(ProfileOf(a))
  {
    AsWritten(ProfileOf(a));
  }

  lemma SampleNamesPlain()
    ensures Stripped("classical-ed25519") && Stripped("ml-dsa") && Stripped("k1") && Stripped("k2")
  {
  }

  function SamplePrepared(hash: string, domain: string): seq<Prepared> {
    [Prepared(SampleEntry("classical-ed25519", ProfileOf(Ed25519), "k1", hash, domain), Ed25519, ProfileOf(Ed25519), "k1", 1),
     Prepared(SampleEntry("ml-dsa", ProfileOf(MlDsa), "k2", hash, domain), MlDsa, ProfileOf(MlDsa), "k2", 1)]
  }

  lemma SampleBundlePrepared(hash: string, domain: string, env: Oracles)
    requires Digest(hash, env) && env.signatureBody("AA") && domain != "" && Stripped(domain)
    ensures BundleHolds(SampleBundle(hash, domain), hash, domain, env, SamplePrepared(hash, domain))
    ensures !KeyRepeated(SamplePrepared(hash, domain))
  {
    hide PrepareEntry, HashText, Digest, Stripped;
    DigestIsHash(hash, env);
    SampleNamesPlain();
    var ps := SamplePrepared(hash, domain);
    SampleEntryPrepared(Ed25519, "classical-ed25519", "k1", hash, domain, env);
    SampleEntryPrepared(MlDsa, "ml-dsa", "k2", hash, domain, env);
    assert Algorithms(ps) == [Ed25519, MlDsa];
    assert SampleBundle(hash, domain).fields["signatures"].items == [ps[0].entry, ps[1].entry];
  }

  lemma OneText(s: string)
    requires s != "" && Stripped(s)
    ensures TextList(WList([WText(s)]))
  {
    AsWritten(s);
  }

  lemma SampleTexts()
    ensures NonEmpty(WText("r")).Some? && NonEmpty(WText("n")).Some?
    ensures NonEmpty(WText("b")).Some? && NonEmpty(WText("e")).Some?
    ensures TextList(WList([WText("x")]))
  {
    AsWritten("r");
    AsWritten("n");
    AsWritten("b");
    AsWritten("e");
    OneText("x");
  }

  lemma SampleFieldsMatch(id: string, context: string, hash: string)
    ensures FieldsMatch(SampleComponent(id, context, hash), COMPONENT_FIELDS)
  {
    hide SampleBundle;
    var body := SampleBody(id, context);
    assert body.Keys == COMPONENT_FIELDS - {"signed_payload_hash", "signature_bundle"};
    assert SampleComponent(id, context, hash).fields.Keys == body.Keys + {"signed_payload_hash", "signature_bundle"};
  }

  /** Signing adds its two fields and changes no other. */
  lemma SigningKeeps(body: map<string, Wire>, hash: string, domain: string, key: string)
    requires key != "signed_payload_hash" && key != "signature_bundle" && key in body
    ensures Field(WDict(Signed(body, hash, domain)), key) == body[key]
  {
  }

  lemma SampleHeaderHolds(id: string, context: string, hash: string)
    requires Strip(id) in COMPONENT_ROLES
    ensures ComponentHeaderHolds(SampleComponent(id, context, hash))
  {
    hide FieldsMatch, Strip, NonEmpty, Signed, Field;
    SampleFieldsMatch(id, context, hash);
    Identity(id);
    var body := SampleBody(id, context);
    SigningKeeps(body, hash, COMPONENT_DOMAIN, "component_id");
    SigningKeeps(body, hash, COMPONENT_DOMAIN, "contract_version");
    SigningKeeps(body, hash, COMPONENT_DOMAIN, "schema_version");
    SigningKeeps(body, hash, COMPONENT_DOMAIN, "fail_closed");
    SigningKeeps(body, hash, COMPONENT_DOMAIN, "canonicalization_profile");
    SigningKeeps(body, hash, COMPONENT_DOMAIN, "signature_policy");
    SigningKeeps(body, hash, COMPONENT_DOMAIN, "decision");
  }

  lemma SignedHash(body: map<string, Wire>, hash: string, domain: string)
    ensures Field(WDict(Signed(body, hash, domain)), "signed_payload_hash") == WText(hash)
    ensures Field(WDict(Signed(body, hash, domain)), "signature_bundle") == SampleBundle(hash, domain)
  {
    hide SampleBundle;
  }

  lemma SampleFields(id: string, context: string, hash: string)
    ensures var c := SampleComponent(id, context, hash);
      && Field(c, "context_hash") == WText(context) && Field(c, "evidence_hash") == WText(context)
      && Field(c, "request_id") == WText("r") && Field(c, "freshness_nonce") == WText("n")
      && Field(c, "not_before") == WText("b") && Field(c, "not_after") == WText("e")
  {
    hide Signed, Field;
    var body := SampleBody(id, context);
    SigningKeeps(body, hash, COMPONENT_DOMAIN, "context_hash");
    SigningKeeps(body, hash, COMPONENT_DOMAIN, "request_id");
    SigningKeeps(body, hash, COMPONENT_DOMAIN, "freshness_nonce");
    SigningKeeps(body, hash, COMPONENT_DOMAIN, "not_before");
    SigningKeeps(body, hash, COMPONENT_DOMAIN, "not_after");
    SigningKeeps(body, hash, COMPONENT_DOMAIN, "evidence_hash");
  }

  lemma SampleLists(id: string, context: string, hash: string)
    ensures var c := SampleComponent(id, context, hash);
      && Field(c, "reason_ids") == WList([WText("x")]) && Field(c, "evidence_families") == WList([WText("x")])
      && Field(c, "key_registry_version") == WInt(1) && Field(c, "metadata") == WDict(map[])
      && Field(c, "signed_payload_hash") == WText(hash)
  {
    hide Signed, Field;
    var body := SampleBody(id, context);
    SigningKeeps(body, hash, COMPONENT_DOMAIN, "reason_ids");
    SigningKeeps(body, hash, COMPONENT_DOMAIN, "evidence_families");
    SigningKeeps(body, hash, COMPONENT_DOMAIN, "key_registry_version");
    SigningKeeps(body, hash, COMPONENT_DOMAIN, "metadata");
    SignedHash(body, hash, COMPONENT_DOMAIN);
  }

  lemma SampleBodyHolds(id: string, context: string, hash: string, env: Oracles)
    requires Digest(context, env) && Digest(hash, env)
    ensures ComponentBodyHolds(SampleComponent(id, context, hash), context, env)
  {
    hide Digest, HashText, TextList, NonEmpty, SampleComponent, Field;
    SampleTexts();
    DigestIsHash(context, env);
    DigestIsHash(hash, env);
    SampleFields(id, context, hash);
    SampleLists(id, context, hash);
  }

  lemma SampleComponentHolds(id: string, context: string, hash: string, env: Oracles)
    requires Strip(id) in COMPONENT_ROLES && Digest(context, env) && Digest(hash, env)
    ensures ComponentHolds(SampleComponent(id, context, hash), context, env)
  {
    SampleHeaderHolds(id, context, hash);
    SampleBodyHolds(id, context, hash, env);
  }

  lemma Identity(id: string)
    requires Strip(id) in COMPONENT_ROLES
    ensures NonEmpty(WText(id)) == Some(Strip(id))
  {
  }

  lemma {:induction false} SampleComponentSigned(id: string, context: string, hash: string, env: Oracles)
    requires ComponentHashed(id, context, hash, env) && env.signatureBody("AA")
    ensures ComponentIntegrity(SampleComponent(id, context, hash), env)
    ensures Field(SampleComponent(id, context, hash), "signature_bundle") == SampleBundle(hash, COMPONENT_DOMAIN)
    ensures HashOf(SampleComponent(id, context, hash)) == hash
  {
    hide SampleBundle, Digest;
    var body := SampleBody(id, context);
    var c := SampleComponent(id, context, hash);
    assert body.Keys !! UNSIGNED_COMPONENT_EXCLUDED;
    assert c.fields - UNSIGNED_COMPONENT_EXCLUDED == body;
  }

  lemma SampleResultHolds(id: string)
    requires id in COMPONENT_ROLES
    ensures ResultHolds(SampleResult(id)) && NonEmpty(Field(SampleResult(id), "component_id")) == Some(id)
  {
    hide NonEmpty, Strip;
    RoleNamesStripped(id);
    Identity(id);
    var r := SampleResult(id);
    AsWritten("classical-ed25519");
    AsWritten("ml-dsa");
    PlainProfile(Ed25519);
    PlainProfile(MlDsa);
    assert r.fields.Keys == RESULT_FIELDS;
    var algorithms, profiles := Field(r, "verified_algorithms"), Field(r, "verified_standard_profiles");
    assert TextAt(algorithms, 0) == "classical-ed25519" && TextAt(algorithms, 1) == "ml-dsa";
    assert TextAt(profiles, 0) == ProfileOf(Ed25519) && TextAt(profiles, 1) == ProfileOf(MlDsa);
  }

  /** The body of the sample receipt, its own hash included. */
  function HashedBody(s: Sample): map<string, Wire>
    requires Shaped(s)
  {
    ReceiptBody(s)["receipt_hash" := WText(s.receiptHash)]
  }

  lemma ReceiptFieldsMatch(s: Sample)
    requires Shaped(s)
    ensures SampleReceipt(s).WDict?
    ensures FieldsMatch(SampleReceipt(s), RECEIPT_FIELDS)
  {
    hide SampleBundle, SampleVerdicts, SampleResults;
    var body := ReceiptBody(s);
    assert body.Keys == RECEIPT_FIELDS - {"receipt_hash", "signed_payload_hash", "signature_bundle"};
    assert SampleReceipt(s).fields.Keys
      == body.Keys + {"receipt_hash", "signed_payload_hash", "signature_bundle"};
  }

  lemma ReceiptField(s: Sample, key: string)
    requires Shaped(s) && key in ReceiptBody(s)
    requires key !in {"receipt_hash", "signed_payload_hash", "signature_bundle"}
    ensures Field(SampleReceipt(s), key) == ReceiptBody(s)[key]
  {
    hide ReceiptBody, Signed, Field;
    SigningKeeps(HashedBody(s), s.signedHash, RECEIPT_DOMAIN, key);
  }

  lemma ReceiptVersions(s: Sample)
    requires Shaped(s)
    ensures var r := SampleReceipt(s);
      && Field(r, "schema_version") == WText(RECEIPT_SCHEMA) && Field(r, "contract_version") == WInt(4)
      && Field(r, "fail_closed") == WBool(true) && Field(r, "context_hash") == WText(s.context)
  {
    hide Field, SampleReceipt, SampleVerdicts, SampleResults;
    ReceiptField(s, "schema_version");
    ReceiptField(s, "contract_version");
    ReceiptField(s, "fail_closed");
    ReceiptField(s, "context_hash");
  }

  lemma ReceiptPolicies(s: Sample)
    requires Shaped(s)
    ensures var r := SampleReceipt(s);
      && Field(r, "canonicalization_profile") == WText(CANON_PROFILE)
      && Field(r, "signature_policy") == WText(SIGNATURE_POLICY) && Field(r, "final_outcome") == WText("ALLOW")
  {
    hide Field, SampleReceipt, SampleVerdicts, SampleResults;
    ReceiptField(s, "canonicalization_profile");
    ReceiptField(s, "signature_policy");
    ReceiptField(s, "final_outcome");
  }

  lemma SampleReceiptHeader(s: Sample, env: Oracles)
    requires Shaped(s) && Digest(s.context, env)
    ensures ReceiptHeaderHolds(SampleReceipt(s), s.context, env)
  {
    hide Digest, HashText, FieldsMatch, Field, SampleReceipt;
    ReceiptFieldsMatch(s);
    DigestIsHash(s.context, env);
    ReceiptVersions(s);
    ReceiptPolicies(s);
  }

  lemma SampleReceiptBody(s: Sample)
    requires Shaped(s)
    ensures ReceiptBodyHolds(SampleReceipt(s))
  {
    hide NonEmpty, TextList, ResultsHold, Field, SampleReceipt, SampleVerdicts, SampleResults;
    SampleTexts();
    SampleResultsHold();
    ReceiptField(s, "request_id");
    ReceiptField(s, "freshness_nonce");
    ReceiptField(s, "not_before");
    ReceiptField(s, "not_after");
    ReceiptField(s, "key_registry_version");
    ReceiptField(s, "dominant_reason_ids");
    ReceiptField(s, "adamantineos_handoff");
    ReceiptField(s, "component_signature_results");
  }

  lemma SampleResultsHold()
    ensures ResultsHold(SampleResults())
  {
    hide ResultHolds, SampleResult, NonEmpty, Field;
    forall i | 0 <= i < 5
      ensures ResultHolds(SampleResult(SUPPORTED_COMPONENTS[i]))
      ensures NonEmpty(Field(SampleResult(SUPPORTED_COMPONENTS[i]), "component_id")) == Some(SUPPORTED_COMPONENTS[i])
    {
      SampleResultHolds(SUPPORTED_COMPONENTS[i]);
    }
  }

  lemma SampleNames(s: Sample)
    requires Shaped(s)
    ensures forall i, j :: 0 <= i < j < 5 ==> s.ids[i] != s.ids[j]
    ensures forall i :: 0 <= i < 5 ==> Strip(s.ids[i]) in COMPONENT_ROLES
  {
    hide Strip;
    NamesDistinct();
  }

  lemma SampleVerdictsHold(s: Sample, env: Oracles)
    requires Shaped(s) && Digest(s.context, env) && forall i :: 0 <= i < 5 ==> Digest(s.hashes[i], env)
    ensures ComponentSetHolds(SampleVerdicts(s), s.context, env)
    ensures ExpectedOutcome(SampleVerdicts(s).items) == "ALLOW"
  {
    hide ComponentHolds, SampleComponent, Field, ExpectedOutcome, Digest, Strip;
    SampleNames(s);
    var cs := SampleVerdicts(s).items;
    forall i | 0 <= i < 5
      ensures ComponentHolds(cs[i], s.context, env) && !Denies(cs[i]) && !Escalates(cs[i])
      ensures Field(cs[i], "component_id") == WText(s.ids[i])
    {
      SampleComponentHolds(s.ids[i], s.context, s.hashes[i], env);
      SampleIdentity(s.ids[i], s.context, s.hashes[i]);
    }
    OutcomeExact(cs);
  }

  lemma SampleIdentity(id: string, context: string, hash: string)
    ensures Field(SampleComponent(id, context, hash), "component_id") == WText(id)
    ensures Field(SampleComponent(id, context, hash), "decision") == WText("ALLOW")
  {
    hide Signed, Field;
    SigningKeeps(SampleBody(id, context), hash, COMPONENT_DOMAIN, "component_id");
    SigningKeeps(SampleBody(id, context), hash, COMPONENT_DOMAIN, "decision");
  }

  lemma ReceiptHashes(s: Sample)
    requires Shaped(s)
    ensures var r := SampleReceipt(s);
      && Unsigned(r, UNSIGNED_RECEIPT_EXCLUDED) == WDict(ReceiptBody(s))
      && Field(r, "receipt_hash") == WText(s.receiptHash) && HashOf(r) == s.signedHash
      && Field(r, "signed_payload_hash") == WText(s.signedHash)
      && Field(r, "signature_bundle") == SampleBundle(s.signedHash, RECEIPT_DOMAIN)
  {
    hide SampleBundle, SampleVerdicts, SampleResults;
    var body := ReceiptBody(s);
    assert body.Keys !! UNSIGNED_RECEIPT_EXCLUDED;
    assert SampleReceipt(s).fields - UNSIGNED_RECEIPT_EXCLUDED == body;
  }

  lemma SampleReceiptHolds(s: Sample, env: Oracles)
    requires SampleHashed(s, env)
    ensures ReceiptHolds(SampleReceipt(s), s.context, env)
  {
    hide SampleReceipt, SampleVerdicts, Digest, HashText, Field, ReceiptHeaderHolds, ReceiptBodyHolds,
      ComponentSetHolds, ExpectedOutcome;
    var r := SampleReceipt(s);
    SampleReceiptHeader(s, env);
    SampleReceiptBody(s);
    ReceiptHashes(s);
    ReceiptVersions(s);
    ReceiptPolicies(s);
    ReceiptComponents(s);
    DigestIsHash(s.context, env);
    DigestIsHash(s.receiptHash, env);
    DigestIsHash(s.signedHash, env);
    SampleVerdictsHold(s, env);
  }

  lemma ReceiptComponents(s: Sample)
    requires Shaped(s)
    ensures var r := SampleReceipt(s);
      && Field(r, "component_verdicts") == SampleVerdicts(s) && SampleVerdicts(s).WList?
      && Components(r) == SampleVerdicts(s).items && |Components(r)| == 5
  {
    hide Field, SampleReceipt;
    ReceiptField(s, "component_verdicts");
  }

  lemma DomainsPlain()
    ensures Stripped(COMPONENT_DOMAIN) && Stripped(RECEIPT_DOMAIN)
  {
  }

  lemma SampleBundles(s: Sample, env: Oracles)
    requires SampleHashed(s, env)
    ensures var r := SampleReceipt(s);
      IntegrityHolds(r, env) && BundlesShaped(r, env) && !RepeatsAKey(r, env)
  {
    hide SampleReceipt, ReceiptBody, SampleComponent, SampleBundle, Field, HashOf, Unsigned, Digest, BundleSized,
      BundleHolds, KeyRepeated, ComponentIntegrity, CanonicalReceiptFits, Stripped;
    var r := SampleReceipt(s);
    ReceiptHashes(s);
    ReceiptComponents(s);
    DomainsPlain();
    forall i | 0 <= i < 5
      ensures var c := SampleComponent(s.ids[i], s.context, s.hashes[i]);
        && ComponentIntegrity(c, env) && BundleSized(Field(c, "signature_bundle"), env)
        && ComponentBundleShape(c, env) && forall ps :: ComponentPrepared(c, env, ps) ==> !KeyRepeated(ps)
    {
      SampleComponentSigned(s.ids[i], s.context, s.hashes[i], env);
      SampleBundlePrepared(s.hashes[i], COMPONENT_DOMAIN, env);
      var ps := SamplePrepared(s.hashes[i], COMPONENT_DOMAIN);
      UniquePreparation(SampleBundle(s.hashes[i], COMPONENT_DOMAIN), s.hashes[i], COMPONENT_DOMAIN, env, ps);
    }
    SampleBundlePrepared(s.signedHash, RECEIPT_DOMAIN, env);
    var ps := SamplePrepared(s.signedHash, RECEIPT_DOMAIN);
    UniquePreparation(SampleBundle(s.signedHash, RECEIPT_DOMAIN), s.signedHash, RECEIPT_DOMAIN, env, ps);
  }
}
