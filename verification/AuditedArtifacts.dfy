/** Why whatever a cleared receipt lets the verifier observe can be written into an audit record. */
module AuditedArtifacts {
  import opened Wrappers
  import opened Strings
  import opened Trimming
  import opened ReceiptContract
  import opened ReceiptPipelines
  import opened KeyRegistry
  import opened VerificationWaves
  import opened BundleResolution
  import opened PerBundleChecking
  import opened Identifiers
  import opened ReceiptVerifier
  import opened VerifierProperties
  import opened AuditTexts
  import opened AuditRecords

  const MAX_INT64: int := 0x7FFF_FFFF_FFFF_FFFF

  /** What the bounded snapshot guarantees of every text in it. */
  predicate TextsBounded(v: Wire) {
    match v
    case WText(s) => Utf8Size(s) <= MAX_TEXT_FIELD_BYTES
    case WList(items) => forall i :: 0 <= i < |items| ==> TextsBounded(items[i])
    case WDict(fields) => forall k :: k in fields ==> TextsBounded(fields[k])
    case _ => true
  }

  lemma FieldBounded(v: Wire, key: string)
    requires TextsBounded(v)
    ensures TextsBounded(Field(v, key))
  {
  }

  // ------------------------------------------------------------ stripped text

  lemma {:induction false} SizeSplits(a: string, b: string)
    ensures Utf8Size(a + b) == Utf8Size(a) + Utf8Size(b)
  {
    if a == "" {
      assert a + b == b;
    } else {
      assert (a + b)[1..] == a[1..] + b;
      SizeSplits(a[1..], b);
    }
  }

  lemma {:induction false} LeftSmaller(s: string)
    ensures Utf8Size(StripLeft(s)) <= Utf8Size(s)
  {
    if s != "" && IsSpace(s[0]) { LeftSmaller(s[1..]); }
  }

  lemma StripSmaller(s: string)
    ensures Utf8Size(Strip(s)) <= Utf8Size(s)
  {
    LeftSmaller(s);
    var t := StripLeft(s);
    var u := StripRight(t);
    assert t == u + t[|u|..];
    SizeSplits(u, t[|u|..]);
  }

  lemma NonEmptyBounded(v: Wire)
    requires NonEmpty(v).Some? && TextsBounded(v)
    ensures BoundedText(v) && BoundedText(WText(NonEmpty(v).value))
  {
    StripSmaller(v.s);
    SizeCoversLength(v.s);
    SizeCoversLength(Strip(v.s));
  }

  lemma {:induction false} StripRightWhole(s: string)
    requires |StripRight(s)| == |s|
    ensures StripRight(s) == s
  {
  }

  lemma StripWhole(s: string)
    requires |Strip(s)| == |s|
    ensures Strip(s) == s
  {
    if s == "" || !IsSpace(s[0]) { StripRightWhole(s); }
  }

  /** A digest the contract accepts against a real digest is that digest, unpadded. */
  lemma DigestAsWritten(v: Wire, hash: string, env: Oracles)
    requires IsHex64(hash) && HashText(v, env).Some? && HashText(v, env) == HashText(WText(hash), env)
    ensures v == WText(hash)
  {
    StripFixes(hash);
    StripWhole(v.s);
  }

  // ---------------------------------------------------------------- artifacts

  /** An artifact whose record can be written. */
  predicate Recordable(a: Artifact) {
    FitArtifact(a) && a.registryVersion <= MAX_INT64 && BoundedText(WText(a.requestId))
  }

  predicate Observable(e: Prepared) {
    && e.profile == ProfileOf(e.algorithm) && 0 < e.keyVersion <= MAX_INT64 && BoundedText(WText(e.keyId))
  }

  lemma EntryObservable(e: Wire, expected: string, domain: string, env: Oracles)
    requires PrepareEntry(e, expected, domain, env).Some? && TextsBounded(e)
    ensures Observable(PrepareEntry(e, expected, domain, env).value)
  {
    hide NonEmpty, HashText, SignatureEncoded, BoundedText, AlgorithmOf, ProfileOf;
    NonEmptyBounded(e.fields["key_id"]);
  }

  lemma ItemBounded(v: Wire, i: nat)
    requires TextsBounded(v) && v.WList? && i < |v.items|
    ensures TextsBounded(v.items[i])
  {
  }

  lemma BundleObservable(bundle: Wire, hash: string, domain: string, env: Oracles, ps: seq<Prepared>)
    requires BundleHolds(bundle, hash, domain, env, ps) && TextsBounded(bundle)
    ensures forall i :: 0 <= i < |ps| ==> Observable(ps[i])
  {
    hide PrepareEntry, HashText, Observable, PolicyOrder, TextsBounded, Algorithms;
    FieldBounded(bundle, "signatures");
    var list := bundle.fields["signatures"];
    forall i | 0 <= i < |ps| ensures Observable(ps[i]) {
      ItemBounded(list, i);
      EntryObservable(list.items[i], HashText(WText(hash), env).value, domain, env);
    }
  }

  /** The integrity check leaves real digests in place of whatever text stood there. */
  lemma ComponentDigest(c: Wire, env: Oracles)
    requires ComponentIntegrity(c, env)
    ensures IsHex64(HashOf(c))
  {
  }

  lemma ReceiptDigest(r: Wire, env: Oracles)
    requires ReceiptIntegrity(r, env)
    ensures IsHex64(HashOf(r))
  {
  }

  lemma ReceiptContext(r: Wire, context: string, env: Oracles)
    requires ReceiptHeaderHolds(r, context, env) && IsHex64(context)
    ensures Field(r, "context_hash") == WText(context) && HashText(Field(r, "context_hash"), env) == Some(context)
    ensures Field(r, "signature_policy") == WText(SIGNATURE_POLICY)
  {
    hide Field, FieldsMatch, HashText;
    DigestAsWritten(Field(r, "context_hash"), context, env);
    ContextAsHash(Field(r, "context_hash"), context, env);
  }

  lemma ContextAsHash(v: Wire, context: string, env: Oracles)
    requires v == WText(context) && HashText(v, env).Some? && IsHex64(context)
    ensures HashText(v, env) == Some(context)
  {
    StripFixes(context);
  }

  lemma ComponentContext(c: Wire, context: string, env: Oracles)
    requires ComponentHolds(c, context, env) && IsHex64(context)
    ensures Field(c, "context_hash") == WText(context) && Field(c, "signature_policy") == WText(SIGNATURE_POLICY)
    ensures NonEmpty(Field(c, "request_id")).Some? && PositiveInt(Field(c, "key_registry_version"))
  {
    hide Field, FieldsMatch, HashText, NonEmpty, TextList, ForbiddenAuthority, PositiveInt;
    DigestAsWritten(Field(c, "context_hash"), context, env);
  }

  lemma ReceiptBodyFacts(r: Wire)
    requires ReceiptBodyHolds(r)
    ensures NonEmpty(Field(r, "request_id")).Some? && PositiveInt(Field(r, "key_registry_version"))
  {
    hide Field, NonEmpty, TextList, ForbiddenAuthority, PositiveInt, ResultsHold;
  }

  lemma ReceiptRecordable(r: Wire, context: string, env: Oracles)
    requires ReceiptHolds(r, context, env) && ReceiptIntegrity(r, env) && IsHex64(context) && TextsBounded(r)
    ensures Recordable(ReceiptArtifact(r))
  {
    hide Field, ReceiptHeaderHolds, ReceiptBodyHolds, ComponentSetHolds, ExpectedOutcome, HashText, TextsBounded,
      NonEmpty,
      BoundedText, HashOf, IsHex64, ReceiptIntegrity;
    ReceiptContext(r, context, env);
    ReceiptBodyFacts(r);
    ReceiptDigest(r, env);
    FieldBounded(r, "request_id");
    NonEmptyBounded(Field(r, "request_id"));
    KindsApart();
    TextIsItself(Field(r, "request_id"));
  }

  lemma KindsApart()
    ensures RECEIPT_KIND != COMPONENT_KIND
  {
    EventsDiffer();
  }

  lemma TextIsItself(v: Wire)
    requires NonEmpty(v).Some?
    ensures v == WText(TextOf(v))
  {
  }

  lemma ComponentRecordable(c: Wire, context: string, env: Oracles, ps: seq<Prepared>)
    requires ComponentHolds(c, context, env) && ComponentIntegrity(c, env) && IsHex64(context) && TextsBounded(c)
    requires IdentityKnown(c)
    ensures Recordable(ComponentCandidate(c, ps).artifact)
  {
    hide Field, ComponentHolds, HashText, TextsBounded, NonEmpty, BoundedText, HashOf, IsHex64, ComponentIntegrity,
      RoleOf;
    ComponentContext(c, context, env);
    ComponentDigest(c, env);
    FieldBounded(c, "request_id");
    NonEmptyBounded(Field(c, "request_id"));
    TextIsItself(Field(c, "request_id"));
  }

  predicate CandidateRecordable(c: Candidate) {
    Recordable(c.artifact) && forall i :: 0 <= i < |c.entries| ==> Observable(c.entries[i])
  }

  predicate BundleRecordable(b: Bundle) {
    Recordable(b.artifact) && forall i :: 0 <= i < |b.entries| ==> Observable(b.entries[i].prepared)
  }

  lemma ResolvedRecordable(c: Candidate, b: Bundle, reg: Registry, now: string, env: Oracles)
    requires ResolvedAs(c, b, reg, now, env) && CandidateRecordable(c)
    ensures BundleRecordable(b)
  {
    hide Recordable, Observable, Lookup;
    forall i | 0 <= i < |b.entries| ensures Observable(b.entries[i].prepared) {
      assert ResolveEntry(c, c.entries[i], reg, now, env) == Some(b.entries[i]);
    }
  }

  lemma ContractParts(q: Request, env: Oracles)
    requires ContractHolds(q, env)
    ensures var r, context := q.snapshot.value, q.expectedContext.s;
      && HashText(Field(r, "context_hash"), env).Some?
      && forall i :: 0 <= i < |Components(r)| ==>
           ComponentHolds(Components(r)[i], HashText(Field(r, "context_hash"), env).value, env)
  {
    hide ReceiptHeaderHolds, ReceiptBodyHolds, ComponentHolds, HashText, ExpectedOutcome;
    HeaderHash(q.snapshot.value, q.expectedContext.s, env);
  }

  lemma ComponentsBounded(r: Wire)
    requires TextsBounded(r)
    ensures forall i :: 0 <= i < |Components(r)| ==> TextsBounded(Components(r)[i])
  {
    hide TextsBounded, Field;
    FieldBounded(r, "component_verdicts");
    var v := Field(r, "component_verdicts");
    forall i | 0 <= i < |Components(r)| ensures TextsBounded(Components(r)[i]) { ItemBounded(v, i); }
  }

  /** What the audit wrapper has checked of its arguments before it starts. */
  predicate AuditReady(q: Request) {
    q.expectedContext.WText? && IsHex64(q.expectedContext.s) && (q.snapshot.Some? ==> TextsBounded(q.snapshot.value))
  }

  lemma CandidatesRecordable(q: Request, env: Oracles, pb: PreparedBundles)
    requires Formed(q, env, pb) && AuditReady(q) && IntegrityHolds(q.snapshot.value, env)
    requires |pb.components| == |Components(q.snapshot.value)|
    ensures forall c :: c in ComponentCandidates(q.snapshot.value, pb) ==> CandidateRecordable(c)
  {
    hide InputsHold, ReceiptHolds, ComponentHolds, Components, Field, HashText, TextsBounded, BundleHolds, KeyRepeated,
      IdentityKnown, ComponentIntegrity, ReceiptIntegrity, Recordable, Observable, ComponentCandidate, BundleSized,
      CanonicalReceiptFits, HashOf;
    var r, context := q.snapshot.value, q.expectedContext.s;
    ContractParts(q, env);
    ComponentsBounded(r);
    ContextOfReceipt(q, env);
    forall i | 0 <= i < |Components(r)| ensures CandidateRecordable(ComponentCandidate(Components(r)[i], pb.components[i])) {
      var c := Components(r)[i];
      assert BundlePrepared(c, env, pb.components[i]);
      ComponentRecordable(c, context, env, pb.components[i]);
      FieldBounded(c, "signature_bundle");
      BundleObservable(Field(c, "signature_bundle"), HashOf(c), COMPONENT_DOMAIN, env, pb.components[i]);
      CandidateEntries(c, pb.components[i]);
    }
  }

  lemma CandidateEntries(c: Wire, ps: seq<Prepared>)
    ensures ComponentCandidate(c, ps).entries == ps
  {
  }

  lemma ContextOfReceipt(q: Request, env: Oracles)
    requires ContractHolds(q, env) && AuditReady(q)
    ensures HashText(Field(q.snapshot.value, "context_hash"), env) == Some(q.expectedContext.s)
  {
    hide ReceiptHeaderHolds, ReceiptBodyHolds, ComponentSetHolds, HashText, ExpectedOutcome, Field, TextsBounded,
      IsHex64;
    ReceiptContext(q.snapshot.value, q.expectedContext.s, env);
  }

  lemma OrchestratorRecordable(q: Request, env: Oracles, pb: PreparedBundles)
    requires Formed(q, env, pb) && AuditReady(q) && IntegrityHolds(q.snapshot.value, env)
    ensures CandidateRecordable(OrchestratorCandidate(q.snapshot.value, pb.receipt))
  {
    hide InputsHold, ReceiptHolds, Components, Field, HashText, TextsBounded, BundleHolds, KeyRepeated, IdentityKnown,
      ComponentIntegrity, ReceiptIntegrity, Recordable, Observable, BundleSized, CanonicalReceiptFits, HashOf, IsHex64,
      ReceiptArtifact;
    var r := q.snapshot.value;
    ReceiptRecordable(r, q.expectedContext.s, env);
    FieldBounded(r, "signature_bundle");
    BundleObservable(Field(r, "signature_bundle"), HashOf(r), RECEIPT_DOMAIN, env, pb.receipt);
  }

  /** Everything a cleared receipt shows the observer can be recorded. */
  lemma ClearedRecordable(q: Request, env: Oracles, pb: PreparedBundles, reg: Registry, bs: seq<Bundle>)
    requires Cleared(q, env, pb, reg, bs) && AuditReady(q)
    ensures q.snapshot.Some? && Recordable(ReceiptArtifact(q.snapshot.value))
    ensures forall b :: b in bs ==> BundleRecordable(b)
  {
    hide Formed, RequestHolds, RegistryHolds, VersionsHold, FreshnessHolds, KeysHold, IntegrityHolds, Components, Field;
    hide ComponentCandidates, ReceiptArtifact, CandidateRecordable, BundleRecordable, ResolvedAs, Recordable, Complete,
      ComponentCandidate, AuditReady;
    ClearedSnapshot(q, env, pb, reg, bs);
    var r := q.snapshot.value;
    var cs, o := ComponentCandidates(r, pb), OrchestratorCandidate(r, pb.receipt);
    CandidatesRecordable(q, env, pb);
    OrchestratorRecordable(q, env, pb);
    OrchestratorArtifact(r, pb);
    OrderKeepsBundles(cs, o);
    var all := InOrder(cs, o);
    forall b | b in bs ensures BundleRecordable(b) {
      var i :| 0 <= i < |bs| && bs[i] == b;
      assert all[i] in all;
      ResolvedRecordable(all[i], b, reg, q.time.s, env);
    }
  }

  lemma OrchestratorArtifact(r: Wire, pb: PreparedBundles)
    requires CandidateRecordable(OrchestratorCandidate(r, pb.receipt))
    ensures Recordable(ReceiptArtifact(r))
  {
    hide Recordable, ReceiptArtifact, Observable;
  }
}
