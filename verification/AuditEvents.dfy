/** What is written for a record: the names and values of its event, one by one. */
module AuditEvents {
  import opened Strings
  import opened Json
  import opened AuditNames
  import opened AuditTexts
  import opened ReceiptContract
  import opened KeyRegistry
  import opened VerificationWaves
  import opened ComponentSummaries
  import opened AuditRecords

  /** A member of that name with that value. */
  ghost predicate Has(v: Json, name: string, value: Json) {
    v.Obj? && Of(name) in v.members && v.members[Of(name)] == value
  }

  lemma Named(v: Json, f: FieldName, name: string, value: Json)
    requires Get(v, f) == value && value != Null && Name(f) == name
    ensures Has(v, name, value)
  {
    hide Name;
  }

  /** The names of the reasons. */
  predicate Called(r: AuditReason, name: string) {
    match r
    case VerifyOk => name == "V4_VERIFY_OK"
    case ContractInvalid => name == "V4_CONTRACT_INVALID"
    case ContextMismatch => name == "V4_CONTEXT_MISMATCH"
    case RequestMismatch => name == "V4_REQUEST_MISMATCH"
    case ReceiptHashMismatch => name == "V4_HASH_MISMATCH"
    case DowngradeRejected => name == "V4_DOWNGRADE_REJECTED"
    case AuthorityBypassed => name == "V4_AUTHORITY_BYPASS"
    case PolicyInvalid => name == "V4_POLICY_INVALID"
    case RegistryInvalid => name == "V4_REGISTRY_INVALID"
    case FreshnessInvalid => name == "V4_FRESHNESS_INVALID"
    case ReplayRejected => name == "V4_REPLAY_REJECTED"
    case SignatureInvalid => name == "V4_SIGNATURE_INVALID"
    case BackendUnavailable => name == "V4_BACKEND_UNAVAILABLE"
    case BackendFailure => name == "V4_BACKEND_FAILURE"
  }

  /** The members of every event. */
  ghost predicate TellsOutcome(v: Json, eventType: string, r: Record) {
    && Has(v, "schema_version", Word("shield.verification_audit.v1")) && Has(v, "event_type", Word(eventType))
    && Has(v, "verifier_id", Word("adamantineos.v1")) && Has(v, "verification_timestamp", Str(r.time))
    && Has(v, "verification_passed", Bool(r.passed))
    && exists name :: Called(r.reason, name) && Has(v, "reason_id", Word(name))
  }

  lemma ReasonsCalled(r: AuditReason)
    ensures Called(r, ReasonName(r))
  {
  }

  lemma OutcomeTold(r: Record)
    ensures TellsOutcome(EventOf(r), EventTypeOf(r), r)
  {
    hide Has, Get, EventOf, Word, EventTypeOf, ReasonName, Called;
    var v := EventOf(r);
    EventCarriesCommon(r);
    WordsAreTexts();
    Named(v, SchemaVersion, "schema_version", Word(AUDIT_SCHEMA));
    Named(v, EventType, "event_type", Word(EventTypeOf(r)));
    Named(v, VerifierId, "verifier_id", Word(AUDIT_VERIFIER));
    Named(v, VerificationTimestamp, "verification_timestamp", Str(r.time));
    Named(v, VerificationPassed, "verification_passed", Bool(r.passed));
    Named(v, ReasonId, "reason_id", Word(ReasonName(r.reason)));
    ReasonsCalled(r.reason);
  }

  lemma WordsAreTexts()
    ensures forall s :: Word(s) != Null && Word(s).Str?
  {
  }

  ghost predicate TellsRequest(v: Json, r: Record)
    requires r.Preflight?
  {
    && Has(v, "artifact_type", Word("orchestrator_receipt"))
    && Has(v, "expected_artifact_schema_version", Word("shield.receipt.v2"))
    && Has(v, "artifact_transport_hash", Word(r.transportHash))
    && Has(v, "expected_request_id_hash", Word(r.requestIdHash))
    && Has(v, "expected_context_hash", Word(r.contextHash))
    && Has(v, "required_policy_version", Word("policy.v1"))
    && Has(v, "minimum_registry_version", Int(r.minimumRegistry))
  }

  lemma RequestTold(r: Record)
    requires r.Preflight?
    ensures TellsRequest(EventOf(r), r)
  {
    hide Has, Get, EventOf, Word;
    var v := EventOf(r);
    EventCarriesPreflight(r);
    WordsAreTexts();
    Named(v, ArtifactType, "artifact_type", Word(RECEIPT_KIND));
    Named(v, ExpectedArtifactSchemaVersion, "expected_artifact_schema_version", Word(RECEIPT_SCHEMA));
    Named(v, ArtifactTransportHash, "artifact_transport_hash", Word(r.transportHash));
    Named(v, ExpectedRequestIdHash, "expected_request_id_hash", Word(r.requestIdHash));
    Named(v, ExpectedContextHash, "expected_context_hash", Word(r.contextHash));
    Named(v, RequiredPolicyVersion, "required_policy_version", Word(SIGNATURE_POLICY));
    Named(v, MinimumRegistryVersion, "minimum_registry_version", Int(r.minimumRegistry));
  }

  ghost predicate TellsArtifact(v: Json, a: Artifact, requestIdHash: string) {
    && Has(v, "artifact_type", Word(a.kind)) && Has(v, "artifact_schema_version", Word(a.schema))
    && Has(v, "artifact_id", Word(a.id)) && Has(v, "artifact_hash", Word(a.hash))
    && Has(v, "request_id_hash", Word(requestIdHash)) && Has(v, "context_hash", Word(a.contextHash))
    && Has(v, "policy_version", Word(a.policy)) && Has(v, "registry_version", Int(a.registryVersion))
  }

  lemma ArtifactNamed(v: Json, a: Artifact, requestIdHash: string)
    requires CarriesArtifact(v, a, requestIdHash)
    ensures Has(v, "artifact_type", Word(a.kind)) && Has(v, "artifact_schema_version", Word(a.schema))
    ensures Has(v, "artifact_id", Word(a.id)) && Has(v, "artifact_hash", Word(a.hash))
  {
    hide Has, Get, Word;
    WordsAreTexts();
    Named(v, ArtifactType, "artifact_type", Word(a.kind));
    Named(v, ArtifactSchemaVersion, "artifact_schema_version", Word(a.schema));
    Named(v, ArtifactId, "artifact_id", Word(a.id));
    Named(v, ArtifactHash, "artifact_hash", Word(a.hash));
  }

  lemma ArtifactBound(v: Json, a: Artifact, requestIdHash: string)
    requires CarriesArtifact(v, a, requestIdHash)
    ensures Has(v, "request_id_hash", Word(requestIdHash)) && Has(v, "context_hash", Word(a.contextHash))
    ensures Has(v, "policy_version", Word(a.policy)) && Has(v, "registry_version", Int(a.registryVersion))
  {
    hide Has, Get, Word;
    WordsAreTexts();
    Named(v, RequestIdHash, "request_id_hash", Word(requestIdHash));
    Named(v, ContextHash, "context_hash", Word(a.contextHash));
    Named(v, PolicyVersion, "policy_version", Word(a.policy));
    Named(v, RegistryVersion, "registry_version", Int(a.registryVersion));
  }

  lemma ArtifactTold(r: Record)
    requires r.Signature? || r.Terminal?
    ensures TellsArtifact(EventOf(r), r.artifact, r.requestIdHash)
  {
    hide Has, EventOf, Word, CarriesArtifact;
    EventCarriesArtifact(r);
    ArtifactNamed(EventOf(r), r.artifact, r.requestIdHash);
    ArtifactBound(EventOf(r), r.artifact, r.requestIdHash);
  }

  ghost predicate TellsKey(v: Json, r: Record)
    requires r.Signature?
  {
    && Has(v, "key_id_hash", Word(r.keyIdHash)) && Has(v, "key_version", Int(r.keyVersion))
    && Has(v, "algorithm", Word(NameOf(r.algorithm))) && Has(v, "standard_profile", Word(r.profile))
  }

  lemma KeyTold(r: Record)
    requires r.Signature?
    ensures TellsKey(EventOf(r), r)
  {
    hide Has, Get, EventOf, Word, NameOf;
    var v := EventOf(r);
    EventCarriesKey(r);
    WordsAreTexts();
    Named(v, KeyIdHash, "key_id_hash", Word(r.keyIdHash));
    Named(v, KeyVersion, "key_version", Int(r.keyVersion));
    Named(v, AlgorithmName, "algorithm", Word(NameOf(r.algorithm)));
    Named(v, StandardProfile, "standard_profile", Word(r.profile));
  }

  /** Every member of every event, and no other. */
  ghost predicate Says(v: Json, r: Record) {
    v.Obj? &&
    match r
    case Preflight(_, _, _, _, _, _, _) =>
      TellsOutcome(v, "verification_preflight", r) && TellsRequest(v, r) && |v.members| <= 13
    case Signature(_, _, _, a, request, _, _, _, _) =>
      TellsOutcome(v, "signature_verification", r) && TellsArtifact(v, a, request) && TellsKey(v, r) && |v.members| <= 18
    case Terminal(_, _, _, a, request) =>
      TellsOutcome(v, "artifact_verification", r) && TellsArtifact(v, a, request) && |v.members| <= 14
  }

  /** The event of a record is the object with these named members. */
  lemma EventSays(r: Record)
    ensures Says(EventOf(r), r)
  {
    hide TellsOutcome, TellsRequest, TellsArtifact, TellsKey, EventOf, Key;
    OutcomeTold(r);
    ExactFields(r);
    MemberCounts();
    ImageBound(PREFLIGHT_FIELDS);
    ImageBound(SIGNATURE_FIELDS);
    ImageBound(ARTIFACT_FIELDS);
    assert |EventOf(r).members| == |EventOf(r).members.Keys|;
    match r
    case Preflight(_, _, _, _, _, _, _) => RequestTold(r);
    case Signature(_, _, _, _, _, _, _, _, _) =>
      ArtifactTold(r);
      KeyTold(r);
    case Terminal(_, _, _, _, _) => ArtifactTold(r);
  }

  lemma MemberCounts()
    ensures |PREFLIGHT_FIELDS| <= 13 && |ARTIFACT_FIELDS| <= 14 && |SIGNATURE_FIELDS| <= 18
  {
    assert |COMMON_FIELDS| <= 6 && |PREFLIGHT_OWN_FIELDS| <= 7 && |ARTIFACT_OWN_FIELDS| <= 8 && |KEY_OWN_FIELDS| <= 4;
  }

  // ---------------------------------------------------- what the validator accepts

  /** The text of a digest. */
  function Digits(v: Json): (s: string)
    requires IsSha(v)
    ensures Word(s) == v
  {
    var s := seq(64, i requires 0 <= i < 64 => v.s[i] as char);
    assert Of(s) == v.s;
    s
  }

  /** An object with exactly the fields of a record, each as the record has it, is the event of the record. */
  lemma EventDetermined(v: Json, r: Record)
    requires v.Obj? && HasExactFields(v, COMMON_FIELDS + OwnFields(r).Keys)
    requires forall f :: f in Fields(r) ==> Get(v, f) == Fields(r)[f]
    ensures v == EventOf(r)
  {
    hide Name, Fields, OwnFields, COMMON_FIELDS;
    FieldsKept(r);
    ReadFields(r);
    var e := EventOf(r);
    assert v.members.Keys == e.members.Keys;
    forall k | k in v.members ensures v.members[k] == e.members[k] {
      var f :| f in Fields(r) && Key(f) == k;
      assert Get(v, f) == v.members[k] && Get(e, f) == e.members[k];
    }
    assert v.members == e.members;
  }

  lemma CommonRead(v: Json, env: AuditEnv) returns (reason: AuditReason)
    requires ValidCommon(v, env)
    ensures Get(v, VerificationTimestamp).Str? && Get(v, VerificationPassed).Bool?
    ensures Get(v, SchemaVersion) == Word(AUDIT_SCHEMA) && Get(v, VerifierId) == Word(AUDIT_VERIFIER)
    ensures Get(v, ReasonId) == Word(ReasonName(reason))
  {
    hide Get, Word, ReasonName, TimestampShape;
    reason :| Get(v, ReasonId) == Word(ReasonName(reason));
  }

  lemma ArtifactRead(v: Json) returns (a: Artifact, request: string)
    requires ValidArtifact(v)
    ensures CarriesArtifact(v, a, request)
  {
    hide Get, Word, IsSha;
    request := Digits(Get(v, RequestIdHash));
    var hash, context := Digits(Get(v, ArtifactHash)), Digits(Get(v, ContextHash));
    var version := Get(v, RegistryVersion).n;
    if Get(v, ArtifactType) == Word(COMPONENT_KIND) {
      var id :| id in COMPONENT_ROLES && Get(v, ArtifactId) == Word(id);
      a := Artifact(COMPONENT_KIND, VERDICT_SCHEMA, id, hash, "", context, SIGNATURE_POLICY, version);
    } else {
      a := Artifact(RECEIPT_KIND, RECEIPT_SCHEMA, ORCHESTRATOR_ROLE, hash, "", context, SIGNATURE_POLICY, version);
    }
  }

  lemma CommonCarried(v: Json, r: Record)
    requires CarriesCommon(v, EventTypeOf(r), r)
    ensures forall f :: f in CommonFields(EventTypeOf(r), r) ==> Get(v, f) == CommonFields(EventTypeOf(r), r)[f]
  {
    hide Get, Word, EventTypeOf, ReasonName;
  }

  lemma ArtifactCarried(v: Json, a: Artifact, request: string)
    requires CarriesArtifact(v, a, request)
    ensures forall f :: f in ArtifactFields(a, request) ==> Get(v, f) == ArtifactFields(a, request)[f]
  {
    hide Get, Word;
  }

  lemma PreflightCarried(v: Json, r: Record)
    requires r.Preflight? && CarriesPreflight(v, r)
    ensures forall f :: f in OwnFields(r) ==> Get(v, f) == OwnFields(r)[f]
  {
    hide Get, Word;
  }

  lemma SignatureCarried(v: Json, r: Record)
    requires r.Signature? && CarriesArtifact(v, r.artifact, r.requestIdHash) && CarriesKey(v, r)
    ensures forall f :: f in OwnFields(r) ==> Get(v, f) == OwnFields(r)[f]
  {
    hide Get, Word, NameOf, ArtifactFields, CarriesArtifact;
    ArtifactCarried(v, r.artifact, r.requestIdHash);
  }

  /** The fields of a record are the common ones and its own. */
  lemma AllCarried(v: Json, r: Record)
    requires CarriesCommon(v, EventTypeOf(r), r) && forall f :: f in OwnFields(r) ==> Get(v, f) == OwnFields(r)[f]
    ensures forall f :: f in Fields(r) ==> Get(v, f) == Fields(r)[f]
  {
    hide Get, OwnFields, CommonFields, CarriesCommon, EventTypeOf;
    CommonCarried(v, r);
  }

  lemma PreflightRecorded(v: Json, env: AuditEnv) returns (r: Record)
    requires v.Obj? && HasExactFields(v, PREFLIGHT_FIELDS) && ValidCommon(v, env) && ValidPreflight(v)
    requires Get(v, EventType) == Word(PREFLIGHT_EVENT)
    ensures v == EventOf(r)
  {
    hide Get, Word, IsSha, HasExactFields, ValidCommon, Fields, EventOf, OwnFields, COMMON_FIELDS, PREFLIGHT_OWN_FIELDS;
    var reason := CommonRead(v, env);
    r := Preflight(Get(v, VerificationTimestamp).s, Get(v, VerificationPassed).b, reason,
                   Digits(Get(v, ArtifactTransportHash)), Digits(Get(v, ExpectedRequestIdHash)),
                   Digits(Get(v, ExpectedContextHash)), Get(v, MinimumRegistryVersion).n);
    PreflightCarried(v, r);
    AllCarried(v, r);
    PreflightKeys(r);
    EventDetermined(v, r);
  }

  lemma SignatureRecorded(v: Json, env: AuditEnv) returns (r: Record)
    requires v.Obj? && HasExactFields(v, SIGNATURE_FIELDS) && ValidCommon(v, env) && ValidArtifact(v) && ValidKey(v)
    requires Get(v, EventType) == Word(SIGNATURE_EVENT)
    ensures v == EventOf(r)
  {
    hide Get, Word, IsSha, HasExactFields, ValidCommon, ValidArtifact, Fields, EventOf, OwnFields, NameOf, ProfileOf,
      COMMON_FIELDS, ARTIFACT_OWN_FIELDS,
      KEY_OWN_FIELDS, CarriesArtifact;
    var reason := CommonRead(v, env);
    var a, request := ArtifactRead(v);
    var algorithm :| Get(v, AlgorithmName) == Word(NameOf(algorithm)) && Get(v, StandardProfile) == Word(ProfileOf(algorithm));
    r := Signature(Get(v, VerificationTimestamp).s, Get(v, VerificationPassed).b, reason, a, request,
                   Digits(Get(v, KeyIdHash)), Get(v, KeyVersion).n, algorithm, ProfileOf(algorithm));
    SignatureCarried(v, r);
    AllCarried(v, r);
    SignatureKeys(r);
    assert COMMON_FIELDS + (ARTIFACT_OWN_FIELDS + KEY_OWN_FIELDS) == SIGNATURE_FIELDS;
    EventDetermined(v, r);
  }

  lemma TerminalRecorded(v: Json, env: AuditEnv) returns (r: Record)
    requires v.Obj? && HasExactFields(v, ARTIFACT_FIELDS) && ValidCommon(v, env) && ValidArtifact(v)
    requires Get(v, EventType) == Word(ARTIFACT_EVENT)
    ensures v == EventOf(r)
  {
    hide Get, Word, IsSha, HasExactFields, ValidCommon, ValidArtifact, Fields, EventOf, ArtifactFields,
      COMMON_FIELDS, ARTIFACT_OWN_FIELDS, CarriesArtifact;
    var reason := CommonRead(v, env);
    var a, request := ArtifactRead(v);
    r := Terminal(Get(v, VerificationTimestamp).s, Get(v, VerificationPassed).b, reason, a, request);
    ArtifactCarried(v, a, request);
    AllCarried(v, r);
    TerminalKeys(r);
    EventDetermined(v, r);
  }

  /** The validator accepts exactly the events of fit records, and no other JSON value. */
  lemma AcceptsExactly(v: Json, env: AuditEnv)
    ensures ValidEvent(v, env) <==> exists r :: v == EventOf(r) && FitRecord(r, env)
  {
    hide ValidCommon, ValidArtifact, ValidKey, ValidPreflight, Get, Word, EventOf, FitRecord, PREFLIGHT_FIELDS,
      SIGNATURE_FIELDS,
      ARTIFACT_FIELDS;
    forall r ensures ValidEvent(EventOf(r), env) <==> FitRecord(r, env) { ValidExactly(r, env); }
    if ValidEvent(v, env) {
      var r;
      if Get(v, EventType) == Word(PREFLIGHT_EVENT) {
        r := PreflightRecorded(v, env);
      } else if Get(v, EventType) == Word(SIGNATURE_EVENT) {
        r := SignatureRecorded(v, env);
      } else {
        r := TerminalRecorded(v, env);
      }
      assert v == EventOf(r) && FitRecord(r, env);
    }
  }
}
