/** The field names of audit events, as strings and as JSON keys. */
module AuditNames {
  import opened Strings

  /** Printable ASCII that JSON writes unescaped. */
  predicate PlainChar(c: char) {
    ' ' <= c <= '~' && c != '"' && c != '\\'
  }

  predicate Plain(s: string) {
    forall i :: 0 <= i < |s| ==> PlainChar(s[i])
  }

  const MAX_NAME_BYTES: nat := 32

  datatype FieldName =
    | SchemaVersion | EventType | VerifierId | VerificationTimestamp | VerificationPassed | ReasonId
    | ArtifactType | ExpectedArtifactSchemaVersion | ArtifactTransportHash | ExpectedRequestIdHash
    | ExpectedContextHash | RequiredPolicyVersion | MinimumRegistryVersion
    | ArtifactSchemaVersion | ArtifactId | ArtifactHash | RequestIdHash | ContextHash | PolicyVersion
    | RegistryVersion | KeyIdHash | KeyVersion | AlgorithmName | StandardProfile

  const COMMON_FIELDS :=
    {SchemaVersion, EventType, VerifierId, VerificationTimestamp, VerificationPassed, ReasonId}
  const PREFLIGHT_OWN_FIELDS :=
    {ArtifactType, ExpectedArtifactSchemaVersion, ArtifactTransportHash, ExpectedRequestIdHash, ExpectedContextHash,
     RequiredPolicyVersion, MinimumRegistryVersion}
  const ARTIFACT_OWN_FIELDS :=
    {ArtifactType, ArtifactSchemaVersion, ArtifactId, ArtifactHash, RequestIdHash, ContextHash, PolicyVersion,
     RegistryVersion}
  const KEY_OWN_FIELDS := {KeyIdHash, KeyVersion, AlgorithmName, StandardProfile}

  const PREFLIGHT_FIELDS := COMMON_FIELDS + PREFLIGHT_OWN_FIELDS
  const ARTIFACT_FIELDS := COMMON_FIELDS + ARTIFACT_OWN_FIELDS
  const SIGNATURE_FIELDS := ARTIFACT_FIELDS + KEY_OWN_FIELDS

  function Name(f: FieldName): string {
    match f
    case SchemaVersion => "schema_version"
    case EventType => "event_type"
    case VerifierId => "verifier_id"
    case VerificationTimestamp => "verification_timestamp"
    case VerificationPassed => "verification_passed"
    case ReasonId => "reason_id"
    case ArtifactType => "artifact_type"
    case ExpectedArtifactSchemaVersion => "expected_artifact_schema_version"
    case ArtifactTransportHash => "artifact_transport_hash"
    case ExpectedRequestIdHash => "expected_request_id_hash"
    case ExpectedContextHash => "expected_context_hash"
    case RequiredPolicyVersion => "required_policy_version"
    case MinimumRegistryVersion => "minimum_registry_version"
    case ArtifactSchemaVersion => "artifact_schema_version"
    case ArtifactId => "artifact_id"
    case ArtifactHash => "artifact_hash"
    case RequestIdHash => "request_id_hash"
    case ContextHash => "context_hash"
    case PolicyVersion => "policy_version"
    case RegistryVersion => "registry_version"
    case KeyIdHash => "key_id_hash"
    case KeyVersion => "key_version"
    case AlgorithmName => "algorithm"
    case StandardProfile => "standard_profile"
  }

  function Key(f: FieldName): Text {
    Of(Name(f))
  }

  /** Length, first and last but one letter tell the names apart. */
  function Shape(f: FieldName): (nat, char, char) {
    match f
    case SchemaVersion => (14, 's', 'o')
    case EventType => (10, 'e', 'p')
    case VerifierId => (11, 'v', 'i')
    case VerificationTimestamp => (22, 'v', 'm')
    case VerificationPassed => (19, 'v', 'e')
    case ReasonId => (9, 'r', 'i')
    case ArtifactType => (13, 'a', 'p')
    case ExpectedArtifactSchemaVersion => (32, 'e', 'o')
    case ArtifactTransportHash => (23, 'a', 's')
    case ExpectedRequestIdHash => (24, 'e', 's')
    case ExpectedContextHash => (21, 'e', 's')
    case RequiredPolicyVersion => (23, 'r', 'o')
    case MinimumRegistryVersion => (24, 'm', 'o')
    case ArtifactSchemaVersion => (23, 'a', 'o')
    case ArtifactId => (11, 'a', 'i')
    case ArtifactHash => (13, 'a', 's')
    case RequestIdHash => (15, 'r', 's')
    case ContextHash => (12, 'c', 's')
    case PolicyVersion => (14, 'p', 'o')
    case RegistryVersion => (16, 'r', 'o')
    case KeyIdHash => (11, 'k', 's')
    case KeyVersion => (11, 'k', 'o')
    case AlgorithmName => (9, 'a', 'h')
    case StandardProfile => (16, 's', 'l')
  }

  predicate NameFits(f: FieldName, s: string) {
    Plain(s) && 2 <= |s| <= MAX_NAME_BYTES && Shape(f) == (|s|, s[0], s[|s| - 2])
  }

  lemma Names1(f: FieldName)
    requires f.ReasonId? || f.AlgorithmName? || f.EventType? || f.VerifierId?
    ensures NameFits(f, Name(f))
  {
  }

  lemma Names2(f: FieldName)
    requires f.ArtifactId? || f.KeyIdHash? || f.KeyVersion? || f.ContextHash?
    ensures NameFits(f, Name(f))
  {
  }

  lemma Names3(f: FieldName)
    requires f.ArtifactType? || f.ArtifactHash? || f.SchemaVersion?
    ensures NameFits(f, Name(f))
  {
  }

  lemma Names4(f: FieldName)
    requires f.PolicyVersion? || f.RequestIdHash? || f.RegistryVersion?
    ensures NameFits(f, Name(f))
  {
  }

  lemma Names5(f: FieldName)
    requires f.StandardProfile? || f.VerificationPassed?
    ensures NameFits(f, Name(f))
  {
  }

  lemma Names6(f: FieldName)
    requires f.ExpectedContextHash? || f.VerificationTimestamp?
    ensures NameFits(f, Name(f))
  {
  }

  lemma Names7(f: FieldName)
    requires f.ArtifactTransportHash? || f.RequiredPolicyVersion?
    ensures NameFits(f, Name(f))
  {
  }

  lemma Names8(f: FieldName)
    requires f.ArtifactSchemaVersion? || f.ExpectedRequestIdHash?
    ensures NameFits(f, Name(f))
  {
  }

  lemma Names9(f: FieldName)
    requires f.MinimumRegistryVersion?
    ensures NameFits(f, Name(f))
  {
  }

  lemma Names10(f: FieldName)
    requires f.ExpectedArtifactSchemaVersion?
    ensures NameFits(f, Name(f))
  {
  }

  lemma NamesFit(f: FieldName)
    ensures NameFits(f, Name(f))
  {
    hide NameFits, Name;
    match f
    case SchemaVersion => Names3(f);
    case EventType => Names1(f);
    case VerifierId => Names1(f);
    case VerificationTimestamp => Names6(f);
    case VerificationPassed => Names5(f);
    case ReasonId => Names1(f);
    case ArtifactType => Names3(f);
    case ExpectedArtifactSchemaVersion => Names10(f);
    case ArtifactTransportHash => Names7(f);
    case ExpectedRequestIdHash => Names8(f);
    case ExpectedContextHash => Names6(f);
    case RequiredPolicyVersion => Names7(f);
    case MinimumRegistryVersion => Names9(f);
    case ArtifactSchemaVersion => Names8(f);
    case ArtifactId => Names2(f);
    case ArtifactHash => Names3(f);
    case RequestIdHash => Names4(f);
    case ContextHash => Names2(f);
    case PolicyVersion => Names4(f);
    case RegistryVersion => Names4(f);
    case KeyIdHash => Names2(f);
    case KeyVersion => Names2(f);
    case AlgorithmName => Names1(f);
    case StandardProfile => Names5(f);
  }

  lemma KeysDistinct()
    ensures forall f, g :: Key(f) == Key(g) ==> f == g
  {
    hide Name;
    forall f, g | Key(f) == Key(g) ensures f == g {
      NamesFit(f);
      NamesFit(g);
      OfInjective(Name(f), Name(g));
      assert Shape(f) == Shape(g);
    }
  }

  lemma OfInjective(a: string, b: string)
    requires Of(a) == Of(b)
    ensures a == b
  {
    assert forall i :: 0 <= i < |a| ==> Of(a)[i] == a[i] as int && Of(b)[i] == b[i] as int;
  }
}
