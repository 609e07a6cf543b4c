/** Audit records, the events they become, and the validator that reads them back. */
module AuditRecords {
  import opened Wrappers
  import opened Strings
  import opened Json
  import opened CanonicalJson
  import opened AuditNames
  import opened AuditTexts
  import opened EventBytes
  import opened ReceiptContract
  import opened KeyRegistry
  import opened VerificationWaves
  import opened ComponentSummaries
  import opened GatewayLengths
  import Utf8

  /** Outside facts: which code points are decimal digits, which dates exist, and the hashes. */
  datatype AuditEnv = AuditEnv(
    unicodeDigit: CodePoint -> bool, calendar: Text -> bool, identifierHash: (string, string) -> HexDigest,
    batchHash: Utf8.Bytes -> HexDigest)

  datatype Record =
    | Preflight(time: Text, passed: bool, reason: AuditReason, transportHash: string, requestIdHash: string,
                contextHash: string, minimumRegistry: int)
    | Signature(time: Text, passed: bool, reason: AuditReason, artifact: Artifact, requestIdHash: string,
                keyIdHash: string, keyVersion: int, algorithm: Algorithm, profile: string)
    | Terminal(time: Text, passed: bool, reason: AuditReason, artifact: Artifact, requestIdHash: string)

  function Word(s: string): Json {
    Str(Of(s))
  }

  function CommonFields(eventType: string, r: Record): map<FieldName, Json> {
    map[SchemaVersion := Word(AUDIT_SCHEMA), EventType := Word(eventType), VerifierId := Word(AUDIT_VERIFIER),
        VerificationTimestamp := Str(r.time), VerificationPassed := Bool(r.passed),
        ReasonId := Word(ReasonName(r.reason))]
  }

  function ArtifactFields(a: Artifact, requestIdHash: string): map<FieldName, Json> {
    map[ArtifactType := Word(a.kind), ArtifactSchemaVersion := Word(a.schema), ArtifactId := Word(a.id),
        ArtifactHash := Word(a.hash), RequestIdHash := Word(requestIdHash), ContextHash := Word(a.contextHash),
        PolicyVersion := Word(a.policy), RegistryVersion := Int(a.registryVersion)]
  }

  function EventTypeOf(r: Record): string {
    match r
    case Preflight(_, _, _, _, _, _, _) => PREFLIGHT_EVENT
    case Signature(_, _, _, _, _, _, _, _, _) => SIGNATURE_EVENT
    case Terminal(_, _, _, _, _) => ARTIFACT_EVENT
  }

  function OwnFields(r: Record): map<FieldName, Json> {
    match r
    case Preflight(_, _, _, transport, request, context, minimum) =>
      map[ArtifactType := Word(RECEIPT_KIND), ExpectedArtifactSchemaVersion := Word(RECEIPT_SCHEMA),
          ArtifactTransportHash := Word(transport), ExpectedRequestIdHash := Word(request),
          ExpectedContextHash := Word(context), RequiredPolicyVersion := Word(SIGNATURE_POLICY),
          MinimumRegistryVersion := Int(minimum)]
    case Signature(_, _, _, a, request, keyId, keyVersion, algorithm, profile) =>
      ArtifactFields(a, request) +
      map[KeyIdHash := Word(keyId), KeyVersion := Int(keyVersion), AlgorithmName := Word(NameOf(algorithm)),
          StandardProfile := Word(profile)]
    case Terminal(_, _, _, a, request) => ArtifactFields(a, request)
  }

  /** The dataclass of a record, field by field. */
  function Fields(r: Record): map<FieldName, Json> {
    CommonFields(EventTypeOf(r), r) + OwnFields(r)
  }

  function EventOf(r: Record): Json {
    ToJson(Fields(r))
  }

  /** A record's fields as the JSON object it is written as. */
  function ToJson(fields: map<FieldName, Json>): (v: Json)
    ensures v.Obj? && v.members.Keys == set f | f in fields :: Key(f)
    ensures forall f :: f in fields ==> Key(f) in v.members && v.members[Key(f)] == fields[f]
  {
    KeysDistinct();
    Obj(map f | f in fields :: Key(f) := fields[f])
  }

  /** event.get */
  function Get(v: Json, f: FieldName): Json {
    if v.Obj? && Key(f) in v.members then v.members[Key(f)] else Null
  }

  lemma GetField(fields: map<FieldName, Json>, f: FieldName)
    ensures Get(ToJson(fields), f) == if f in fields then fields[f] else Null
  {
    hide Name;
    KeysDistinct();
  }

  // --------------------------------------------------------------- validation

  predicate IsHexChar(c: CodePoint) {
    0x30 <= c <= 0x39 || 0x61 <= c <= 0x66
  }

  /** _validate_sha256 */
  predicate IsSha(v: Json) {
    v.Str? && |v.s| == 64 && forall i :: 0 <= i < 64 ==> IsHexChar(v.s[i])
  }

  predicate IsDecimalDigit(c: CodePoint, env: AuditEnv) {
    0x30 <= c <= 0x39 || (0x660 <= c && !IsSurrogate(c) && env.unicodeDigit(c))
  }

  predicate DigitsAt(t: Text, from: nat, to: nat, env: AuditEnv)
    requires from <= to <= |t|
  {
    forall i :: from <= i < to ==> IsDecimalDigit(t[i], env)
  }

  /** Four digits, a dash, two digits and so on; any decimal digit counts, not only ASCII ones. */
  predicate TimestampShape(t: Text, env: AuditEnv) {
    && |t| == 20
    && DigitsAt(t, 0, 4, env) && t[4] == 0x2D && DigitsAt(t, 5, 7, env) && t[7] == 0x2D
    && DigitsAt(t, 8, 10, env) && t[10] == 0x54 && DigitsAt(t, 11, 13, env) && t[13] == 0x3A
    && DigitsAt(t, 14, 16, env) && t[16] == 0x3A && DigitsAt(t, 17, 19, env) && t[19] == 0x5A
  }

  /** _validate_timestamp */
  predicate IsTimestamp(v: Json, env: AuditEnv) {
    v.Str? && TimestampShape(v.s, env) && env.calendar(v.s)
  }

  predicate IsPositive(v: Json) {
    v.Int? && v.n > 0
  }

  predicate HasExactFields(v: Json, fields: set<FieldName>) {
    v.Obj? && v.members.Keys == set f | f in fields :: Key(f)
  }

  /** _validate_common: a pass is a pass exactly when its reason says so. */
  predicate ValidCommon(v: Json, env: AuditEnv) {
    && Get(v, SchemaVersion) == Word(AUDIT_SCHEMA) && Get(v, VerifierId) == Word(AUDIT_VERIFIER)
    && IsTimestamp(Get(v, VerificationTimestamp), env) && Get(v, VerificationPassed).Bool?
    && (exists r: AuditReason :: Get(v, ReasonId) == Word(ReasonName(r)))
    && (Get(v, ReasonId) == Word(ReasonName(VerifyOk)) <==> Get(v, VerificationPassed).b)
  }

  predicate IsComponentName(v: Json) {
    exists id :: id in COMPONENT_ROLES && v == Word(id)
  }

  /** _validate_artifact */
  predicate ValidArtifact(v: Json) {
    && (if Get(v, ArtifactType) == Word(COMPONENT_KIND)
        then Get(v, ArtifactSchemaVersion) == Word(VERDICT_SCHEMA) && IsComponentName(Get(v, ArtifactId))
        else
          && Get(v, ArtifactType) == Word(RECEIPT_KIND) && Get(v, ArtifactSchemaVersion) == Word(RECEIPT_SCHEMA)
          && Get(v, ArtifactId) == Word(ORCHESTRATOR_ROLE))
    && IsSha(Get(v, ArtifactHash)) && IsSha(Get(v, RequestIdHash)) && IsSha(Get(v, ContextHash))
    && Get(v, PolicyVersion) == Word(SIGNATURE_POLICY) && IsPositive(Get(v, RegistryVersion))
  }

  predicate ValidKey(v: Json) {
    && IsSha(Get(v, KeyIdHash)) && IsPositive(Get(v, KeyVersion))
    && exists a: Algorithm :: Get(v, AlgorithmName) == Word(NameOf(a)) && Get(v, StandardProfile) == Word(ProfileOf(a))
  }

  predicate ValidPreflight(v: Json) {
    && Get(v, ArtifactType) == Word(RECEIPT_KIND) && Get(v, ExpectedArtifactSchemaVersion) == Word(RECEIPT_SCHEMA)
    && IsSha(Get(v, ArtifactTransportHash)) && IsSha(Get(v, ExpectedRequestIdHash))
    && IsSha(Get(v, ExpectedContextHash)) && Get(v, RequiredPolicyVersion) == Word(SIGNATURE_POLICY)
    && IsPositive(Get(v, MinimumRegistryVersion))
  }

  /** _validate_event */
  predicate ValidEvent(v: Json, env: AuditEnv) {
    if Get(v, EventType) == Word(PREFLIGHT_EVENT) then
      HasExactFields(v, PREFLIGHT_FIELDS) && ValidCommon(v, env) && ValidPreflight(v)
    else if Get(v, EventType) == Word(SIGNATURE_EVENT) then
      HasExactFields(v, SIGNATURE_FIELDS) && ValidCommon(v, env) && ValidArtifact(v) && ValidKey(v)
    else
      && Get(v, EventType) == Word(ARTIFACT_EVENT)
      && HasExactFields(v, ARTIFACT_FIELDS) && ValidCommon(v, env) && ValidArtifact(v)
  }

  // ------------------------------------------------------ records that are fit

  /** An artifact the verifier can name: a component or the receipt, with real digests. */
  predicate FitArtifact(a: Artifact) {
    && (if a.kind == COMPONENT_KIND then a.schema == VERDICT_SCHEMA && a.id in COMPONENT_ROLES
        else a.kind == RECEIPT_KIND && a.schema == RECEIPT_SCHEMA && a.id == ORCHESTRATOR_ROLE)
    && IsHex64(a.hash) && IsHex64(a.contextHash) && a.policy == SIGNATURE_POLICY && a.registryVersion > 0
  }

  predicate FitCommon(r: Record, env: AuditEnv) {
    TimestampShape(r.time, env) && env.calendar(r.time) && (r.passed <==> r.reason == VerifyOk) && IsHex64(r.requestIdHash)
  }

  predicate FitRecord(r: Record, env: AuditEnv) {
    FitCommon(r, env)
    && match r
       case Preflight(_, _, _, transport, _, context, minimum) =>
         IsHex64(transport) && IsHex64(context) && minimum > 0
       case Signature(_, _, _, a, _, keyId, keyVersion, algorithm, profile) =>
         FitArtifact(a) && IsHex64(keyId) && keyVersion > 0 && profile == ProfileOf(algorithm)
       case Terminal(_, _, _, a, _) => FitArtifact(a)
  }

  // ---------------------------------------- the validator accepts exactly these

  lemma WordsInjective()
    ensures forall a, b :: Word(a) == Word(b) ==> a == b
  {
    forall a, b | Word(a) == Word(b) ensures a == b { OfInjective(a, b); }
  }

  lemma HexIsSha(s: string)
    ensures IsSha(Word(s)) <==> IsHex64(s)
  {
    var t := Of(s);
    if IsSha(Word(s)) {
      assert forall i :: 0 <= i < 64 ==> IsHexChar(t[i]) && t[i] == s[i] as int;
    }
  }

  lemma ReadFields(r: Record)
    ensures forall f :: Get(EventOf(r), f) == if f in Fields(r) then Fields(r)[f] else Null
    ensures EventOf(r).Obj?
  {
    hide Fields, Get;
    forall f ensures Get(EventOf(r), f) == if f in Fields(r) then Fields(r)[f] else Null { GetField(Fields(r), f); }
  }

  /** What every event holds. */
  ghost predicate CarriesCommon(v: Json, eventType: string, r: Record) {
    && Get(v, SchemaVersion) == Word(AUDIT_SCHEMA) && Get(v, EventType) == Word(eventType)
    && Get(v, VerifierId) == Word(AUDIT_VERIFIER) && Get(v, VerificationTimestamp) == Str(r.time)
    && Get(v, VerificationPassed) == Bool(r.passed) && Get(v, ReasonId) == Word(ReasonName(r.reason))
  }

  ghost predicate CarriesArtifact(v: Json, a: Artifact, requestIdHash: string) {
    && Get(v, ArtifactType) == Word(a.kind) && Get(v, ArtifactSchemaVersion) == Word(a.schema)
    && Get(v, ArtifactId) == Word(a.id) && Get(v, ArtifactHash) == Word(a.hash)
    && Get(v, RequestIdHash) == Word(requestIdHash) && Get(v, ContextHash) == Word(a.contextHash)
    && Get(v, PolicyVersion) == Word(a.policy) && Get(v, RegistryVersion) == Int(a.registryVersion)
  }

  lemma CommonExact(v: Json, eventType: string, r: Record, env: AuditEnv)
    requires CarriesCommon(v, eventType, r)
    ensures ValidCommon(v, env)
      <==> TimestampShape(r.time, env) && env.calendar(r.time) && (r.passed <==> r.reason == VerifyOk)
  {
    hide Get, TimestampShape, ReasonName;
    WordsInjective();
    ReasonsFit(r.reason);
  }

  lemma ArtifactExact(v: Json, a: Artifact, requestIdHash: string)
    requires CarriesArtifact(v, a, requestIdHash)
    ensures ValidArtifact(v) <==> FitArtifact(a) && IsHex64(requestIdHash)
  {
    hide Get, IsSha, IsHex64;
    WordsInjective();
    HexIsSha(a.hash);
    HexIsSha(requestIdHash);
    HexIsSha(a.contextHash);
  }

  ghost predicate CarriesPreflight(v: Json, r: Record)
    requires r.Preflight?
  {
    && Get(v, ArtifactType) == Word(RECEIPT_KIND) && Get(v, ExpectedArtifactSchemaVersion) == Word(RECEIPT_SCHEMA)
    && Get(v, ArtifactTransportHash) == Word(r.transportHash) && Get(v, ExpectedRequestIdHash) == Word(r.requestIdHash)
    && Get(v, ExpectedContextHash) == Word(r.contextHash) && Get(v, RequiredPolicyVersion) == Word(SIGNATURE_POLICY)
    && Get(v, MinimumRegistryVersion) == Int(r.minimumRegistry)
  }

  ghost predicate CarriesKey(v: Json, r: Record)
    requires r.Signature?
  {
    && Get(v, KeyIdHash) == Word(r.keyIdHash) && Get(v, KeyVersion) == Int(r.keyVersion)
    && Get(v, AlgorithmName) == Word(NameOf(r.algorithm)) && Get(v, StandardProfile) == Word(r.profile)
  }

  lemma CommonKeys(eventType: string, r: Record)
    ensures CommonFields(eventType, r).Keys == COMMON_FIELDS
  {
    hide Word, ReasonName;
  }

  lemma ArtifactKeys(a: Artifact, requestIdHash: string)
    ensures ArtifactFields(a, requestIdHash).Keys == ARTIFACT_OWN_FIELDS
  {
    hide Word;
  }

  lemma PreflightKeys(r: Record)
    requires r.Preflight?
    ensures OwnFields(r).Keys == PREFLIGHT_OWN_FIELDS
  {
    hide Word;
  }

  lemma SignatureKeys(r: Record)
    requires r.Signature?
    ensures OwnFields(r).Keys == ARTIFACT_OWN_FIELDS + KEY_OWN_FIELDS
  {
    hide Word, NameOf, ArtifactFields;
    ArtifactKeys(r.artifact, r.requestIdHash);
  }

  lemma OwnKeys(r: Record)
    ensures r.Preflight? ==> OwnFields(r).Keys == PREFLIGHT_OWN_FIELDS
    ensures r.Signature? ==> OwnFields(r).Keys == ARTIFACT_OWN_FIELDS + KEY_OWN_FIELDS
    ensures r.Terminal? ==> OwnFields(r).Keys == ARTIFACT_OWN_FIELDS
    ensures OwnFields(r).Keys !! COMMON_FIELDS
  {
    hide OwnFields, ArtifactFields;
    OwnApart();
    match r
    case Preflight(_, _, _, _, _, _, _) => PreflightKeys(r);
    case Signature(_, _, _, _, _, _, _, _, _) => SignatureKeys(r);
    case Terminal(_, _, _, _, _) => TerminalKeys(r);
  }

  lemma TerminalKeys(r: Record)
    requires r.Terminal?
    ensures OwnFields(r).Keys == ARTIFACT_OWN_FIELDS
  {
    hide ArtifactFields;
    ArtifactKeys(r.artifact, r.requestIdHash);
  }

  lemma OwnApart()
    ensures PREFLIGHT_OWN_FIELDS !! COMMON_FIELDS && ARTIFACT_OWN_FIELDS + KEY_OWN_FIELDS !! COMMON_FIELDS
    ensures ARTIFACT_OWN_FIELDS !! COMMON_FIELDS
  {
  }

  lemma FieldsKept(r: Record)
    ensures forall f :: f in CommonFields(EventTypeOf(r), r) ==>
      f in Fields(r) && Fields(r)[f] == CommonFields(EventTypeOf(r), r)[f]
    ensures forall f :: f in OwnFields(r) ==> f in Fields(r) && Fields(r)[f] == OwnFields(r)[f]
    ensures HasExactFields(EventOf(r), COMMON_FIELDS + OwnFields(r).Keys)
  {
    hide CommonFields, OwnFields, EventTypeOf, Key;
    CommonKeys(EventTypeOf(r), r);
    OwnKeys(r);
  }

  lemma EventCarriesCommon(r: Record)
    ensures CarriesCommon(EventOf(r), EventTypeOf(r), r)
  {
    hide Get, EventOf, Word, Fields, EventTypeOf, ReasonName, OwnFields;
    FieldsKept(r);
    ReadFields(r);
    var common := CommonFields(EventTypeOf(r), r);
    assert SchemaVersion in common && EventType in common && VerifierId in common;
    assert VerificationTimestamp in common && VerificationPassed in common && ReasonId in common;
  }

  lemma ArtifactKept(r: Record)
    requires r.Signature? || r.Terminal?
    ensures var artifact := ArtifactFields(r.artifact, r.requestIdHash);
      forall f :: f in artifact ==> f in OwnFields(r) && OwnFields(r)[f] == artifact[f]
  {
    hide Word, NameOf;
  }

  lemma EventCarriesArtifact(r: Record)
    requires r.Signature? || r.Terminal?
    ensures CarriesArtifact(EventOf(r), r.artifact, r.requestIdHash)
  {
    hide Get, EventOf, Word, Fields, OwnFields, CommonFields;
    ArtifactKept(r);
    FieldsKept(r);
    ReadFields(r);
    var artifact := ArtifactFields(r.artifact, r.requestIdHash);
    assert ArtifactType in artifact && ArtifactSchemaVersion in artifact && ArtifactId in artifact;
    assert ArtifactHash in artifact && RequestIdHash in artifact && ContextHash in artifact;
    assert PolicyVersion in artifact && RegistryVersion in artifact;
  }

  lemma EventCarriesPreflight(r: Record)
    requires r.Preflight?
    ensures CarriesPreflight(EventOf(r), r)
  {
    hide Get, EventOf, Word, CommonFields, Fields;
    FieldsKept(r);
    ReadFields(r);
    PreflightKeys(r);
  }

  lemma EventCarriesKey(r: Record)
    requires r.Signature?
    ensures CarriesKey(EventOf(r), r)
  {
    hide Get, EventOf, Word, NameOf, CommonFields, ArtifactFields, Fields;
    FieldsKept(r);
    ReadFields(r);
    var own := OwnFields(r);
    assert KeyIdHash in own && KeyVersion in own && AlgorithmName in own && StandardProfile in own;
  }

  lemma PreflightBody(v: Json, r: Record)
    requires r.Preflight? && CarriesPreflight(v, r)
    ensures ValidPreflight(v)
      <==> IsHex64(r.transportHash) && IsHex64(r.requestIdHash) && IsHex64(r.contextHash) && r.minimumRegistry > 0
  {
    hide Get, IsSha, IsHex64, Word;
    HexIsSha(r.transportHash);
    HexIsSha(r.requestIdHash);
    HexIsSha(r.contextHash);
  }

  lemma KeyBody(v: Json, r: Record)
    requires r.Signature? && CarriesKey(v, r)
    ensures ValidKey(v) <==> IsHex64(r.keyIdHash) && r.keyVersion > 0 && r.profile == ProfileOf(r.algorithm)
  {
    hide Get, IsSha, IsHex64, Word, NameOf, ProfileOf;
    WordsInjective();
    HexIsSha(r.keyIdHash);
    forall a | NameOf(a) == NameOf(r.algorithm) ensures a == r.algorithm {
      assert AlgorithmOf(NameOf(a)) == Some(a) && AlgorithmOf(NameOf(r.algorithm)) == Some(r.algorithm);
    }
  }

  lemma EventWords()
    ensures Word(PREFLIGHT_EVENT) != Word(SIGNATURE_EVENT) && Word(PREFLIGHT_EVENT) != Word(ARTIFACT_EVENT)
    ensures Word(SIGNATURE_EVENT) != Word(ARTIFACT_EVENT)
  {
    WordsInjective();
    EventsDiffer();
  }

  /** The validator accepts the event of a record exactly when the record is fit. */
  lemma ValidExactly(r: Record, env: AuditEnv)
    ensures ValidEvent(EventOf(r), env) <==> FitRecord(r, env)
  {
    hide Get, EventOf, Word, IsHex64, TimestampShape, ValidCommon, ValidArtifact, ValidPreflight, ValidKey, FitArtifact,
      HasExactFields, ProfileOf, CarriesArtifact, CarriesPreflight, CarriesKey;
    var v := EventOf(r);
    EventWords();
    ExactFields(r);
    EventCarriesCommon(r);
    CommonExact(v, EventTypeOf(r), r, env);
    match r
    case Preflight(_, _, _, _, _, _, _) =>
      EventCarriesPreflight(r);
      PreflightBody(v, r);
    case Signature(_, _, _, _, _, _, _, _, _) =>
      EventCarriesArtifact(r);
      ArtifactExact(v, r.artifact, r.requestIdHash);
      EventCarriesKey(r);
      KeyBody(v, r);
    case Terminal(_, _, _, _, _) =>
      EventCarriesArtifact(r);
      ArtifactExact(v, r.artifact, r.requestIdHash);
  }

  lemma ExactFields(r: Record)
    ensures r.Preflight? ==> HasExactFields(EventOf(r), PREFLIGHT_FIELDS)
    ensures r.Signature? ==> HasExactFields(EventOf(r), SIGNATURE_FIELDS)
    ensures r.Terminal? ==> HasExactFields(EventOf(r), ARTIFACT_FIELDS)
  {
    hide Key, EventOf, OwnFields, HasExactFields;
    OwnKeys(r);
    FieldsKept(r);
    assert COMMON_FIELDS + (ARTIFACT_OWN_FIELDS + KEY_OWN_FIELDS) == SIGNATURE_FIELDS;
  }

  // ------------------------------------------------------------------- sizes

  /** Integers are 64-bit, as snapshots and arguments keep them. */
  predicate IntegersBounded(r: Record) {
    match r
    case Preflight(_, _, _, _, _, _, minimum) => minimum <= 0x7FFF_FFFF_FFFF_FFFF
    case Signature(_, _, _, a, _, _, keyVersion, _, _) =>
      a.registryVersion <= 0x7FFF_FFFF_FFFF_FFFF && keyVersion <= 0x7FFF_FFFF_FFFF_FFFF
    case Terminal(_, _, _, a, _) => a.registryVersion <= 0x7FFF_FFFF_FFFF_FFFF
  }

  lemma ConstantIsSmall(s: string)
    requires Constant(s)
    ensures SmallValue(Word(s))
  {
    PlainIsSmall(s, MAX_VALUE_TEXT_BYTES);
  }

  lemma HexIsSmall(s: string)
    requires IsHex64(s)
    ensures SmallValue(Word(s))
  {
    LenAscii(Of(s));
  }

  /** Six stretches of digits, each closed by an ASCII separator: at most 4 * 14 + 6 bytes. */
  lemma TimestampIsSmall(t: Text, env: AuditEnv)
    requires TimestampShape(t, env)
    ensures SmallText(t, 62)
  {
    hide Len;
    Stretch(t, 0, 5, env);
    Stretch(t, 5, 8, env);
    Stretch(t, 8, 11, env);
    Stretch(t, 11, 14, env);
    Stretch(t, 14, 17, env);
    Stretch(t, 17, 20, env);
    StretchJoins(t, 5, 8);
    StretchJoins(t, 8, 11);
    StretchJoins(t, 11, 14);
    StretchJoins(t, 14, 17);
    StretchJoins(t, 17, 20);
    assert t[..20] == t && t[0..5] == t[..5];
  }

  lemma Stretch(t: Text, from: nat, to: nat, env: AuditEnv)
    requires from < to <= |t| && DigitsAt(t, from, to - 1, env) && 0x20 <= t[to - 1] < 0x80
    ensures Encodable(t[from..to]) && Len(t[from..to]) <= 4 * (to - from - 1) + 1
  {
    assert t[from..to] == t[from..to - 1] + [t[to - 1]];
    assert Encodable(t[from..to - 1]);
    LenAscii([t[to - 1]]);
    FourBytesEach(t[from..to - 1]);
    LenConcat(t[from..to - 1], [t[to - 1]]);
  }

  lemma {:induction false} FourBytesEach(t: Text)
    requires Encodable(t)
    ensures Len(t) <= 4 * |t|
  {
    if t != [] {
      var n := |t| - 1;
      assert t == t[..n] + [t[n]];
      assert Utf8.Encode([t[n]]) == Utf8.EncodeCodePoint(t[n]) + Utf8.Encode([]);
      FourBytesEach(t[..n]);
      LenConcat(t[..n], [t[n]]);
    }
  }

  lemma StretchJoins(t: Text, i: nat, j: nat)
    requires i <= j <= |t| && Encodable(t[..i]) && Encodable(t[i..j])
    ensures Encodable(t[..j]) && Len(t[..j]) == Len(t[..i]) + Len(t[i..j])
  {
    assert t[..j] == t[..i] + t[i..j];
    LenConcat(t[..i], t[i..j]);
  }

  predicate SmallFields(fields: map<FieldName, Json>) {
    forall f :: f in fields ==> SmallValue(fields[f])
  }

  lemma EventTypeFits(r: Record)
    ensures Constant(EventTypeOf(r))
  {
    hide Constant;
    EventsFit();
  }

  lemma CommonSmall(r: Record, env: AuditEnv)
    requires FitCommon(r, env)
    ensures SmallFields(CommonFields(EventTypeOf(r), r))
  {
    hide SmallValue, Word, ReasonName, TimestampShape, EventTypeOf, Constant;
    HeadersFit();
    EventTypeFits(r);
    ReasonsFit(r.reason);
    ConstantIsSmall(AUDIT_SCHEMA);
    ConstantIsSmall(AUDIT_VERIFIER);
    ConstantIsSmall(EventTypeOf(r));
    ConstantIsSmall(ReasonName(r.reason));
    TimeAndFlagSmall(r, env);
  }

  lemma TimeAndFlagSmall(r: Record, env: AuditEnv)
    requires TimestampShape(r.time, env)
    ensures SmallValue(Str(r.time)) && SmallValue(Bool(r.passed))
  {
    TimestampIsSmall(r.time, env);
  }

  lemma ArtifactSmall(a: Artifact, requestIdHash: string)
    requires FitArtifact(a) && IsHex64(requestIdHash) && a.registryVersion <= 0x7FFF_FFFF_FFFF_FFFF
    ensures SmallFields(ArtifactFields(a, requestIdHash))
  {
    hide SmallValue, Word, IsHex64, Constant;
    KindsFit();
    HeadersFit();
    RolesFit(a.id);
    ConstantIsSmall(a.kind);
    ConstantIsSmall(a.schema);
    ConstantIsSmall(a.id);
    ConstantIsSmall(a.policy);
    HexIsSmall(a.hash);
    HexIsSmall(requestIdHash);
    HexIsSmall(a.contextHash);
    PositiveIsSmall(a.registryVersion);
  }

  lemma PositiveIsSmall(n: int)
    requires 0 < n <= 0x7FFF_FFFF_FFFF_FFFF
    ensures SmallValue(Int(n))
  {
  }

  lemma PreflightSmall(r: Record, env: AuditEnv)
    requires r.Preflight? && FitRecord(r, env) && IntegersBounded(r)
    ensures SmallFields(OwnFields(r))
  {
    hide SmallValue, Word, IsHex64, Constant, TimestampShape;
    KindsFit();
    HeadersFit();
    ConstantIsSmall(RECEIPT_KIND);
    ConstantIsSmall(RECEIPT_SCHEMA);
    ConstantIsSmall(SIGNATURE_POLICY);
    HexIsSmall(r.transportHash);
    HexIsSmall(r.requestIdHash);
    HexIsSmall(r.contextHash);
    PositiveIsSmall(r.minimumRegistry);
  }

  lemma SignatureSmall(r: Record, env: AuditEnv)
    requires r.Signature? && FitRecord(r, env) && IntegersBounded(r)
    ensures SmallFields(OwnFields(r))
  {
    hide SmallValue, Word, IsHex64, Constant, TimestampShape, NameOf, ProfileOf, FitArtifact, ArtifactFields;
    ArtifactSmall(r.artifact, r.requestIdHash);
    AlgorithmsFit(r.algorithm);
    ConstantIsSmall(NameOf(r.algorithm));
    ConstantIsSmall(r.profile);
    HexIsSmall(r.keyIdHash);
    PositiveIsSmall(r.keyVersion);
  }

  lemma FieldsSmall(r: Record, env: AuditEnv)
    requires FitRecord(r, env) && IntegersBounded(r)
    ensures SmallFields(Fields(r))
  {
    hide SmallValue, CommonFields, OwnFields, IsHex64, TimestampShape, FitArtifact;
    CommonSmall(r, env);
    match r
    case Preflight(_, _, _, _, _, _, _) => PreflightSmall(r, env);
    case Signature(_, _, _, _, _, _, _, _, _) => SignatureSmall(r, env);
    case Terminal(_, _, _, a, request) => TerminalSmall(r, env);
  }

  lemma TerminalSmall(r: Record, env: AuditEnv)
    requires r.Terminal? && FitRecord(r, env) && IntegersBounded(r)
    ensures SmallFields(OwnFields(r))
  {
    hide SmallValue, IsHex64, TimestampShape, FitArtifact, ArtifactFields;
    ArtifactSmall(r.artifact, r.requestIdHash);
  }

  lemma {:induction false} ImageBound(fields: set<FieldName>)
    ensures |set f | f in fields :: Key(f)| <= |fields|
  {
    hide Key;
    if fields != {} {
      var g :| g in fields;
      var rest := fields - {g};
      ImageBound(rest);
      assert (set f | f in fields :: Key(f)) == (set f | f in rest :: Key(f)) + {Key(g)};
    }
  }

  lemma FieldCounts()
    ensures |PREFLIGHT_FIELDS| <= 18 && |ARTIFACT_FIELDS| <= 18 && |SIGNATURE_FIELDS| <= 18
  {
    assert |COMMON_FIELDS| <= 6 && |PREFLIGHT_OWN_FIELDS| <= 7 && |ARTIFACT_OWN_FIELDS| <= 8 && |KEY_OWN_FIELDS| <= 4;
  }

  /** A fit record becomes an event of at most 18 small fields. */
  lemma EventIsSmall(r: Record, env: AuditEnv)
    requires FitRecord(r, env) && IntegersBounded(r)
    ensures SmallEvent(EventOf(r)) && |EventOf(r).members| <= MAX_EVENT_FIELDS
  {
    hide SmallValue, Fields, FitRecord, Key, Name, IntegersBounded;
    FieldsSmall(r, env);
    ExactFields(r);
    FieldCounts();
    ImageBound(PREFLIGHT_FIELDS);
    ImageBound(SIGNATURE_FIELDS);
    ImageBound(ARTIFACT_FIELDS);
    var v := EventOf(r);
    assert |v.members| == |v.members.Keys|;
    forall k | k in v.members ensures SmallText(k, MAX_NAME_BYTES) && SmallValue(v.members[k]) {
      var f :| f in Fields(r) && Key(f) == k;
      KeyIsSmall(f);
    }
  }

  lemma KeyIsSmall(f: FieldName)
    ensures SmallText(Key(f), MAX_NAME_BYTES)
  {
    hide Name;
    NamesFit(f);
    PlainIsSmall(Name(f), MAX_NAME_BYTES);
  }
}
