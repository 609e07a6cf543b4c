/** The audit wrapper: verify, write the transcript, and let a result out only after a matching acknowledgement. */
module VerificationAudit {
  import opened Wrappers
  import opened Strings
  import opened ReceiptContract
  import opened ReceiptPipelines
  import opened KeyRegistry
  import opened VerificationWaves
  import opened WaveProperties
  import opened Identifiers
  import opened ReceiptVerifier
  import opened VerifierProperties
  import opened AuditRecords
  import opened AuditBatches
  import opened AuditedArtifacts
  import Utf8

  const REQUEST_ID_DOMAIN := "DGB-SHIELD-V4-AUDIT-REQUEST-ID\n"
  const KEY_ID_DOMAIN := "DGB-SHIELD-V4-AUDIT-KEY-ID\n"
  const ACK_SCHEMA := "shield.verification_audit.append_ack.v1"
  const ACK_FIELDS := {"schema_version", "batch_sha256", "record_count", "durably_committed"}

  // --------------------------------------------------------------------- sink

  /** An arbitrary sink: what it replies, if it does not raise, may depend on everything so far. */
  class AuditSink {
    const reply: (seq<seq<Bytes>>, seq<Bytes>) -> Option<Wire>
    var batches: seq<seq<Bytes>>

    constructor (reply: (seq<seq<Bytes>>, seq<Bytes>) -> Option<Wire>)
      ensures this.reply == reply && batches == []
    {
      this.reply := reply;
      batches := [];
    }

    method AppendBatch(records: seq<Bytes>) returns (acknowledgement: Option<Wire>)
      modifies `batches
      ensures batches == old(batches) + [records] && acknowledgement == reply(old(batches), records)
    {
      acknowledgement := reply(batches, records);
      batches := batches + [records];
    }
  }

  /** An acknowledgement of exactly this batch. */
  predicate Acknowledges(a: Wire, hash: string, count: nat) {
    && HasExactly(a, ACK_FIELDS)
    && a.fields["schema_version"] == WText(ACK_SCHEMA) && a.fields["batch_sha256"] == WText(hash)
    && a.fields["record_count"] == WInt(count) && a.fields["durably_committed"] == WBool(true)
  }

  /** There is only one acknowledgement of a batch. */
  lemma AcknowledgesExactly(a: Wire, hash: string, count: nat)
    ensures Acknowledges(a, hash, count) <==> a == WDict(map[
      "schema_version" := WText("shield.verification_audit.append_ack.v1"), "batch_sha256" := WText(hash),
      "record_count" := WInt(count), "durably_committed" := WBool(true)])
  {
    if Acknowledges(a, hash, count) {
      assert a.fields == map[
        "schema_version" := WText("shield.verification_audit.append_ack.v1"), "batch_sha256" := WText(hash),
        "record_count" := WInt(count), "durably_committed" := WBool(true)];
    }
  }

  function Serialize(rs: seq<Record>, env: AuditEnv): Option<seq<Bytes>> {
    if rs == [] then Some([])
    else
      match (SerializeRecord(rs[0], env), Serialize(rs[1..], env))
      case (Some(b), Some(bs)) => Some([b] + bs)
      case _ => None
  }

  lemma {:induction false} SerializeWrites(rs: seq<Record>, env: AuditEnv)
    requires forall i :: 0 <= i < |rs| ==> Sound(rs[i], env)
    ensures Serialize(rs, env).Some? && Written(rs, Serialize(rs, env).value, env)
  {
    hide SerializeRecord, ParseRecord, FitRecord, IntegersBounded, EventOf;
    if rs != [] {
      SerializeExact(rs[0], env);
      SerializeWrites(rs[1..], env);
    }
  }

  /** The sink committed to these very records. */
  ghost predicate Committed(sink: AuditSink, before: seq<seq<Bytes>>, rs: seq<Record>, env: AuditEnv) {
    exists records, bytes, a ::
      && Written(rs, records, env) && BatchBytes(records, env) == Some(bytes)
      && sink.reply(before, records) == Some(a) && Acknowledges(a, env.batchHash(bytes), |rs|)
  }

  /** One batch more, holding exactly these records. */
  ghost predicate Appended(before: seq<seq<Bytes>>, after: seq<seq<Bytes>>, rs: seq<Record>, env: AuditEnv) {
    exists records :: Written(rs, records, env) && after == before + [records]
  }

  predicate Batchable(rs: seq<Record>, env: AuditEnv) {
    0 < |rs| <= 20 && forall i :: 0 <= i < |rs| ==> Sound(rs[i], env)
  }

  /** _append_required_audit: sound batches always reach the sink, once; success means it acknowledged them. */
  method AppendRequiredAudit(sink: AuditSink, rs: seq<Record>, env: AuditEnv) returns (ok: bool)
    modifies sink`batches
    ensures sink.batches == old(sink.batches) || Appended(old(sink.batches), sink.batches, rs, env)
    ensures Batchable(rs, env) ==> Appended(old(sink.batches), sink.batches, rs, env)
    ensures ok ==> Committed(sink, old(sink.batches), rs, env)
    ensures Batchable(rs, env) && !ok ==> !Committed(sink, old(sink.batches), rs, env)
  {
    hide Sound, SerializeRecord, BatchBytes, Acknowledges;
    ghost var sound := Batchable(rs, env);
    if sound { SerializeWrites(rs, env); }
    var encoded := Serialize(rs, env);
    if encoded.None? { return false; }
    SerializedAsWritten(rs, env);
    var records := encoded.value;
    forall other | Written(rs, other, env) ensures other == records { WrittenUnique(rs, records, other, env); }
    if sound { BatchAccepted(rs, records, env); }
    var bytes := BatchBytes(records, env);
    if bytes.None? { return false; }
    var acknowledgement := sink.AppendBatch(records);
    if acknowledgement.None? { return false; }
    ok := Acknowledges(acknowledgement.value, env.batchHash(bytes.value), |records|);
  }

  lemma WrittenUnique(rs: seq<Record>, a: seq<Bytes>, b: seq<Bytes>, env: AuditEnv)
    requires Written(rs, a, env) && Written(rs, b, env)
    ensures a == b
  {
    hide SerializeRecord;
    forall i | 0 <= i < |a| ensures a[i] == b[i] { assert Some(a[i]) == Some(b[i]); }
  }

  lemma {:induction false} SerializedAsWritten(rs: seq<Record>, env: AuditEnv)
    requires Serialize(rs, env).Some?
    ensures Written(rs, Serialize(rs, env).value, env)
  {
    hide SerializeRecord;
    if rs != [] { SerializedAsWritten(rs[1..], env); }
  }

  // ------------------------------------------------------------------ reasons

  /** _reason_for_result */
  function ReasonForResult(o: Outcome): AuditReason
    requires !o.Escaped?
  {
    if o.Verified? then VerifyOk
    else if o.dominant == BackendNotConfigured then BackendUnavailable
    else if o.dominant == VerifierFailedClosed || o.dominant == VerifierNotBool then BackendFailure
    else
      match o.state
      case InvalidReceipt => ContractInvalid
      case ContextMismatched => ContextMismatch
      case RequestMismatched => RequestMismatch
      case Tampered => ReceiptHashMismatch
      case Downgraded => DowngradeRejected
      case AuthorityBypassing => AuthorityBypassed
      case PolicyRejected => PolicyInvalid
      case RegistryRejected => RegistryInvalid
      case FreshnessRejected => FreshnessInvalid
      case ReplayRisk => ReplayRejected
      case SignatureRejected => SignatureInvalid
      case _ => ContractInvalid
  }

  lemma RefusalIsNoPass(o: Outcome)
    requires Refusing(o)
    ensures ReasonForResult(o) != VerifyOk
  {
  }

  /** A refusal before the callbacks is recorded under a reason that names its state and no other. */
  lemma ReasonNamesState(o: Outcome, p: Outcome)
    requires Refusing(o) && Refusing(p) && o.dominant == OtherDominant && p.dominant == OtherDominant
    ensures ReasonForResult(o) == ReasonForResult(p) <==> o.state == p.state
    ensures o.state == RequestMismatched <==> ReasonForResult(o) == RequestMismatch
    ensures o.state == RegistryRejected <==> ReasonForResult(o) == RegistryInvalid
    ensures o.state == ReplayRisk <==> ReasonForResult(o) == ReplayRejected
    ensures o.state == SignatureRejected <==> ReasonForResult(o) == SignatureInvalid
    ensures o.state !in {RequestMismatched, RegistryRejected, ReplayRisk, SignatureRejected} ==>
      ReasonFits(ReasonForResult(o), o.state)
  {
  }

  /** After the callbacks the reason of the result is the reason of the refused call. */
  lemma FaultReason(a: Answer)
    requires a != Yes
    ensures ReasonForResult(FaultOutcome(Unverified(a))) == ReasonOf(a)
  {
  }

  // ------------------------------------------------------------------ records

  /** _identifier_hash, which raises on text it may not hash. */
  function IdentifierHash(domain: string, value: string, env: AuditEnv): Option<HexDigest> {
    if BoundedText(WText(value)) then Some(env.identifierHash(domain, value)) else None
  }

  /** Only an identifier that takes 1 to 8192 bytes in UTF-8 is hashed. */
  lemma IdentifierHashExactly(domain: string, value: string, env: AuditEnv)
    ensures IdentifierHash(domain, value, env)
      == if 1 <= |Utf8.Encode(Of(value))| <= 8192 then Some(env.identifierHash(domain, value)) else None
  {
    hide BoundedText, Utf8.Encode;
    BoundedExactly(WText(value));
  }

  function PreflightRecord(q: Request, transportHash: string, passed: bool, reason: AuditReason, env: AuditEnv): Option<Record>
    requires q.time.WText? && q.expectedContext.WText? && q.expectedRequestId.WText? && q.minimumRegistry.WInt?
  {
    match IdentifierHash(REQUEST_ID_DOMAIN, q.expectedRequestId.s, env)
    case None => None
    case Some(hash) =>
      Some(Preflight(Of(q.time.s), passed, reason, transportHash, hash, q.expectedContext.s, q.minimumRegistry.n))
  }

  function SignatureRecord(o: Observation, time: Text, env: AuditEnv): Option<Record> {
    match (IdentifierHash(REQUEST_ID_DOMAIN, o.artifact.requestId, env), IdentifierHash(KEY_ID_DOMAIN, o.prepared.keyId, env))
    case (Some(request), Some(key)) =>
      Some(Signature(time, o.passed, o.reason, o.artifact, request, key, o.prepared.keyVersion,
                     o.prepared.algorithm, o.prepared.profile))
    case _ => None
  }

  function TerminalRecord(a: Artifact, time: Text, passed: bool, reason: AuditReason, env: AuditEnv): Option<Record> {
    match IdentifierHash(REQUEST_ID_DOMAIN, a.requestId, env)
    case None => None
    case Some(request) => Some(Terminal(time, passed, reason, a, request))
  }

  predicate TimeHolds(time: Text, env: AuditEnv) {
    TimestampShape(time, env) && env.calendar(time)
  }

  /** What the wrapper checks before it does anything. */
  predicate AuditInputsHold(q: Request, transportHash: Wire, env: AuditEnv) {
    && q.time.WText? && TimeHolds(Of(q.time.s), env)
    && q.expectedContext.WText? && IsHex64(q.expectedContext.s)
    && transportHash.WText? && IsHex64(transportHash.s)
    && BoundedText(q.expectedRequestId) && PositiveInt(q.minimumRegistry)
  }

  /** The preflight record tells which request was made, for which delivery, against which registry version. */
  predicate PreflightNames(r: Record, q: Request, transportHash: Wire, env: AuditEnv) {
    && r.Preflight? && transportHash.WText? && q.expectedContext.WText? && q.expectedRequestId.WText? && q.minimumRegistry.WInt?
    && r.transportHash == transportHash.s && r.contextHash == q.expectedContext.s
    && r.minimumRegistry == q.minimumRegistry.n
    && r.requestIdHash == env.identifierHash(REQUEST_ID_DOMAIN, q.expectedRequestId.s)
  }

  /** The terminal record tells of this artifact. */
  predicate TerminalNames(r: Record, a: Artifact, env: AuditEnv) {
    r.Terminal? && r.artifact == a && r.requestIdHash == env.identifierHash(REQUEST_ID_DOMAIN, a.requestId)
  }

  predicate TakenAt(rs: seq<Record>, time: Text) {
    forall i :: 0 <= i < |rs| ==> rs[i].time == time
  }

  /** The records are about this very call: its request, its time and, when they tell of callbacks, the receipt it was given. */
  predicate Concerns(rs: seq<Record>, q: Request, transportHash: Wire, receipt: Option<Artifact>, env: AuditEnv) {
    && rs != [] && PreflightNames(rs[0], q, transportHash, env) && q.time.WText? && TakenAt(rs, Of(q.time.s))
    && (|rs| > 1 ==> receipt.Some? && TerminalNames(rs[|rs| - 1], receipt.value, env))
  }

  lemma InputsPreflight(q: Request, transportHash: Wire, passed: bool, reason: AuditReason, env: AuditEnv)
    requires AuditInputsHold(q, transportHash, env) && (passed <==> reason == VerifyOk)
    ensures q.expectedRequestId.WText? && q.minimumRegistry.WInt?
    ensures var p := PreflightRecord(q, transportHash.s, passed, reason, env);
      && p.Some? && p.value.Preflight? && p.value.passed == passed && p.value.reason == reason && Sound(p.value, env)
      && PreflightNames(p.value, q, transportHash, env) && p.value.time == Of(q.time.s)
  {
    hide IsHex64, TimestampShape;
    BoundedIsText(q.expectedRequestId);
  }

  lemma ObservationRecorded(o: Observation, time: Text, env: AuditEnv)
    requires Recordable(o.artifact) && Observable(o.prepared) && TimeHolds(time, env) && (o.passed <==> o.reason == VerifyOk)
    ensures SignatureRecord(o, time, env).Some? && Sound(SignatureRecord(o, time, env).value, env)
    ensures SignatureRecord(o, time, env).value.time == time
  {
    hide IsHex64, TimestampShape, FitArtifact, BoundedText, ProfileOf;
  }

  lemma TerminalRecorded(a: Artifact, time: Text, passed: bool, reason: AuditReason, env: AuditEnv)
    requires Recordable(a) && TimeHolds(time, env) && (passed <==> reason == VerifyOk)
    ensures var t := TerminalRecord(a, time, passed, reason, env);
      && t.Some? && t.value.Terminal? && t.value.passed == passed && t.value.reason == reason && Sound(t.value, env)
      && TerminalNames(t.value, a, env) && t.value.time == time
  {
    hide IsHex64, TimestampShape, FitArtifact, BoundedText;
  }

  ghost predicate Recorded(os: seq<Observation>, rs: seq<Record>, time: Text, env: AuditEnv) {
    |rs| == |os| && forall i :: 0 <= i < |os| ==> SignatureRecord(os[i], time, env) == Some(rs[i])
  }

  method SignatureRecords(os: seq<Observation>, time: Text, env: AuditEnv) returns (rs: Option<seq<Record>>)
    ensures rs.Some? <==> forall i :: 0 <= i < |os| ==> SignatureRecord(os[i], time, env).Some?
    ensures rs.Some? ==> Recorded(os, rs.value, time, env)
  {
    hide SignatureRecord;
    var out: seq<Record> := [];
    for i := 0 to |os|
      invariant |out| == i && forall j :: 0 <= j < i ==> SignatureRecord(os[j], time, env) == Some(out[j])
    {
      var r := SignatureRecord(os[i], time, env);
      if r.None? { return None; }
      out := out + [r.value];
    }
    return Some(out);
  }

  // -------------------------------------------------------------- the grammar

  /** One signature record tells of one call: whose, with what key, and how it went. */
  predicate RecordsCall(r: Record, c: Call, env: AuditEnv) {
    && r.Signature? && r.artifact == c.bundle.artifact && r.algorithm == c.entry.prepared.algorithm
    && r.profile == c.entry.prepared.profile && r.keyVersion == c.entry.prepared.keyVersion
    && r.keyIdHash == env.identifierHash(KEY_ID_DOMAIN, c.entry.prepared.keyId)
    && r.requestIdHash == env.identifierHash(REQUEST_ID_DOMAIN, c.bundle.artifact.requestId)
    && r.passed == (c.answer == Yes) && r.reason == ReasonOf(c.answer)
  }

  /** A failed preflight alone, or a passed one, the calls as they went, and one terminal record. */
  ghost predicate FollowsGrammar(rs: seq<Record>, calls: seq<Call>, verified: bool, env: AuditEnv) {
    if calls == [] then |rs| == 1 && rs[0].Preflight? && !rs[0].passed && !verified
    else
      var n := |calls|;
      && |rs| == n + 2 && rs[0].Preflight? && rs[0].passed && rs[n + 1].Terminal?
      && var body := rs[1..n + 1];
        && (forall k :: 0 <= k < n ==> RecordsCall(body[k], calls[k], env))
        && (forall k :: 0 <= k < n - 1 ==> body[k].passed)
        && rs[n + 1].passed == verified && rs[n + 1].reason == body[n - 1].reason
        && (verified <==> AllYes(calls)) && (verified ==> n >= 12) && n <= MAX_VERIFICATION_CALLS
  }

  /** How a cleared receipt's run of calls looks. */
  ghost predicate RunShape(calls: seq<Call>, fault: Option<WaveFault>) {
    && 0 < |calls| <= MAX_VERIFICATION_CALLS && (forall k :: 0 <= k < |calls| - 1 ==> calls[k].answer == Yes)
    && (fault.None? <==> AllYes(calls)) && (fault.None? ==> |calls| >= 12)
    && (fault.Some? ==> calls[|calls| - 1].answer != Yes && fault.value == Unverified(calls[|calls| - 1].answer))
  }

  predicate CallRecordable(c: Call) {
    Recordable(c.bundle.artifact) && Observable(c.entry.prepared)
  }

  lemma ClearedRun(q: Request, env: Oracles, pb: PreparedBundles, reg: Registry, bs: seq<Bundle>,
                   answers: (nat, Resolved) -> Answer, i: nat)
    requires Cleared(q, env, pb, reg, bs) && AuditReady(q)
    ensures var x := Execute(Plan(bs), answers, i, 0, 0);
      RunShape(x.calls, x.fault) && forall k :: 0 <= k < |x.calls| ==> CallRecordable(x.calls[k])
  {
    hide Cleared, Execute, Plan, WellFormed, AuditReady, Recordable, Observable, PqcCalls, StepCosts;
    ClearedWellFormed(q, env, pb, reg, bs);
    ClearedRecordable(q, env, pb, reg, bs);
    var plan := Plan(bs);
    var x := Execute(plan, answers, i, 0, 0);
    RunsFollowPlan(plan, answers, i, 0, 0);
    CallsBounded(bs, answers, i);
    PlanBounds(bs);
    forall k | 0 <= k < |x.calls| ensures CallRecordable(x.calls[k]) {
      assert plan[k] in plan;
      assert plan[k] == Invoke(x.calls[k].bundle, x.calls[k].entry);
      assert x.calls[k].bundle in bs && x.calls[k].entry in x.calls[k].bundle.entries;
    }
  }

  /** Every observation of such a run becomes a sound signature record. */
  lemma ObservationsRecorded(calls: seq<Call>, time: Text, env: AuditEnv)
    requires TimeHolds(time, env) && forall k :: 0 <= k < |calls| ==> CallRecordable(calls[k])
    ensures forall i :: 0 <= i < |calls| ==> SignatureRecord(Observations(calls)[i], time, env).Some?
    ensures forall rs: seq<Record> :: Recorded(Observations(calls), rs, time, env) ==>
      forall k :: 0 <= k < |calls| ==> Sound(rs[k], env) && RecordsCall(rs[k], calls[k], env) && rs[k].time == time
  {
    hide Recordable, Observable, TimeHolds, Sound;
    var os := Observations(calls);
    forall k | 0 <= k < |calls|
      ensures SignatureRecord(os[k], time, env).Some? && Sound(SignatureRecord(os[k], time, env).value, env)
      ensures RecordsCall(SignatureRecord(os[k], time, env).value, calls[k], env)
      ensures SignatureRecord(os[k], time, env).value.time == time
    {
      ObservationRecorded(os[k], time, env);
    }
  }

  // ---------------------------------------------------------------- the wrapper

  /** Leaked: an exception escapes that the wrapper did not foresee. */
  datatype AuditResult = Returned(outcome: Outcome) | BadInput | SinkFailed | AuditedError | Leaked

  /** The batch for a call whose verification raised. */
  ghost predicate FailureOnly(rs: seq<Record>) {
    |rs| == 1 && rs[0].Preflight? && !rs[0].passed && rs[0].reason == ContractInvalid
  }

  /** The reason of a failed preflight names the class of the refusal. */
  predicate NamesRefusal(rs: seq<Record>, o: Outcome) {
    |rs| == 1 && o.Refused? && (ReasonFits(rs[0].reason, o.state) || rs[0].reason == ReasonForResult(o))
  }

  /** What the observer saw of a verification that came back with a result. */
  ghost predicate Witnessed(capture: TranscriptCapture, o: Outcome, calls: seq<Call>, fault: Option<WaveFault>)
    reads capture
  {
    && !o.Escaped? && capture.observations == Observations(calls)
    && (forall k :: 0 <= k < |calls| ==> CallRecordable(calls[k]))
    && match capture.validated
       case None =>
         && calls == [] && Refusing(o)
         && (capture.rejection.Some? ==> o.Refused? && ReasonFits(capture.rejection.value, o.state))
       case Some(a) =>
         && Recordable(a) && capture.rejection.None? && RunShape(calls, fault)
         && (if fault.Some? then o == FaultOutcome(fault.value) else o.Verified?)
  }

  /** The records of a call that produced a result; None when an identifier cannot be hashed. */
  method BuildTranscript(q: Request, transportHash: Wire, o: Outcome, capture: TranscriptCapture, env: AuditEnv,
                         ghost calls: seq<Call>, ghost fault: Option<WaveFault>)
    returns (rs: Option<seq<Record>>)
    requires AuditInputsHold(q, transportHash, env) && Witnessed(capture, o, calls, fault)
    ensures rs.Some? && FollowsGrammar(rs.value, calls, o.Verified?, env) && Batchable(rs.value, env)
    ensures calls == [] ==> NamesRefusal(rs.value, o)
    ensures Concerns(rs.value, q, transportHash, capture.validated, env)
  {
    hide Sound, PreflightNames, TerminalNames, IdentifierHash, RecordsCall, Recordable, CallRecordable,
      SignatureRecord, TerminalRecord, PreflightRecord,
      TimeHolds, Observe;
    var terminalReason := if capture.rejection.Some? then capture.rejection.value else ReasonForResult(o);
    var validated := capture.validated.Some?;
    var reason := if validated then VerifyOk else terminalReason;
    if !validated { RefusalIsNoPass(o); }
    InputsPreflight(q, transportHash, validated, reason, env);
    var preflight := PreflightRecord(q, transportHash.s, validated, reason, env);
    if preflight.None? { return None; }
    var time := Of(q.time.s);
    ObservationsRecorded(calls, time, env);
    var signatures := SignatureRecords(capture.observations, time, env);
    if signatures.None? { return None; }
    if !validated { return Some([preflight.value] + signatures.value); }
    ReasonMatches(o, calls, fault);
    TerminalRecorded(capture.validated.value, time, o.Verified?, terminalReason, env);
    var terminal := TerminalRecord(capture.validated.value, time, o.Verified?, terminalReason, env);
    if terminal.None? { return None; }
    rs := Some([preflight.value] + signatures.value + [terminal.value]);
    GrammarAssembled(preflight.value, signatures.value, terminal.value, calls, fault, o, env);
  }

  lemma ReasonMatches(o: Outcome, calls: seq<Call>, fault: Option<WaveFault>)
    requires RunShape(calls, fault) && (fault.Some? ==> o == FaultOutcome(fault.value)) && (fault.None? ==> o.Verified?)
    ensures !o.Escaped? && ReasonForResult(o) == ReasonOf(calls[|calls| - 1].answer)
    ensures o.Verified? <==> fault.None?
    ensures o.Verified? <==> ReasonForResult(o) == VerifyOk
  {
    if fault.Some? { FaultReason(calls[|calls| - 1].answer); }
  }

  lemma GrammarAssembled(preflight: Record, signatures: seq<Record>, terminal: Record, calls: seq<Call>,
                         fault: Option<WaveFault>, o: Outcome, env: AuditEnv)
    requires RunShape(calls, fault) && (o.Verified? <==> fault.None?) && !o.Escaped?
    requires preflight.Preflight? && preflight.passed && |signatures| == |calls|
    requires forall k :: 0 <= k < |calls| ==> RecordsCall(signatures[k], calls[k], env)
    requires terminal.Terminal? && terminal.passed == o.Verified?
    requires terminal.reason == ReasonOf(calls[|calls| - 1].answer)
    ensures FollowsGrammar([preflight] + signatures + [terminal], calls, o.Verified?, env)
  {
    var rs := [preflight] + signatures + [terminal];
    assert rs[1..|calls| + 1] == signatures;
  }

  /** The record of a call that raised, which can always be written. */
  function RaisedPreflight(q: Request, transportHash: Wire, env: AuditEnv): (r: Option<Record>)
    requires AuditInputsHold(q, transportHash, env)
    ensures r.Some? && r.value.Preflight? && !r.value.passed && r.value.reason == ContractInvalid && Sound(r.value, env)
    ensures PreflightNames(r.value, q, transportHash, env) && q.time.WText? && r.value.time == Of(q.time.s)
  {
    InputsPreflight(q, transportHash, false, ContractInvalid, env);
    PreflightRecord(q, transportHash.s, false, ContractInvalid, env)
  }

  /** The one failed preflight record of a call that raised. */
  method ReportFailure(q: Request, transportHash: Wire, sink: AuditSink, env: AuditEnv)
    returns (r: AuditResult, ghost rs: seq<Record>)
    requires AuditInputsHold(q, transportHash, env)
    modifies sink`batches
    ensures r.AuditedError? || r.SinkFailed?
    ensures FailureOnly(rs) && Batchable(rs, env) && Appended(old(sink.batches), sink.batches, rs, env)
    ensures forall receipt :: Concerns(rs, q, transportHash, receipt, env)
    ensures r.AuditedError? <==> Committed(sink, old(sink.batches), rs, env)
  {
    hide Sound, PreflightRecord, PreflightNames, AuditInputsHold, Committed, Appended;
    var preflight := RaisedPreflight(q, transportHash, env);
    rs := [preflight.value];
    var ok := AppendRequiredAudit(sink, [preflight.value], env);
    r := if ok then AuditedError else SinkFailed;
  }

  lemma AuditIsReady(q: Request, transportHash: Wire, env: AuditEnv)
    requires AuditInputsHold(q, transportHash, env) && (q.snapshot.Some? ==> TextsBounded(q.snapshot.value))
    ensures AuditReady(q)
  {
    hide TimeHolds;
  }

  method ReportResult(q: Request, transportHash: Wire, o: Outcome, capture: TranscriptCapture, sink: AuditSink,
                      env: AuditEnv, ghost calls: seq<Call>, ghost fault: Option<WaveFault>)
    returns (r: AuditResult, ghost rs: seq<Record>)
    requires AuditInputsHold(q, transportHash, env) && Witnessed(capture, o, calls, fault)
    modifies sink`batches
    ensures r == Returned(o) || r.SinkFailed?
    ensures FollowsGrammar(rs, calls, o.Verified?, env) && Batchable(rs, env)
    ensures calls == [] ==> NamesRefusal(rs, o)
    ensures Concerns(rs, q, transportHash, capture.validated, env)
    ensures Appended(old(sink.batches), sink.batches, rs, env)
    ensures r.Returned? <==> Committed(sink, old(sink.batches), rs, env)
  {
    hide AuditInputsHold, Committed, FollowsGrammar, Witnessed, Batchable, Appended, NamesRefusal, Concerns;
    var records := BuildTranscript(q, transportHash, o, capture, env, calls, fault);
    if records.None? { return Leaked, []; }
    rs := records.value;
    var ok := AppendRequiredAudit(sink, records.value, env);
    r := if ok then Returned(o) else SinkFailed;
  }

  /** The verifier left either nothing, or the run of a cleared receipt, in a fresh capture. */
  lemma VerifierWitnessed(q: Request, env: Oracles, o: Outcome, capture: TranscriptCapture, calls: seq<Call>,
                          found: Option<(PreparedBundles, Registry, seq<Bundle>)>, answers: (nat, Resolved) -> Answer, i: nat)
    returns (fault: Option<WaveFault>)
    requires AuditReady(q) && Found(q, env, found) && !o.Escaped?
    requires found.None? ==> calls == [] && capture.observations == [] && capture.validated.None? && Refusing(o)
    requires found.None? && capture.rejection.Some? ==> o.Refused? && ReasonFits(capture.rejection.value, o.state)
    requires found.Some? ==>
      var x := Execute(Plan(found.value.2), answers, i, 0, 0);
      && q.snapshot.Some? && calls == x.calls && capture.observations == Observations(calls)
      && capture.validated == Some(ReceiptArtifact(q.snapshot.value)) && capture.rejection.None?
      && o == WaveOutcome(q.snapshot.value, x.fault)
    ensures Witnessed(capture, o, calls, fault)
  {
    hide Cleared, Clearable, Execute, Plan, AuditReady, Recordable, CallRecordable, RunShape, WaveOutcome,
      ReceiptArtifact;
    fault := None;
    if found.Some? {
      var f := found.value;
      ClearedRun(q, env, f.0, f.1, f.2, answers, i);
      ClearedRecordable(q, env, f.0, f.1, f.2);
      fault := Execute(Plan(f.2), answers, i, 0, 0).fault;
      OutcomeOfRun(q.snapshot.value, fault, o);
    }
  }

  /** What the verifier made of the request: nothing cleared and nothing called, or the run of a cleared receipt. */
  ghost predicate Judged(q: Request, env: Oracles, answers: (nat, Resolved) -> Answer, i: nat, calls: seq<Call>, r: AuditResult) {
    || (calls == [] && (q.snapshot.None? || !Clearable(q, env))
        && (r.Returned? ==> Refusing(r.outcome) && Explained(q, env, r.outcome)))
    || (exists pb, reg, bs :: RunOf(q, env, pb, reg, bs, answers, i, calls, r))
  }

  ghost predicate RunOf(q: Request, env: Oracles, pb: PreparedBundles, reg: Registry, bs: seq<Bundle>,
                        answers: (nat, Resolved) -> Answer, i: nat, calls: seq<Call>, r: AuditResult)
  {
    var x := Execute(Plan(bs), answers, i, 0, 0);
    && q.snapshot.Some? && Cleared(q, env, pb, reg, bs) && calls == x.calls
    && (r.Returned? ==> r.outcome == WaveOutcome(q.snapshot.value, x.fault))
    && (r.AuditedError? ==> WaveOutcome(q.snapshot.value, x.fault).Escaped?)
  }

  lemma JudgedRun(q: Request, env: Oracles, found: Option<(PreparedBundles, Registry, seq<Bundle>)>,
                  answers: (nat, Resolved) -> Answer, i: nat, calls: seq<Call>, o: Outcome, r: AuditResult)
    requires q.snapshot.Some? && Found(q, env, found) && !r.BadInput? && !r.Leaked?
    requires found.Some? ==>
      var x := Execute(Plan(found.value.2), answers, i, 0, 0);
      calls == x.calls && o == WaveOutcome(q.snapshot.value, x.fault)
    requires found.None? ==> calls == [] && (Refusing(o) || o.Escaped?) && Explained(q, env, o)
    requires (r.Returned? ==> r.outcome == o && !o.Escaped?) && (r.AuditedError? ==> o.Escaped?)
    ensures Judged(q, env, answers, i, calls, r)
  {
    hide Explained, Cleared, Clearable, Execute, Plan, WaveOutcome;
    if found.Some? {
      var f := found.value;
      assert RunOf(q, env, f.0, f.1, f.2, answers, i, calls, r);
    }
  }

  /** The receipt as it is named in records, if one was given. */
  function ReceiptOf(q: Request): Option<Artifact> {
    if q.snapshot.Some? then Some(ReceiptArtifact(q.snapshot.value)) else None
  }

  /** What the records of a call tell: which call it was, and its result and its callbacks, or that it raised. */
  ghost predicate Tells(rs: seq<Record>, q: Request, transportHash: Wire, calls: seq<Call>, r: AuditResult, env: AuditEnv) {
    && (!r.BadInput? ==> Concerns(rs, q, transportHash, ReceiptOf(q), env))
    && (r.Returned? ==> FollowsGrammar(rs, calls, r.outcome.Verified?, env))
    && (r.Returned? && calls == [] ==> NamesRefusal(rs, r.outcome))
    && (r.AuditedError? ==> FailureOnly(rs))
  }

  /**
   * verify_shield_v4_orchestrator_receipt_with_audit: past input validation each call appends exactly one batch of
   * sound records, and a result comes out only when the sink has committed to the transcript of that very call.
   */
  method VerifyWithAudit(q: Request, transportHash: Wire, env: Oracles, auditEnv: AuditEnv,
                         backend: SignatureBackend, sink: AuditSink)
    returns (r: AuditResult, ghost rs: seq<Record>, ghost calls: seq<Call>)
    requires q.snapshot.Some? ==> TextsBounded(q.snapshot.value)
    modifies backend`log, sink`batches
    ensures !r.Leaked? && (r.BadInput? <==> !AuditInputsHold(q, transportHash, auditEnv))
    ensures r.BadInput? ==> sink.batches == old(sink.batches) && calls == []
    ensures !r.BadInput? ==> Appended(old(sink.batches), sink.batches, rs, auditEnv) && Batchable(rs, auditEnv)
    ensures Logged(old(backend.log), backend.log, calls)
    ensures Tells(rs, q, transportHash, calls, r, auditEnv)
    ensures r.Returned? || r.AuditedError? ==> Committed(sink, old(sink.batches), rs, auditEnv)
    ensures r.SinkFailed? ==> !Committed(sink, old(sink.batches), rs, auditEnv)
    ensures !r.BadInput? ==> Judged(q, env, backend.answers, |old(backend.log)|, calls, r)
  {
    hide AuditInputsHold, Batchable, Committed, Execute, Plan, FollowsGrammar, WaveOutcome, Cleared, Clearable,
      AuditReady, ReceiptArtifact, TextsBounded, Appended, Witnessed, FailureOnly, RunOf, Explained, ReasonFits, NamesRefusal;
    calls := [];
    if !AuditInputsHold(q, transportHash, auditEnv) { return BadInput, [], []; }
    AuditIsReady(q, transportHash, auditEnv);
    var capture := new TranscriptCapture();
    if q.snapshot.None? {
      r, rs := ReportFailure(q, transportHash, sink, auditEnv);
      return;
    }
    var o, found := VerifyReceipt(q, env, backend, capture);
    if found.Some? { calls := Execute(Plan(found.value.2), backend.answers, |old(backend.log)|, 0, 0).calls; }
    if o.Escaped? {
      r, rs := ReportFailure(q, transportHash, sink, auditEnv);
      JudgedRun(q, env, found, backend.answers, |old(backend.log)|, calls, o, r);
      return;
    }
    ghost var fault := VerifierWitnessed(q, env, o, capture, calls, found, backend.answers, |old(backend.log)|);
    r, rs := ReportResult(q, transportHash, o, capture, sink, auditEnv, calls, fault);
    JudgedRun(q, env, found, backend.answers, |old(backend.log)|, calls, o, r);
  }

  lemma OutcomeOfRun(r: Wire, fault: Option<WaveFault>, o: Outcome)
    requires o == WaveOutcome(r, fault)
    ensures fault.Some? ==> o == FaultOutcome(fault.value)
    ensures fault.None? ==> o.Verified? || o.Escaped?
  {
  }
}
