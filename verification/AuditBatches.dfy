/** Serialized audit records and batches: whatever fit records are written, the reader and the limits accept them. */
module AuditBatches {
  import opened Wrappers
  import opened Strings
  import opened Json
  import opened CanonicalJson
  import opened JsonReader
  import opened JsonRoundTrip
  import opened EventBytes
  import opened AuditRecords
  import opened GatewayLengths
  import Utf8

  type Bytes = Utf8.Bytes

  const MAX_AUDIT_RECORDS: nat := 24
  const MAX_AUDIT_RECORD_BYTES: nat := 2048
  const MAX_AUDIT_BATCH_BYTES: nat := 49152

  /** to_canonical_json(...).encode("utf-8"), which raises on text that is no valid Unicode. */
  function CanonicalUtf8(v: Json): Option<Bytes> {
    if Encodable(Print(v)) then Some(Utf8.Encode(Print(v))) else None
  }

  /** serialize_audit_record */
  function SerializeRecord(r: Record, env: AuditEnv): Option<Bytes> {
    if !ValidEvent(EventOf(r), env) then None
    else
      match CanonicalUtf8(EventOf(r))
      case None => None
      case Some(b) => if |b| > MAX_AUDIT_RECORD_BYTES then None else Some(b)
  }

  /** _parse_audit_record: well-formed, valid, and canonical to the byte. */
  function ParseRecord(b: Bytes, env: AuditEnv): Option<Json> {
    if b == [] || |b| > MAX_AUDIT_RECORD_BYTES then None
    else
      match Utf8.Decode(b)
      case None => None
      case Some(t) =>
        match ReadDocument(t)
        case Err(_) => None
        case Ok(v) => if ValidEvent(v, env) && CanonicalUtf8(v) == Some(b) then Some(v) else None
  }

  function ParseRecords(records: seq<Bytes>, env: AuditEnv): Option<seq<Json>> {
    if records == [] then Some([])
    else
      match (ParseRecord(records[0], env), ParseRecords(records[1..], env))
      case (Some(v), Some(vs)) => Some([v] + vs)
      case _ => None
  }

  /** _canonical_batch_bytes */
  function BatchBytes(records: seq<Bytes>, env: AuditEnv): Option<Bytes> {
    if records == [] || |records| > MAX_AUDIT_RECORDS then None
    else
      match ParseRecords(records, env)
      case None => None
      case Some(events) =>
        match CanonicalUtf8(Batch(events))
        case None => None
        case Some(b) => if |b| > MAX_AUDIT_BATCH_BYTES then None else Some(b)
  }

  predicate Sound(r: Record, env: AuditEnv) {
    FitRecord(r, env) && IntegersBounded(r)
  }

  /** Serializing succeeds exactly for fit records (64-bit ones), far inside the limit, and parsing gives the event back. */
  lemma SerializeExact(r: Record, env: AuditEnv)
    requires IntegersBounded(r)
    ensures SerializeRecord(r, env).Some? <==> FitRecord(r, env)
    ensures FitRecord(r, env) ==>
      var b := SerializeRecord(r, env).value;
      b != [] && |b| <= EVENT_BYTES && ParseRecord(b, env) == Some(EventOf(r))
  {
    hide ValidEvent, FitRecord, EventOf, Print, ReadDocument, Encodable, SmallEvent, IntegersFit, IntegersBounded;
    ValidExactly(r, env);
    if FitRecord(r, env) {
      EventIsSmall(r, env);
      SmallEventPrints(EventOf(r));
      WrittenBack(EventOf(r), env);
    }
  }

  lemma WrittenBack(v: Json, env: AuditEnv)
    requires ValidEvent(v, env) && Encodable(Print(v)) && IntegersFit(v) && Len(Print(v)) <= EVENT_BYTES
    ensures var b := Utf8.Encode(Print(v));
      b != [] && |b| <= EVENT_BYTES && ParseRecord(b, env) == Some(v)
  {
    hide ValidEvent, ReadDocument, IntegersFit;
    ReadDocumentInverts(v);
    Utf8.DecodeInvertsEncode(Print(v));
  }

  /** A record is read exactly when it is the canonical form of a valid event, within its limit. */
  lemma ParseExactly(b: Bytes, v: Json, env: AuditEnv)
    ensures ParseRecord(b, env) == Some(v) <==>
      ValidEvent(v, env) && IntegersFit(v) && CanonicalUtf8(v) == Some(b) && 0 < |b| <= 2048
  {
    hide ValidEvent, ReadDocument, IntegersFit, Print, Encodable, Utf8.Encode, Utf8.Decode;
    if ParseRecord(b, env) == Some(v) {
      Utf8.EncodeInvertsDecode(b);
      ReadFits(Utf8.Decode(b).value, v);
    }
    if IntegersFit(v) && CanonicalUtf8(v) == Some(b) {
      Utf8.DecodeInvertsEncode(Print(v));
      ReadDocumentInverts(v);
    }
  }

  lemma {:induction false} ParsedExactly(records: seq<Bytes>, events: seq<Json>, env: AuditEnv)
    ensures ParseRecords(records, env) == Some(events) <==>
      |events| == |records| && forall i :: 0 <= i < |records| ==> ParseRecord(records[i], env) == Some(events[i])
  {
    hide ParseRecord;
    if records != [] && events != [] {
      ParsedExactly(records[1..], events[1..], env);
      assert records == [records[0]] + records[1..] && events == [events[0]] + events[1..];
    } else if records != [] {
      var rest := ParseRecords(records[1..], env);
    }
  }

  /** The bytes of a batch of 1 to 24 records: the canonical form of the object that lists their events in order. */
  lemma BatchExactly(records: seq<Bytes>, b: Bytes, env: AuditEnv)
    ensures BatchBytes(records, env) == Some(b) <==>
      && 0 < |records| <= 24 && |b| <= 49152
      && exists events :: |events| == |records| && CanonicalUtf8(Obj(map[Of("records") := Arr(events)])) == Some(b)
           && forall i :: 0 <= i < |records| ==> ParseRecord(records[i], env) == Some(events[i])
  {
    hide ParseRecord, CanonicalUtf8;
    assert Of("records") == RECORDS;
    forall events ensures ParseRecords(records, env) == Some(events) <==>
      |events| == |records| && forall i :: 0 <= i < |records| ==> ParseRecord(records[i], env) == Some(events[i])
    {
      ParsedExactly(records, events, env);
    }
  }

  function EventsOf(rs: seq<Record>): seq<Json> {
    seq(|rs|, i requires 0 <= i < |rs| => EventOf(rs[i]))
  }

  ghost predicate Written(rs: seq<Record>, records: seq<Bytes>, env: AuditEnv) {
    |records| == |rs| && forall i :: 0 <= i < |rs| ==> SerializeRecord(rs[i], env) == Some(records[i])
  }

  lemma {:induction false} RecordsReadBack(rs: seq<Record>, records: seq<Bytes>, env: AuditEnv)
    requires (forall i :: 0 <= i < |rs| ==> Sound(rs[i], env)) && Written(rs, records, env)
    ensures ParseRecords(records, env) == Some(EventsOf(rs)) && SmallEvents(EventsOf(rs))
  {
    hide SerializeRecord, ParseRecord, FitRecord, IntegersBounded, SmallEvent, EventOf;
    if rs != [] {
      RecordsReadBack(rs[1..], records[1..], env);
      SerializeExact(rs[0], env);
      EventIsSmall(rs[0], env);
      assert EventsOf(rs) == [EventOf(rs[0])] + EventsOf(rs[1..]);
    }
  }

  /** A batch of at most 20 fit records is far inside both limits and reads back as its own events. */
  lemma BatchAccepted(rs: seq<Record>, records: seq<Bytes>, env: AuditEnv)
    requires 0 < |rs| <= 20 && (forall i :: 0 <= i < |rs| ==> Sound(rs[i], env)) && Written(rs, records, env)
    ensures BatchBytes(records, env).Some? && |BatchBytes(records, env).value| <= 36794
    ensures BatchBytes(records, env) == CanonicalUtf8(Batch(EventsOf(rs)))
  {
    hide SerializeRecord, ParseRecord, Sound, SmallEvents, Print, Encodable, Batch;
    RecordsReadBack(rs, records, env);
    BatchPrints(EventsOf(rs));
    assert records != [] && |EventsOf(rs)| == |rs|;
  }

  /** Two batches with the same bytes hold the same events, so their hash commits to every record. */
  lemma BatchBytesInjective(a: seq<Json>, b: seq<Json>)
    requires SmallEvents(a) && SmallEvents(b) && CanonicalUtf8(Batch(a)) == CanonicalUtf8(Batch(b))
    ensures a == b
  {
    hide Print, SmallEvents, ReadDocument, IntegersFit;
    BatchPrints(a);
    BatchPrints(b);
    Utf8.DecodeInvertsEncode(Print(Batch(a)));
    Utf8.DecodeInvertsEncode(Print(Batch(b)));
    ReadDocumentInverts(Batch(a));
    ReadDocumentInverts(Batch(b));
    assert Batch(a) == Batch(b);
    assert Batch(a).members[RECORDS] == Batch(b).members[RECORDS];
  }
}
