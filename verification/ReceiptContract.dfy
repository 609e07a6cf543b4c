/** Shield v4 receipt contract: structural preflight, signature bundles and the two acceptance pipelines. */
module ReceiptContract {
  import opened Wrappers
  import opened Trimming

  /** JSON as it leaves the bounded snapshot: text is valid Unicode. */
  datatype Wire =
    | WNull
    | WBool(b: bool)
    | WInt(n: int)
    | WText(s: string)
    | WList(items: seq<Wire>)
    | WDict(fields: map<string, Wire>)

  datatype ContractFault = Invalid | Context | Policy | Downgrade | HashMismatch | AuthorityBypass

  predicate IsHex64(s: string) {
    |s| == 64 && forall i :: 0 <= i < 64 ==> '0' <= s[i] <= '9' || 'a' <= s[i] <= 'f'
  }

  /** A SHA-256 digest as hexdigest prints it. */
  type HexDigest = s: string | IsHex64(s) witness seq(64, _ => '0')

  /** Which words the message of a value that has no canonical form contains: they decide how it is reported. */
  datatype Uncanonical = ContextWords | PolicyWords | OtherWords

  /**
   * Outside operations: hexadecimal and base64url checks, canonical size, hashes, timestamps. Hashes are only asked
   * for parts of a receipt whose canonical form has been measured.
   */
  datatype Oracles = Oracles(
    hexLower: string -> bool,
    signatureBody: string -> bool,
    canonicalSize: Wire -> Result<nat, Uncanonical>,
    receiptHash: Wire -> HexDigest,
    payloadHash: (string, Wire) -> HexDigest,
    instant: string -> Option<int>)

  datatype Algorithm = Ed25519 | MlDsa | FnDsa

  const RECEIPT_SCHEMA := "shield.receipt.v2"
  const VERDICT_SCHEMA := "shield.verdict.v2"
  const BUNDLE_SCHEMA := "shield.signature_bundle.v1"
  const CANON_PROFILE := "shield-v4-canon.v1"
  const SIGNATURE_POLICY := "policy.v1"
  const COMPONENT_DOMAIN := "DGB-SHIELD-V4-COMPONENT-VERDICT:" + VERDICT_SCHEMA + ":policy.v1"
  const RECEIPT_DOMAIN := "DGB-SHIELD-V4-ORCH-RECEIPT:" + RECEIPT_SCHEMA + ":policy.v1"
  const MAX_CANONICAL_RECEIPT_BYTES: nat := 131072
  const MAX_SIGNATURE_BUNDLE_BYTES: nat := 32768
  const MAX_SIGNATURES_PER_BUNDLE: nat := 3

  const COMPONENT_ROLES: map<string, string> := map[
    "adn" := "shield_component_adn",
    "dqsn" := "shield_component_dqsn",
    "guardian_wallet" := "shield_component_guardian_wallet",
    "qwg" := "shield_component_qwg",
    "sentinel_ai" := "shield_component_sentinel_ai"]

  const BUNDLE_FIELDS := {"schema_version", "policy_version", "signatures"}
  const ENTRY_FIELDS :=
    {"algorithm", "standard_profile", "key_id", "key_version", "signed_payload_hash", "domain_tag", "signature"}

  function AlgorithmOf(s: string): Option<Algorithm> {
    if s == "classical-ed25519" then Some(Ed25519)
    else if s == "ml-dsa" then Some(MlDsa)
    else if s == "fn-dsa" then Some(FnDsa)
    else None
  }

  function ProfileOf(a: Algorithm): string {
    match a
    case Ed25519 => "rfc8032-ed25519-v1"
    case MlDsa => "fips204-ml-dsa-65-v1"
    case FnDsa => "fips206-draft-falcon1024-v1"
  }

  // ---------------------------------------------------------- field checks

  /** _require_non_empty_str: the stripped text. */
  function NonEmpty(v: Wire): Option<string> {
    if v.WText? && Strip(v.s) != "" then Some(Strip(v.s)) else None
  }

  /** v is the non-empty text s, whitespace around it aside. */
  ghost predicate Trims(v: Wire, s: string) {
    && v.WText? && s != "" && Stripped(s)
    && exists before, after :: Spaces(before) && Spaces(after) && v.s == before + s + after
  }

  lemma NonEmptyExactly(v: Wire, s: string)
    ensures NonEmpty(v) == Some(s) <==> Trims(v, s)
  {
    hide Strip, Spaces, Stripped;
    if v.WText? { StripExactly(v.s, s); }
  }

  lemma AsWritten(s: string)
    requires s != "" && Stripped(s)
    ensures NonEmpty(WText(s)) == Some(s)
  {
    StripFixes(s);
  }

  predicate PositiveInt(v: Wire) {
    v.WInt? && 0 < v.n <= 0x7FFF_FFFF_FFFF_FFFF
  }

  /** _require_hash: exact length before stripping, hexadecimal after it. */
  function HashText(v: Wire, env: Oracles): Option<string> {
    if v.WText? && |v.s| == 64 && Strip(v.s) != "" && env.hexLower(Strip(v.s)) then Some(Strip(v.s)) else None
  }

  /** _require_signature_encoding: a real b64u body, or a legacy digest. */
  predicate SignatureEncoded(v: Wire, env: Oracles) {
    match NonEmpty(v)
    case None => false
    case Some(clean) =>
      if |clean| >= 5 && clean[..5] == "b64u:" then env.signatureBody(clean[5..])
      else HashText(WText(clean), env).Some?
  }

  predicate HasExactly(v: Wire, keys: set<string>) {
    v.WDict? && v.fields.Keys == keys
  }

  // ----------------------------------------------------- signature entries

  datatype Prepared = Prepared(entry: Wire, algorithm: Algorithm, profile: string, keyId: string, keyVersion: int)

  /** Who an entry says signed: algorithm, profile and key. */
  function IdentifyEntry(e: Wire): (p: Option<Prepared>)
    ensures p.Some? ==> HasExactly(e, ENTRY_FIELDS)
  {
    if !HasExactly(e, ENTRY_FIELDS) then None
    else
      var f := e.fields;
      match NonEmpty(f["algorithm"])
      case None => None
      case Some(name) =>
        match AlgorithmOf(name)
        case None => None
        case Some(a) =>
          if NonEmpty(f["standard_profile"]) == Some(ProfileOf(a))
            && NonEmpty(f["key_id"]).Some? && PositiveInt(f["key_version"])
          then Some(Prepared(e, a, ProfileOf(a), NonEmpty(f["key_id"]).value, f["key_version"].n))
          else None
  }

  datatype BundleFault = BundleInvalid | DuplicateKey | EntryHashMismatch

  /** What is wrong with the hash, the encoding or the domain of an entry, in the staged verifier's order. */
  function BindingFault(e: Wire, expected: string, domain: string, env: Oracles): (f: Option<BundleFault>)
    requires HasExactly(e, ENTRY_FIELDS)
    ensures f != Some(DuplicateKey)
  {
    var hash := HashText(e.fields["signed_payload_hash"], env);
    if hash.None? || !SignatureEncoded(e.fields["signature"], env) then Some(BundleInvalid)
    else if hash != Some(expected) then Some(EntryHashMismatch)
    else if NonEmpty(e.fields["domain_tag"]) != Some(domain) then Some(BundleInvalid)
    else None
  }

  /** What a well-formed entry says, or nothing. */
  function PrepareEntry(e: Wire, expected: string, domain: string, env: Oracles): Option<Prepared> {
    if IdentifyEntry(e).Some? && BindingFault(e, expected, domain, env).None? then IdentifyEntry(e) else None
  }

  function Algorithms(ps: seq<Prepared>): seq<Algorithm> {
    seq(|ps|, i requires 0 <= i < |ps| => ps[i].algorithm)
  }

  /** The policy: both required algorithms, optionally the third, in this order. */
  predicate PolicyOrder(algorithms: seq<Algorithm>) {
    algorithms == [Ed25519, MlDsa] || algorithms == [Ed25519, MlDsa, FnDsa]
  }

  predicate KeyRepeated(ps: seq<Prepared>) {
    exists i, j :: 0 <= i < j < |ps| && ps[i].keyId == ps[j].keyId && ps[i].keyVersion == ps[j].keyVersion
  }

  /** Everything about a bundle but its entries. */
  predicate BundleHeader(bundle: Wire, hash: string, env: Oracles) {
    && HasExactly(bundle, BUNDLE_FIELDS)
    && bundle.fields["schema_version"] == WText(BUNDLE_SCHEMA)
    && bundle.fields["policy_version"] == WText(SIGNATURE_POLICY)
    && bundle.fields["signatures"].WList?
    && HashText(WText(hash), env).Some?
  }

  /** ps are the first |ps| entries of the bundle, prepared. */
  ghost predicate Reading(bundle: Wire, hash: string, domain: string, env: Oracles, ps: seq<Prepared>) {
    && BundleHeader(bundle, hash, env)
    && var entries := bundle.fields["signatures"].items;
      && |ps| <= |entries|
      && forall i :: 0 <= i < |ps| ==>
           PrepareEntry(entries[i], HashText(WText(hash), env).value, domain, env) == Some(ps[i])
  }

  /** The entries of a well-formed bundle. */
  ghost predicate BundleHolds(bundle: Wire, hash: string, domain: string, env: Oracles, ps: seq<Prepared>) {
    && Reading(bundle, hash, domain, env, ps)
    && |ps| == |bundle.fields["signatures"].items|
    && PolicyOrder(Algorithms(ps))
  }

  ghost predicate BundleShape(bundle: Wire, hash: string, domain: string, env: Oracles) {
    exists ps :: BundleHolds(bundle, hash, domain, env, ps)
  }

  predicate BundleSized(bundle: Wire, env: Oracles) {
    match env.canonicalSize(bundle)
    case Err(_) => false
    case Ok(n) => n <= MAX_SIGNATURE_BUNDLE_BYTES
  }

  lemma ReadingUnique(bundle: Wire, hash: string, domain: string, env: Oracles, ps: seq<Prepared>, qs: seq<Prepared>)
    requires Reading(bundle, hash, domain, env, ps) && Reading(bundle, hash, domain, env, qs) && |ps| <= |qs|
    ensures ps == qs[..|ps|]
  {
    assert forall i :: 0 <= i < |ps| ==> Some(ps[i]) == Some(qs[i]);
  }

  lemma BundleUnique(bundle: Wire, hash: string, domain: string, env: Oracles, ps: seq<Prepared>, qs: seq<Prepared>)
    requires BundleHolds(bundle, hash, domain, env, ps) && BundleHolds(bundle, hash, domain, env, qs)
    ensures ps == qs
  {
    ReadingUnique(bundle, hash, domain, env, ps, qs);
    assert qs[..|ps|] == qs;
  }

  /** The canonical sequence of the algorithms seen, as the validators rebuild it. */
  function CanonicalSequence(seen: set<Algorithm>): seq<Algorithm> {
    (if Ed25519 in seen then [Ed25519] else []) + (if MlDsa in seen then [MlDsa] else []) +
    (if FnDsa in seen then [FnDsa] else [])
  }

  /** Uniqueness, canonical order and completeness together leave exactly the two policy sequences. */
  lemma PolicyOrderExact(algorithms: seq<Algorithm>, seen: set<Algorithm>)
    requires seen == set a | a in algorithms
    ensures algorithms == CanonicalSequence(seen) && Ed25519 in seen && MlDsa in seen <==> PolicyOrder(algorithms)
  {
    if PolicyOrder(algorithms) {
      assert algorithms[0] in algorithms && algorithms[1] in algorithms;
      if |algorithms| == 3 { assert algorithms[2] in algorithms; }
    }
  }

  predicate NamesAnotherHash(e: Wire, hash: string, env: Oracles) {
    && IdentifyEntry(e).Some? && HashText(e.fields["signed_payload_hash"], env).Some?
    && HashText(e.fields["signed_payload_hash"], env) != HashText(WText(hash), env)
  }

  predicate NameOneKey(d: Wire, e: Wire) {
    && IdentifyEntry(d).Some? && IdentifyEntry(e).Some?
    && IdentifyEntry(d).value.keyId == IdentifyEntry(e).value.keyId
    && IdentifyEntry(d).value.keyVersion == IdentifyEntry(e).value.keyVersion
  }

  /** The two faults that say what they found, found there. */
  predicate FaultFound(bundle: Wire, hash: string, env: Oracles, f: BundleFault) {
    || f.BundleInvalid?
    || (HasExactly(bundle, BUNDLE_FIELDS) && bundle.fields["signatures"].WList?
        && var entries := bundle.fields["signatures"].items;
          if f.EntryHashMismatch? then exists i :: 0 <= i < |entries| && NamesAnotherHash(entries[i], hash, env)
          else exists i, j :: 0 <= i < j < |entries| && NameOneKey(entries[i], entries[j]))
  }

  /** What is wrong with an entry, in the one-shot validator's order: its hash and domain come before its encoding. */
  function ShapeFault(e: Wire, expected: string, domain: string, env: Oracles): (f: Option<BundleFault>)
    requires HasExactly(e, ENTRY_FIELDS)
    ensures f.None? <==> BindingFault(e, expected, domain, env).None?
  {
    var hash := HashText(e.fields["signed_payload_hash"], env);
    if hash.None? then Some(BundleInvalid)
    else if hash != Some(expected) then Some(EntryHashMismatch)
    else if NonEmpty(e.fields["domain_tag"]) != Some(domain) || !SignatureEncoded(e.fields["signature"], env) then
      Some(BundleInvalid)
    else None
  }

  /** _validate_signature_bundle_shape: the one-shot validator's bundle check, size included. */
  method ValidateSignatureBundleShape(bundle: Wire, hash: string, domain: string, env: Oracles)
    returns (fault: Option<BundleFault>)
    ensures fault.None? <==> BundleShape(bundle, hash, domain, env) && BundleSized(bundle, env)
    ensures fault.Some? ==> !fault.value.DuplicateKey? && FaultFound(bundle, hash, env, fault.value)
  {
    hide IdentifyEntry, BindingFault, ShapeFault, HashText, CanonicalSequence, PolicyOrder, NamesAnotherHash,
      NameOneKey;
    if !BundleHeader(bundle, hash, env) { return Some(BundleInvalid); }
    var entries := bundle.fields["signatures"].items;
    if entries == [] || |entries| > MAX_SIGNATURES_PER_BUNDLE {
      WrongCount(bundle, hash, domain, env);
      return Some(BundleInvalid);
    }
    var expected := HashText(WText(hash), env).value;
    var seen: set<Algorithm> := {};
    var sequence: seq<Algorithm> := [];
    ghost var prepared: seq<Prepared> := [];
    var i := 0;
    while i < |entries|
      invariant i <= |entries| && |prepared| == i && sequence == Algorithms(prepared)
      invariant Reading(bundle, hash, domain, env, prepared)
      invariant seen == set a | a in sequence
    {
      var p := IdentifyEntry(entries[i]);
      if p.None? { return Some(BundleInvalid); }
      ghost var next := prepared + [p.value];
      if p.value.algorithm in seen {
        if PrepareEntry(entries[i], expected, domain, env) == p { RepeatedAlgorithm(bundle, hash, domain, env, next); }
        return Some(BundleInvalid);
      }
      var shape := ShapeFault(entries[i], expected, domain, env);
      if shape.Some? {
        ShapeFound(entries[i], hash, domain, env);
        return shape;
      }
      seen := seen + {p.value.algorithm};
      sequence := sequence + [p.value.algorithm];
      prepared := prepared + [p.value];
      i := i + 1;
    }
    PolicyOrderExact(sequence, seen);
    if sequence != CanonicalSequence(seen) || !(Ed25519 in seen && MlDsa in seen) {
      WrongOrder(bundle, hash, domain, env, prepared);
      return Some(BundleInvalid);
    }
    assert BundleHolds(bundle, hash, domain, env, prepared);
    fault := if BundleSized(bundle, env) then None else Some(BundleInvalid);
  }

  lemma ShapeFound(e: Wire, hash: string, domain: string, env: Oracles)
    requires IdentifyEntry(e).Some? && HashText(WText(hash), env).Some?
    ensures var f := ShapeFault(e, HashText(WText(hash), env).value, domain, env);
      f != Some(DuplicateKey) && (f == Some(EntryHashMismatch) ==> NamesAnotherHash(e, hash, env))
  {
    hide IdentifyEntry, HashText, SignatureEncoded, NonEmpty;
  }

  /** _preflight_bundle: the staged verifier's bundle check, key uniqueness included, size deferred. */
  method PreflightBundle(bundle: Wire, hash: string, domain: string, env: Oracles)
    returns (r: Result<seq<Prepared>, BundleFault>)
    ensures r.Ok? <==> exists ps :: BundleHolds(bundle, hash, domain, env, ps) && !KeyRepeated(ps)
    ensures r.Ok? ==> BundleHolds(bundle, hash, domain, env, r.value) && !KeyRepeated(r.value)
    ensures r.Err? ==> FaultFound(bundle, hash, env, r.error)
  {
    hide IdentifyEntry, BindingFault, HashText, KeyRepeated, CanonicalSequence, PolicyOrder, NamesAnotherHash,
      NameOneKey;
    if !BundleHeader(bundle, hash, env) { return Err(BundleInvalid); }
    var entries := bundle.fields["signatures"].items;
    if entries == [] || |entries| > MAX_SIGNATURES_PER_BUNDLE {
      WrongCount(bundle, hash, domain, env);
      return Err(BundleInvalid);
    }
    var expected := HashText(WText(hash), env).value;
    var seenAlgorithms: set<Algorithm> := {};
    var seenKeys: set<(string, int)> := {};
    var sequence: seq<Algorithm> := [];
    var prepared: seq<Prepared> := [];
    NoKeys();
    var i := 0;
    while i < |entries|
      invariant i <= |entries| && |prepared| == i && sequence == Algorithms(prepared)
      invariant Reading(bundle, hash, domain, env, prepared)
      invariant seenAlgorithms == set a | a in sequence
      invariant seenKeys == KeySet(prepared) && !KeyRepeated(prepared)
    {
      var p := IdentifyEntry(entries[i]);
      if p.None? { return Err(BundleInvalid); }
      ghost var next := prepared + [p.value];
      ghost var bound := PrepareEntry(entries[i], expected, domain, env) == p;
      if p.value.algorithm in seenAlgorithms {
        if bound { RepeatedAlgorithm(bundle, hash, domain, env, next); }
        return Err(BundleInvalid);
      }
      if (p.value.keyId, p.value.keyVersion) in seenKeys {
        if bound { RepeatedKey(bundle, hash, domain, env, prepared, p.value); }
        KeyFound(entries, prepared, p.value, i);
        return Err(DuplicateKey);
      }
      var fault := BindingFault(entries[i], expected, domain, env);
      if fault.Some? {
        if fault.value.EntryHashMismatch? { MismatchFound(entries[i], hash, domain, env); }
        return Err(fault.value);
      }
      KeySetStep(prepared, p.value);
      seenAlgorithms := seenAlgorithms + {p.value.algorithm};
      seenKeys := seenKeys + {(p.value.keyId, p.value.keyVersion)};
      sequence := sequence + [p.value.algorithm];
      prepared := prepared + [p.value];
      i := i + 1;
    }
    PolicyOrderExact(sequence, seenAlgorithms);
    if sequence != CanonicalSequence(seenAlgorithms) || !(Ed25519 in seenAlgorithms && MlDsa in seenAlgorithms) {
      WrongOrder(bundle, hash, domain, env, prepared);
      return Err(BundleInvalid);
    }
    assert BundleHolds(bundle, hash, domain, env, prepared);
    r := Ok(prepared);
  }

  lemma MismatchFound(e: Wire, hash: string, domain: string, env: Oracles)
    requires IdentifyEntry(e).Some? && HashText(WText(hash), env).Some?
    requires BindingFault(e, HashText(WText(hash), env).value, domain, env) == Some(EntryHashMismatch)
    ensures NamesAnotherHash(e, hash, env)
  {
    hide IdentifyEntry, HashText, SignatureEncoded, NonEmpty;
  }

  lemma KeyFound(entries: seq<Wire>, prepared: seq<Prepared>, p: Prepared, i: nat)
    requires |prepared| == i < |entries| && (p.keyId, p.keyVersion) in KeySet(prepared)
    requires IdentifyEntry(entries[i]) == Some(p)
    requires forall j :: 0 <= j < i ==> IdentifyEntry(entries[j]) == Some(prepared[j])
    ensures exists j :: 0 <= j < i && NameOneKey(entries[j], entries[i])
  {
    hide IdentifyEntry;
    var j :| 0 <= j < |prepared| && (prepared[j].keyId, prepared[j].keyVersion) == (p.keyId, p.keyVersion);
    assert NameOneKey(entries[j], entries[i]);
  }

  ghost function KeySet(ps: seq<Prepared>): set<(string, int)> {
    set i | 0 <= i < |ps| :: (ps[i].keyId, ps[i].keyVersion)
  }

  lemma NoKeys()
    ensures KeySet([]) == {} && !KeyRepeated([])
  {
  }

  lemma KeySetStep(ps: seq<Prepared>, p: Prepared)
    ensures KeySet(ps + [p]) == KeySet(ps) + {(p.keyId, p.keyVersion)}
    ensures KeyRepeated(ps + [p]) <==> KeyRepeated(ps) || (p.keyId, p.keyVersion) in KeySet(ps)
  {
    var qs := ps + [p];
    assert forall i :: 0 <= i < |ps| ==> qs[i] == ps[i];
    assert qs[|ps|] == p;
    if KeyRepeated(ps) {
      var i, j :| 0 <= i < j < |ps| && ps[i].keyId == ps[j].keyId && ps[i].keyVersion == ps[j].keyVersion;
      assert qs[i].keyId == qs[j].keyId;
    }
    if (p.keyId, p.keyVersion) in KeySet(ps) {
      var i :| 0 <= i < |ps| && (ps[i].keyId, ps[i].keyVersion) == (p.keyId, p.keyVersion);
      assert qs[i].keyId == qs[|ps|].keyId;
    }
  }

  lemma WrongCount(bundle: Wire, hash: string, domain: string, env: Oracles)
    requires BundleHeader(bundle, hash, env)
    requires var n := |bundle.fields["signatures"].items|; n == 0 || n > MAX_SIGNATURES_PER_BUNDLE
    ensures forall ps :: !BundleHolds(bundle, hash, domain, env, ps)
  {
  }

  lemma WrongOrder(bundle: Wire, hash: string, domain: string, env: Oracles, prepared: seq<Prepared>)
    requires Reading(bundle, hash, domain, env, prepared) && !PolicyOrder(Algorithms(prepared))
    requires |prepared| == |bundle.fields["signatures"].items|
    ensures forall ps :: !BundleHolds(bundle, hash, domain, env, ps)
  {
    forall ps | BundleHolds(bundle, hash, domain, env, ps) ensures prepared == ps {
      ReadingUnique(bundle, hash, domain, env, prepared, ps);
      assert ps[..|ps|] == ps;
    }
  }

  /** A policy sequence never names an algorithm twice. */
  lemma RepeatedAlgorithm(bundle: Wire, hash: string, domain: string, env: Oracles, next: seq<Prepared>)
    requires Reading(bundle, hash, domain, env, next) && next != []
    requires next[|next| - 1].algorithm in Algorithms(next[..|next| - 1])
    ensures forall ps :: !BundleHolds(bundle, hash, domain, env, ps)
  {
    hide Reading;
    var n := |next| - 1;
    var j :| 0 <= j < n && Algorithms(next[..n])[j] == next[n].algorithm;
    forall ps | BundleHolds(bundle, hash, domain, env, ps)
      ensures |ps| > n && Algorithms(ps)[j] == Algorithms(ps)[n]
    {
      HoldsIsLonger(bundle, hash, domain, env, next, ps);
      assert ps[j] == next[j] && ps[n] == next[n];
    }
  }

  lemma HoldsIsLonger(bundle: Wire, hash: string, domain: string, env: Oracles, next: seq<Prepared>, ps: seq<Prepared>)
    requires Reading(bundle, hash, domain, env, next) && BundleHolds(bundle, hash, domain, env, ps)
    ensures |next| <= |ps| && forall i :: 0 <= i < |next| ==> ps[i] == next[i]
  {
    ReadingUnique(bundle, hash, domain, env, next, ps);
  }

  lemma RepeatedKey(bundle: Wire, hash: string, domain: string, env: Oracles, prepared: seq<Prepared>, p: Prepared)
    requires Reading(bundle, hash, domain, env, prepared + [p]) && (p.keyId, p.keyVersion) in KeySet(prepared)
    ensures forall ps :: BundleHolds(bundle, hash, domain, env, ps) ==> KeyRepeated(ps)
  {
    hide Reading;
    var next := prepared + [p];
    var j :| 0 <= j < |prepared| && (prepared[j].keyId, prepared[j].keyVersion) == (p.keyId, p.keyVersion);
    forall ps | BundleHolds(bundle, hash, domain, env, ps) ensures KeyRepeated(ps) {
      HoldsIsLonger(bundle, hash, domain, env, next, ps);
      assert ps[j] == next[j] && ps[|prepared|] == next[|prepared|];
    }
  }
}
