/** What the receipt checks demand, spelled out on the fields of the receipt. */
module ReceiptMeaning {
  import opened Wrappers
  import opened Trimming
  import opened ReceiptContract
  import opened ReceiptPipelines

  // ------------------------------------------------------------------- texts

  /** A hash of exactly 64 characters, whitespace included, that is lower-case hexadecimal once trimmed. */
  lemma HashTextExactly(v: Wire, env: Oracles, hash: string)
    ensures HashText(v, env) == Some(hash) <==> Trims(v, hash) && |v.s| == 64 && env.hexLower(hash)
  {
    hide Strip, Trims;
    NonEmptyExactly(v, hash);
  }

  /** A signature is b64u text with an acceptable body, or else, without that prefix, a bare digest. */
  ghost predicate SignatureText(v: Wire, env: Oracles) {
    exists s :: Trims(v, s) &&
      ((exists body :: s == "b64u:" + body && env.signatureBody(body))
       || ((forall body :: s != "b64u:" + body) && |s| == 64 && env.hexLower(s)))
  }

  lemma PrefixExactly(s: string)
    ensures |s| >= 5 && s[..5] == "b64u:" <==> exists body :: s == "b64u:" + body
    ensures forall body :: s == "b64u:" + body ==> |s| >= 5 && s[5..] == body
  {
    if |s| >= 5 && s[..5] == "b64u:" { assert s == "b64u:" + s[5..]; }
  }

  lemma SignatureExactly(v: Wire, env: Oracles)
    ensures SignatureEncoded(v, env) <==> SignatureText(v, env)
  {
    hide NonEmpty, Trims, Strip, HashText;
    forall s ensures NonEmpty(v) == Some(s) <==> Trims(v, s) { NonEmptyExactly(v, s); }
    if NonEmpty(v).Some? {
      var s := NonEmpty(v).value;
      PrefixExactly(s);
      DigestText(v, s, env);
      if |s| >= 5 && s[..5] == "b64u:" { assert s == "b64u:" + s[5..]; }
    }
  }

  lemma DigestText(v: Wire, s: string, env: Oracles)
    requires Trims(v, s)
    ensures HashText(WText(s), env).Some? <==> |s| == 64 && env.hexLower(s)
  {
    StripFixes(s);
  }

  // ------------------------------------------------------- signature entries

  /** What an algorithm is called, and the one profile it is used with. */
  predicate Named(a: Algorithm, name: string, profile: string) {
    match a
    case Ed25519 => name == "classical-ed25519" && profile == "rfc8032-ed25519-v1"
    case MlDsa => name == "ml-dsa" && profile == "fips204-ml-dsa-65-v1"
    case FnDsa => name == "fn-dsa" && profile == "fips206-draft-falcon1024-v1"
  }

  /** The entry says what p says, and is made for this hash and domain. */
  ghost predicate EntrySays(e: Wire, p: Prepared, hash: string, domain: string, env: Oracles) {
    && p.entry == e && e.WDict? && e.fields.Keys ==
         {"algorithm", "standard_profile", "key_id", "key_version", "signed_payload_hash", "domain_tag", "signature"}
    && (exists name :: Named(p.algorithm, name, p.profile) && Trims(e.fields["algorithm"], name))
    && Trims(e.fields["standard_profile"], p.profile) && Trims(e.fields["key_id"], p.keyId)
    && e.fields["key_version"] == WInt(p.keyVersion) && 0 < p.keyVersion <= 0x7FFF_FFFF_FFFF_FFFF
    && Trims(e.fields["signed_payload_hash"], hash) && |e.fields["signed_payload_hash"].s| == 64 && env.hexLower(hash)
    && Trims(e.fields["domain_tag"], domain) && SignatureText(e.fields["signature"], env)
  }

  lemma AlgorithmNamed(name: string, a: Algorithm)
    ensures AlgorithmOf(name) == Some(a) <==> Named(a, name, ProfileOf(a))
    ensures forall n, profile :: Named(a, n, profile) ==> profile == ProfileOf(a)
  {
    assert |"classical-ed25519"| == 17 && |"ml-dsa"| == 6 && |"fn-dsa"| == 6;
    assert "ml-dsa"[0] == 'm' && "fn-dsa"[0] == 'f';
  }

  ghost predicate Identifies(e: Wire, p: Prepared) {
    && p.entry == e && HasExactly(e, ENTRY_FIELDS)
    && (exists name :: Named(p.algorithm, name, p.profile) && Trims(e.fields["algorithm"], name))
    && Trims(e.fields["standard_profile"], p.profile) && Trims(e.fields["key_id"], p.keyId)
    && e.fields["key_version"] == WInt(p.keyVersion) && 0 < p.keyVersion <= 0x7FFF_FFFF_FFFF_FFFF
  }

  lemma IdentifiedSays(e: Wire, p: Prepared)
    requires IdentifyEntry(e) == Some(p)
    ensures Identifies(e, p)
  {
    hide NonEmpty, Trims, AlgorithmOf, ProfileOf, Named;
    var f := e.fields;
    var name := NonEmpty(f["algorithm"]).value;
    NonEmptyExactly(f["algorithm"], name);
    AlgorithmNamed(name, p.algorithm);
    NonEmptyExactly(f["standard_profile"], p.profile);
    NonEmptyExactly(f["key_id"], p.keyId);
  }

  lemma SaidIsIdentified(e: Wire, p: Prepared)
    requires Identifies(e, p)
    ensures IdentifyEntry(e) == Some(p)
  {
    hide NonEmpty, Trims, AlgorithmOf, ProfileOf, Named;
    var f := e.fields;
    var name :| Named(p.algorithm, name, p.profile) && Trims(f["algorithm"], name);
    NonEmptyExactly(f["algorithm"], name);
    AlgorithmNamed(name, p.algorithm);
    NonEmptyExactly(f["standard_profile"], p.profile);
    NonEmptyExactly(f["key_id"], p.keyId);
  }

  /** Preparing an entry reads what it says, no more and no less. */
  lemma PreparedExactly(e: Wire, p: Prepared, hash: string, domain: string, env: Oracles)
    ensures PrepareEntry(e, hash, domain, env) == Some(p) <==> EntrySays(e, p, hash, domain, env)
  {
    hide IdentifyEntry, NonEmpty, Trims, HashText, SignatureEncoded, SignatureText, Named;
    if IdentifyEntry(e) == Some(p) { IdentifiedSays(e, p); }
    if Identifies(e, p) { SaidIsIdentified(e, p); }
    if HasExactly(e, ENTRY_FIELDS) {
      HashTextExactly(e.fields["signed_payload_hash"], env, hash);
      NonEmptyExactly(e.fields["domain_tag"], domain);
      SignatureExactly(e.fields["signature"], env);
    }
  }

  /** The field is a readable digest, but another one. */
  ghost predicate SaysOther(v: Wire, hash: string, env: Oracles) {
    exists other :: other != hash && Trims(v, other) && |v.s| == 64 && env.hexLower(other)
  }

  lemma OtherExactly(v: Wire, hash: string, env: Oracles)
    ensures SaysOther(v, hash, env) <==> HashText(v, env).Some? && HashText(v, env) != Some(hash)
  {
    hide HashText;
    if HashText(v, env).Some? { HashTextExactly(v, env, HashText(v, env).value); }
    if SaysOther(v, hash, env) {
      var other :| other != hash && Trims(v, other) && |v.s| == 64 && env.hexLower(other);
      HashTextExactly(v, env, other);
    }
  }

  /**
   * The staged check of an entry looks at its signature before it compares hashes, the one-shot check after it, so they
   * report a hash mismatch of different entries.
   */
  lemma MismatchExactly(e: Wire, hash: string, domain: string, env: Oracles)
    requires HasExactly(e, ENTRY_FIELDS)
    ensures BindingFault(e, hash, domain, env) == Some(EntryHashMismatch)
      <==> SaysOther(e.fields["signed_payload_hash"], hash, env) && SignatureText(e.fields["signature"], env)
    ensures ShapeFault(e, hash, domain, env) == Some(EntryHashMismatch)
      <==> SaysOther(e.fields["signed_payload_hash"], hash, env)
  {
    hide HashText, SignatureEncoded, SignatureText, NonEmpty, Trims;
    SignatureExactly(e.fields["signature"], env);
    OtherExactly(e.fields["signed_payload_hash"], hash, env);
  }

  /** The algorithm a signature must have by its place in the bundle. */
  predicate InPlace(a: Algorithm, k: nat) {
    match k
    case 0 => a == Ed25519
    case 1 => a == MlDsa
    case 2 => a == FnDsa
    case _ => false
  }

  /** Two or three entries in their places, each made for this hash and domain. */
  ghost predicate BundleSays(bundle: Wire, ps: seq<Prepared>, hash: string, domain: string, env: Oracles) {
    && bundle.WDict? && bundle.fields.Keys == {"schema_version", "policy_version", "signatures"}
    && bundle.fields["schema_version"] == WText("shield.signature_bundle.v1")
    && bundle.fields["policy_version"] == WText("policy.v1") && bundle.fields["signatures"].WList?
    && var items := bundle.fields["signatures"].items;
      && |items| == |ps| && 2 <= |ps|
      && forall k :: 0 <= k < |ps| ==> InPlace(ps[k].algorithm, k) && EntrySays(items[k], ps[k], hash, domain, env)
  }

  lemma ThreePlaces(ps: seq<Prepared>)
    requires forall k :: 0 <= k < |ps| ==> InPlace(ps[k].algorithm, k)
    ensures |ps| <= 3
  {
    if ps != [] { assert InPlace(ps[|ps| - 1].algorithm, |ps| - 1); }
  }

  lemma OrderExactly(ps: seq<Prepared>)
    ensures PolicyOrder(Algorithms(ps)) <==> 2 <= |ps| && forall k :: 0 <= k < |ps| ==> InPlace(ps[k].algorithm, k)
  {
    var algorithms := Algorithms(ps);
    if PolicyOrder(algorithms) {
      assert |algorithms| == |ps|;
      forall k | 0 <= k < |ps| ensures InPlace(ps[k].algorithm, k) { assert algorithms[k] == ps[k].algorithm; }
    }
    if 2 <= |ps| && forall k :: 0 <= k < |ps| ==> InPlace(ps[k].algorithm, k) {
      ThreePlaces(ps);
      assert algorithms == if |ps| == 2 then [Ed25519, MlDsa] else [Ed25519, MlDsa, FnDsa];
    }
  }

  /** A bundle holds for a digest exactly when it says so, entry by entry. */
  lemma BundleExactly(bundle: Wire, ps: seq<Prepared>, text: string, hash: string, domain: string, env: Oracles)
    requires HashText(WText(text), env) == Some(hash)
    ensures BundleHolds(bundle, text, domain, env, ps) <==> BundleSays(bundle, ps, hash, domain, env)
  {
    hide PrepareEntry, EntrySays, HashText, PolicyOrder, InPlace;
    OrderExactly(ps);
    forall e, p ensures PrepareEntry(e, hash, domain, env) == Some(p) <==> EntrySays(e, p, hash, domain, env) {
      PreparedExactly(e, p, hash, domain, env);
    }
  }

  // ------------------------------------------------------------------ hashes

  /** The fields of a dict that are signed. */
  function Signed(v: Wire, unsigned: set<string>): Wire {
    if v.WDict? then WDict(map k | k in v.fields && k !in unsigned :: v.fields[k]) else v
  }

  lemma SignedExactly(v: Wire, unsigned: set<string>)
    ensures Unsigned(v, unsigned) == Signed(v, unsigned)
  {
    if v.WDict? { assert v.fields - unsigned == Signed(v, unsigned).fields; }
  }

  /** A component must name the hash of its own payload, and a receipt those of its own body and payload. */
  lemma HashesExactly(v: Wire, env: Oracles)
    ensures ComponentIntegrity(v, env) <==>
      var payload := Signed(v, {"signed_payload_hash", "signature_bundle", "verification_summary"});
      Field(v, "signed_payload_hash") == WText(env.payloadHash(COMPONENT_DOMAIN, payload))
    ensures ReceiptIntegrity(v, env) <==>
      var payload := Signed(v, {"receipt_hash", "signed_payload_hash", "signature_bundle", "verification_summary"});
      && Field(v, "receipt_hash") == WText(env.receiptHash(payload))
      && Field(v, "signed_payload_hash") == WText(env.payloadHash(RECEIPT_DOMAIN, payload))
  {
    hide Field;
    SignedExactly(v, UNSIGNED_COMPONENT_EXCLUDED);
    SignedExactly(v, UNSIGNED_RECEIPT_EXCLUDED);
    NotBlank(env.payloadHash(COMPONENT_DOMAIN, Signed(v, UNSIGNED_COMPONENT_EXCLUDED)));
    NotBlank(env.payloadHash(RECEIPT_DOMAIN, Signed(v, UNSIGNED_RECEIPT_EXCLUDED)));
  }

  lemma NotBlank(h: HexDigest)
    ensures h != ""
  {
    assert |h| == 64;
  }

  // ------------------------------------------------------------ fields and sizes

  /** Every field there must be, and at most one more. */
  lemma FieldsExactly(v: Wire)
    ensures FieldsMatch(v, COMPONENT_FIELDS) <==>
      v.WDict? && COMPONENT_FIELDS <= v.fields.Keys <= COMPONENT_FIELDS + {"verification_summary"}
    ensures FieldsMatch(v, RECEIPT_FIELDS) <==>
      v.WDict? && RECEIPT_FIELDS <= v.fields.Keys <= RECEIPT_FIELDS + {"verification_summary"}
  {
    assert "verification_summary" !in COMPONENT_FIELDS && "verification_summary" !in RECEIPT_FIELDS;
  }

  /** A receipt takes at most 128 KiB in canonical form, and a bundle 32 KiB. */
  lemma SizesExactly(v: Wire, env: Oracles)
    ensures CanonicalReceiptFits(v, env) <==> exists n :: env.canonicalSize(v) == Ok(n) && n <= 131072
    ensures BundleSized(v, env) <==> exists n :: env.canonicalSize(v) == Ok(n) && n <= 32768
  {
  }

  // -------------------------------------------------------- forbidden authority

  /** part is v or occurs inside it, at any depth. */
  ghost predicate Occurs(part: Wire, v: Wire) {
    part == v ||
    match v
    case WDict(fields) => exists k :: k in fields && Occurs(part, fields[k])
    case WList(items) => exists i :: 0 <= i < |items| && Occurs(part, items[i])
    case _ => false
  }

  ghost predicate HasKey(v: Wire, keys: set<string>) {
    v.WDict? && exists k :: k in v.fields && k in keys
  }

  /** Authority is forbidden in every dict inside, whatever the key's value. */
  lemma {:induction false} ForbiddenExactly(v: Wire)
    ensures ForbiddenAuthority(v) <==> exists part :: Occurs(part, v) && HasKey(part, FORBIDDEN_AUTHORITY_KEYS)
  {
    match v
    case WDict(fields) =>
      forall k | k in fields
        ensures ForbiddenAuthority(fields[k])
          <==> exists part :: Occurs(part, fields[k]) && HasKey(part, FORBIDDEN_AUTHORITY_KEYS)
      {
        ForbiddenExactly(fields[k]);
      }
      ForbiddenInDict(fields);
    case WList(items) =>
      forall i | 0 <= i < |items|
        ensures ForbiddenAuthority(items[i])
          <==> exists part :: Occurs(part, items[i]) && HasKey(part, FORBIDDEN_AUTHORITY_KEYS)
      {
        ForbiddenExactly(items[i]);
      }
      ForbiddenInList(items);
    case _ =>
  }

  lemma ForbiddenInDict(fields: map<string, Wire>)
    requires forall k :: k in fields ==> (ForbiddenAuthority(fields[k])
      <==> exists part :: Occurs(part, fields[k]) && HasKey(part, FORBIDDEN_AUTHORITY_KEYS))
    ensures ForbiddenAuthority(WDict(fields))
      <==> exists part :: Occurs(part, WDict(fields)) && HasKey(part, FORBIDDEN_AUTHORITY_KEYS)
  {
    var v := WDict(fields);
    if ForbiddenAuthority(v) {
      if k :| k in fields && k in FORBIDDEN_AUTHORITY_KEYS {
        assert Occurs(v, v) && HasKey(v, FORBIDDEN_AUTHORITY_KEYS);
      } else {
        var k :| k in fields && ForbiddenAuthority(fields[k]);
        var part :| Occurs(part, fields[k]) && HasKey(part, FORBIDDEN_AUTHORITY_KEYS);
        assert Occurs(part, v);
      }
    }
    if part :| Occurs(part, v) && HasKey(part, FORBIDDEN_AUTHORITY_KEYS) {
      if part != v {
        var k :| k in fields && Occurs(part, fields[k]);
        assert ForbiddenAuthority(fields[k]);
      }
    }
  }

  lemma ForbiddenInList(items: seq<Wire>)
    requires forall i :: 0 <= i < |items| ==> (ForbiddenAuthority(items[i])
      <==> exists part :: Occurs(part, items[i]) && HasKey(part, FORBIDDEN_AUTHORITY_KEYS))
    ensures ForbiddenAuthority(WList(items))
      <==> exists part :: Occurs(part, WList(items)) && HasKey(part, FORBIDDEN_AUTHORITY_KEYS)
  {
    var v := WList(items);
    if ForbiddenAuthority(v) {
      var i :| 0 <= i < |items| && ForbiddenAuthority(items[i]);
      var part :| Occurs(part, items[i]) && HasKey(part, FORBIDDEN_AUTHORITY_KEYS);
      assert Occurs(part, v);
    }
    if part :| Occurs(part, v) && HasKey(part, FORBIDDEN_AUTHORITY_KEYS) {
      var i :| 0 <= i < |items| && Occurs(part, items[i]);
      assert ForbiddenAuthority(items[i]);
    }
  }

  // ------------------------------------------------------------------- lists

  /** The list holds exactly these texts, each non-empty and no two alike once trimmed. */
  ghost predicate Lists(v: Wire, ss: seq<string>) {
    && v.WList? && |v.items| == |ss| && ss != []
    && (forall i :: 0 <= i < |ss| ==> Trims(v.items[i], ss[i]))
    && forall i, j :: 0 <= i < j < |ss| ==> ss[i] != ss[j]
  }

  /** These are the texts of the list, in order. */
  predicate Reads(v: Wire, ss: seq<string>) {
    TextList(v) && |v.items| == |ss| && forall i :: 0 <= i < |ss| ==> TextAt(v, i) == ss[i]
  }

  lemma ListExactly(v: Wire, ss: seq<string>)
    ensures Lists(v, ss) <==> Reads(v, ss)
  {
    hide NonEmpty, Trims;
    forall w, s ensures NonEmpty(w) == Some(s) <==> Trims(w, s) { NonEmptyExactly(w, s); }
  }

  predicate BelongTogether(name: string, profile: string) {
    exists a: Algorithm :: Named(a, name, profile)
  }

  /** Both required algorithms, and each with its own profile. */
  predicate NamesPaired(names: seq<string>, profiles: seq<string>) {
    && |names| == |profiles| && "classical-ed25519" in names && "ml-dsa" in names
    && forall i :: 0 <= i < |names| ==> BelongTogether(names[i], profiles[i])
  }

  /** A claim that a component was verified: by its allowed algorithms, both required ones among them. */
  ghost predicate ClaimSays(x: Wire, id: string, names: seq<string>, profiles: seq<string>) {
    && x.WDict? && x.fields.Keys
         == {"component_id", "component_role", "verified", "verified_algorithms", "verified_standard_profiles", "signature_policy"}
    && Trims(x.fields["component_id"], id) && id in COMPONENT_ROLES
    && x.fields["component_role"] == WText(COMPONENT_ROLES[id])
    && x.fields["verified"] == WBool(true) && x.fields["signature_policy"] == WText("policy.v1")
    && Lists(x.fields["verified_algorithms"], names) && Lists(x.fields["verified_standard_profiles"], profiles)
    && NamesPaired(names, profiles)
  }

  lemma ClaimHolds(x: Wire, id: string, names: seq<string>, profiles: seq<string>)
    requires ClaimSays(x, id, names, profiles)
    ensures ResultHolds(x)
  {
    hide NonEmpty, Trims, Named, Lists, TextAt, AlgorithmsMatchProfiles, NamesPaired;
    var f := x.fields;
    NonEmptyExactly(f["component_id"], id);
    ListExactly(f["verified_algorithms"], names);
    ListExactly(f["verified_standard_profiles"], profiles);
    PairedMatch(f["verified_algorithms"], f["verified_standard_profiles"], names, profiles);
  }

  lemma PairedMatch(algorithms: Wire, profiles: Wire, names: seq<string>, ps: seq<string>)
    requires Reads(algorithms, names) && Reads(profiles, ps) && NamesPaired(names, ps)
    ensures AlgorithmsMatchProfiles(algorithms, profiles)
  {
    hide TextList, TextAt, AlgorithmOf, ProfileOf, Named;
    RequiredNamed();
    var i :| 0 <= i < |names| && names[i] == "classical-ed25519";
    var j :| 0 <= j < |names| && names[j] == "ml-dsa";
    assert AlgorithmOf(TextAt(algorithms, i)) == Some(Ed25519) && AlgorithmOf(TextAt(algorithms, j)) == Some(MlDsa);
    forall i | 0 <= i < |names|
      ensures AlgorithmOf(TextAt(algorithms, i)).Some?
      ensures TextAt(profiles, i) == ProfileOf(AlgorithmOf(TextAt(algorithms, i)).value)
    {
      assert BelongTogether(names[i], ps[i]);
      var a :| Named(a, names[i], ps[i]);
      AlgorithmNamed(names[i], a);
    }
  }

  lemma MatchPaired(algorithms: Wire, profiles: Wire, names: seq<string>, ps: seq<string>)
    requires Reads(algorithms, names) && Reads(profiles, ps) && AlgorithmsMatchProfiles(algorithms, profiles)
    ensures NamesPaired(names, ps)
  {
    hide TextList, TextAt, AlgorithmOf, ProfileOf, Named;
    RequiredNamed();
    var i :| 0 <= i < |names| && AlgorithmOf(TextAt(algorithms, i)) == Some(Ed25519);
    var j :| 0 <= j < |names| && AlgorithmOf(TextAt(algorithms, j)) == Some(MlDsa);
    assert names[i] == "classical-ed25519" && names[j] == "ml-dsa";
    forall i | 0 <= i < |names| ensures BelongTogether(names[i], ps[i]) {
      var a := AlgorithmOf(TextAt(algorithms, i)).value;
      AlgorithmNamed(names[i], a);
      assert Named(a, names[i], ps[i]);
    }
  }

  lemma RequiredNamed()
    ensures forall n :: AlgorithmOf(n) == Some(Ed25519) <==> n == "classical-ed25519"
    ensures forall n :: AlgorithmOf(n) == Some(MlDsa) <==> n == "ml-dsa"
  {
    assert |"classical-ed25519"| == 17 && |"ml-dsa"| == 6 && |"fn-dsa"| == 6;
    assert "ml-dsa"[0] == 'm' && "fn-dsa"[0] == 'f';
  }

  /** A claim is accepted exactly when it says all this for some component and lists of names. */
  lemma ClaimExactly(x: Wire)
    ensures ResultHolds(x) <==> exists id, names, profiles :: ClaimSays(x, id, names, profiles)
  {
    hide ClaimSays, ResultHolds;
    if ResultHolds(x) {
      var id, names, profiles := ClaimRead(x);
      assert ClaimSays(x, id, names, profiles);
    }
    if id, names, profiles :| ClaimSays(x, id, names, profiles) { ClaimHolds(x, id, names, profiles); }
  }

  lemma ClaimRead(x: Wire) returns (id: string, names: seq<string>, profiles: seq<string>)
    requires ResultHolds(x)
    ensures ClaimSays(x, id, names, profiles)
  {
    hide NonEmpty, Trims, Named, Lists, TextAt, AlgorithmsMatchProfiles, NamesPaired;
    var f := x.fields;
    var a, p := f["verified_algorithms"], f["verified_standard_profiles"];
    id := NonEmpty(f["component_id"]).value;
    names := TextsOf(a);
    profiles := TextsOf(p);
    NonEmptyExactly(f["component_id"], id);
    ListExactly(a, names);
    ListExactly(p, profiles);
    MatchPaired(a, p, names, profiles);
  }

  function TextsOf(v: Wire): (ss: seq<string>)
    requires TextList(v)
    ensures |ss| == |v.items| && forall i :: 0 <= i < |ss| ==> ss[i] == TextAt(v, i)
  {
    seq(|v.items|, i requires 0 <= i < |v.items| => TextAt(v, i))
  }

  // ----------------------------------------------------------------- outcomes

  /** Denial dominates, then escalation, and each outcome has its own words. */
  lemma OutcomeWords(cs: seq<Wire>)
    ensures ExpectedOutcome(cs) == "HUMAN_REVIEW_REQUIRED"
      <==> (exists i :: 0 <= i < |cs| && Escalates(cs[i])) && forall i :: 0 <= i < |cs| ==> !Denies(cs[i])
    ensures ExpectedOutcome(cs) in {"ALLOW", "DENY", "HUMAN_REVIEW_REQUIRED"}
  {
    OutcomeExact(cs);
    var decisions := set i | 0 <= i < |cs| :: Field(cs[i], "decision");
    forall i | 0 <= i < |cs| ensures Field(cs[i], "decision") in decisions {}
    assert |"ALLOW"| == 5 && |"DENY"| == 4 && |"HUMAN_REVIEW_REQUIRED"| == 21;
  }
}
