/** What the truth gate demands of an authority and of the proofs it is read from, spelled out on their fields. */
module AuthorityMeaning {
  import opened Wrappers
  import opened Trimming
  import opened ReceiptContract
  import opened ReceiptPipelines
  import opened TruthGate

  // ------------------------------------------------------------------- names

  /** s is t without the whitespace around it. */
  ghost predicate Cuts(t: string, s: string) {
    Stripped(s) && exists before, after :: Spaces(before) && Spaces(after) && t == before + s + after
  }

  lemma CutExactly(t: string)
    ensures forall s :: Strip(t) == s <==> Cuts(t, s)
    ensures Strip(t) == "" <==> Spaces(t)
  {
    hide Strip;
    forall s ensures Strip(t) == s <==> Cuts(t, s) { StripExactly(t, s); }
    if Spaces(t) { assert t == t + "" + "" && Spaces(""); }
    if Cuts(t, "") {
      var before, after :| Spaces(before) && Spaces(after) && t == before + "" + after;
      assert t == before + after;
    }
  }

  /** The list names it, whitespace around it aside. */
  ghost predicate Lists(fs: seq<string>, name: string) {
    exists i :: 0 <= i < |fs| && Cuts(fs[i], name)
  }

  /** A family that exists. */
  predicate Known(name: string, env: WsqkEnv) {
    name != "" && env.family(name)
  }

  /** A list of families: not empty, and with known ones only. */
  ghost predicate Families(fs: seq<string>, env: WsqkEnv) {
    fs != [] && forall name :: Lists(fs, name) ==> Known(name, env)
  }

  /** Exactly the families listed. */
  ghost predicate Collects(fs: seq<string>, names: set<string>) {
    forall name :: name in names <==> Lists(fs, name)
  }

  lemma FamiliesExactly(fs: seq<string>, env: WsqkEnv)
    ensures CanonicalFamilies(fs, env).Ok? <==> Families(fs, env)
    ensures CanonicalFamilies(fs, env).Ok? ==> Collects(fs, CanonicalFamilies(fs, env).value)
    ensures CanonicalFamilies(fs, env).Err? ==> BlamesFamilies(fs, env, CanonicalFamilies(fs, env).error)
  {
    hide Strip, Cuts;
    forall i | 0 <= i < |fs| ensures (forall s :: Strip(fs[i]) == s <==> Cuts(fs[i], s)) && (Strip(fs[i]) == "" <==> Spaces(fs[i])) {
      CutExactly(fs[i]);
    }
    forall i | 0 <= i < |fs| ensures Lists(fs, Strip(fs[i])) { assert Cuts(fs[i], Strip(fs[i])); }
  }

  /** Why a list is no list of families: it is empty or has a blank entry, or else it names an unknown one. */
  ghost predicate BlamesFamilies(fs: seq<string>, env: WsqkEnv, reason: string) {
    if fs == [] || exists i :: 0 <= i < |fs| && Spaces(fs[i]) then reason == "WSQK_V2_INVALID_EVIDENCE_FAMILIES"
    else reason == "WSQK_V2_UNKNOWN_EVIDENCE_FAMILY" && exists name :: Lists(fs, name) && !env.family(name)
  }

  // ----------------------------------------------------------------- posture

  ghost predicate SameFamilies(fs: seq<string>, gs: seq<string>) {
    forall name :: Lists(fs, name) <==> Lists(gs, name)
  }

  /** The hash that binds the authority is that of its own fields and families. */
  ghost predicate Sealed(a: Authority, env: WsqkEnv)
    requires a.AuthorityV2?
  {
    exists names :: Collects(a.families, names) && env.proofHash(a, names) == Ok(a.proofHash)
  }

  /**
   * The posture asked for is met: nothing is asked, or a v2 authority names families, the very ones that are asked for, if
   * any are, and the very posture, if one is, and is sealed.
   */
  ghost predicate Postured(a: Authority, families: Option<seq<string>>, posture: Option<string>, env: WsqkEnv) {
    || (families.None? && posture.None?)
    || (a.AuthorityV2? && Families(a.families, env)
        && (families.Some? ==> Families(families.value, env) && SameFamilies(families.value, a.families))
        && (posture.Some? ==> Cuts(posture.value, a.posture)) && Sealed(a, env))
  }

  /** Why it is not: the first of the demands that fails. */
  ghost predicate Blames(a: Authority, families: Option<seq<string>>, posture: Option<string>, env: WsqkEnv, reason: string) {
    if !a.AuthorityV2? then reason == "TVA_WSQK_V2_REQUIRED"
    else if !Families(a.families, env) then BlamesFamilies(a.families, env, reason)
    else if families.Some? && !Families(families.value, env) then BlamesFamilies(families.value, env, reason)
    else if families.Some? && !SameFamilies(families.value, a.families) then reason == "TVA_WSQK_V2_EVIDENCE_FAMILY_MISMATCH"
    else if posture.Some? && !Cuts(posture.value, a.posture) then reason == "TVA_WSQK_V2_QUANTUM_POSTURE_MISMATCH"
    else
      exists names :: Collects(a.families, names) &&
        match env.proofHash(a, names)
        case Err(why) => reason == why
        case Ok(hash) => hash != a.proofHash && reason == "TVA_WSQK_V2_PROOF_BINDINGS_HASH_MISMATCH"
  }

  lemma CollectedOnce(fs: seq<string>, m: set<string>, n: set<string>)
    requires Collects(fs, m) && Collects(fs, n)
    ensures m == n
  {
  }

  lemma SealedExactly(a: Authority, names: set<string>, env: WsqkEnv)
    requires a.AuthorityV2? && Collects(a.families, names)
    ensures Sealed(a, env) <==> env.proofHash(a, names) == Ok(a.proofHash)
  {
    hide Collects;
    if Sealed(a, env) {
      var m :| Collects(a.families, m) && env.proofHash(a, m) == Ok(a.proofHash);
      CollectedOnce(a.families, m, names);
    }
  }

  /** The gate asks for exactly that, and blames what fails first. */
  lemma PostureExactly(a: Authority, families: Option<seq<string>>, posture: Option<string>, env: WsqkEnv)
    ensures PostureFault(a, families, posture, env).None? <==> Postured(a, families, posture, env)
    ensures PostureFault(a, families, posture, env).Some? ==>
      Blames(a, families, posture, env, PostureFault(a, families, posture, env).value)
  {
    hide Strip, Cuts, CanonicalFamilies, Families, Sealed, BlamesFamilies;
    if posture.Some? { CutExactly(posture.value); }
    if families.Some? { FamiliesExactly(families.value, env); }
    if a.AuthorityV2? {
      FamiliesExactly(a.families, env);
      if CanonicalFamilies(a.families, env).Ok? { SealedExactly(a, CanonicalFamilies(a.families, env).value, env); }
    }
    if a.AuthorityV2? && families.Some? && CanonicalFamilies(a.families, env).Ok? && CanonicalFamilies(families.value, env).Ok? {
      SameExactly(families.value, a.families, CanonicalFamilies(families.value, env).value, CanonicalFamilies(a.families, env).value);
    }
  }

  lemma SameExactly(fs: seq<string>, gs: seq<string>, m: set<string>, n: set<string>)
    requires Collects(fs, m) && Collects(gs, n)
    ensures SameFamilies(fs, gs) <==> m == n
  {
  }

  // ------------------------------------------------------------------ claims

  /** Everything the gate asks for but a store and a fresh nonce. */
  ghost predicate Entitles(a: Authority, context: ExecutionContext, now: int, families: Option<seq<string>>,
                           posture: Option<string>, env: WsqkEnv)
  {
    && a.wallet == context.wallet && a.action == context.action && a.contextHash == context.contextHash
    && a.issuedAt <= now <= a.expiresAt && Postured(a, families, posture, env) && !Spaces(a.nonce)
  }

  lemma AuthorizesExactly(q: Claim, env: WsqkEnv)
    ensures Authorizes(q, env) <==>
      && q.context.Some? && q.verdict == Some(Allow) && q.authority.Some? && q.now.Some?
      && Entitles(q.authority.value, q.context.value, q.now.value, q.families, q.posture, env)
  {
    hide Strip, PostureFault, Postured;
    if q.authority.Some? {
      PostureExactly(q.authority.value, q.families, q.posture, env);
      CutExactly(q.authority.value.nonce);
    }
  }

  /** What the faults are called. */
  predicate Called(f: TvaFault, name: string) {
    match f
    case MissingContext => name == "TVA_MISSING_CONTEXT"
    case MissingVerdict => name == "TVA_MISSING_VERDICT"
    case MissingAuthority => name == "TVA_MISSING_AUTHORITY"
    case VerdictNotAllow => name == "TVA_VERDICT_NOT_ALLOW"
    case WalletMismatch => name == "TVA_AUTHORITY_WALLET_MISMATCH"
    case ActionMismatch => name == "TVA_AUTHORITY_ACTION_MISMATCH"
    case ContextHashMismatch => name == "TVA_AUTHORITY_CONTEXT_HASH_MISMATCH"
    case MissingNow => name == "TVA_MISSING_NOW"
    case InvalidTimeWindow => name == "TVA_INVALID_TIME_WINDOW"
    case NotYetValid => name == "TVA_AUTHORITY_NOT_YET_VALID"
    case Expired => name == "TVA_AUTHORITY_EXPIRED"
    case PostureRefused(reason) => name == reason
    case MissingNonceStore => name == "TVA_MISSING_NONCE_STORE"
    case InvalidNonce => name == "TVA_INVALID_NONCE"
    case NonceReplay => name == "TVA_NONCE_REPLAY"
  }

  lemma FaultsCalled(f: TvaFault)
    ensures Called(f, FaultName(f))
  {
  }

  // ------------------------------------------------------------------ proofs

  /** w has exactly this text, and not an empty one, under the key. */
  predicate Holds(w: Wire, key: string, s: string) {
    w.WDict? && key in w.fields && w.fields[key] == WText(s) && s != ""
  }

  predicate HoldsNumber(w: Wire, key: string, n: int) {
    w.WDict? && key in w.fields && w.fields[key] == WInt(n)
  }

  predicate HoldsTexts(w: Wire, key: string, ss: seq<string>) {
    && w.WDict? && key in w.fields && w.fields[key].WList? && |w.fields[key].items| == |ss|
    && forall i :: 0 <= i < |ss| ==> w.fields[key].items[i] == WText(ss[i])
  }

  /** The wsqk proof says what the authority says. */
  predicate Attests(w: Wire, a: Authority) {
    && Holds(w, "wallet_id", a.wallet) && Holds(w, "action", a.action) && Holds(w, "context_hash", a.contextHash)
    && HoldsNumber(w, "issued_at", a.issuedAt) && HoldsNumber(w, "expires_at", a.expiresAt) && Holds(w, "nonce", a.nonce)
    && (a.AuthorityV2? <==> Holds(w, "contract_version", "WSQK_AUTHORITY_V2"))
    && (a.AuthorityV2? ==>
          && HoldsTexts(w, "required_evidence_families", a.families) && Holds(w, "quantum_posture", a.posture)
          && Holds(w, "proof_bindings_hash", a.proofHash))
  }

  /** And it says what the envelope says. */
  predicate Matches(a: Authority, b: Binding) {
    && ExecutionContext(a.wallet, a.action, a.contextHash) == b.context && a.nonce == b.nonce
    && a.issuedAt == b.issuedAt && a.expiresAt == b.expiresAt
  }

  predicate Proves(proofs: Option<Wire>, a: Authority) {
    && proofs.Some? && proofs.value.WDict? && "wsqk" in proofs.value.fields
    && proofs.value.fields["wsqk"].WDict? && Attests(proofs.value.fields["wsqk"], a)
  }

  lemma TextsExactly(w: Wire, key: string, ss: seq<string>)
    requires w.WDict?
    ensures HoldsTexts(w, key, ss) <==> TextItems(Field(w, key)) && TextsOf(Field(w, key)) == ss
  {
    if TextItems(Field(w, key)) {
      var v := Field(w, key);
      assert forall i :: 0 <= i < |v.items| ==> v.items[i] == WText(TextsOf(v)[i]);
    }
  }

  /** An authority is taken from the proofs exactly when they attest it and the envelope matches it. */
  lemma ExtractExactly(b: Binding, proofs: Option<Wire>, a: Authority)
    ensures ExtractAuthority(b, proofs) == Some(a) <==> Proves(proofs, a) && Matches(a, b)
  {
    hide HoldsTexts, TextItems, TextsOf;
    if proofs.Some? && proofs.value.WDict? && Field(proofs.value, "wsqk").WDict? && a.AuthorityV2? {
      TextsExactly(Field(proofs.value, "wsqk"), "required_evidence_families", a.families);
    }
  }
}
