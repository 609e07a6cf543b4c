/** The single-use nonce store and the last gate before execution. */
module TruthGate {
  import opened Wrappers
  import opened Trimming
  import opened ReceiptContract
  import opened ReceiptPipelines

  // -------------------------------------------------------------- nonce store

  type NonceKey = (string, string)

  /** InMemoryNonceStore */
  class NonceStore {
    var used: map<NonceKey, int>

    constructor ()
      ensures used == map[]
    {
      used := map[];
    }

    /** check_and_mark: accepts a key once and remembers it for good. */
    method CheckAndMark(wallet: string, nonce: string, expiresAt: int) returns (accepted: bool)
      modifies this
      ensures accepted <==> (wallet, nonce) !in old(used)
      ensures used == if accepted then old(used)[(wallet, nonce) := expiresAt] else old(used)
    {
      if (wallet, nonce) in used { return false; }
      used := used[(wallet, nonce) := expiresAt];
      accepted := true;
    }
  }

  // ---------------------------------------------------------------- authority

  datatype Verdict = Allow | DenyVerdict | StepUp

  datatype ExecutionContext = ExecutionContext(wallet: string, action: string, contextHash: string)

  datatype Authority =
    | AuthorityV1(wallet: string, action: string, contextHash: string, issuedAt: int, expiresAt: int, nonce: string)
    | AuthorityV2(wallet: string, action: string, contextHash: string, issuedAt: int, expiresAt: int, nonce: string,
                  families: seq<string>, posture: string, proofHash: string)

  /** Known evidence families, and the hash binding a v2 authority to its canonical families. */
  datatype WsqkEnv = WsqkEnv(family: string -> bool, proofHash: (Authority, set<string>) -> Result<string, string>)

  /** canonical_required_evidence_families: the set of stripped names, or why not. */
  function CanonicalFamilies(fs: seq<string>, env: WsqkEnv): Result<set<string>, string> {
    if fs == [] || exists i :: 0 <= i < |fs| && Strip(fs[i]) == "" then Err("WSQK_V2_INVALID_EVIDENCE_FAMILIES")
    else if exists i :: 0 <= i < |fs| && !env.family(Strip(fs[i])) then Err("WSQK_V2_UNKNOWN_EVIDENCE_FAMILY")
    else Ok(set i | 0 <= i < |fs| :: Strip(fs[i]))
  }

  /** _enforce_wsqk_v2_quantum_posture: what is wrong, if anything. */
  function PostureFault(a: Authority, families: Option<seq<string>>, posture: Option<string>, env: WsqkEnv): Option<string> {
    if families.None? && posture.None? then None
    else if !a.AuthorityV2? then Some("TVA_WSQK_V2_REQUIRED")
    else
      match CanonicalFamilies(a.families, env)
      case Err(reason) => Some(reason)
      case Ok(own) =>
        if families.Some? && CanonicalFamilies(families.value, env).Err? then
          Some(CanonicalFamilies(families.value, env).error)
        else if families.Some? && CanonicalFamilies(families.value, env).value != own then
          Some("TVA_WSQK_V2_EVIDENCE_FAMILY_MISMATCH")
        else if posture.Some? && a.posture != Strip(posture.value) then Some("TVA_WSQK_V2_QUANTUM_POSTURE_MISMATCH")
        else
          match env.proofHash(a, own)
          case Err(reason) => Some(reason)
          case Ok(hash) => if a.proofHash != hash then Some("TVA_WSQK_V2_PROOF_BINDINGS_HASH_MISMATCH") else None
  }

  /** What is put before the gate: who may do what, by whose verdict, now, and what posture is asked for. */
  datatype Claim = Claim(
    context: Option<ExecutionContext>, verdict: Option<Verdict>, authority: Option<Authority>, now: Option<int>,
    families: Option<seq<string>>, posture: Option<string>)

  /** The authority speaks of exactly this context, now, and with the posture asked for. */
  predicate Bound(q: Claim, env: WsqkEnv) {
    && q.context.Some? && q.verdict == Some(Allow) && q.authority.Some? && q.now.Some?
    && var a := q.authority.value;
      && ExecutionContext(a.wallet, a.action, a.contextHash) == q.context.value
      && a.issuedAt <= q.now.value <= a.expiresAt
      && PostureFault(a, q.families, q.posture, env).None?
  }

  /** And it carries a usable nonce. */
  predicate Authorizes(q: Claim, env: WsqkEnv) {
    Bound(q, env) && Strip(q.authority.value.nonce) != ""
  }

  function KeyOf(a: Authority): NonceKey {
    (a.wallet, Strip(a.nonce))
  }

  datatype TvaFault =
    | MissingContext | MissingVerdict | MissingAuthority | VerdictNotAllow
    | WalletMismatch | ActionMismatch | ContextHashMismatch
    | MissingNow | InvalidTimeWindow | NotYetValid | Expired
    | PostureRefused(reason: string) | MissingNonceStore | InvalidNonce | NonceReplay

  function FaultName(f: TvaFault): string {
    match f
    case MissingContext => "TVA_MISSING_CONTEXT"
    case MissingVerdict => "TVA_MISSING_VERDICT"
    case MissingAuthority => "TVA_MISSING_AUTHORITY"
    case VerdictNotAllow => "TVA_VERDICT_NOT_ALLOW"
    case WalletMismatch => "TVA_AUTHORITY_WALLET_MISMATCH"
    case ActionMismatch => "TVA_AUTHORITY_ACTION_MISMATCH"
    case ContextHashMismatch => "TVA_AUTHORITY_CONTEXT_HASH_MISMATCH"
    case MissingNow => "TVA_MISSING_NOW"
    case InvalidTimeWindow => "TVA_INVALID_TIME_WINDOW"
    case NotYetValid => "TVA_AUTHORITY_NOT_YET_VALID"
    case Expired => "TVA_AUTHORITY_EXPIRED"
    case PostureRefused(reason) => reason
    case MissingNonceStore => "TVA_MISSING_NONCE_STORE"
    case InvalidNonce => "TVA_INVALID_NONCE"
    case NonceReplay => REPLAYED
  }

  const REPLAYED := "TVA_NONCE_REPLAY"

  /** What a fault says is wrong; used is the nonce store, if there is one. */
  predicate Wrong(f: TvaFault, q: Claim, used: Option<map<NonceKey, int>>, env: WsqkEnv) {
    match f
    case MissingContext => q.context.None?
    case MissingVerdict => q.verdict.None?
    case MissingAuthority => q.authority.None?
    case VerdictNotAllow => q.verdict != Some(Allow)
    case MissingNow => q.now.None?
    case MissingNonceStore => used.None?
    case _ => q.authority.Some? && AuthorityWrong(f, q.authority.value, q, used, env)
  }

  predicate AuthorityWrong(f: TvaFault, a: Authority, q: Claim, used: Option<map<NonceKey, int>>, env: WsqkEnv) {
    match f
    case WalletMismatch => q.context.Some? && a.wallet != q.context.value.wallet
    case ActionMismatch => q.context.Some? && a.action != q.context.value.action
    case ContextHashMismatch => q.context.Some? && a.contextHash != q.context.value.contextHash
    case InvalidTimeWindow => a.expiresAt < a.issuedAt
    case NotYetValid => q.now.Some? && q.now.value < a.issuedAt
    case Expired => q.now.Some? && q.now.value > a.expiresAt
    case PostureRefused(reason) => PostureFault(a, q.families, q.posture, env) == Some(reason)
    case InvalidNonce => Strip(a.nonce) == ""
    case NonceReplay => used.Some? && KeyOf(a) in used.value
    case _ => false
  }

  /** The order of the checks. */
  function Order(f: TvaFault): nat {
    match f
    case MissingContext => 0
    case MissingVerdict => 1
    case MissingAuthority => 2
    case VerdictNotAllow => 3
    case WalletMismatch => 4
    case ActionMismatch => 5
    case ContextHashMismatch => 6
    case MissingNow => 7
    case InvalidTimeWindow => 8
    case NotYetValid => 9
    case Expired => 10
    case PostureRefused(_) => 11
    case MissingNonceStore => 12
    case InvalidNonce => 13
    case NonceReplay => 14
  }

  /** f is what is wrong, and nothing that is checked before it is. */
  ghost predicate FirstWrong(f: TvaFault, q: Claim, used: Option<map<NonceKey, int>>, env: WsqkEnv) {
    Wrong(f, q, used, env) && forall g :: Order(g) < Order(f) ==> !Wrong(g, q, used, env)
  }

  function UsedIn(store: NonceStore?): Option<map<NonceKey, int>>
    reads store
  {
    if store == null then None else Some(store.used)
  }

  /** The checks that need no store. */
  method CheckClaim(q: Claim, env: WsqkEnv) returns (fault: Option<TvaFault>)
    ensures fault.None? <==> Bound(q, env)
    ensures fault.Some? ==> Order(fault.value) < 12 && forall used :: FirstWrong(fault.value, q, used, env)
  {
    hide PostureFault;
    if q.context.None? { return Some(MissingContext); }
    if q.verdict.None? { return Some(MissingVerdict); }
    if q.authority.None? { return Some(MissingAuthority); }
    if q.verdict.value != Allow { return Some(VerdictNotAllow); }
    fault := CheckBinding(q, q.authority.value, q.context.value, env);
    if fault.Some? { return; }
    var postureFault := PostureFault(q.authority.value, q.families, q.posture, env);
    if postureFault.Some? { return Some(PostureRefused(postureFault.value)); }
    return None;
  }

  /** Whom the authority names, what for, and when. */
  method CheckBinding(q: Claim, a: Authority, context: ExecutionContext, env: WsqkEnv) returns (fault: Option<TvaFault>)
    requires q.authority == Some(a) && q.context == Some(context) && q.verdict == Some(Allow)
    ensures fault.None? <==>
      ExecutionContext(a.wallet, a.action, a.contextHash) == context && q.now.Some? && a.issuedAt <= q.now.value <= a.expiresAt
    ensures fault.Some? ==> Order(fault.value) < 11 && forall used :: FirstWrong(fault.value, q, used, env)
    ensures fault.None? ==> forall g, used :: Order(g) < 11 ==> !Wrong(g, q, used, env)
  {
    hide PostureFault;
    if a.wallet != context.wallet { return Some(WalletMismatch); }
    if a.action != context.action { return Some(ActionMismatch); }
    if a.contextHash != context.contextHash { return Some(ContextHashMismatch); }
    if q.now.None? { return Some(MissingNow); }
    if a.expiresAt < a.issuedAt { return Some(InvalidTimeWindow); }
    if q.now.value < a.issuedAt { return Some(NotYetValid); }
    if q.now.value > a.expiresAt { return Some(Expired); }
    return None;
  }

  /**
   * enforce_tva: either everything holds and the nonce is fresh, and then it is marked; or the first thing that is wrong
   * is reported and nothing changes.
   */
  method EnforceTva(q: Claim, store: NonceStore?, env: WsqkEnv) returns (fault: Option<TvaFault>)
    modifies store
    ensures fault.None? <==> store != null && Authorizes(q, env) && KeyOf(q.authority.value) !in old(store.used)
    ensures fault.Some? ==> FirstWrong(fault.value, q, old(UsedIn(store)), env)
    ensures store != null ==>
      store.used == if fault.None? then old(store.used)[KeyOf(q.authority.value) := q.authority.value.expiresAt]
                    else old(store.used)
  {
    hide PostureFault, Strip, Bound, FirstWrong;
    fault := CheckClaim(q, env);
    if fault.Some? { return; }
    BoundMeans(q, env);
    BeforeStore(q, old(UsedIn(store)), env);
    if store == null { return Some(MissingNonceStore); }
    var a := q.authority.value;
    var nonce := Strip(a.nonce);
    if nonce == "" { return Some(InvalidNonce); }
    var accepted := store.CheckAndMark(a.wallet, nonce, a.expiresAt);
    if !accepted { return Some(NonceReplay); }
    return None;
  }

  lemma BoundMeans(q: Claim, env: WsqkEnv)
    requires Bound(q, env)
    ensures q.authority.Some?
  {
  }

  /** Once the claim is bound, the store and the nonce are all that can be wrong. */
  lemma BeforeStore(q: Claim, used: Option<map<NonceKey, int>>, env: WsqkEnv)
    requires Bound(q, env)
    ensures used.None? ==> FirstWrong(MissingNonceStore, q, used, env)
    ensures used.Some? && Strip(q.authority.value.nonce) == "" ==> FirstWrong(InvalidNonce, q, used, env)
    ensures used.Some? && Strip(q.authority.value.nonce) != "" && KeyOf(q.authority.value) in used.value ==>
      FirstWrong(NonceReplay, q, used, env)
  {
    hide PostureFault, Strip;
  }

  /** At most one fault is the first, so the report is determined. */
  lemma FirstWrongUnique(f: TvaFault, g: TvaFault, q: Claim, used: Option<map<NonceKey, int>>, env: WsqkEnv)
    requires FirstWrong(f, q, used, env) && FirstWrong(g, q, used, env)
    ensures f == g
  {
    hide PostureFault, Strip;
    assert Order(f) == Order(g);
  }

  /** Padding a nonce does not make it a new one. */
  lemma PaddedNonceIsSame(before: string, nonce: string, after: string, a: Authority)
    requires (forall c :: c in before ==> IsSpace(c)) && (forall c :: c in after ==> IsSpace(c))
    requires a.nonce == before + nonce + after
    ensures KeyOf(a) == KeyOf(a.(nonce := nonce))
  {
    StripIgnoresPadding(before, nonce, after);
  }

  // --------------------------------------------------------- authority proofs

  const WSQK_AUTHORITY_V2 := "WSQK_AUTHORITY_V2"

  predicate NonEmptyText(v: Wire) {
    v.WText? && v.s != ""
  }

  predicate TextItems(v: Wire) {
    v.WList? && forall i :: 0 <= i < |v.items| ==> v.items[i].WText?
  }

  function TextsOf(v: Wire): seq<string>
    requires TextItems(v)
  {
    seq(|v.items|, i requires 0 <= i < |v.items| => v.items[i].s)
  }

  /** What the envelope binds an authority proof to. */
  datatype Binding = Binding(context: ExecutionContext, nonce: string, issuedAt: int, expiresAt: int)

  /** _extract_wsqk_authority */
  function ExtractAuthority(b: Binding, proofs: Option<Wire>): Option<Authority> {
    if proofs.None? || !proofs.value.WDict? || !Field(proofs.value, "wsqk").WDict? then None
    else
      var w := Field(proofs.value, "wsqk");
      if !NonEmptyText(Field(w, "wallet_id")) || !NonEmptyText(Field(w, "action"))
        || !NonEmptyText(Field(w, "context_hash")) || !Field(w, "issued_at").WInt? || !Field(w, "expires_at").WInt?
        || !NonEmptyText(Field(w, "nonce"))
      then None
      else if ExecutionContext(Field(w, "wallet_id").s, Field(w, "action").s, Field(w, "context_hash").s) != b.context then None
      else if Field(w, "nonce").s != b.nonce then None
      else if Field(w, "issued_at").n != b.issuedAt || Field(w, "expires_at").n != b.expiresAt then None
      else if Field(w, "contract_version") == WText(WSQK_AUTHORITY_V2) then
        if !TextItems(Field(w, "required_evidence_families")) || !NonEmptyText(Field(w, "quantum_posture"))
          || !NonEmptyText(Field(w, "proof_bindings_hash"))
        then None
        else Some(AuthorityV2(b.context.wallet, b.context.action, b.context.contextHash, b.issuedAt, b.expiresAt, b.nonce,
                              TextsOf(Field(w, "required_evidence_families")), Field(w, "quantum_posture").s,
                              Field(w, "proof_bindings_hash").s))
      else Some(AuthorityV1(b.context.wallet, b.context.action, b.context.contextHash, b.issuedAt, b.expiresAt, b.nonce))
  }

  /** An authority taken from the proofs is bound to the request in every respect. */
  lemma ExtractedIsBound(b: Binding, proofs: Option<Wire>)
    requires ExtractAuthority(b, proofs).Some?
    ensures var a := ExtractAuthority(b, proofs).value;
      && ExecutionContext(a.wallet, a.action, a.contextHash) == b.context && a.nonce == b.nonce
      && a.issuedAt == b.issuedAt && a.expiresAt == b.expiresAt
    ensures proofs.Some? && proofs.value.WDict? && "wsqk" in proofs.value.fields
  {
    hide TextsOf, TextItems;
  }
}
