/** Which proposals and receipts the upgrade gateway takes for which, spelled out on their fields. */
module UpgradeMeaning {
  import opened Wrappers
  import opened Strings
  import opened Trimming
  import opened ReceiptContract
  import opened UpgradeGateway

  // ------------------------------------------------------------------- order

  predicate Before(a: string, b: string) {
    Precedes(Of(a), Of(b))
  }

  predicate IdsAscend(cs: seq<Change>) {
    forall i, j :: 0 <= i < j < |cs| ==> Before(cs[i].id, cs[j].id)
  }

  predicate NamesAscend(ns: seq<string>) {
    forall i, j :: 0 <= i < j < |ns| ==> Before(ns[i], ns[j])
  }

  lemma BeforeExactly(a: string, b: string)
    ensures Before(a, b) <==> a != b && StringLeq(a, b)
  {
    LessExactly(Of(a), Of(b));
    if Of(a) == Of(b) { OfInjective(a, b); }
  }

  lemma AscendExactly(cs: seq<Change>)
    ensures IdsAscend(cs) <==> IdsSorted(cs) && IdsDistinct(cs)
  {
    hide Before, StringLeq;
    forall a, b ensures Before(a, b) <==> a != b && StringLeq(a, b) { BeforeExactly(a, b); }
  }

  // ----------------------------------------------------------------- changes

  ghost predicate ChangeSays(r: RawChange, c: Change) {
    && r.RawChange? && r.others == {} && Trims(r.id, c.id) && Trims(r.kind, c.kind) && Trims(r.detail, c.detail)
    && c.kind in {"add", "modify", "deprecate", "remove"}
  }

  lemma ChangeExactly(r: RawChange, c: Change)
    ensures ReadChange(r) == Some(c) <==> ChangeSays(r, c)
  {
    hide NonEmpty, Trims;
    if r.RawChange? {
      forall s ensures NonEmpty(r.id) == Some(s) <==> Trims(r.id, s) { NonEmptyExactly(r.id, s); }
      forall s ensures NonEmpty(r.kind) == Some(s) <==> Trims(r.kind, s) { NonEmptyExactly(r.kind, s); }
      forall s ensures NonEmpty(r.detail) == Some(s) <==> Trims(r.detail, s) { NonEmptyExactly(r.detail, s); }
    }
  }

  ghost predicate ChangesSay(rs: seq<RawChange>, cs: seq<Change>) {
    |cs| == |rs| && forall i :: 0 <= i < |rs| ==> ChangeSays(rs[i], cs[i])
  }

  /** The changes, at least one, rearranged so that their identifiers ascend. */
  ghost predicate ListsChanges(rs: Option<seq<RawChange>>, cs: seq<Change>) {
    rs.Some? && cs != [] && IdsAscend(cs) && exists given :: ChangesSay(rs.value, given) && multiset(given) == multiset(cs)
  }

  lemma ChangesRead(rs: seq<RawChange>, given: seq<Change>)
    ensures rs != [] ==> (ChangesSay(rs, given) <==> ChangesReadable(rs) && ReadChanges(rs) == given)
  {
    hide ReadChange, ChangeSays;
    forall r, c ensures ReadChange(r) == Some(c) <==> ChangeSays(r, c) { ChangeExactly(r, c); }
    if rs != [] && ChangesSay(rs, given) {
      assert forall i :: 0 <= i < |rs| ==> ReadChange(rs[i]) == Some(given[i]);
      assert ReadChanges(rs) == given;
    }
    if rs != [] && ChangesReadable(rs) && ReadChanges(rs) == given {
      assert forall i :: 0 <= i < |rs| ==> ReadChange(rs[i]) == Some(given[i]);
    }
  }

  lemma ChangesExactly(rs: Option<seq<RawChange>>, cs: seq<Change>)
    ensures CanonicalChanges(rs) == Some(cs) <==> ListsChanges(rs, cs)
  {
    hide ChangesSay, ChangesReadable, ReadChanges, SortById;
    if rs.Some? && CanonicalChanges(rs) == Some(cs) { CanonicalListed(rs.value, cs); }
    if ListsChanges(rs, cs) {
      var given :| ChangesSay(rs.value, given) && multiset(given) == multiset(cs);
      ListedCanonical(rs.value, given, cs);
    }
  }

  lemma CanonicalListed(rs: seq<RawChange>, cs: seq<Change>)
    requires CanonicalChanges(Some(rs)) == Some(cs)
    ensures ListsChanges(Some(rs), cs)
  {
    hide ReadChange, ChangesSay, IdsAscend, IdsDistinct, IdsSorted;
    var given := ReadChanges(rs);
    ChangesRead(rs, given);
    DistinctByMembers(given, cs);
    AscendExactly(cs);
    assert |cs| == |multiset(cs)| == |multiset(given)| == |given|;
  }

  lemma ListedCanonical(rs: seq<RawChange>, given: seq<Change>, cs: seq<Change>)
    requires cs != [] && IdsAscend(cs) && ChangesSay(rs, given) && multiset(given) == multiset(cs)
    ensures CanonicalChanges(Some(rs)) == Some(cs)
  {
    hide ReadChange, ChangeSays, IdsAscend, IdsDistinct, IdsSorted;
    assert |cs| == |multiset(cs)| == |multiset(given)| == |given|;
    AscendExactly(cs);
    ChangesRead(rs, given);
    DistinctByMembers(cs, given);
    DistinctByMembers(cs, SortById(given));
    SortedUnique(cs, SortById(given));
  }

  // -------------------------------------------------------------- guardrails

  /** The distinct names, ascending; none where there is no list. */
  ghost predicate ListsNames(v: Wire, ns: seq<string>) {
    NamesAscend(ns) &&
    if v.WNull? then ns == []
    else
      && v.WList? && (forall i :: 0 <= i < |v.items| ==> exists n :: n in ns && Trims(v.items[i], n))
      && forall n :: n in ns ==> exists i :: 0 <= i < |v.items| && Trims(v.items[i], n)
  }

  lemma SortedNamesAscend(s: set<string>)
    ensures NamesAscend(SortedNames(s))
  {
    hide Precedes;
    TextsEncodable(s);
    var ks, ns := SortedKeys(Texts(s)), SortedNames(s);
    forall i, j | 0 <= i < j < |ns| ensures Before(ns[i], ns[j]) {
      assert ks[i] in ks && ks[j] in ks;
      LessExactly(ks[i], ks[j]);
    }
  }

  function TextsOf(ns: seq<string>): seq<Text> {
    seq(|ns|, i requires 0 <= i < |ns| => Of(ns[i]))
  }

  /** There is one ascending list of a set of names. */
  lemma AscendingUnique(a: seq<string>, b: seq<string>)
    requires NamesAscend(a) && NamesAscend(b) && forall n :: n in a <==> n in b
    ensures a == b
  {
    hide Precedes;
    var x, y := TextsOf(a), TextsOf(b);
    forall s, t ensures Less(s, t) <==> Precedes(s, t) { LessExactly(s, t); }
    assert StrictlySorted(x) && StrictlySorted(y);
    forall t ensures t in x <==> t in y {
      NamedIn(a, b, t);
      NamedIn(b, a, t);
    }
    SortedListingUnique(x, y);
    forall i | 0 <= i < |a| ensures a[i] == b[i] {
      assert x[i] == y[i];
      OfInjective(a[i], b[i]);
    }
  }

  lemma NamedIn(a: seq<string>, b: seq<string>, t: Text)
    requires forall n :: n in a ==> n in b
    ensures t in TextsOf(a) ==> t in TextsOf(b)
  {
    if t in TextsOf(a) {
      var i :| 0 <= i < |a| && TextsOf(a)[i] == t;
      assert a[i] in b;
      var j :| 0 <= j < |b| && b[j] == a[i];
      assert TextsOf(b)[j] == t;
    }
  }

  lemma GuardrailsExactly(v: Wire, ns: seq<string>)
    ensures GuardrailSet(v).Some? && SortedNames(GuardrailSet(v).value) == ns <==> ListsNames(v, ns)
  {
    hide NonEmpty, Trims, SortedNames, NamesAscend;
    forall w, s ensures NonEmpty(w) == Some(s) <==> Trims(w, s) { NonEmptyExactly(w, s); }
    if GuardrailSet(v).Some? {
      var s := GuardrailSet(v).value;
      SortedNamesExact(s);
      SortedNamesAscend(s);
      if ListsNames(v, ns) {
        assert forall n :: n in ns <==> n in s;
        AscendingUnique(ns, SortedNames(s));
      }
    }
  }

  /** Absent and blank are the same. */
  ghost predicate ReadsRef(v: Wire, ref: string) {
    if ref == "" then v.WNull? || (v.WText? && Spaces(v.s)) else Trims(v, ref)
  }

  lemma RefExactly(v: Wire, ref: string)
    ensures GuardrailRef(v) == Some(ref) <==> ReadsRef(v, ref)
  {
    hide Strip;
    if v.WText? {
      StripExactly(v.s, ref);
      if Spaces(v.s) { assert v.s == v.s + "" + "" && Spaces(""); }
      if before, after :| Spaces(before) && Spaces(after) && v.s == before + "" + after { assert v.s == before + after; }
    }
  }

  // --------------------------------------------------------------- proposals

  ghost predicate TextsSay(r: RawProposal, p: Proposal, env: GatewayEnv) {
    && r.others == {} && Trims(r.v, "upgrade_proposal_v3") && Trims(r.id, p.id) && ' ' !in p.id
    && Trims(r.created, p.created) && env.timestampZ(p.created) && Trims(r.summary, p.summary)
    && Trims(r.domain, p.domain) && p.domain in {"SECURITY_THRESHOLDS", "BEHAVIOR_FLAGS", "POLICY_LIMITS", "RISK_RULES"}
    && Trims(r.action, p.action)
    && p.action in {"INCREASE_THRESHOLD", "DECREASE_THRESHOLD", "ADD_RULE", "REMOVE_RULE", "MODIFY_RULE"}
    && r.target.RawTarget? && r.target.others == {}
    && Trims(r.target.component, p.component) && Trims(r.target.version, p.version)
  }

  predicate SaysDict(v: Wire, fields: map<string, Wire>) {
    v == WDict(fields) || (v == WNull && fields == map[])
  }

  /** p is what r says, in canonical form, and r names the hash of that form. */
  ghost predicate ProposalSays(r: RawProposal, p: Proposal, env: GatewayEnv) {
    && TextsSay(r, p, env) && ListsChanges(r.changes, p.changes) && SaysDict(r.evidence, p.evidence)
    && ListsNames(r.guardrails, p.guardrails) && ReadsRef(r.guardrailsRef, p.guardrailsRef)
    && Trims(r.hash, env.proposalHash(p))
  }

  predicate TextsRead(r: RawProposal, p: Proposal, env: GatewayEnv) {
    && TextsHold(r, env) && NonEmpty(r.id).value == p.id && NonEmpty(r.created).value == p.created
    && NonEmpty(r.summary).value == p.summary && NonEmpty(r.domain).value == p.domain && NonEmpty(r.action).value == p.action
    && NonEmpty(r.target.component).value == p.component && NonEmpty(r.target.version).value == p.version
  }

  lemma TextsExactly(r: RawProposal, p: Proposal, env: GatewayEnv)
    ensures TextsRead(r, p, env) <==> TextsSay(r, p, env)
  {
    hide NonEmpty, Trims;
    forall w, s ensures NonEmpty(w) == Some(s) <==> Trims(w, s) { NonEmptyExactly(w, s); }
  }

  lemma CanonicalParts(r: RawProposal, p: Proposal, env: GatewayEnv)
    ensures Canonical(r, env) == Some(p) <==>
      && TextsRead(r, p, env) && CanonicalChanges(r.changes) == Some(p.changes) && Evidence(r.evidence) == Some(p.evidence)
      && GuardrailSet(r.guardrails).Some? && SortedNames(GuardrailSet(r.guardrails).value) == p.guardrails
      && GuardrailRef(r.guardrailsRef) == Some(p.guardrailsRef)
  {
    hide NonEmpty, CanonicalChanges, GuardrailSet, SortedNames, GuardrailRef, Evidence;
  }

  /** Validation accepts a proposal as exactly the canonical one it says. */
  lemma ValidatedExactly(r: RawProposal, p: Proposal, env: GatewayEnv)
    ensures Validated(r, env) == Some(p) <==> ProposalSays(r, p, env)
  {
    hide NonEmpty, Trims, Canonical, TextsRead, TextsSay, CanonicalChanges, ListsChanges, GuardrailSet, SortedNames,
      ListsNames,
      GuardrailRef, ReadsRef;
    CanonicalParts(r, p, env);
    TextsExactly(r, p, env);
    ChangesExactly(r.changes, p.changes);
    GuardrailsExactly(r.guardrails, p.guardrails);
    RefExactly(r.guardrailsRef, p.guardrailsRef);
    NonEmptyExactly(r.hash, env.proposalHash(p));
  }

  // ---------------------------------------------------------------- receipts

  predicate Calls(d: Decision, name: string) {
    match d
    case Approve => name == "APPROVE"
    case DenyDecision => name == "DENY"
  }

  ghost predicate ReceiptSays(r: RawReceipt, c: Receipt, env: GatewayEnv) {
    && r.others == {} && Trims(r.v, "ac_review_receipt_v1") && Trims(r.proposalId, c.proposalId)
    && Trims(r.proposalHash, c.proposalHash) && IsHex64(c.proposalHash)
    && (exists name :: Calls(c.decision, name) && Trims(r.decision, name))
    && Trims(r.reviewer, c.reviewer) && Trims(r.reviewed, c.reviewed) && env.timestampZ(c.reviewed)
    && Trims(r.notes, c.notes) && SaysDict(r.consequences, c.consequences) && Trims(r.hash, env.receiptHash(c))
  }

  lemma DecisionExactly(name: string, d: Decision)
    ensures DecisionOf(name) == Some(d) <==> Calls(d, name)
  {
    assert |"APPROVE"| == 7 && |"DENY"| == 4;
  }

  lemma ReceiptExactly(r: RawReceipt, c: Receipt, env: GatewayEnv)
    ensures ValidatedReceipt(r, env) == Some(c) <==> ReceiptSays(r, c, env)
  {
    hide NonEmpty, Trims, DecisionOf, Calls, IsHex64;
    forall w, s ensures NonEmpty(w) == Some(s) <==> Trims(w, s) { NonEmptyExactly(w, s); }
    forall name, d ensures DecisionOf(name) == Some(d) <==> Calls(d, name) { DecisionExactly(name, d); }
  }

  // -------------------------------------------------------------- evaluation

  /** The receipt is for this very proposal. */
  predicate Concerns(c: Receipt, p: Proposal, env: GatewayEnv) {
    c.proposalId == p.id && c.proposalHash == env.proposalHash(p)
  }

  ghost predicate Valid(r: RawProposal, env: GatewayEnv) {
    exists p :: ProposalSays(r, p, env)
  }

  ghost predicate ValidReceipt(r: RawReceipt, env: GatewayEnv) {
    exists c :: ReceiptSays(r, c, env)
  }

  /** A valid receipt with this decision, for this or for another proposal. */
  ghost predicate Answers(r: RawProposal, raw: RawReceipt, d: Decision, same: bool, env: GatewayEnv) {
    exists p, c ::
      ProposalSays(r, p, env) && ReceiptSays(raw, c, env) && (Concerns(c, p, env) <==> same) && c.decision == d
  }

  /** What each answer of the gateway is given for. */
  ghost predicate Deserves(reason: Reason, r: RawProposal, receipt: Option<RawReceipt>, required: bool, env: GatewayEnv) {
    match reason
    case ProposalInvalid => !Valid(r, env)
    case ReceiptMissing => Valid(r, env) && receipt.None? && required
    case ApprovedNoReceipt => Valid(r, env) && receipt.None? && !required
    case ReceiptInvalid => Valid(r, env) && receipt.Some? && !ValidReceipt(receipt.value, env)
    case ReceiptMismatch =>
      && receipt.Some?
      && (Answers(r, receipt.value, Approve, false, env) || Answers(r, receipt.value, DenyDecision, false, env))
    case ReceiptDeny => receipt.Some? && Answers(r, receipt.value, DenyDecision, true, env)
    case ReceiptApprove => receipt.Some? && Answers(r, receipt.value, Approve, true, env)
  }

  /** Each answer is given exactly when it is deserved, and only an approval, or no receipt where none is needed, allows. */
  lemma EvaluateExactly(r: RawProposal, receipt: Option<RawReceipt>, required: bool, env: GatewayEnv, reason: Reason)
    ensures Evaluate(r, receipt, required, env).reason == reason <==> Deserves(reason, r, receipt, required, env)
    ensures Evaluate(r, receipt, required, env).allow <==>
      Evaluate(r, receipt, required, env).reason in {ReceiptApprove, ApprovedNoReceipt}
  {
    hide Validated, ValidatedReceipt, ProposalSays, ReceiptSays;
    forall p ensures Validated(r, env) == Some(p) <==> ProposalSays(r, p, env) { ValidatedExactly(r, p, env); }
    if receipt.Some? {
      forall c ensures ValidatedReceipt(receipt.value, env) == Some(c) <==> ReceiptSays(receipt.value, c, env) {
        ReceiptExactly(receipt.value, c, env);
      }
    }
  }
}
