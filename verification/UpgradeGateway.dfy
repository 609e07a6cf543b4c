/** Upgrade proposals and review receipts: one canonical form, and receipts that evaluate to their own decision. */
module UpgradeGateway {
  import opened Wrappers
  import opened Strings
  import opened Trimming
  import opened ReceiptContract

  // --------------------------------------------------------------- raw objects

  /** A JSON object as its values under the known keys, null where there is none, and whatever other keys it has. */
  datatype RawChange = NotAChange | RawChange(others: set<string>, id: Wire, kind: Wire, detail: Wire)

  datatype RawTarget = NotATarget | RawTarget(others: set<string>, component: Wire, version: Wire)

  datatype RawProposal = RawProposal(
    others: set<string>, v: Wire, id: Wire, created: Wire, summary: Wire, domain: Wire, action: Wire,
    target: RawTarget, changes: Option<seq<RawChange>>, evidence: Wire, guardrails: Wire, guardrailsRef: Wire, hash: Wire)

  datatype RawReceipt = RawReceipt(
    others: set<string>, v: Wire, proposalId: Wire, proposalHash: Wire, decision: Wire, reviewer: Wire, reviewed: Wire,
    notes: Wire, consequences: Wire, hash: Wire)

  // ----------------------------------------------------------- canonical objects

  datatype Change = Change(id: string, kind: string, detail: string)

  datatype Proposal = Proposal(
    id: string, created: string, summary: string, domain: string, action: string, component: string, version: string,
    changes: seq<Change>, evidence: map<string, Wire>, guardrails: seq<string>, guardrailsRef: string)

  datatype Decision = Approve | DenyDecision

  datatype Receipt = Receipt(
    proposalId: string, proposalHash: string, decision: Decision, reviewer: string, reviewed: string, notes: string,
    consequences: map<string, Wire>)

  /** Timestamps and the hashes of canonical objects. */
  datatype GatewayEnv = GatewayEnv(
    timestampZ: string -> bool, proposalHash: Proposal -> HexDigest, receiptHash: Receipt -> HexDigest)

  const PROPOSAL_V := "upgrade_proposal_v3"
  const RECEIPT_V := "ac_review_receipt_v1"
  const CHANGE_TYPES := {"add", "modify", "deprecate", "remove"}
  const DOMAINS := {"SECURITY_THRESHOLDS", "BEHAVIOR_FLAGS", "POLICY_LIMITS", "RISK_RULES"}
  const ACTIONS := {"INCREASE_THRESHOLD", "DECREASE_THRESHOLD", "ADD_RULE", "REMOVE_RULE", "MODIFY_RULE"}

  // ---------------------------------------------------------------------- order

  /** Python's order on strings. */
  predicate StringLeq(a: string, b: string) {
    Leq(Of(a), Of(b))
  }

  lemma OfInjective(a: string, b: string)
    requires Of(a) == Of(b)
    ensures a == b
  {
    assert forall i :: 0 <= i < |a| ==> Of(a)[i] == a[i] as int && Of(b)[i] == b[i] as int;
  }

  lemma StringLeqAntisymmetric(a: string, b: string)
    requires StringLeq(a, b) && StringLeq(b, a)
    ensures a == b
  {
    LeqAntisymmetric(Of(a), Of(b));
    OfInjective(a, b);
  }

  predicate IdsSorted(cs: seq<Change>) {
    forall i, j :: 0 <= i < j < |cs| ==> StringLeq(cs[i].id, cs[j].id)
  }

  predicate IdsDistinct(cs: seq<Change>) {
    forall i, j :: 0 <= i < j < |cs| ==> cs[i].id != cs[j].id
  }

  /** Insertion into a sorted list of changes. */
  function Insert(c: Change, cs: seq<Change>): (r: seq<Change>)
    requires IdsSorted(cs)
    ensures IdsSorted(r) && multiset(r) == multiset{c} + multiset(cs)
  {
    if cs == [] then [c]
    else if StringLeq(c.id, cs[0].id) then
      InsertFront(c, cs);
      [c] + cs
    else
      var rest := Insert(c, cs[1..]);
      InsertLater(c, cs, rest);
      [cs[0]] + rest
  }

  lemma InsertFront(c: Change, cs: seq<Change>)
    requires cs != [] && IdsSorted(cs) && StringLeq(c.id, cs[0].id)
    ensures IdsSorted([c] + cs) && multiset([c] + cs) == multiset{c} + multiset(cs)
  {
    var r := [c] + cs;
    forall i, j | 0 <= i < j < |r| ensures StringLeq(r[i].id, r[j].id) {
      if i == 0 && j > 1 { LeqTransitive(Of(c.id), Of(cs[0].id), Of(cs[j - 1].id)); }
    }
  }

  lemma InsertLater(c: Change, cs: seq<Change>, rest: seq<Change>)
    requires cs != [] && IdsSorted(cs) && !StringLeq(c.id, cs[0].id)
    requires IdsSorted(rest) && multiset(rest) == multiset{c} + multiset(cs[1..])
    ensures IdsSorted([cs[0]] + rest) && multiset([cs[0]] + rest) == multiset{c} + multiset(cs)
  {
    LeqTotal(Of(c.id), Of(cs[0].id));
    assert cs == [cs[0]] + cs[1..];
    forall j | 0 <= j < |rest| ensures StringLeq(cs[0].id, rest[j].id) {
      assert rest[j] in multiset(rest);
      if rest[j] != c {
        assert rest[j] in cs[1..];
        var k :| 0 <= k < |cs| - 1 && cs[1..][k] == rest[j];
        assert cs[k + 1] == rest[j];
      }
    }
  }

  /** changes.sort(key=change_id) */
  function SortById(cs: seq<Change>): (r: seq<Change>)
    ensures IdsSorted(r) && multiset(r) == multiset(cs)
  {
    if cs == [] then []
    else
      assert cs == [cs[0]] + cs[1..];
      Insert(cs[0], SortById(cs[1..]))
  }

  lemma DistinctByMembers(cs: seq<Change>, ds: seq<Change>)
    requires multiset(cs) == multiset(ds) && IdsDistinct(cs)
    ensures IdsDistinct(ds)
  {
    forall i, j | 0 <= i < j < |ds| ensures ds[i].id != ds[j].id {
      assert ds[i] in multiset(cs) && ds[j] in multiset(cs);
      var k :| 0 <= k < |cs| && cs[k] == ds[i];
      var l :| 0 <= l < |cs| && cs[l] == ds[j];
      if k == l {
        TwiceInMultiset(ds, i, j);
        OnceInMultiset(cs, k);
      }
    }
  }

  lemma TwiceInMultiset(ds: seq<Change>, i: nat, j: nat)
    requires i < j < |ds| && ds[i] == ds[j]
    ensures multiset(ds)[ds[i]] >= 2
  {
    assert ds == ds[..i] + [ds[i]] + ds[i + 1..j] + [ds[j]] + ds[j + 1..];
  }

  lemma OnceInMultiset(cs: seq<Change>, k: nat)
    requires k < |cs| && IdsDistinct(cs)
    ensures multiset(cs)[cs[k]] == 1
  {
    assert cs == cs[..k] + [cs[k]] + cs[k + 1..];
    assert cs[k] !in cs[..k] && cs[k] !in cs[k + 1..];
  }

  /** With distinct ids there is only one sorted arrangement, so the input order is forgotten. */
  lemma {:induction false} SortedUnique(cs: seq<Change>, ds: seq<Change>)
    requires IdsSorted(cs) && IdsSorted(ds) && IdsDistinct(cs) && multiset(cs) == multiset(ds)
    ensures cs == ds
  {
    hide IdsSorted, IdsDistinct;
    assert |cs| == |multiset(cs)| == |multiset(ds)| == |ds|;
    if cs != [] {
      assert cs[0] in multiset(cs) && ds[0] in multiset(ds);
      var k :| 0 <= k < |ds| && ds[k] == cs[0];
      var l :| 0 <= l < |cs| && cs[l] == ds[0];
      HeadsAgree(cs, ds, k, l);
      TailOrdered(cs);
      TailOrdered(ds);
      SortedUnique(cs[1..], ds[1..]);
    }
  }

  lemma TailOrdered(cs: seq<Change>)
    requires cs != [] && IdsSorted(cs)
    ensures IdsSorted(cs[1..]) && (IdsDistinct(cs) ==> IdsDistinct(cs[1..]))
    ensures multiset(cs[1..]) == multiset(cs) - multiset{cs[0]} && cs == [cs[0]] + cs[1..]
  {
    TailMultiset(cs);
  }

  lemma TailMultiset(cs: seq<Change>)
    requires cs != []
    ensures multiset(cs[1..]) == multiset(cs) - multiset{cs[0]} && cs == [cs[0]] + cs[1..]
  {
    assert cs == [cs[0]] + cs[1..];
  }

  lemma HeadsAgree(cs: seq<Change>, ds: seq<Change>, k: nat, l: nat)
    requires IdsSorted(cs) && IdsSorted(ds) && IdsDistinct(cs)
    requires k < |ds| && l < |cs| && ds[k] == cs[0] && cs[l] == ds[0]
    ensures cs[0] == ds[0]
  {
    if l > 0 && k > 0 { StringLeqAntisymmetric(cs[0].id, ds[0].id); }
  }

  // ----------------------------------------------------------------- guardrails

  function FromText(t: Text): (s: string)
    requires Encodable(t)
    ensures Of(s) == t
  {
    seq(|t|, i requires 0 <= i < |t| => t[i] as char)
  }

  lemma TextOfString(s: string)
    ensures Encodable(Of(s)) && FromText(Of(s)) == s
  {
    OfInjective(FromText(Of(s)), s);
  }

  function Texts(s: set<string>): set<Text> {
    set x | x in s :: Of(x)
  }

  /** sorted(set(...)) */
  function SortedNames(s: set<string>): seq<string> {
    TextsEncodable(s);
    var ks := SortedKeys(Texts(s));
    seq(|ks|, i requires 0 <= i < |ks| => FromText(ks[i]))
  }

  lemma TextsEncodable(s: set<string>)
    ensures forall t :: t in SortedKeys(Texts(s)) ==> Encodable(t)
  {
    forall t | t in SortedKeys(Texts(s)) ensures Encodable(t) {
      var x :| x in s && Of(x) == t;
      TextOfString(x);
    }
  }

  /** The listing holds exactly the set, once each. */
  lemma SortedNamesExact(s: set<string>)
    ensures forall x :: x in SortedNames(s) <==> x in s
    ensures |SortedNames(s)| == |SortedKeys(Texts(s))|
  {
    TextsEncodable(s);
    var ks, ns := SortedKeys(Texts(s)), SortedNames(s);
    forall x | x in s ensures x in ns {
      assert Of(x) in ks;
      var i :| 0 <= i < |ks| && ks[i] == Of(x);
      TextOfString(x);
      assert ns[i] == x;
    }
    forall x | x in ns ensures x in s {
      var i :| 0 <= i < |ns| && ns[i] == x;
      assert ks[i] in ks;
      var y :| y in s && Of(y) == ks[i];
      TextOfString(y);
    }
  }

  predicate AllNamed(items: seq<Wire>) {
    forall i :: 0 <= i < |items| ==> NonEmpty(items[i]).Some?
  }

  function NamesOf(items: seq<Wire>): set<string>
    requires AllNamed(items)
  {
    set i | 0 <= i < |items| :: NonEmpty(items[i]).value
  }

  /** _canon_guardrails, the list. */
  function GuardrailSet(v: Wire): Option<set<string>> {
    if v.WNull? then Some({})
    else if v.WList? && AllNamed(v.items) then Some(NamesOf(v.items))
    else None
  }

  /** _canon_guardrails, the reference: absent and blank are the same. */
  function GuardrailRef(v: Wire): Option<string> {
    if v.WNull? then Some("") else if v.WText? then Some(Strip(v.s)) else None
  }

  // ------------------------------------------------------------------- proposals

  function ReadChange(r: RawChange): Option<Change> {
    if !r.RawChange? || r.others != {} || NonEmpty(r.id).None? || NonEmpty(r.kind).None? || NonEmpty(r.detail).None?
      || NonEmpty(r.kind).value !in CHANGE_TYPES
    then None
    else Some(Change(NonEmpty(r.id).value, NonEmpty(r.kind).value, NonEmpty(r.detail).value))
  }

  predicate ChangesReadable(rs: seq<RawChange>) {
    rs != [] && forall i :: 0 <= i < |rs| ==> ReadChange(rs[i]).Some?
  }

  function ReadChanges(rs: seq<RawChange>): seq<Change>
    requires ChangesReadable(rs)
  {
    seq(|rs|, i requires 0 <= i < |rs| => ReadChange(rs[i]).value)
  }

  /** The distinct, sorted changes, or nothing. */
  function CanonicalChanges(c: Option<seq<RawChange>>): Option<seq<Change>> {
    if c.None? || !ChangesReadable(c.value) || !IdsDistinct(ReadChanges(c.value)) then None
    else Some(SortById(ReadChanges(c.value)))
  }

  predicate NoSpace(s: string) {
    ' ' !in s
  }

  function Evidence(v: Wire): Option<map<string, Wire>> {
    if v.WNull? then Some(map[]) else if v.WDict? then Some(v.fields) else None
  }

  /** The scalar fields, each stripped and within its vocabulary. */
  predicate TextsHold(r: RawProposal, env: GatewayEnv) {
    && r.others == {} && NonEmpty(r.v) == Some(PROPOSAL_V)
    && NonEmpty(r.id).Some? && NoSpace(NonEmpty(r.id).value)
    && NonEmpty(r.created).Some? && env.timestampZ(NonEmpty(r.created).value) && NonEmpty(r.summary).Some?
    && NonEmpty(r.domain).Some? && NonEmpty(r.domain).value in DOMAINS
    && NonEmpty(r.action).Some? && NonEmpty(r.action).value in ACTIONS
    && r.target.RawTarget? && r.target.others == {}
    && NonEmpty(r.target.component).Some? && NonEmpty(r.target.version).Some?
  }

  /** The canonical proposal, before its hash is compared. */
  function Canonical(r: RawProposal, env: GatewayEnv): Option<Proposal> {
    if !TextsHold(r, env) || CanonicalChanges(r.changes).None? || Evidence(r.evidence).None?
      || GuardrailSet(r.guardrails).None? || GuardrailRef(r.guardrailsRef).None?
    then None
    else Some(Proposal(
      NonEmpty(r.id).value, NonEmpty(r.created).value, NonEmpty(r.summary).value, NonEmpty(r.domain).value,
      NonEmpty(r.action).value, NonEmpty(r.target.component).value, NonEmpty(r.target.version).value,
      CanonicalChanges(r.changes).value, Evidence(r.evidence).value,
      SortedNames(GuardrailSet(r.guardrails).value), GuardrailRef(r.guardrailsRef).value))
  }

  /** A validated proposal: canonical, and carrying its own hash. */
  function Validated(r: RawProposal, env: GatewayEnv): Option<Proposal> {
    match Canonical(r, env)
    case None => None
    case Some(p) => if NonEmpty(r.hash) == Some(env.proposalHash(p)) then Some(p) else None
  }

  /** validate_and_canonicalize_upgrade_proposal_v3 */
  method ValidateProposal(r: RawProposal, env: GatewayEnv) returns (p: Option<Proposal>)
    ensures p == Validated(r, env)
  {
    hide NonEmpty, TextsHold, SortById, SortedNames, IsHex64;
    if !TextsHold(r, env) { return None; }
    var changes := CollectChanges(r.changes);
    if changes.None? { return None; }
    var sorted := SortById(changes.value);
    if Evidence(r.evidence).None? { return None; }
    var guardrails := CanonGuardrails(r.guardrails);
    if guardrails.None? || GuardrailRef(r.guardrailsRef).None? { return None; }
    TextsNamed(r, env);
    var canonical := Proposal(
      NonEmpty(r.id).value, NonEmpty(r.created).value, NonEmpty(r.summary).value, NonEmpty(r.domain).value,
      NonEmpty(r.action).value, NonEmpty(r.target.component).value, NonEmpty(r.target.version).value,
      sorted, Evidence(r.evidence).value, guardrails.value, GuardrailRef(r.guardrailsRef).value);
    var hash := NonEmpty(r.hash);
    if hash.None? || !IsHex64(hash.value) { return None; }
    if hash.value != env.proposalHash(canonical) { return None; }
    return Some(canonical);
  }

  lemma TextsNamed(r: RawProposal, env: GatewayEnv)
    requires TextsHold(r, env)
    ensures NonEmpty(r.id).Some? && NonEmpty(r.created).Some? && NonEmpty(r.summary).Some? && NonEmpty(r.domain).Some?
    ensures NonEmpty(r.action).Some? && r.target.RawTarget?
    ensures NonEmpty(r.target.component).Some? && NonEmpty(r.target.version).Some?
  {
    hide NonEmpty;
  }

  /** The change loop, with its seen-set. */
  method CollectChanges(c: Option<seq<RawChange>>) returns (cs: Option<seq<Change>>)
    ensures cs.Some? <==> c.Some? && ChangesReadable(c.value) && IdsDistinct(ReadChanges(c.value))
    ensures cs.Some? ==> cs.value == ReadChanges(c.value)
  {
    hide ReadChange;
    if c.None? || c.value == [] { return None; }
    var rs := c.value;
    var out: seq<Change> := [];
    var seen: set<string> := {};
    for i := 0 to |rs|
      invariant |out| == i && forall j :: 0 <= j < i ==> ReadChange(rs[j]) == Some(out[j])
      invariant seen == set j | 0 <= j < i :: out[j].id
      invariant IdsDistinct(out)
    {
      var change := ReadChange(rs[i]);
      if change.None? { return None; }
      if change.value.id in seen {
        DuplicateFound(rs, out, i, change.value);
        return None;
      }
      seen := seen + {change.value.id};
      out := out + [change.value];
    }
    assert out == ReadChanges(rs);
    cs := Some(out);
  }

  lemma DuplicateFound(rs: seq<RawChange>, out: seq<Change>, i: nat, c: Change)
    requires i < |rs| && |out| == i && ReadChange(rs[i]) == Some(c)
    requires forall j :: 0 <= j < i ==> ReadChange(rs[j]) == Some(out[j])
    requires exists j :: 0 <= j < i && out[j].id == c.id
    ensures ChangesReadable(rs) ==> !IdsDistinct(ReadChanges(rs))
  {
    hide ReadChange;
    var j :| 0 <= j < i && out[j].id == c.id;
    if ChangesReadable(rs) {
      assert ReadChanges(rs)[j] == out[j] && ReadChanges(rs)[i] == c;
    }
  }

  /** The guardrail loop. */
  method CanonGuardrails(v: Wire) returns (r: Option<seq<string>>)
    ensures r == match GuardrailSet(v) case None => None case Some(s) => Some(SortedNames(s))
  {
    hide NonEmpty, SortedNames;
    if v.WNull? { return Some(SortedNames({})); }
    if !v.WList? { return None; }
    var names: set<string> := {};
    for i := 0 to |v.items|
      invariant forall j :: 0 <= j < i ==> NonEmpty(v.items[j]).Some?
      invariant names == set j | 0 <= j < i && NonEmpty(v.items[j]).Some? :: NonEmpty(v.items[j]).value
    {
      var name := NonEmpty(v.items[i]);
      if name.None? { return None; }
      names := names + {name.value};
    }
    assert names == NamesOf(v.items);
    return Some(SortedNames(names));
  }

  // ------------------------------------------------------- one canonical form

  function Named(ns: seq<string>): Wire {
    WList(seq(|ns|, i requires 0 <= i < |ns| => WText(ns[i])))
  }

  function RawChangeOf(c: Change): RawChange {
    RawChange({}, WText(c.id), WText(c.kind), WText(c.detail))
  }

  function RawChangesOf(cs: seq<Change>): seq<RawChange> {
    seq(|cs|, i requires 0 <= i < |cs| => RawChangeOf(cs[i]))
  }

  /** The canonical dictionary, as the next caller would pass it in. */
  function RawOf(p: Proposal, hash: string): RawProposal {
    RawProposal({}, WText(PROPOSAL_V), WText(p.id), WText(p.created), WText(p.summary), WText(p.domain), WText(p.action),
                RawTarget({}, WText(p.component), WText(p.version)), Some(RawChangesOf(p.changes)), WDict(p.evidence),
                Named(p.guardrails), WText(p.guardrailsRef), WText(hash))
  }

  lemma NonEmptyAgain(v: Wire)
    requires NonEmpty(v).Some?
    ensures NonEmpty(WText(NonEmpty(v).value)) == NonEmpty(v)
  {
    StripIdempotent(v.s);
  }

  lemma ReadAgain(r: RawChange)
    requires ReadChange(r).Some?
    ensures ReadChange(RawChangeOf(ReadChange(r).value)) == ReadChange(r)
  {
    NonEmptyAgain(r.id);
    NonEmptyAgain(r.kind);
    NonEmptyAgain(r.detail);
  }

  lemma ChangesAgain(c: Option<seq<RawChange>>)
    requires CanonicalChanges(c).Some?
    ensures CanonicalChanges(Some(RawChangesOf(CanonicalChanges(c).value))) == CanonicalChanges(c)
  {
    hide ReadChange, SortById;
    var read, sorted := ReadChanges(c.value), CanonicalChanges(c).value;
    var raw := RawChangesOf(sorted);
    DistinctByMembers(read, sorted);
    assert |sorted| == |multiset(sorted)| == |multiset(read)| == |read|;
    forall i | 0 <= i < |sorted| ensures ReadChange(raw[i]) == Some(sorted[i]) {
      assert sorted[i] in multiset(read);
      var j :| 0 <= j < |read| && read[j] == sorted[i];
      ReadAgain(c.value[j]);
    }
    assert ReadChanges(raw) == sorted;
    SortedUnique(sorted, SortById(sorted));
  }

  lemma GuardrailsAgain(v: Wire)
    requires GuardrailSet(v).Some?
    ensures GuardrailSet(Named(SortedNames(GuardrailSet(v).value))) == GuardrailSet(v)
  {
    hide SortedNames, NonEmpty;
    var s := GuardrailSet(v).value;
    var ns := SortedNames(s);
    SortedNamesExact(s);
    var items := Named(ns).items;
    forall i | 0 <= i < |items| ensures NonEmpty(items[i]) == Some(ns[i]) {
      assert ns[i] in ns;
      var j :| 0 <= j < |v.items| && NonEmpty(v.items[j]).value == ns[i];
      NonEmptyAgain(v.items[j]);
    }
    assert NamesOf(items) == s by {
      forall x | x in s ensures x in NamesOf(items) {
        var i :| 0 <= i < |ns| && ns[i] == x;
        assert NonEmpty(items[i]).value == x;
      }
      forall x | x in NamesOf(items) ensures x in s {
        var i :| 0 <= i < |items| && NonEmpty(items[i]).value == x;
        assert ns[i] in ns;
      }
    }
  }

  lemma TextsAgain(r: RawProposal, env: GatewayEnv, p: Proposal, hash: string)
    requires Canonical(r, env) == Some(p)
    ensures TextsHold(RawOf(p, hash), env)
    ensures var q := RawOf(p, hash);
      && NonEmpty(q.id) == Some(p.id) && NonEmpty(q.created) == Some(p.created) && NonEmpty(q.summary) == Some(p.summary)
      && NonEmpty(q.domain) == Some(p.domain) && NonEmpty(q.action) == Some(p.action)
      && NonEmpty(q.target.component) == Some(p.component) && NonEmpty(q.target.version) == Some(p.version)
      && GuardrailRef(q.guardrailsRef) == Some(p.guardrailsRef)
  {
    hide NonEmpty, SortedNames, CanonicalChanges, Strip;
    NonEmptyAgain(r.v);
    NonEmptyAgain(r.id);
    NonEmptyAgain(r.created);
    NonEmptyAgain(r.summary);
    NonEmptyAgain(r.domain);
    NonEmptyAgain(r.action);
    NonEmptyAgain(r.target.component);
    NonEmptyAgain(r.target.version);
    RefAgain(r.guardrailsRef);
  }

  lemma RefAgain(v: Wire)
    requires GuardrailRef(v).Some?
    ensures GuardrailRef(WText(GuardrailRef(v).value)) == GuardrailRef(v)
  {
    if v.WText? { StripIdempotent(v.s); } else { StripFixes(""); }
  }

  /** Canonicalizing is idempotent: a canonical proposal validates to itself. */
  lemma CanonicalizationIdempotent(r: RawProposal, env: GatewayEnv)
    requires Validated(r, env).Some?
    ensures var p := Validated(r, env).value; Validated(RawOf(p, env.proposalHash(p)), env) == Some(p)
  {
    hide NonEmpty, SortedNames, CanonicalChanges, TextsHold, GuardrailSet, GuardrailRef;
    var p := Validated(r, env).value;
    TextsAgain(r, env, p, env.proposalHash(p));
    ChangesAgain(r.changes);
    GuardrailsAgain(r.guardrails);
    DigestIsText(env.proposalHash(p));
  }

  lemma DigestIsText(h: HexDigest)
    ensures NonEmpty(WText(h)) == Some(h)
  {
    StripFixes(h);
  }

  // --------------------------------------------- what canonicalizing forgets

  predicate SameText(a: Wire, b: Wire) {
    NonEmpty(a) == NonEmpty(b)
  }

  /** The same proposal, up to order of changes, order and repetition of guardrails, and surrounding whitespace. */
  predicate Equivalent(a: RawProposal, b: RawProposal) {
    && SameScalars(a, b) && SameChanges(a.changes, b.changes)
    && GuardrailSet(a.guardrails) == GuardrailSet(b.guardrails) && GuardrailRef(a.guardrailsRef) == GuardrailRef(b.guardrailsRef)
  }

  predicate SameChanges(a: Option<seq<RawChange>>, b: Option<seq<RawChange>>) {
    match (a, b)
    case (Some(rs), Some(qs)) =>
      (ChangesReadable(rs) <==> ChangesReadable(qs))
      && (ChangesReadable(rs) ==> multiset(ReadChanges(rs)) == multiset(ReadChanges(qs)))
    case (None, None) => true
    case _ => false
  }

  lemma ChangeOrderForgotten(a: Option<seq<RawChange>>, b: Option<seq<RawChange>>)
    requires SameChanges(a, b)
    ensures CanonicalChanges(a) == CanonicalChanges(b)
  {
    hide ReadChange, SortById;
    if a.Some? && ChangesReadable(a.value) {
      var cs, ds := ReadChanges(a.value), ReadChanges(b.value);
      if IdsDistinct(cs) {
        DistinctByMembers(cs, ds);
        DistinctByMembers(cs, SortById(cs));
        SortedUnique(SortById(cs), SortById(ds));
      } else if IdsDistinct(ds) {
        DistinctByMembers(ds, cs);
      }
    }
  }

  /** Equivalent proposals canonicalize, validate and hash alike. */
  lemma EquivalentValidateAlike(a: RawProposal, b: RawProposal, env: GatewayEnv)
    requires Equivalent(a, b)
    ensures Validated(a, env) == Validated(b, env)
  {
    hide NonEmpty, SortedNames, CanonicalChanges, GuardrailSet, GuardrailRef, SameChanges;
    ChangeOrderForgotten(a.changes, b.changes);
  }

  /** Guardrail lists with the same names, in any order and number and however padded, are one guardrail set. */
  lemma GuardrailsForgetOrder(a: seq<Wire>, b: seq<Wire>)
    requires NamedAmong(a, b) && NamedAmong(b, a)
    ensures GuardrailSet(WList(a)) == GuardrailSet(WList(b))
  {
    hide NonEmpty;
    if AllNamed(a) {
      AmongNamed(b, a);
      AmongNamed(a, b);
      assert NamesOf(a) == NamesOf(b);
    } else if AllNamed(b) {
      AmongNamed(a, b);
    }
  }

  /** Every entry of a stands in b too, up to padding. */
  predicate NamedAmong(a: seq<Wire>, b: seq<Wire>) {
    forall i :: 0 <= i < |a| ==> exists j :: 0 <= j < |b| && SameText(a[i], b[j])
  }

  lemma AmongNamed(a: seq<Wire>, b: seq<Wire>)
    requires NamedAmong(a, b) && AllNamed(b)
    ensures AllNamed(a) && NamesOf(a) <= NamesOf(b)
  {
    hide NonEmpty;
    forall i | 0 <= i < |a| ensures NonEmpty(a[i]).Some? && NonEmpty(a[i]).value in NamesOf(b) {
      var j :| 0 <= j < |b| && SameText(a[i], b[j]);
    }
  }

  /** Padding a text changes nothing. */
  lemma PaddingForgotten(before: string, s: string, after: string)
    requires (forall c :: c in before ==> IsSpace(c)) && (forall c :: c in after ==> IsSpace(c))
    ensures SameText(WText(before + s + after), WText(s))
  {
    StripIgnoresPadding(before, s, after);
  }

  lemma RefPaddingForgotten(before: string, s: string, after: string)
    requires (forall c :: c in before ==> IsSpace(c)) && (forall c :: c in after ==> IsSpace(c))
    ensures GuardrailRef(WText(before + s + after)) == GuardrailRef(WText(s))
  {
    StripIgnoresPadding(before, s, after);
  }

  // ------------------------------------------- restatements a caller can make

  /** The same change, up to padding of its texts. */
  predicate Restates(a: RawChange, b: RawChange) {
    match (a, b)
    case (RawChange(others, id, kind, detail), RawChange(others', id', kind', detail')) =>
      others == others' && SameText(id, id') && SameText(kind, kind') && SameText(detail, detail')
    case (NotAChange, NotAChange) => true
    case _ => false
  }

  /** The changes of a, put in another order and padded differently, are those of b. */
  predicate Rearranged(a: seq<RawChange>, order: seq<RawChange>, b: seq<RawChange>) {
    multiset(a) == multiset(order) && |order| == |b| && forall i :: 0 <= i < |b| ==> Restates(order[i], b[i])
  }

  function Readings(rs: seq<RawChange>): seq<Option<Change>> {
    seq(|rs|, i requires 0 <= i < |rs| => ReadChange(rs[i]))
  }

  lemma {:induction false} PermutedReads(rs: seq<RawChange>, qs: seq<RawChange>)
    requires multiset(rs) == multiset(qs)
    ensures multiset(Readings(rs)) == multiset(Readings(qs))
  {
    hide ReadChange, Readings;
    if rs == [] {
      assert |qs| == |multiset(qs)| == 0;
    } else {
      assert rs[0] in multiset(qs);
      var j :| 0 <= j < |qs| && qs[j] == rs[0];
      TakeOut(rs, 0);
      TakeOut(qs, j);
      assert rs[..0] + rs[1..] == rs[1..];
      assert multiset(rs[1..]) == multiset(rs) - multiset{rs[0]} == multiset(qs[..j] + qs[j + 1..]);
      PermutedReads(rs[1..], qs[..j] + qs[j + 1..]);
    }
  }

  /** Taking out one change takes out its reading. */
  lemma TakeOut(rs: seq<RawChange>, j: nat)
    requires j < |rs|
    ensures multiset(rs) == multiset{rs[j]} + multiset(rs[..j] + rs[j + 1..])
    ensures multiset(Readings(rs)) == multiset{ReadChange(rs[j])} + multiset(Readings(rs[..j] + rs[j + 1..]))
  {
    hide ReadChange;
    assert rs == rs[..j] + [rs[j]] + rs[j + 1..];
    assert Readings(rs) == Readings(rs[..j]) + [ReadChange(rs[j])] + Readings(rs[j + 1..]);
    assert Readings(rs[..j] + rs[j + 1..]) == Readings(rs[..j]) + Readings(rs[j + 1..]);
  }

  lemma ReadableMeans(rs: seq<RawChange>)
    ensures ChangesReadable(rs) <==> rs != [] && None !in multiset(Readings(rs))
    ensures ChangesReadable(rs) ==> Readings(rs) == Wrapped(ReadChanges(rs))
  {
    hide ReadChange;
    assert forall i :: 0 <= i < |rs| ==> Readings(rs)[i] == ReadChange(rs[i]);
    assert forall x :: x in multiset(Readings(rs)) <==> x in Readings(rs);
    if ChangesReadable(rs) { assert Readings(rs) == Wrapped(ReadChanges(rs)); }
  }

  /** The readings decide which changes there are, in whatever order. */
  lemma ReadingsDecide(rs: seq<RawChange>, qs: seq<RawChange>)
    requires multiset(Readings(rs)) == multiset(Readings(qs))
    ensures SameChanges(Some(rs), Some(qs))
  {
    hide ReadChange, ChangesReadable, ReadChanges;
    assert |rs| == |multiset(Readings(rs))| == |multiset(Readings(qs))| == |qs|;
    ReadableMeans(rs);
    ReadableMeans(qs);
    if ChangesReadable(rs) {
      forall c ensures multiset(ReadChanges(rs))[c] == multiset(ReadChanges(qs))[c] {
        WrappedCounts(ReadChanges(rs), c);
        WrappedCounts(ReadChanges(qs), c);
      }
    }
  }

  function Wrapped(cs: seq<Change>): seq<Option<Change>> {
    seq(|cs|, i requires 0 <= i < |cs| => Some(cs[i]))
  }

  lemma {:induction false} WrappedCounts(cs: seq<Change>, c: Change)
    ensures multiset(Wrapped(cs))[Some(c)] == multiset(cs)[c]
  {
    if cs != [] {
      WrappedCounts(cs[1..], c);
      assert cs == [cs[0]] + cs[1..] && Wrapped(cs) == [Some(cs[0])] + Wrapped(cs[1..]);
    }
  }

  lemma RearrangedSame(a: seq<RawChange>, order: seq<RawChange>, b: seq<RawChange>)
    requires Rearranged(a, order, b)
    ensures SameChanges(Some(a), Some(b))
  {
    PermutedReads(a, order);
    forall i | 0 <= i < |b| ensures ReadChange(order[i]) == ReadChange(b[i]) { RestatedReads(order[i], b[i]); }
    assert Readings(order) == Readings(b);
    ReadingsDecide(a, b);
  }

  lemma RestatedReads(a: RawChange, b: RawChange)
    requires Restates(a, b)
    ensures ReadChange(a) == ReadChange(b)
  {
  }

  /** Equal scalar fields, up to padding. */
  predicate SameScalars(a: RawProposal, b: RawProposal) {
    && a.others == b.others && SameText(a.v, b.v) && SameText(a.id, b.id) && SameText(a.created, b.created)
    && SameText(a.summary, b.summary) && SameText(a.domain, b.domain) && SameText(a.action, b.action)
    && SameText(a.hash, b.hash) && a.evidence == b.evidence
    && (a.target.RawTarget? <==> b.target.RawTarget?)
    && (a.target.RawTarget? ==>
          && a.target.others == b.target.others && SameText(a.target.component, b.target.component)
          && SameText(a.target.version, b.target.version))
  }

  predicate SameNames(a: Wire, b: Wire) {
    a.WList? && b.WList? && NamedAmong(a.items, b.items) && NamedAmong(b.items, a.items)
  }

  lemma SameChangesReflexive(c: Option<seq<RawChange>>)
    ensures SameChanges(c, c)
  {
  }

  /**
   * What a caller may do to a proposal without changing its canonical form: pad any text, put the changes in another
   * order, and put the guardrails in another order or repeat them.
   */
  lemma RestatedValidatesAlike(a: RawProposal, order: seq<RawChange>, b: RawProposal, env: GatewayEnv)
    requires SameScalars(a, b)
    requires a.changes == b.changes
      || (a.changes.Some? && b.changes.Some? && Rearranged(a.changes.value, order, b.changes.value))
    requires a.guardrails == b.guardrails || SameNames(a.guardrails, b.guardrails)
    requires a.guardrailsRef == b.guardrailsRef
      || (a.guardrailsRef.WText? && b.guardrailsRef.WText? && Strip(a.guardrailsRef.s) == Strip(b.guardrailsRef.s))
    ensures Equivalent(a, b) && Validated(a, env) == Validated(b, env)
  {
    hide Validated, SameChanges, Rearranged, GuardrailSet, SameText;
    if a.changes != b.changes { RearrangedSame(a.changes.value, order, b.changes.value); }
    if a.guardrails != b.guardrails { GuardrailsForgetOrder(a.guardrails.items, b.guardrails.items); }
    assert SameChanges(a.changes, b.changes) by { SameChangesReflexive(a.changes); }
    EquivalentValidateAlike(a, b, env);
  }

  // -------------------------------------------------------------------- receipts

  function DecisionOf(s: string): Option<Decision> {
    if s == "APPROVE" then Some(Approve) else if s == "DENY" then Some(DenyDecision) else None
  }

  function DecisionName(d: Decision): string {
    if d.Approve? then "APPROVE" else "DENY"
  }

  /** The receipt of a decision on a proposal, reviewer and notes as given. */
  function Reviewed(p: Proposal, d: Decision, reviewer: string, notes: string, consequences: map<string, Wire>,
                    env: GatewayEnv): Receipt
  {
    Receipt(p.id, env.proposalHash(p), d, reviewer, p.created, notes, consequences)
  }

  /** build_review_receipt_v1: reviewer and notes go in as given, and are hashed as given. */
  function BuildReceipt(p: Proposal, d: Decision, reviewer: string, notes: string, consequences: map<string, Wire>,
                        env: GatewayEnv): RawReceipt
  {
    var hash := env.receiptHash(Reviewed(p, d, reviewer, notes, consequences, env));
    RawReceipt({}, WText(RECEIPT_V), WText(p.id), WText(env.proposalHash(p)), WText(DecisionName(d)), WText(reviewer),
               WText(p.created), WText(notes), WDict(consequences), WText(hash))
  }

  predicate ReceiptTextsHold(r: RawReceipt, env: GatewayEnv) {
    && r.others == {} && NonEmpty(r.v) == Some(RECEIPT_V) && NonEmpty(r.proposalId).Some?
    && NonEmpty(r.proposalHash).Some? && IsHex64(NonEmpty(r.proposalHash).value)
    && NonEmpty(r.decision).Some? && DecisionOf(NonEmpty(r.decision).value).Some?
    && NonEmpty(r.reviewer).Some? && NonEmpty(r.reviewed).Some? && env.timestampZ(NonEmpty(r.reviewed).value)
    && NonEmpty(r.notes).Some? && Evidence(r.consequences).Some?
  }

  /** validate_and_canonicalize_review_receipt_v1 */
  function ValidatedReceipt(r: RawReceipt, env: GatewayEnv): Option<Receipt> {
    if !ReceiptTextsHold(r, env) then None
    else
      var c := Receipt(NonEmpty(r.proposalId).value, NonEmpty(r.proposalHash).value,
                       DecisionOf(NonEmpty(r.decision).value).value, NonEmpty(r.reviewer).value,
                       NonEmpty(r.reviewed).value, NonEmpty(r.notes).value, Evidence(r.consequences).value);
      if NonEmpty(r.hash) == Some(env.receiptHash(c)) then Some(c) else None
  }

  datatype Reason = ProposalInvalid | ReceiptMissing | ApprovedNoReceipt | ReceiptInvalid | ReceiptMismatch | ReceiptDeny
    | ReceiptApprove

  datatype Verdict = Verdict(allow: bool, reason: Reason)

  /** evaluate_upgrade_request_v1 */
  function Evaluate(r: RawProposal, receipt: Option<RawReceipt>, requireReceipt: bool, env: GatewayEnv): Verdict {
    match Validated(r, env)
    case None => Verdict(false, ProposalInvalid)
    case Some(p) =>
      match receipt
      case None => if requireReceipt then Verdict(false, ReceiptMissing) else Verdict(true, ApprovedNoReceipt)
      case Some(raw) =>
        match ValidatedReceipt(raw, env)
        case None => Verdict(false, ReceiptInvalid)
        case Some(c) =>
          if c.proposalId != p.id || c.proposalHash != env.proposalHash(p) then Verdict(false, ReceiptMismatch)
          else if c.decision.DenyDecision? then Verdict(false, ReceiptDeny)
          else Verdict(true, ReceiptApprove)
  }

  /** With a receipt required, an upgrade is let through only on an approval bound to this very proposal. */
  lemma ApprovalIsBound(r: RawProposal, receipt: Option<RawReceipt>, env: GatewayEnv)
    requires Evaluate(r, receipt, true, env).allow
    ensures Validated(r, env).Some? && receipt.Some? && ValidatedReceipt(receipt.value, env).Some?
    ensures var p, c := Validated(r, env).value, ValidatedReceipt(receipt.value, env).value;
      c.proposalId == p.id && c.proposalHash == env.proposalHash(p) && c.decision == Approve
  {
    hide TextsHold, ReceiptTextsHold;
  }

  predicate PlainText(s: string) {
    s != "" && Strip(s) == s
  }

  lemma PlainIsNonEmpty(s: string)
    ensures NonEmpty(WText(s)) == Some(s) <==> PlainText(s)
  {
  }

  lemma ConstantsPlain()
    ensures PlainText(RECEIPT_V) && PlainText("APPROVE") && PlainText("DENY")
  {
    StripFixes(RECEIPT_V);
    StripFixes("APPROVE");
    StripFixes("DENY");
  }

  lemma DecisionsDiffer(d: Decision)
    ensures DecisionOf(DecisionName(d)) == Some(d)
  {
    assert |"APPROVE"| == 7 && |"DENY"| == 4;
  }

  lemma CanonicalTextsPlain(r: RawProposal, p: Proposal, env: GatewayEnv)
    requires Canonical(r, env) == Some(p)
    ensures PlainText(p.id) && PlainText(p.created) && env.timestampZ(p.created)
  {
    hide SortedNames, CanonicalChanges, Strip;
    NonEmptyAgain(r.id);
    NonEmptyAgain(r.created);
    PlainIsNonEmpty(p.id);
    PlainIsNonEmpty(p.created);
  }

  /** The receipt as its validator reads it back: reviewer and notes stripped. */
  function ReadBack(c: Receipt): Receipt {
    c.(reviewer := Strip(c.reviewer), notes := Strip(c.notes))
  }

  predicate NotBlank(s: string) {
    Strip(s) != ""
  }

  /** Nothing blank, and a hash that still fits once padding is gone. */
  predicate SurvivesReading(c: Receipt, env: GatewayEnv) {
    NotBlank(c.reviewer) && NotBlank(c.notes) && env.receiptHash(c) == env.receiptHash(ReadBack(c))
  }

  predicate CollidesReadBack(c: Receipt, env: GatewayEnv) {
    c != ReadBack(c) && env.receiptHash(c) == env.receiptHash(ReadBack(c))
  }

  /** Whatever else the builder writes passes; only reviewer, notes and the hash decide. */
  lemma ReadsBack(r: RawProposal, d: Decision, reviewer: string, notes: string, consequences: map<string, Wire>,
                  env: GatewayEnv)
    requires Validated(r, env).Some?
    ensures var p := Validated(r, env).value;
      var given := Reviewed(p, d, reviewer, notes, consequences, env);
      ValidatedReceipt(BuildReceipt(p, d, reviewer, notes, consequences, env), env)
        == if SurvivesReading(given, env) then Some(ReadBack(given)) else None
  {
    hide Canonical, IsHex64, Strip, PlainText;
    var p := Validated(r, env).value;
    CanonicalTextsPlain(r, p, env);
    ConstantsPlain();
    DecisionsDiffer(d);
    PlainIsNonEmpty(RECEIPT_V);
    PlainIsNonEmpty(DecisionName(d));
    PlainIsNonEmpty(p.id);
    PlainIsNonEmpty(p.created);
    DigestIsText(env.proposalHash(p));
    DigestIsText(env.receiptHash(Reviewed(p, d, reviewer, notes, consequences, env)));
  }

  /** A receipt built for a valid proposal with plain reviewer and notes evaluates to exactly its decision. */
  lemma ReceiptRoundTrip(r: RawProposal, d: Decision, reviewer: string, notes: string, consequences: map<string, Wire>,
                         requireReceipt: bool, env: GatewayEnv)
    requires Validated(r, env).Some? && PlainText(reviewer) && PlainText(notes)
    ensures var p := Validated(r, env).value;
      var receipt := BuildReceipt(p, d, reviewer, notes, consequences, env);
      && ValidatedReceipt(receipt, env).Some?
      && Evaluate(r, Some(receipt), requireReceipt, env)
        == (if d.Approve? then Verdict(true, ReceiptApprove) else Verdict(false, ReceiptDeny))
  {
    hide Canonical, IsHex64, Strip;
    ReadsBack(r, d, reviewer, notes, consequences, env);
  }

  /**
   * And only then. A receipt with a blank reviewer or note never validates; a padded one validates only if stripping it
   * happens not to change its hash.
   */
  lemma ReceiptNeedsPlainTexts(r: RawProposal, d: Decision, reviewer: string, notes: string,
                               consequences: map<string, Wire>, env: GatewayEnv)
    requires Validated(r, env).Some?
    ensures var p := Validated(r, env).value;
      ValidatedReceipt(BuildReceipt(p, d, reviewer, notes, consequences, env), env).Some?
      <==> SurvivesReading(Reviewed(p, d, reviewer, notes, consequences, env), env)
    ensures var p := Validated(r, env).value;
      !CollidesReadBack(Reviewed(p, d, reviewer, notes, consequences, env), env) ==>
        var receipt := BuildReceipt(p, d, reviewer, notes, consequences, env);
        ValidatedReceipt(receipt, env).Some? <==> PlainText(reviewer) && PlainText(notes)
  {
    hide Canonical, IsHex64, Strip;
    var p := Validated(r, env).value;
    var given := Reviewed(p, d, reviewer, notes, consequences, env);
    ReadsBack(r, d, reviewer, notes, consequences, env);
    assert given == ReadBack(given) <==> reviewer == Strip(reviewer) && notes == Strip(notes);
  }

  /**
   * A receipt approves only what was reviewed: built for one valid proposal, it lets another through only when their
   * canonical forms share identifier and hash, so, unless these two collide, only when they are one proposal.
   */
  lemma ApprovalNeverTransfers(r: RawProposal, reviewed: RawProposal, d: Decision, reviewer: string, notes: string,
                               consequences: map<string, Wire>, env: GatewayEnv)
    requires Validated(reviewed, env).Some?
    requires var receipt := BuildReceipt(Validated(reviewed, env).value, d, reviewer, notes, consequences, env);
      Evaluate(r, Some(receipt), true, env).allow
    ensures Validated(r, env).Some? && d == Approve
    ensures var p, q := Validated(r, env).value, Validated(reviewed, env).value;
      p.id == q.id && env.proposalHash(p) == env.proposalHash(q)
    ensures var p, q := Validated(r, env).value, Validated(reviewed, env).value;
      (p != q ==> env.proposalHash(p) != env.proposalHash(q)) ==> Validated(r, env) == Validated(reviewed, env)
  {
    hide Canonical, Validated, ValidatedReceipt, BuildReceipt, SurvivesReading;
    ReadsBack(reviewed, d, reviewer, notes, consequences, env);
    var receipt := BuildReceipt(Validated(reviewed, env).value, d, reviewer, notes, consequences, env);
    ApprovalIsBound(r, Some(receipt), env);
  }

  // -------------------------------------------------------------------- an example

  function Digest64(c: char): HexDigest
    requires c == '0' || c == '1'
  {
    seq(64, _ => c)
  }

  /** Digests that tell the receipts of the reviewer "r" from all others. */
  function SampleEnv(): GatewayEnv {
    GatewayEnv(_ => true, _ => Digest64('0'), (c: Receipt) => if c.reviewer == "r" then Digest64('0') else Digest64('1'))
  }

  function SampleProposal(): RawProposal {
    RawProposal({}, WText(PROPOSAL_V), WText("p"), WText("t"), WText("s"), WText("RISK_RULES"), WText("ADD_RULE"),
                RawTarget({}, WText("c"), WText("1")), Some([RawChange({}, WText("i"), WText("add"), WText("d"))]),
                WNull, WNull, WNull, WText(Digest64('0')))
  }

  lemma SampleTextsHold()
    ensures TextsHold(SampleProposal(), SampleEnv())
  {
    hide NonEmpty;
    AsWritten(PROPOSAL_V);
    AsWritten("p");
    AsWritten("t");
    AsWritten("s");
    AsWritten("RISK_RULES");
    AsWritten("ADD_RULE");
    AsWritten("c");
    AsWritten("1");
  }

  lemma SampleChangesRead()
    ensures CanonicalChanges(SampleProposal().changes).Some?
  {
    hide NonEmpty, SortById;
    AsWritten("i");
    AsWritten("add");
    AsWritten("d");
  }

  lemma SampleValidates()
    ensures Validated(SampleProposal(), SampleEnv()).Some?
  {
    hide NonEmpty, TextsHold, CanonicalChanges, SortedNames;
    SampleTextsHold();
    SampleChangesRead();
    AsWritten(Digest64('0'));
  }

  /** The builder takes a padded reviewer, and its own validator then refuses what it built. */
  lemma PaddedReviewerRefused() returns (r: RawProposal, env: GatewayEnv)
    ensures Validated(r, env).Some?
    ensures ValidatedReceipt(BuildReceipt(Validated(r, env).value, Approve, "r", "n", map[], env), env).Some?
    ensures ValidatedReceipt(BuildReceipt(Validated(r, env).value, Approve, " r", "n", map[], env), env).None?
  {
    hide Validated, ValidatedReceipt, BuildReceipt, Strip;
    r, env := SampleProposal(), SampleEnv();
    SampleValidates();
    StripFixes("r");
    StripFixes("n");
    StripIgnoresPadding(" ", "r", "");
    assert " " + "r" + "" == " r";
    ReadsBack(r, Approve, "r", "n", map[], env);
    ReadsBack(r, Approve, " r", "n", map[], env);
    assert Digest64('0')[0] != Digest64('1')[0];
  }
}
