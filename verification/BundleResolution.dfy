/** Resolving every signature of a receipt to its key, bundle by bundle in a fixed order, before any callback. */
module BundleResolution {
  import opened Wrappers
  import opened Strings
  import opened ReceiptContract
  import opened KeyRegistry
  import opened VerificationWaves

  /** A prepared bundle with what its keys are looked up by. */
  datatype Candidate = Candidate(
    id: string, role: string, entries: seq<Prepared>, start: string, end: string, artifact: Artifact)

  const SUPPORTED_COMPONENTS: seq<string> := ["adn", "dqsn", "guardian_wallet", "qwg", "sentinel_ai"]
  const MAX_SIGNATURE_BUNDLES: nat := 6

  function QueryFor(c: Candidate, p: Prepared, now: string): KeyQuery {
    KeyQuery(c.role, p.keyId, p.keyVersion, p.algorithm, now, c.start, c.end)
  }

  function ResolveEntry(c: Candidate, p: Prepared, reg: Registry, now: string, env: Oracles): Option<Resolved> {
    match Lookup(reg.entries, QueryFor(c, p, now), env)
    case None => None
    case Some(key) => Some(Resolved(p, key))
  }

  predicate Resolvable(c: Candidate, reg: Registry, now: string, env: Oracles) {
    forall i :: 0 <= i < |c.entries| ==> ResolveEntry(c, c.entries[i], reg, now, env).Some?
  }

  ghost predicate ResolvedAs(c: Candidate, b: Bundle, reg: Registry, now: string, env: Oracles) {
    && b.id == c.id && b.role == c.role && b.artifact == c.artifact && |b.entries| == |c.entries|
    && forall i :: 0 <= i < |c.entries| ==> ResolveEntry(c, c.entries[i], reg, now, env) == Some(b.entries[i])
  }

  function ById(cs: seq<Candidate>): map<string, Candidate> {
    if cs == [] then map[]
    else
      var n := |cs| - 1;
      ById(cs[..n])[cs[n].id := cs[n]]
  }

  /** Five components, one for each supported name. */
  predicate Complete(cs: seq<Candidate>) {
    |cs| == 5 && ById(cs).Keys == Elements(SUPPORTED_COMPONENTS)
  }

  /** The components in the order of their names, then the orchestrator. */
  function InOrder(cs: seq<Candidate>, orchestrator: Candidate): (r: seq<Candidate>)
    requires Complete(cs)
    ensures |r| == MAX_SIGNATURE_BUNDLES
  {
    seq(5, i requires 0 <= i < 5 =>
      assert SUPPORTED_COMPONENTS[i] in Elements(SUPPORTED_COMPONENTS);
      ById(cs)[SUPPORTED_COMPONENTS[i]]) + [orchestrator]
  }

  function CallCount(cs: seq<Candidate>): nat {
    if cs == [] then 0 else |cs[0].entries| + CallCount(cs[1..])
  }

  function PqcEntries(ps: seq<Prepared>): nat {
    if ps == [] then 0 else PqcCost(ps[0].algorithm) + PqcEntries(ps[1..])
  }

  function PqcCount(cs: seq<Candidate>): nat {
    if cs == [] then 0 else PqcEntries(cs[0].entries) + PqcCount(cs[1..])
  }

  predicate WithinCallBudget(cs: seq<Candidate>) {
    CallCount(cs) <= MAX_VERIFICATION_CALLS && PqcCount(cs) <= MAX_PQC_VERIFICATION_CALLS
  }

  ghost predicate AllResolved(cs: seq<Candidate>, bs: seq<Bundle>, reg: Registry, now: string, env: Oracles) {
    |bs| == |cs| && forall i :: 0 <= i < |cs| ==> ResolvedAs(cs[i], bs[i], reg, now, env)
  }

  datatype ResolutionFault = BundleSetWrong | OverBudget | KeyRejected(fault: TrustFault)

  /** Verification time and validity window can be read, whatever key is looked for. */
  predicate Timed(c: Candidate, now: string, env: Oracles) {
    ParseUtc(now, env).Some? && ValidWindow(c.start, c.end, env)
  }

  method ResolveCandidate(c: Candidate, reg: Registry, now: string, env: Oracles) returns (r: Result<Bundle, TrustFault>)
    ensures r.Ok? <==> Resolvable(c, reg, now, env)
    ensures r.Ok? ==> ResolvedAs(c, r.value, reg, now, env)
    ensures r.Err? ==> (r.error == TimeFault <==> !Timed(c, now, env))
  {
    hide ValidWindow, ParseUtc;
    var entries: seq<Resolved> := [];
    var i := 0;
    while i < |c.entries|
      invariant i <= |c.entries| && |entries| == i
      invariant forall j :: 0 <= j < i ==> ResolveEntry(c, c.entries[j], reg, now, env) == Some(entries[j])
    {
      var key := FindKey(reg, QueryFor(c, c.entries[i], now), env);
      if key.Err? { return Err(key.error); }
      entries := entries + [Resolved(c.entries[i], key.value)];
      i := i + 1;
    }
    r := Ok(Bundle(c.id, c.role, entries, c.artifact));
  }

  /** _resolve_verification_bundles. */
  method ResolveBundles(cs: seq<Candidate>, orchestrator: Candidate, reg: Registry, now: string, env: Oracles)
    returns (r: Result<seq<Bundle>, ResolutionFault>)
    ensures r.Ok? <==>
      Complete(cs) && WithinCallBudget(InOrder(cs, orchestrator))
      && forall c :: c in InOrder(cs, orchestrator) ==> Resolvable(c, reg, now, env)
    ensures r.Ok? ==> AllResolved(InOrder(cs, orchestrator), r.value, reg, now, env)
    ensures r == Err(BundleSetWrong) <==> !Complete(cs)
    ensures r == Err(OverBudget) <==> Complete(cs) && !WithinCallBudget(InOrder(cs, orchestrator))
    ensures r == Err(KeyRejected(TimeFault)) ==>
      Complete(cs) && exists c :: c in InOrder(cs, orchestrator) && !Timed(c, now, env)
  {
    hide ById, Timed, Resolvable, ResolvedAs, WithinCallBudget;
    if !Complete(cs) { return Err(BundleSetWrong); }
    var all := InOrder(cs, orchestrator);
    if !WithinCallBudget(all) { return Err(OverBudget); }
    var bundles: seq<Bundle> := [];
    var i := 0;
    while i < |all|
      invariant i <= |all| && |bundles| == i
      invariant forall j :: 0 <= j < i ==> Resolvable(all[j], reg, now, env) && ResolvedAs(all[j], bundles[j], reg, now, env)
    {
      var b := ResolveCandidate(all[i], reg, now, env);
      if b.Err? { return Err(KeyRejected(b.error)); }
      bundles := bundles + [b.value];
      i := i + 1;
    }
    r := Ok(bundles);
  }

  // --------------------------------------------------- what ordering changes

  lemma {:induction false} ByIdExact(cs: seq<Candidate>)
    ensures ById(cs).Keys == set i | 0 <= i < |cs| :: cs[i].id
    ensures forall id :: id in ById(cs) ==> ById(cs)[id] in cs && ById(cs)[id].id == id
    ensures (forall i, j :: 0 <= i < j < |cs| ==> cs[i].id != cs[j].id) ==> forall c :: c in cs ==> ById(cs)[c.id] == c
  {
    if cs != [] {
      var n := |cs| - 1;
      ByIdExact(cs[..n]);
      assert cs == cs[..n] + [cs[n]];
    }
  }

  function Ids(cs: seq<Candidate>): seq<string> {
    seq(|cs|, i requires 0 <= i < |cs| => cs[i].id)
  }

  lemma {:induction false} FullMeansDistinct<T>(ks: seq<T>)
    requires |Elements(ks)| == |ks|
    ensures Distinct(ks)
  {
    if ks != [] {
      var tail := ks[1..];
      assert ks == [ks[0]] + tail;
      assert Elements(ks) == {ks[0]} + Elements(tail);
      ElementsBound(tail);
      assert ks[0] !in Elements(tail);
      FullMeansDistinct(tail);
      forall i, j | 0 <= i < j < |ks| ensures ks[i] != ks[j] {
        assert ks[j] == tail[j - 1];
        if i > 0 { assert ks[i] == tail[i - 1]; }
      }
    }
  }

  lemma {:induction false} ElementsBound<T>(ks: seq<T>)
    ensures |Elements(ks)| <= |ks|
  {
    ElementsEmpty(ks);
    if ks != [] {
      assert ks == [ks[0]] + ks[1..];
      assert Elements(ks) == {ks[0]} + Elements(ks[1..]);
      ElementsBound(ks[1..]);
    }
  }

  lemma NamesDistinct()
    ensures Distinct(SUPPORTED_COMPONENTS) && |Elements(SUPPORTED_COMPONENTS)| == 5
  {
    DistinctSize(SUPPORTED_COMPONENTS);
  }

  lemma CompleteMeansDistinct(cs: seq<Candidate>)
    requires Complete(cs)
    ensures forall i, j :: 0 <= i < j < |cs| ==> cs[i].id != cs[j].id
  {
    ByIdExact(cs);
    NamesDistinct();
    assert Elements(Ids(cs)) == ById(cs).Keys by {
      forall i | 0 <= i < |cs| ensures cs[i].id in Elements(Ids(cs)) { assert Ids(cs)[i] == cs[i].id; }
    }
    FullMeansDistinct(Ids(cs));
    forall i, j | 0 <= i < j < |cs| ensures cs[i].id != cs[j].id { assert Ids(cs)[i] != Ids(cs)[j]; }
  }

  /** Reordering loses nothing and invents nothing: each bundle of the receipt is there, under its own name. */
  lemma OrderKeepsBundles(cs: seq<Candidate>, orchestrator: Candidate)
    requires Complete(cs)
    ensures forall c :: c in InOrder(cs, orchestrator) <==> c in cs || c == orchestrator
    ensures forall i :: 0 <= i < 5 ==> InOrder(cs, orchestrator)[i].id == SUPPORTED_COMPONENTS[i]
  {
    var all := InOrder(cs, orchestrator);
    ByIdExact(cs);
    CompleteMeansDistinct(cs);
    forall i | 0 <= i < 5 ensures all[i].id == SUPPORTED_COMPONENTS[i] && all[i] in cs {
      assert SUPPORTED_COMPONENTS[i] in ById(cs);
    }
    forall c | c in cs ensures c in all {
      var j :| 0 <= j < |cs| && cs[j] == c;
      assert c.id in ById(cs).Keys;
      var i :| 0 <= i < 5 && SUPPORTED_COMPONENTS[i] == c.id;
      assert all[i] == c;
    }
    assert all[5] == orchestrator;
  }

  /** All entries of all bundles. */
  function AllEntries(cs: seq<Candidate>): seq<Prepared> {
    if cs == [] then [] else cs[0].entries + AllEntries(cs[1..])
  }

  function PostQuantum(ps: seq<Prepared>): set<nat> {
    set i: nat | i < |ps| && ps[i].algorithm != Ed25519
  }

  lemma {:induction false} EntriesCounted(ps: seq<Prepared>)
    ensures PqcEntries(ps) == |PostQuantum(ps)|
  {
    if ps != [] {
      EntriesCounted(ps[1..]);
      Shifted(ps);
    }
  }

  lemma Shifted(ps: seq<Prepared>)
    requires ps != []
    ensures |PostQuantum(ps)| == |PostQuantum(ps[1..])| + (if ps[0].algorithm == Ed25519 then 0 else 1)
  {
    var head: set<nat> := if ps[0].algorithm == Ed25519 then {} else {0};
    var tail := set i: nat | i in PostQuantum(ps[1..]) :: i + 1;
    assert forall i: nat :: i + 1 in PostQuantum(ps) <==> i in PostQuantum(ps[1..]);
    assert PostQuantum(ps) == head + tail by {
      forall i: nat | i in PostQuantum(ps) && i != 0 ensures i in tail { assert i - 1 in PostQuantum(ps[1..]); }
    }
    SameSize(PostQuantum(ps[1..]));
  }

  lemma {:induction false} SameSize(s: set<nat>)
    ensures |set i: nat | i in s :: i + 1| == |s|
  {
    if s != {} {
      var x :| x in s;
      SameSize(s - {x});
      var up, less := set i: nat | i in s :: i + 1, set i: nat | i in s - {x} :: i + 1;
      forall y: nat | y in up ensures y in less + {x + 1} {
        var i: nat :| i in s && i + 1 == y;
        if i != x { assert i in s - {x} && i + 1 in less; }
      }
      assert up == less + {x + 1};
    }
  }

  lemma {:induction false} PqcSplits(a: seq<Prepared>, b: seq<Prepared>)
    ensures PqcEntries(a + b) == PqcEntries(a) + PqcEntries(b)
  {
    if a == [] {
      assert a + b == b;
    } else {
      assert (a + b)[1..] == a[1..] + b;
      PqcSplits(a[1..], b);
    }
  }

  lemma {:induction false} AllCounted(cs: seq<Candidate>)
    ensures CallCount(cs) == |AllEntries(cs)| && PqcCount(cs) == PqcEntries(AllEntries(cs))
  {
    if cs != [] {
      AllCounted(cs[1..]);
      PqcSplits(cs[0].entries, AllEntries(cs[1..]));
    }
  }

  /** The static budget allows 18 signatures in all, 12 of them post-quantum. */
  lemma BudgetExactly(cs: seq<Candidate>)
    ensures WithinCallBudget(cs) <==> |AllEntries(cs)| <= 18 && |PostQuantum(AllEntries(cs))| <= 12
  {
    AllCounted(cs);
    EntriesCounted(AllEntries(cs));
  }

  lemma {:induction false} EntriesPqc(ps: seq<Prepared>)
    requires PolicyOrder(Algorithms(ps))
    ensures |ps| <= 3 && PqcEntries(ps) <= 2
  {
    assert |Algorithms(ps)| == |ps|;
    assert Algorithms(ps)[0] == ps[0].algorithm && Algorithms(ps)[1] == ps[1].algorithm;
    assert PqcEntries(ps[2..]) <= 1 by {
      if |ps| == 3 { assert ps[2..] == [ps[2]]; }
    }
    assert ps[1..][1..] == ps[2..];
  }

  /** Under the signature policy the up-front budget rejection cannot happen. */
  lemma {:induction false} PolicyWithinBudget(cs: seq<Candidate>)
    requires forall c :: c in cs ==> PolicyOrder(Algorithms(c.entries))
    ensures CallCount(cs) <= 3 * |cs| && PqcCount(cs) <= 2 * |cs|
  {
    if cs != [] {
      EntriesPqc(cs[0].entries);
      PolicyWithinBudget(cs[1..]);
    }
  }
}
