/** What the global waves guarantee over every run: call bounds, wave order, results, and the refinement of per-bundle checking. */
module WaveProperties {
  import opened Wrappers
  import opened ReceiptContract
  import opened KeyRegistry
  import opened VerificationWaves

  function AlgorithmsOf(entries: seq<Resolved>): seq<Algorithm> {
    seq(|entries|, i requires 0 <= i < |entries| => entries[i].prepared.algorithm)
  }

  /** Bundles as resolution delivers them: six, distinctly named, each under the signature policy. */
  predicate WellFormed(bs: seq<Bundle>) {
    && |bs| == 6 && (forall i :: 0 <= i < |bs| ==> PolicyOrder(AlgorithmsOf(bs[i].entries)))
    && forall i, j :: 0 <= i < j < |bs| ==> bs[i].id != bs[j].id
  }

  function Rank(a: Algorithm): nat {
    match a
    case Ed25519 => 0
    case MlDsa => 1
    case FnDsa => 2
  }

  // --------------------------------------------------- runs are plan prefixes

  ghost predicate FollowsPlan(plan: seq<Step>, x: Execution, answers: (nat, Resolved) -> Answer, i: nat) {
    && |x.calls| <= |plan|
    && (forall k :: 0 <= k < |x.calls| ==> plan[k].Invoke? && x.calls[k] == CallAt(plan[k], answers, i + k))
    && forall k :: 0 <= k < |x.calls| - 1 ==> x.calls[k].answer == Yes
  }

  function CallAt(step: Step, answers: (nat, Resolved) -> Answer, i: nat): Call
    requires step.Invoke?
  {
    Call(step.bundle, step.entry, answers(i, step.entry))
  }

  /** How a run ends: complete, or at a refused call, or before a step it may not take. */
  ghost predicate EndsRightly(plan: seq<Step>, x: Execution, n: nat, p: nat) {
    match x.fault
    case None => |x.calls| == |plan| && AllYes(x.calls)
    case Some(Unverified(a)) => x.calls != [] && a != Yes && x.calls[|x.calls| - 1].answer == a
    case Some(DuplicateAlgorithm) => AllYes(x.calls) && |x.calls| < |plan| && plan[|x.calls|].Clash?
    case Some(BudgetExceeded) =>
      && AllYes(x.calls) && |x.calls| < |plan| && plan[|x.calls|].Invoke?
      && (n + |x.calls| + 1 > MAX_VERIFICATION_CALLS
          || p + StepCosts(plan[..|x.calls| + 1]) > MAX_PQC_VERIFICATION_CALLS)
  }

  predicate AllYes(calls: seq<Call>) {
    forall k :: 0 <= k < |calls| ==> calls[k].answer == Yes
  }

  function StepCosts(plan: seq<Step>): nat {
    if plan == [] then 0 else StepCost(plan[0]) + StepCosts(plan[1..])
  }

  lemma {:induction false} RunsFollowPlan(plan: seq<Step>, answers: (nat, Resolved) -> Answer, i: nat, n: nat, p: nat)
    ensures FollowsPlan(plan, Execute(plan, answers, i, n, p), answers, i)
    ensures EndsRightly(plan, Execute(plan, answers, i, n, p), n, p)
  {
    hide FollowsPlan, EndsRightly, Then, Attempt;
    if plan == [] {
      NothingFollows(answers, i, n, p);
    } else {
      var x := Attempt(plan[0], answers, i, n, p);
      AttemptShape(plan, answers, i, n, p);
      if x.fault.None? {
        var y := Execute(plan[1..], answers, i + 1, n + 1, p + StepCost(plan[0]));
        RunsFollowPlan(plan[1..], answers, i + 1, n + 1, p + StepCost(plan[0]));
        PrefixOnward(plan, y, x.calls[0], answers, i, n, p);
        assert [x.calls[0]] == x.calls;
      }
    }
  }

  lemma NothingFollows(answers: (nat, Resolved) -> Answer, i: nat, n: nat, p: nat)
    ensures FollowsPlan([], Execution([], None), answers, i) && EndsRightly([], Execution([], None), n, p)
  {
  }

  /** A first step that faults ends the run rightly; one that does not leaves its one call. */
  lemma AttemptShape(plan: seq<Step>, answers: (nat, Resolved) -> Answer, i: nat, n: nat, p: nat)
    requires plan != []
    ensures var x := Attempt(plan[0], answers, i, n, p);
      if x.fault.Some? then FollowsPlan(plan, x, answers, i) && EndsRightly(plan, x, n, p)
      else plan[0].Invoke? && |x.calls| == 1 && x.calls[0] == CallAt(plan[0], answers, i) && x.calls[0].answer == Yes
  {
    var x := Attempt(plan[0], answers, i, n, p);
    if x.fault.Some? && x.fault.value.BudgetExceeded? { assert plan[..1] == [plan[0]] && plan[..1][1..] == []; }
  }

  lemma PrefixOnward(plan: seq<Step>, y: Execution, c: Call, answers: (nat, Resolved) -> Answer, i: nat, n: nat, p: nat)
    requires plan != [] && plan[0].Invoke? && c == Call(plan[0].bundle, plan[0].entry, answers(i, plan[0].entry))
    requires c.answer == Yes
    requires FollowsPlan(plan[1..], y, answers, i + 1) && EndsRightly(plan[1..], y, n + 1, p + StepCost(plan[0]))
    ensures FollowsPlan(plan, Then([c], y), answers, i) && EndsRightly(plan, Then([c], y), n, p)
  {
    var x := Then([c], y);
    assert forall k :: 1 <= k < |x.calls| ==> x.calls[k] == y.calls[k - 1] && plan[k] == plan[1..][k - 1];
    if |y.calls| + 1 < |plan| {
      assert plan[..|x.calls| + 1][1..] == plan[1..][..|y.calls| + 1];
    }
  }

  // ----------------------------------------------------- what the plan contains

  lemma PolicyMatching(b: Bundle, a: Algorithm)
    requires PolicyOrder(AlgorithmsOf(b.entries))
    ensures Matching(b.entries, a) == if Rank(a) < |b.entries| then [b.entries[Rank(a)]] else []
    ensures forall r :: 0 <= r < |b.entries| ==> Rank(b.entries[r].prepared.algorithm) == r
    ensures 2 <= |b.entries| <= 3
  {
    var es := b.entries;
    assert |AlgorithmsOf(es)| == |es|;
    assert forall i :: 0 <= i < |es| ==> AlgorithmsOf(es)[i] == es[i].prepared.algorithm;
    assert es[1..][0] == es[1] && es[1..][1..] == es[2..];
    assert Matching(es[2..], a) == if |es| == 3 && a == FnDsa then [es[2]] else [] by {
      if |es| == 3 { assert es[2..] == [es[2]] && es[2..][1..] == []; }
    }
  }

  ghost predicate WaveShape(bs: seq<Bundle>, a: Algorithm, w: seq<Step>) {
    && |w| <= |bs| && (a != FnDsa ==> |w| == |bs|)
    && (forall s :: s in w ==> s.Invoke? && s.bundle in bs && s.entry in s.bundle.entries && s.entry.prepared.algorithm == a)
    && forall b, e :: b in bs && e in b.entries && e.prepared.algorithm == a ==> Invoke(b, e) in w
  }

  lemma {:induction false} WaveIs(bs: seq<Bundle>, a: Algorithm)
    requires forall b :: b in bs ==> PolicyOrder(AlgorithmsOf(b.entries))
    ensures WaveShape(bs, a, Wave(bs, a))
    ensures StepCosts(Wave(bs, a)) == (if a == Ed25519 then 0 else |Wave(bs, a)|)
  {
    hide WaveShape, StepsOf, PolicyOrder, StepCosts;
    if bs == [] {
      EmptyWave(a);
    } else {
      WaveIs(bs[1..], a);
      WaveOnward(bs, a, StepsOf(bs[0], a), Wave(bs[1..], a));
    }
    ShapeCost(bs, a, Wave(bs, a));
  }

  lemma EmptyWave(a: Algorithm)
    ensures WaveShape([], a, [])
  {
  }

  lemma {:induction false} ShapeCost(bs: seq<Bundle>, a: Algorithm, w: seq<Step>)
    requires WaveShape(bs, a, w)
    ensures StepCosts(w) == (if a == Ed25519 then 0 else |w|)
  {
    WaveCost(a, w);
  }

  lemma {:induction false} WaveCost(a: Algorithm, w: seq<Step>)
    requires forall s :: s in w ==> s.Invoke? && s.entry.prepared.algorithm == a
    ensures StepCosts(w) == (if a == Ed25519 then 0 else |w|)
  {
    if w != [] {
      assert w[0] in w && forall s :: s in w[1..] ==> s in w;
      WaveCost(a, w[1..]);
    }
  }

  lemma WaveOnward(bs: seq<Bundle>, a: Algorithm, head: seq<Step>, rest: seq<Step>)
    requires bs != [] && head == StepsOf(bs[0], a) && WaveShape(bs[1..], a, rest)
    requires PolicyOrder(AlgorithmsOf(bs[0].entries))
    ensures WaveShape(bs, a, head + rest)
  {
    PolicyMatching(bs[0], a);
    MatchingAlgorithm(bs[0].entries, a);
    hide Matching, PolicyOrder, AlgorithmsOf;
    forall b, e | b in bs && e in b.entries && e.prepared.algorithm == a ensures Invoke(b, e) in head + rest {
      if b == bs[0] {
        assert e in Matching(bs[0].entries, a);
      } else {
        assert b in bs[1..];
      }
    }
  }

  lemma PlanIs(bs: seq<Bundle>)
    ensures Plan(bs) == Wave(bs, Ed25519) + Wave(bs, MlDsa) + Wave(bs, FnDsa)
  {
    hide Wave;
    var w := WAVE_ORDER;
    WavesFrom(bs, w);
    WavesFrom(bs, w[1..]);
    WavesFrom(bs, w[2..]);
    assert w[1..][1..] == w[2..] && w[2..][1..] == [];
    hide Waves;
    assert Waves(bs, w) == Wave(bs, Ed25519) + (Wave(bs, MlDsa) + (Wave(bs, FnDsa) + Waves(bs, [])));
    assert Waves(bs, []) == [] by { NoWaves(bs); }
  }

  lemma WavesFrom(bs: seq<Bundle>, order: seq<Algorithm>)
    requires order != []
    ensures Waves(bs, order) == Wave(bs, order[0]) + Waves(bs, order[1..])
  {
    hide Wave;
  }

  lemma NoWaves(bs: seq<Bundle>)
    ensures Waves(bs, []) == []
  {
  }

  lemma {:induction false} CostsJoin(a: seq<Step>, b: seq<Step>)
    ensures StepCosts(a + b) == StepCosts(a) + StepCosts(b)
  {
    if a == [] {
      assert a + b == b;
    } else {
      assert (a + b)[1..] == a[1..] + b;
      CostsJoin(a[1..], b);
    }
  }

  lemma PlanBounds(bs: seq<Bundle>)
    requires WellFormed(bs)
    ensures 12 <= |Plan(bs)| <= MAX_VERIFICATION_CALLS && StepCosts(Plan(bs)) <= MAX_PQC_VERIFICATION_CALLS
    ensures forall s :: s in Plan(bs) ==> s.Invoke?
    ensures forall b, e :: b in bs && e in b.entries <==> Invoke(b, e) in Plan(bs)
  {
    hide Wave, Plan, StepCosts, PolicyOrder;
    PlanIs(bs);
    WaveIs(bs, Ed25519);
    WaveIs(bs, MlDsa);
    WaveIs(bs, FnDsa);
    CostsJoin(Wave(bs, Ed25519) + Wave(bs, MlDsa), Wave(bs, FnDsa));
    CostsJoin(Wave(bs, Ed25519), Wave(bs, MlDsa));
  }

  // -------------------------------------------------------------- main results

  /** Every run makes at most 18 calls, 12 of them post-quantum, so the runtime budget and clash rejections never fire. */
  lemma CallsBounded(bs: seq<Bundle>, answers: (nat, Resolved) -> Answer, i: nat)
    requires WellFormed(bs)
    ensures var x := Execute(Plan(bs), answers, i, 0, 0);
      && |x.calls| <= MAX_VERIFICATION_CALLS && PqcCalls(x.calls) <= MAX_PQC_VERIFICATION_CALLS
      && (x.fault.None? || x.fault.value.Unverified?)
      && (x.fault.None? ==> |x.calls| >= 12)
  {
    hide Execute, Plan, StepCosts, PqcCalls;
    var plan := Plan(bs);
    var x := Execute(plan, answers, i, 0, 0);
    PlanBounds(bs);
    RunsFollowPlan(plan, answers, i, 0, 0);
    assert forall k :: 0 <= k < |plan| ==> plan[k] in plan;
    assert plan == plan[..|x.calls|] + plan[|x.calls|..];
    CostsJoin(plan[..|x.calls|], plan[|x.calls|..]);
    CallCosts(plan[..|x.calls|], x.calls);
    if x.fault.Some? && x.fault.value.BudgetExceeded? {
      assert plan == plan[..|x.calls| + 1] + plan[|x.calls| + 1..];
      CostsJoin(plan[..|x.calls| + 1], plan[|x.calls| + 1..]);
    }
  }

  lemma {:induction false} CallCosts(plan: seq<Step>, calls: seq<Call>)
    requires |calls| == |plan| && forall k :: 0 <= k < |calls| ==> plan[k].Invoke? && calls[k].entry == plan[k].entry
    ensures PqcCalls(calls) == StepCosts(plan)
  {
    if calls != [] { CallCosts(plan[1..], calls[1..]); }
  }

  /** No callback of a later algorithm happens before every bundle's earlier entries have verified. */
  lemma NoEarlyCallback(bs: seq<Bundle>, answers: (nat, Resolved) -> Answer, i: nat, k: nat, b: Bundle, e: Resolved)
    requires WellFormed(bs) && k < |Execute(Plan(bs), answers, i, 0, 0).calls|
    requires b in bs && e in b.entries
    requires Rank(e.prepared.algorithm)
      < Rank(Execute(Plan(bs), answers, i, 0, 0).calls[k].entry.prepared.algorithm)
    ensures exists k' :: 0 <= k' < k && Execute(Plan(bs), answers, i, 0, 0).calls[k'] == Call(b, e, Yes)
  {
    hide Execute, Plan, Wave, StepCosts, PolicyOrder;
    var plan := Plan(bs);
    var x := Execute(plan, answers, i, 0, 0);
    RunsFollowPlan(plan, answers, i, 0, 0);
    var k' := EarlierInPlan(bs, k, b, e);
    assert x.calls[k'] == Call(b, e, Yes);
  }

  lemma EarlierInPlan(bs: seq<Bundle>, k: nat, b: Bundle, e: Resolved) returns (k': nat)
    requires WellFormed(bs) && k < |Plan(bs)| && b in bs && e in b.entries && Plan(bs)[k].Invoke?
    requires Rank(e.prepared.algorithm) < Rank(Plan(bs)[k].entry.prepared.algorithm)
    ensures k' < k && Plan(bs)[k'] == Invoke(b, e)
  {
    hide Plan, Wave, StepCosts, PolicyOrder;
    PlanIs(bs);
    WaveIs(bs, Ed25519);
    WaveIs(bs, MlDsa);
    WaveIs(bs, FnDsa);
    var first, second, third := Wave(bs, Ed25519), Wave(bs, MlDsa), Wave(bs, FnDsa);
    if e.prepared.algorithm == Ed25519 {
      var j :| 0 <= j < |first| && first[j] == Invoke(b, e);
      k' := j;
    } else {
      var j :| 0 <= j < |second| && second[j] == Invoke(b, e);
      k' := |first| + j;
    }
  }

  /** Deterministic verifiers: the answer depends on the entry and its key alone. */
  ghost predicate Answers(answers: (nat, Resolved) -> Answer, verdict: Resolved -> Answer) {
    forall i, e :: answers(i, e) == verdict(e)
  }

  /** The waves accept exactly when each entry of each bundle verifies on its own. */
  lemma WavesAcceptExactly(bs: seq<Bundle>, answers: (nat, Resolved) -> Answer, verdict: Resolved -> Answer, i: nat)
    requires WellFormed(bs) && Answers(answers, verdict)
    ensures Execute(Plan(bs), answers, i, 0, 0).fault.None?
      <==> forall b, e :: b in bs && e in b.entries ==> verdict(e) == Yes
  {
    hide Execute, Plan, WellFormed, StepCosts;
    var plan := Plan(bs);
    var x := Execute(plan, answers, i, 0, 0);
    RunsFollowPlan(plan, answers, i, 0, 0);
    PlanBounds(bs);
    CallsBounded(bs, answers, i);
    if x.fault.None? {
      forall b, e | b in bs && e in b.entries ensures verdict(e) == Yes {
        var k :| 0 <= k < |plan| && plan[k] == Invoke(b, e);
        assert x.calls[k].answer == Yes;
      }
    } else {
      var k := |x.calls| - 1;
      assert plan[k] in plan;
      assert plan[k] == Invoke(plan[k].bundle, plan[k].entry);
    }
  }

  // ----------------------------------------------------- the budget is tight

  /** How many bundles carry the optional third signature. */
  function ThirdSignatures(bs: seq<Bundle>): nat {
    if bs == [] then 0 else (if |bs[0].entries| == 3 then 1 else 0) + ThirdSignatures(bs[1..])
  }

  lemma {:induction false} WaveSize(bs: seq<Bundle>, a: Algorithm)
    requires forall b :: b in bs ==> PolicyOrder(AlgorithmsOf(b.entries))
    ensures |Wave(bs, a)| == if a == FnDsa then ThirdSignatures(bs) else |bs|
  {
    hide PolicyOrder, AlgorithmsOf, Matching;
    if bs != [] {
      PolicyMatching(bs[0], a);
      WaveSize(bs[1..], a);
    }
  }

  /** A complete run asks twice for every bundle, and once more where there is a third signature. */
  lemma PlanSize(bs: seq<Bundle>)
    requires WellFormed(bs)
    ensures |Plan(bs)| == 12 + ThirdSignatures(bs) && StepCosts(Plan(bs)) == 6 + ThirdSignatures(bs)
  {
    hide Wave, Plan, StepCosts, PolicyOrder, ThirdSignatures, WaveShape;
    PlanIs(bs);
    WaveIs(bs, Ed25519);
    WaveIs(bs, MlDsa);
    WaveIs(bs, FnDsa);
    WaveSize(bs, Ed25519);
    WaveSize(bs, MlDsa);
    WaveSize(bs, FnDsa);
    CostsJoin(Wave(bs, Ed25519) + Wave(bs, MlDsa), Wave(bs, FnDsa));
    CostsJoin(Wave(bs, Ed25519), Wave(bs, MlDsa));
  }

  lemma {:induction false} AllThree(bs: seq<Bundle>)
    requires forall b :: b in bs ==> |b.entries| == 3
    ensures ThirdSignatures(bs) == |bs|
  {
    if bs != [] { AllThree(bs[1..]); }
  }

  function FullBundle(id: string): Bundle {
    var key := TrustedKey(id, "k", 1, Ed25519, "", "", true, "");
    var entries := seq(3, i requires 0 <= i < 3 => Resolved(Prepared(WNull, WAVE_ORDER[i], "", "k", 1), key));
    Bundle(id, id, entries, Artifact("", "", id, "", "", "", "", 1))
  }

  /** Both limits are reached: some receipts need every one of the 18 calls and of the 12 post-quantum ones. */
  lemma BudgetIsTight(answers: (nat, Resolved) -> Answer, i: nat) returns (bs: seq<Bundle>)
    requires Answers(answers, _ => Yes)
    ensures WellFormed(bs) && Execute(Plan(bs), answers, i, 0, 0).fault.None?
    ensures |Execute(Plan(bs), answers, i, 0, 0).calls| == MAX_VERIFICATION_CALLS
    ensures PqcCalls(Execute(Plan(bs), answers, i, 0, 0).calls) == MAX_PQC_VERIFICATION_CALLS
  {
    hide Execute, Plan, StepCosts, PqcCalls, ThirdSignatures;
    bs := seq(6, j requires 0 <= j < 6 => FullBundle(seq(j, _ => 'x')));
    forall j | 0 <= j < 6 ensures PolicyOrder(AlgorithmsOf(bs[j].entries)) {
      assert AlgorithmsOf(bs[j].entries) == WAVE_ORDER;
    }
    assert forall j :: 0 <= j < 6 ==> |bs[j].id| == j;
    AllThree(bs);
    PlanSize(bs);
    WavesAcceptExactly(bs, answers, _ => Yes, i);
    RunsFollowPlan(Plan(bs), answers, i, 0, 0);
    CallCosts(Plan(bs), Execute(Plan(bs), answers, i, 0, 0).calls);
  }

  // ------------------------------------------------------------------- results

  function ResultsOf(entries: seq<Resolved>): seq<ResultEntry> {
    seq(|entries|, i requires 0 <= i < |entries| => ResultOf(entries[i]))
  }

  /** The entries a plan holds for one bundle name. */
  function Planned(plan: seq<Step>, id: string): seq<ResultEntry> {
    if plan == [] then []
    else
      (if plan[0].Invoke? && plan[0].bundle.id == id then [ResultOf(plan[0].entry)] else [])
      + Planned(plan[1..], id)
  }

  lemma {:induction false} PlannedJoins(a: seq<Step>, b: seq<Step>, id: string)
    ensures Planned(a + b, id) == Planned(a, id) + Planned(b, id)
  {
    if a == [] {
      assert a + b == b;
    } else {
      assert (a + b)[1..] == a[1..] + b;
      PlannedJoins(a[1..], b, id);
    }
  }

  lemma {:induction false} CompleteRunResults(plan: seq<Step>, calls: seq<Call>, id: string)
    requires |calls| == |plan| && AllYes(calls)
    requires forall k :: 0 <= k < |calls| ==> plan[k] == Invoke(calls[k].bundle, calls[k].entry)
    ensures ResultsFor(calls, id) == Planned(plan, id)
  {
    if calls != [] { CompleteRunResults(plan[1..], calls[1..], id); }
  }

  lemma {:induction false} PlannedNone(bs: seq<Bundle>, a: Algorithm, id: string)
    requires forall b :: b in bs ==> b.id != id
    ensures Planned(Wave(bs, a), id) == []
  {
    if bs != [] {
      PlannedNone(bs[1..], a, id);
      PlannedJoins(StepsOf(bs[0], a), Wave(bs[1..], a), id);
      assert bs[0] in bs;
    }
  }

  lemma {:induction false} PlannedWave(bs: seq<Bundle>, a: Algorithm, j: nat)
    requires j < |bs| && forall i, k :: 0 <= i < k < |bs| ==> bs[i].id != bs[k].id
    requires PolicyOrder(AlgorithmsOf(bs[j].entries))
    ensures Planned(Wave(bs, a), bs[j].id)
      == if Rank(a) < |bs[j].entries| then [ResultOf(bs[j].entries[Rank(a)])] else []
  {
    hide StepsOf, Planned, PolicyOrder, AlgorithmsOf, Rank;
    PlannedJoins(StepsOf(bs[0], a), Wave(bs[1..], a), bs[j].id);
    if j == 0 {
      PlannedOwn(bs[0], a);
      PlannedNone(bs[1..], a, bs[0].id);
    } else {
      PlannedWave(bs[1..], a, j - 1);
      OtherBundle(bs[0], a, bs[j].id);
    }
  }

  lemma PlannedOwn(b: Bundle, a: Algorithm)
    requires PolicyOrder(AlgorithmsOf(b.entries))
    ensures Planned(StepsOf(b, a), b.id) == if Rank(a) < |b.entries| then [ResultOf(b.entries[Rank(a)])] else []
  {
    PolicyMatching(b, a);
    hide Matching, PolicyOrder, AlgorithmsOf, Rank;
  }

  lemma OtherBundle(b: Bundle, a: Algorithm, id: string)
    requires b.id != id
    ensures Planned(StepsOf(b, a), id) == []
  {
  }

  /** After a complete run each bundle's results are its entries, in its own order. */
  lemma ResultsInOrder(bs: seq<Bundle>, answers: (nat, Resolved) -> Answer, i: nat, j: nat)
    requires WellFormed(bs) && j < |bs| && Execute(Plan(bs), answers, i, 0, 0).fault.None?
    ensures ResultsFor(Execute(Plan(bs), answers, i, 0, 0).calls, bs[j].id) == ResultsOf(bs[j].entries)
  {
    hide Execute, Plan, Wave, StepCosts, Matching, Planned, ResultsFor, PolicyOrder;
    var plan, id, es := Plan(bs), bs[j].id, bs[j].entries;
    RunsFollowPlan(plan, answers, i, 0, 0);
    CompleteRunResults(plan, Execute(plan, answers, i, 0, 0).calls, id);
    PlanIs(bs);
    PlannedJoins(Wave(bs, Ed25519) + Wave(bs, MlDsa), Wave(bs, FnDsa), id);
    PlannedJoins(Wave(bs, Ed25519), Wave(bs, MlDsa), id);
    PlannedWave(bs, Ed25519, j);
    PlannedWave(bs, MlDsa, j);
    PlannedWave(bs, FnDsa, j);
    PolicyMatching(bs[j], Ed25519);
  }
}
