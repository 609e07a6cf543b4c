/** Global algorithm waves: signature callbacks over all bundles, cheapest algorithm first, under a call budget. */
module VerificationWaves {
  import opened Wrappers
  import opened ReceiptContract
  import opened KeyRegistry

  datatype Artifact = Artifact(
    kind: string, schema: string, id: string, hash: string, requestId: string, contextHash: string,
    policy: string, registryVersion: int)

  datatype Resolved = Resolved(prepared: Prepared, key: TrustedKey)

  datatype Bundle = Bundle(id: string, role: string, entries: seq<Resolved>, artifact: Artifact)

  /** What the injected verifier does: a boolean, something else, or an exception. */
  datatype Answer = Yes | No | NotBool | Raises

  datatype AuditReason =
    | VerifyOk | ContractInvalid | ContextMismatch | RequestMismatch | ReceiptHashMismatch | DowngradeRejected
    | AuthorityBypassed | PolicyInvalid | RegistryInvalid | FreshnessInvalid | ReplayRejected
    | SignatureInvalid | BackendUnavailable | BackendFailure

  datatype Observation = Observation(artifact: Artifact, prepared: Prepared, passed: bool, reason: AuditReason)

  datatype ResultEntry = ResultEntry(algorithm: Algorithm, profile: string, keyId: string, keyVersion: int)

  const MAX_VERIFICATION_CALLS: nat := 18
  const MAX_PQC_VERIFICATION_CALLS: nat := 12
  const WAVE_ORDER: seq<Algorithm> := [Ed25519, MlDsa, FnDsa]

  // --------------------------------------------------------- stateful parties

  /** An arbitrary injected verifier: what it answers may depend on how often it was called before. */
  class SignatureBackend {
    const answers: (nat, Resolved) -> Answer
    var log: seq<Resolved>

    constructor (answers: (nat, Resolved) -> Answer)
      ensures this.answers == answers && log == []
    {
      this.answers := answers;
      log := [];
    }

    method Verify(e: Resolved) returns (a: Answer)
      modifies `log
      ensures log == old(log) + [e] && a == answers(|old(log)|, e)
    {
      a := answers(|log|, e);
      log := log + [e];
    }
  }

  /** _VerificationCallBudget. */
  class CallBudget {
    var total: nat
    var pqc: nat

    constructor ()
      ensures total == 0 && pqc == 0
    {
      total, pqc := 0, 0;
    }

    method BeforeCallback(a: Algorithm) returns (ok: bool)
      modifies this
      ensures total == old(total) + 1 && pqc == old(pqc) + PqcCost(a)
      ensures ok <==> total <= MAX_VERIFICATION_CALLS && pqc <= MAX_PQC_VERIFICATION_CALLS
    {
      total := total + 1;
      if a != Ed25519 { pqc := pqc + 1; }
      ok := total <= MAX_VERIFICATION_CALLS && pqc <= MAX_PQC_VERIFICATION_CALLS;
    }
  }

  /** _TranscriptCapture: what the audit wrapper sees of a verification. */
  class TranscriptCapture {
    var validated: Option<Artifact>
    var observations: seq<Observation>
    var rejection: Option<AuditReason>

    constructor ()
      ensures validated == None && observations == [] && rejection == None
    {
      validated, observations, rejection := None, [], None;
    }

    method ValidatedReceipt(a: Artifact)
      modifies `validated
      ensures validated == Some(a)
    {
      validated := Some(a);
    }

    method SignatureAttempt(o: Observation)
      modifies `observations
      ensures observations == old(observations) + [o]
    {
      observations := observations + [o];
    }

    method ContractRejection(reason: AuditReason)
      modifies `rejection
      ensures rejection == Some(reason)
    {
      rejection := Some(reason);
    }
  }

  function PqcCost(a: Algorithm): nat {
    if a == Ed25519 then 0 else 1
  }

  // ----------------------------------------------------- plan and its meaning

  datatype Step = Invoke(bundle: Bundle, entry: Resolved) | Clash

  datatype Call = Call(bundle: Bundle, entry: Resolved, answer: Answer)

  datatype WaveFault = BudgetExceeded | DuplicateAlgorithm | Unverified(answer: Answer)

  datatype Execution = Execution(calls: seq<Call>, fault: Option<WaveFault>)

  function Matching(entries: seq<Resolved>, a: Algorithm): seq<Resolved> {
    if entries == [] then []
    else (if entries[0].prepared.algorithm == a then [entries[0]] else []) + Matching(entries[1..], a)
  }

  function StepsOf(b: Bundle, a: Algorithm): seq<Step> {
    var m := Matching(b.entries, a);
    if m == [] then [] else if |m| == 1 then [Invoke(b, m[0])] else [Clash]
  }

  /** One wave: every bundle's entry for the algorithm, in bundle order. */
  function Wave(bs: seq<Bundle>, a: Algorithm): seq<Step> {
    if bs == [] then [] else StepsOf(bs[0], a) + Wave(bs[1..], a)
  }

  function Waves(bs: seq<Bundle>, order: seq<Algorithm>): seq<Step> {
    if order == [] then [] else Wave(bs, order[0]) + Waves(bs, order[1..])
  }

  function Plan(bs: seq<Bundle>): seq<Step> {
    Waves(bs, WAVE_ORDER)
  }

  /** One step alone, with `i` calls made to the verifier before and `n` calls, `p` of them PQC, in this run. */
  function Attempt(step: Step, answers: (nat, Resolved) -> Answer, i: nat, n: nat, p: nat): Execution {
    if step.Clash? then Execution([], Some(DuplicateAlgorithm))
    else
      var cost := PqcCost(step.entry.prepared.algorithm);
      if n + 1 > MAX_VERIFICATION_CALLS || p + cost > MAX_PQC_VERIFICATION_CALLS
      then Execution([], Some(BudgetExceeded))
      else
        var call := Call(step.bundle, step.entry, answers(i, step.entry));
        Execution([call], if call.answer == Yes then None else Some(Unverified(call.answer)))
  }

  /** A whole plan, up to its first fault. */
  function Execute(plan: seq<Step>, answers: (nat, Resolved) -> Answer, i: nat, n: nat, p: nat): Execution {
    if plan == [] then Execution([], None)
    else
      var x := Attempt(plan[0], answers, i, n, p);
      if x.fault.Some? then x
      else Then(x.calls, Execute(plan[1..], answers, i + 1, n + 1, p + StepCost(plan[0])))
  }

  function StepCost(step: Step): nat {
    if step.Clash? then 0 else PqcCost(step.entry.prepared.algorithm)
  }

  function Then(calls: seq<Call>, x: Execution): Execution {
    Execution(calls + x.calls, x.fault)
  }

  function PqcCalls(calls: seq<Call>): nat {
    if calls == [] then 0 else PqcCost(calls[0].entry.prepared.algorithm) + PqcCalls(calls[1..])
  }

  function Entries(calls: seq<Call>): seq<Resolved> {
    seq(|calls|, k requires 0 <= k < |calls| => calls[k].entry)
  }

  function ReasonOf(a: Answer): AuditReason {
    match a
    case Yes => VerifyOk
    case No => SignatureInvalid
    case _ => BackendFailure
  }

  function Observe(c: Call): Observation {
    Observation(c.bundle.artifact, c.entry.prepared, c.answer == Yes, ReasonOf(c.answer))
  }

  function Observations(calls: seq<Call>): seq<Observation> {
    seq(|calls|, k requires 0 <= k < |calls| => Observe(calls[k]))
  }

  function ResultOf(e: Resolved): ResultEntry {
    ResultEntry(e.prepared.algorithm, e.prepared.profile, e.prepared.keyId, e.prepared.keyVersion)
  }

  /** The verified entries of one bundle, in call order. */
  function ResultsFor(calls: seq<Call>, id: string): seq<ResultEntry> {
    if calls == [] then []
    else
      (if calls[0].bundle.id == id && calls[0].answer == Yes then [ResultOf(calls[0].entry)] else [])
      + ResultsFor(calls[1..], id)
  }

  // ---------------------------------------------------------------- algorithm

  /** _invoke_resolved_signature. */
  method InvokeResolvedSignature(b: Bundle, e: Resolved, backend: SignatureBackend, capture: TranscriptCapture)
    returns (c: Call)
    modifies backend`log, capture`observations
    ensures c == Call(b, e, backend.answers(|old(backend.log)|, e))
    ensures backend.log == old(backend.log) + [e]
    ensures capture.observations == old(capture.observations) + [Observe(c)]
  {
    var a := backend.Verify(e);
    c := Call(b, e, a);
    if a == Raises || a == NotBool {
      capture.SignatureAttempt(Observation(b.artifact, e.prepared, false, BackendFailure));
    } else if a == No {
      capture.SignatureAttempt(Observation(b.artifact, e.prepared, false, SignatureInvalid));
    } else {
      capture.SignatureAttempt(Observation(b.artifact, e.prepared, true, VerifyOk));
    }
  }

  ghost predicate Logged(before: seq<Resolved>, after: seq<Resolved>, calls: seq<Call>) {
    after == before + Entries(calls)
  }

  ghost predicate Observed(before: seq<Observation>, after: seq<Observation>, calls: seq<Call>) {
    after == before + Observations(calls)
  }

  ghost predicate Collected(before: map<string, seq<ResultEntry>>, after: map<string, seq<ResultEntry>>, calls: seq<Call>) {
    after.Keys == before.Keys && forall id :: id in before ==> after[id] == before[id] + ResultsFor(calls, id)
  }

  /** What a verification has left behind: the verifier's log, the transcript, the collected results. */
  ghost predicate Trace(log0: seq<Resolved>, log: seq<Resolved>, seen0: seq<Observation>, seen: seq<Observation>,
                        results: map<string, seq<ResultEntry>>, after: map<string, seq<ResultEntry>>, calls: seq<Call>)
  {
    Logged(log0, log, calls) && Observed(seen0, seen, calls) && Collected(results, after, calls)
  }

  /** After the bundles before j, the wave is the calls made so far and then the rest of it. */
  ghost predicate Progress(bs: seq<Bundle>, a: Algorithm, j: nat, answers: (nat, Resolved) -> Answer,
                           i: nat, n0: nat, p0: nat, calls: seq<Call>, n: nat, p: nat)
  {
    && j <= |bs| && n == n0 + |calls| && p == p0 + PqcCalls(calls)
    && Execute(Wave(bs, a), answers, i, n0, p0)
      == Then(calls, Execute(Wave(bs[j..], a), answers, i + |calls|, n, p))
  }

  /** One algorithm's pass over the bundles. */
  method RunWave(bs: seq<Bundle>, a: Algorithm, results: map<string, seq<ResultEntry>>, budget: CallBudget,
                 backend: SignatureBackend, capture: TranscriptCapture)
    returns (after: map<string, seq<ResultEntry>>, fault: Option<WaveFault>, ghost calls: seq<Call>)
    requires forall b :: b in bs ==> b.id in results
    modifies budget, backend`log, capture`observations
    ensures Execution(calls, fault)
      == Execute(Wave(bs, a), backend.answers, |old(backend.log)|, old(budget.total), old(budget.pqc))
    ensures Trace(old(backend.log), backend.log, old(capture.observations), capture.observations, results, after, calls)
    ensures fault.None? ==> budget.total == old(budget.total) + |calls|
    ensures fault.None? ==> budget.pqc == old(budget.pqc) + PqcCalls(calls)
  {
    hide Trace, Progress, Execute, Wave, Matching, PqcCalls;
    ghost var log0, seen0, n0, p0 := backend.log, capture.observations, budget.total, budget.pqc;
    after, fault, calls := results, None, [];
    var j := 0;
    NoCalls(bs, a, backend.answers, |log0|, n0, p0, log0, seen0, results);
    while j < |bs|
      invariant j <= |bs| && after.Keys == results.Keys && |backend.log| == |log0| + |calls|
      invariant Trace(log0, backend.log, seen0, capture.observations, results, after, calls)
      invariant Progress(bs, a, j, backend.answers, |log0|, n0, p0, calls, budget.total, budget.pqc)
    {
      var m := Matching(bs[j].entries, a);
      MatchingAlgorithm(bs[j].entries, a);
      ghost var log1, seen1, n1, p1 := backend.log, capture.observations, budget.total, budget.pqc;
      StepMeaning(bs, a, j, backend.answers, |log0|, n0, p0, calls, n1, p1);
      assert m != [] ==> m[0] in m;
      if |m| == 0 { j := j + 1; continue; }
      if |m| != 1 { fault := Some(DuplicateAlgorithm); return; }
      var ok := budget.BeforeCallback(a);
      if !ok { fault := Some(BudgetExceeded); return; }
      var call := InvokeResolvedSignature(bs[j], m[0], backend, capture);
      TraceGrows(log0, log1, seen0, seen1, results, after, calls, call);
      calls := calls + [call];
      if call.answer != Yes { fault := Some(Unverified(call.answer)); return; }
      after := after[bs[j].id := after[bs[j].id] + [ResultOf(m[0])]];
      j := j + 1;
    }
    Finished(bs, a, backend.answers, |log0|, n0, p0, calls, budget.total, budget.pqc);
  }

  lemma NoCalls(bs: seq<Bundle>, a: Algorithm, answers: (nat, Resolved) -> Answer, i: nat, n0: nat, p0: nat,
                log: seq<Resolved>, seen: seq<Observation>, results: map<string, seq<ResultEntry>>)
    ensures Trace(log, log, seen, seen, results, results, [])
    ensures Progress(bs, a, 0, answers, i, n0, p0, [], n0, p0)
  {
    assert bs[0..] == bs;
    assert Entries([]) == [] && Observations([]) == [];
  }

  lemma ExecuteStep(step: Step, rest: seq<Step>, answers: (nat, Resolved) -> Answer, i: nat, n: nat, p: nat)
    ensures var x := Attempt(step, answers, i, n, p);
      Execute([step] + rest, answers, i, n, p)
        == if x.fault.Some? then x else Then(x.calls, Execute(rest, answers, i + 1, n + 1, p + StepCost(step)))
  {
    hide Attempt;
    assert ([step] + rest)[1..] == rest;
  }

  lemma WaveSkips(bs: seq<Bundle>, a: Algorithm, j: nat)
    requires j < |bs|
    ensures Wave(bs[j..], a) == StepsOf(bs[j], a) + Wave(bs[j + 1..], a)
    ensures StepsOf(bs[j], a) == [] ==> Wave(bs[j..], a) == Wave(bs[j + 1..], a)
  {
    hide StepsOf;
    assert bs[j..][1..] == bs[j + 1..];
  }

  lemma ThenThen(first: seq<Call>, second: seq<Call>, x: Execution)
    ensures Then(first, Then(second, x)) == Then(first + second, x)
  {
    assert first + (second + x.calls) == first + second + x.calls;
  }

  /** What the next bundle adds to the wave. */
  lemma StepMeaning(bs: seq<Bundle>, a: Algorithm, j: nat, answers: (nat, Resolved) -> Answer,
                    i: nat, n0: nat, p0: nat, calls: seq<Call>, n: nat, p: nat)
    requires j < |bs| && Progress(bs, a, j, answers, i, n0, p0, calls, n, p)
    ensures StepsOf(bs[j], a) == [] ==> Progress(bs, a, j + 1, answers, i, n0, p0, calls, n, p)
    ensures StepsOf(bs[j], a) != [] ==>
      var x := Attempt(StepsOf(bs[j], a)[0], answers, i + |calls|, n, p);
      if x.fault.Some? then Execute(Wave(bs, a), answers, i, n0, p0) == Then(calls, x)
      else |x.calls| == 1 && Progress(bs, a, j + 1, answers, i, n0, p0, calls + x.calls, n + 1, p + StepCost(StepsOf(bs[j], a)[0]))
  {
    hide Execute, Wave, Then, PqcCalls;
    WaveSkips(bs, a, j);
    if StepsOf(bs[j], a) != [] {
      var step := StepsOf(bs[j], a)[0];
      assert StepsOf(bs[j], a) == [step];
      hide StepsOf, Matching;
      ExecuteStep(step, Wave(bs[j + 1..], a), answers, i + |calls|, n, p);
      var x := Attempt(step, answers, i + |calls|, n, p);
      if x.fault.None? {
        CallsGrow(calls, x.calls[0]);
        assert x.calls == [x.calls[0]];
        ThenThen(calls, x.calls, Execute(Wave(bs[j + 1..], a), answers, i + |calls| + 1, n + 1, p + StepCost(step)));
      }
    }
  }

  lemma Finished(bs: seq<Bundle>, a: Algorithm, answers: (nat, Resolved) -> Answer,
                 i: nat, n0: nat, p0: nat, calls: seq<Call>, n: nat, p: nat)
    requires Progress(bs, a, |bs|, answers, i, n0, p0, calls, n, p)
    ensures Execute(Wave(bs, a), answers, i, n0, p0) == Execution(calls, None)
    ensures n == n0 + |calls| && p == p0 + PqcCalls(calls)
  {
    assert bs[|bs|..] == [];
  }

  lemma TraceGrows(log0: seq<Resolved>, log: seq<Resolved>, seen0: seq<Observation>, seen: seq<Observation>,
                   results: map<string, seq<ResultEntry>>, after: map<string, seq<ResultEntry>>, calls: seq<Call>, c: Call)
    requires Trace(log0, log, seen0, seen, results, after, calls) && c.bundle.id in after
    ensures var later := if c.answer == Yes then after[c.bundle.id := after[c.bundle.id] + [ResultOf(c.entry)]] else after;
      Trace(log0, log + [c.entry], seen0, seen + [Observe(c)], results, later, calls + [c])
  {
    hide ResultsFor, Entries, Observations;
    CallsGrow(calls, c);
  }

  lemma {:induction false} MatchingAlgorithm(entries: seq<Resolved>, a: Algorithm)
    ensures forall e :: e in Matching(entries, a) <==> e in entries && e.prepared.algorithm == a
  {
    if entries != [] {
      MatchingAlgorithm(entries[1..], a);
      assert entries == [entries[0]] + entries[1..];
    }
  }

  lemma {:induction false} CallsGrow(calls: seq<Call>, c: Call)
    ensures PqcCalls(calls + [c]) == PqcCalls(calls) + PqcCost(c.entry.prepared.algorithm)
    ensures Entries(calls + [c]) == Entries(calls) + [c.entry]
    ensures Observations(calls + [c]) == Observations(calls) + [Observe(c)]
    ensures forall id ::
      ResultsFor(calls + [c], id)
        == ResultsFor(calls, id) + (if c.bundle.id == id && c.answer == Yes then [ResultOf(c.entry)] else [])
  {
    if calls == [] {
      assert [c][1..] == [];
    } else {
      CallsGrow(calls[1..], c);
      assert (calls + [c])[1..] == calls[1..] + [c];
    }
  }

  lemma {:induction false} ExecuteConcat(first: seq<Step>, second: seq<Step>, answers: (nat, Resolved) -> Answer,
                                         i: nat, n: nat, p: nat)
    ensures var x := Execute(first, answers, i, n, p);
      Execute(first + second, answers, i, n, p)
        == if x.fault.Some? then x
           else Then(x.calls, Execute(second, answers, i + |x.calls|, n + |x.calls|, p + PqcCalls(x.calls)))
  {
    hide Execute, Attempt, PqcCalls;
    ExecuteNothing(answers, i, n, p);
    if first == [] {
      assert first + second == second;
      ThenThen([], [], Execute(second, answers, i, n, p));
    } else {
      assert first + second == [first[0]] + (first[1..] + second) && first == [first[0]] + first[1..];
      ExecuteStep(first[0], first[1..] + second, answers, i, n, p);
      ExecuteStep(first[0], first[1..], answers, i, n, p);
      var x, p' := Attempt(first[0], answers, i, n, p), p + StepCost(first[0]);
      ExecuteConcat(first[1..], second, answers, i + 1, n + 1, p');
      var y := Execute(first[1..], answers, i + 1, n + 1, p');
      AttemptCost(first[0], answers, i, n, p, y.calls);
      ThenThen(x.calls, y.calls, Execute(second, answers, i + 1 + |y.calls|, n + 1 + |y.calls|, p' + PqcCalls(y.calls)));
    }
  }

  lemma ExecuteNothing(answers: (nat, Resolved) -> Answer, i: nat, n: nat, p: nat)
    ensures Execute([], answers, i, n, p) == Execution([], None) && PqcCalls([]) == 0
  {
  }

  lemma AttemptCost(step: Step, answers: (nat, Resolved) -> Answer, i: nat, n: nat, p: nat, calls: seq<Call>)
    ensures var x := Attempt(step, answers, i, n, p);
      x.fault.None? ==> |x.calls| == 1 && PqcCalls(x.calls + calls) == StepCost(step) + PqcCalls(calls)
  {
    var x := Attempt(step, answers, i, n, p);
    if x.fault.None? { FirstCost(x.calls[0], calls); }
  }

  lemma FirstCost(c: Call, calls: seq<Call>)
    ensures PqcCalls([c] + calls) == PqcCost(c.entry.prepared.algorithm) + PqcCalls(calls)
  {
    assert ([c] + calls)[1..] == calls;
  }

  lemma NoPlan(bs: seq<Bundle>, answers: (nat, Resolved) -> Answer, i: nat)
    ensures PqcCalls([]) == 0
    ensures Execute(Plan(bs), answers, i, 0, 0) == Then([], Execute(Waves(bs, WAVE_ORDER), answers, i, 0, 0))
  {
  }

  lemma WavesStep(bs: seq<Bundle>, k: nat, answers: (nat, Resolved) -> Answer, i: nat, n: nat, p: nat, calls: seq<Call>)
    requires k < |WAVE_ORDER|
    ensures var x := Execute(Wave(bs, WAVE_ORDER[k]), answers, i, n, p);
      Then(calls, Execute(Waves(bs, WAVE_ORDER[k..]), answers, i, n, p))
        == if x.fault.Some? then Then(calls, x)
           else Then(calls + x.calls, Execute(Waves(bs, WAVE_ORDER[k + 1..]), answers,
                                              i + |x.calls|, n + |x.calls|, p + PqcCalls(x.calls)))
    ensures forall x :: PqcCalls(calls + x) == PqcCalls(calls) + PqcCalls(x)
  {
    hide Execute;
    assert WAVE_ORDER[k..][1..] == WAVE_ORDER[k + 1..];
    var x := Execute(Wave(bs, WAVE_ORDER[k]), answers, i, n, p);
    var rest := Waves(bs, WAVE_ORDER[k + 1..]);
    ExecuteConcat(Wave(bs, WAVE_ORDER[k]), rest, answers, i, n, p);
    ThenThen(calls, x.calls, Execute(rest, answers, i + |x.calls|, n + |x.calls|, p + PqcCalls(x.calls)));
    forall x ensures PqcCalls(calls + x) == PqcCalls(calls) + PqcCalls(x) { PqcJoins(calls, x); }
  }

  lemma {:induction false} PqcJoins(a: seq<Call>, b: seq<Call>)
    ensures PqcCalls(a + b) == PqcCalls(a) + PqcCalls(b)
  {
    if a == [] {
      assert a + b == b;
    } else {
      assert (a + b)[1..] == a[1..] + b;
      PqcJoins(a[1..], b);
    }
  }

  lemma {:induction false} ResultsJoin(a: seq<Call>, b: seq<Call>, id: string)
    ensures ResultsFor(a + b, id) == ResultsFor(a, id) + ResultsFor(b, id)
  {
    if a == [] {
      assert a + b == b;
    } else {
      assert (a + b)[1..] == a[1..] + b;
      ResultsJoin(a[1..], b, id);
    }
  }

  lemma NoTrace(log: seq<Resolved>, seen: seq<Observation>, results: map<string, seq<ResultEntry>>)
    ensures Trace(log, log, seen, seen, results, results, [])
  {
    assert Entries([]) == [] && Observations([]) == [];
  }

  lemma TraceJoins(log0: seq<Resolved>, log1: seq<Resolved>, log2: seq<Resolved>,
                   seen0: seq<Observation>, seen1: seq<Observation>, seen2: seq<Observation>,
                   r0: map<string, seq<ResultEntry>>, r1: map<string, seq<ResultEntry>>, r2: map<string, seq<ResultEntry>>,
                   a: seq<Call>, b: seq<Call>)
    requires Trace(log0, log1, seen0, seen1, r0, r1, a) && Trace(log1, log2, seen1, seen2, r1, r2, b)
    ensures Trace(log0, log2, seen0, seen2, r0, r2, a + b) && |log2| == |log0| + |a + b| && r2.Keys == r0.Keys
  {
    hide ResultsFor;
    assert Entries(a + b) == Entries(a) + Entries(b);
    assert Observations(a + b) == Observations(a) + Observations(b);
    forall id | id in r0 ensures r2[id] == r0[id] + ResultsFor(a + b, id) { ResultsJoin(a, b, id); }
  }

  lemma TraceMeaning(log0: seq<Resolved>, log: seq<Resolved>, seen0: seq<Observation>, seen: seq<Observation>,
                     empty: map<string, seq<ResultEntry>>, results: map<string, seq<ResultEntry>>, calls: seq<Call>)
    requires Trace(log0, log, seen0, seen, empty, results, calls) && forall id :: id in empty ==> empty[id] == []
    ensures Logged(log0, log, calls) && Observed(seen0, seen, calls) && results.Keys == empty.Keys
    ensures forall id :: id in results ==> results[id] == ResultsFor(calls, id)
  {
    hide ResultsFor;
  }

  lemma PlanDone(bs: seq<Bundle>, answers: (nat, Resolved) -> Answer, i: nat, n: nat, p: nat, calls: seq<Call>)
    ensures Then(calls, Execute(Waves(bs, WAVE_ORDER[|WAVE_ORDER|..]), answers, i, n, p)) == Execution(calls, None)
  {
  }

  /** _verify_global_algorithm_waves: the results by bundle, or the first fault. */
  method VerifyWaves(bs: seq<Bundle>, backend: SignatureBackend, capture: TranscriptCapture)
    returns (results: map<string, seq<ResultEntry>>, fault: Option<WaveFault>, ghost calls: seq<Call>)
    modifies backend`log, capture`observations
    ensures Execution(calls, fault) == Execute(Plan(bs), backend.answers, |old(backend.log)|, 0, 0)
    ensures Logged(old(backend.log), backend.log, calls) && Observed(old(capture.observations), capture.observations, calls)
    ensures results.Keys == set b | b in bs :: b.id
    ensures forall id :: id in results ==> results[id] == ResultsFor(calls, id)
  {
    hide Trace, Execute, Wave, Waves, PqcCalls, ResultsFor;
    ghost var log0, seen0 := backend.log, capture.observations;
    var ids := set b | b in bs :: b.id;
    var empty: map<string, seq<ResultEntry>> := map id | id in ids :: [];
    var budget := new CallBudget();
    results, fault, calls := empty, None, [];
    var k := 0;
    NoTrace(log0, seen0, empty);
    assert WAVE_ORDER[0..] == WAVE_ORDER;
    NoPlan(bs, backend.answers, |log0|);
    while k < |WAVE_ORDER|
      invariant k <= |WAVE_ORDER| && fault.None? && results.Keys == empty.Keys && |backend.log| == |log0| + |calls|
      invariant Trace(log0, backend.log, seen0, capture.observations, empty, results, calls)
      invariant budget.total == |calls| && budget.pqc == PqcCalls(calls)
      invariant Execute(Plan(bs), backend.answers, |log0|, 0, 0)
        == Then(calls, Execute(Waves(bs, WAVE_ORDER[k..]), backend.answers, |backend.log|, budget.total, budget.pqc))
    {
      ghost var log1, seen1, n1, p1, before := backend.log, capture.observations, budget.total, budget.pqc, results;
      ghost var more;
      results, fault, more := RunWave(bs, WAVE_ORDER[k], results, budget, backend, capture);
      WavesStep(bs, k, backend.answers, |log1|, n1, p1, calls);
      TraceJoins(log0, log1, backend.log, seen0, seen1, capture.observations, empty, before, results, calls, more);
      calls := calls + more;
      if fault.Some? { break; }
      k := k + 1;
    }
    if fault.None? { PlanDone(bs, backend.answers, |backend.log|, budget.total, budget.pqc, calls); }
    TraceMeaning(log0, backend.log, seen0, capture.observations, empty, results, calls);
  }
}
