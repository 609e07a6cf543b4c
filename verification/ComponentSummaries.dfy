/** Predicted and actual component summaries, and the order-blind check of what the receipt claims about them. */
module ComponentSummaries {
  import opened Wrappers
  import opened Strings
  import opened ReceiptContract
  import opened ReceiptPipelines
  import opened KeyRegistry
  import opened VerificationWaves
  import opened WaveProperties

  datatype Summary = Summary(id: string, role: string, algorithms: seq<string>, profiles: seq<string>)

  /** A summary with its algorithm and profile pairs sorted: their order is forgotten. */
  datatype Normal = Normal(id: Wire, role: Wire, verified: Wire, pairs: multiset<(string, string)>, policy: Wire)

  function NameOf(a: Algorithm): (name: string)
    ensures AlgorithmOf(name) == Some(a)
  {
    match a
    case Ed25519 => "classical-ed25519"
    case MlDsa => "ml-dsa"
    case FnDsa => "fn-dsa"
  }

  function PreparedNames(entries: seq<Resolved>): seq<string> {
    seq(|entries|, i requires 0 <= i < |entries| => NameOf(entries[i].prepared.algorithm))
  }

  function PreparedProfiles(entries: seq<Resolved>): seq<string> {
    seq(|entries|, i requires 0 <= i < |entries| => entries[i].prepared.profile)
  }

  /** _preflight_component_summaries: what verification would report, predicted before any callback. */
  function Predicted(bs: seq<Bundle>): seq<Summary> {
    if bs == [] then []
    else
      (if bs[0].id == ORCHESTRATOR_ROLE then []
       else [Summary(bs[0].id, bs[0].role, PreparedNames(bs[0].entries), PreparedProfiles(bs[0].entries))])
      + Predicted(bs[1..])
  }

  function ResultNames(rs: seq<ResultEntry>): seq<string> {
    seq(|rs|, i requires 0 <= i < |rs| => NameOf(rs[i].algorithm))
  }

  function ResultProfiles(rs: seq<ResultEntry>): seq<string> {
    seq(|rs|, i requires 0 <= i < |rs| => rs[i].profile)
  }

  /** The summaries of the results the waves collected. */
  function Reported(bs: seq<Bundle>, results: map<string, seq<ResultEntry>>): seq<Summary>
    requires forall b :: b in bs ==> b.id in results
  {
    if bs == [] then []
    else
      (if bs[0].id == ORCHESTRATOR_ROLE then []
       else [Summary(bs[0].id, bs[0].role, ResultNames(results[bs[0].id]), ResultProfiles(results[bs[0].id]))])
      + Reported(bs[1..], results)
  }

  lemma {:induction false} SummariesAgree(bs: seq<Bundle>, results: map<string, seq<ResultEntry>>)
    requires forall b :: b in bs ==> b.id in results && results[b.id] == ResultsOf(b.entries)
    ensures Reported(bs, results) == Predicted(bs)
  {
    if bs != [] {
      SummariesAgree(bs[1..], results);
      var rs, es := results[bs[0].id], bs[0].entries;
      assert ResultNames(rs) == PreparedNames(es) && ResultProfiles(rs) == PreparedProfiles(es);
    }
  }

  // --------------------------------------------------------------- the check

  function Zip(a: seq<string>, b: seq<string>): seq<(string, string)>
    requires |a| == |b|
  {
    seq(|a|, i requires 0 <= i < |a| => (a[i], b[i]))
  }

  predicate AllText(v: Wire) {
    v.WList? && forall i :: 0 <= i < |v.items| ==> v.items[i].WText?
  }

  function Texts(v: Wire): seq<string>
    requires AllText(v)
  {
    seq(|v.items|, i requires 0 <= i < |v.items| => v.items[i].s)
  }

  /** _normalise_component_signature_result on a claim of the receipt. */
  function NormalClaim(x: Wire): Option<Normal> {
    var algorithms, profiles := Field(x, "verified_algorithms"), Field(x, "verified_standard_profiles");
    if !AllText(algorithms) || !AllText(profiles) || |profiles.items| != |algorithms.items| then None
    else Some(Normal(Field(x, "component_id"), Field(x, "component_role"), Field(x, "verified"),
                     multiset(Zip(Texts(algorithms), Texts(profiles))), Field(x, "signature_policy")))
  }

  function NormalSummary(s: Summary): Option<Normal> {
    if |s.algorithms| != |s.profiles| then None
    else Some(Normal(WText(s.id), WText(s.role), WBool(true), multiset(Zip(s.algorithms, s.profiles)),
                     WText(SIGNATURE_POLICY)))
  }

  function Claims(xs: seq<Wire>): seq<Option<Normal>> {
    seq(|xs|, i requires 0 <= i < |xs| => NormalClaim(xs[i]))
  }

  function Expected(ss: seq<Summary>): seq<Option<Normal>> {
    seq(|ss|, i requires 0 <= i < |ss| => NormalSummary(ss[i]))
  }

  /** _cross_check_component_signature_results: both lists sorted by component and compared. */
  predicate CrossChecks(xs: seq<Wire>, ss: seq<Summary>) {
    None !in Claims(xs) && None !in Expected(ss) && multiset(Claims(xs)) == multiset(Expected(ss))
  }

  /** Checking before any callback decides the same as checking what the callbacks later report. */
  lemma PredictionDecides(xs: seq<Wire>, bs: seq<Bundle>, answers: (nat, Resolved) -> Answer, i: nat,
                          results: map<string, seq<ResultEntry>>)
    requires WellFormed(bs) && Execute(Plan(bs), answers, i, 0, 0).fault.None?
    requires results.Keys == set b | b in bs :: b.id
    requires forall id :: id in results ==> results[id] == ResultsFor(Execute(Plan(bs), answers, i, 0, 0).calls, id)
    ensures Reported(bs, results) == Predicted(bs)
    ensures CrossChecks(xs, Reported(bs, results)) <==> CrossChecks(xs, Predicted(bs))
  {
    hide Execute, Plan, CrossChecks;
    forall b | b in bs ensures results[b.id] == ResultsOf(b.entries) {
      var j :| 0 <= j < |bs| && bs[j] == b;
      ResultsInOrder(bs, answers, i, j);
    }
    SummariesAgree(bs, results);
  }

  /** The order in which the receipt lists its claims does not matter. */
  lemma ClaimOrderIrrelevant(xs: seq<Wire>, ys: seq<Wire>, ss: seq<Summary>)
    requires multiset(xs) == multiset(ys)
    ensures CrossChecks(xs, ss) <==> CrossChecks(ys, ss)
  {
    ClaimsPermute(xs, ys);
    assert None in Claims(xs) <==> None in multiset(Claims(xs));
    assert None in Claims(ys) <==> None in multiset(Claims(ys));
  }

  lemma {:induction false} ClaimsPermute(xs: seq<Wire>, ys: seq<Wire>)
    requires multiset(xs) == multiset(ys)
    ensures multiset(Claims(xs)) == multiset(Claims(ys))
  {
    hide NormalClaim, Claims;
    if xs == [] {
      assert |multiset(ys)| == 0;
      assert ys == [];
    } else {
      assert xs[0] in multiset(ys);
      var j :| 0 <= j < |ys| && ys[j] == xs[0];
      ClaimsWithout(xs, 0);
      ClaimsWithout(ys, j);
      assert multiset(Without(xs, 0)) == multiset(xs) - multiset{xs[0]};
      assert multiset(Without(ys, j)) == multiset(ys) - multiset{xs[0]};
      ClaimsPermute(Without(xs, 0), Without(ys, j));
    }
  }

  lemma ClaimsWithout(xs: seq<Wire>, j: nat)
    requires j < |xs|
    ensures multiset(xs) == multiset{xs[j]} + multiset(Without(xs, j)) && |Without(xs, j)| == |xs| - 1
    ensures multiset(Claims(xs)) == multiset{NormalClaim(xs[j])} + multiset(Claims(Without(xs, j)))
  {
    hide NormalClaim;
    assert xs == xs[..j] + [xs[j]] + xs[j + 1..];
    assert Claims(xs) == Claims(xs[..j]) + [NormalClaim(xs[j])] + Claims(xs[j + 1..]);
    assert Claims(Without(xs, j)) == Claims(xs[..j]) + Claims(xs[j + 1..]);
  }

  /** Passing the check means every component bundle is claimed as it is: its own pairs, under its own name and role. */
  lemma CrossCheckMeans(xs: seq<Wire>, bs: seq<Bundle>, b: Bundle)
    requires CrossChecks(xs, Predicted(bs)) && b in bs && b.id != ORCHESTRATOR_ROLE
    ensures exists i :: 0 <= i < |xs| && Claims(xs)[i] == Some(Normal(
      WText(b.id), WText(b.role), WBool(true), multiset(Zip(PreparedNames(b.entries), PreparedProfiles(b.entries))),
      WText(SIGNATURE_POLICY)))
  {
    var ss := Predicted(bs);
    var j := PredictedHas(bs, b);
    assert Expected(ss)[j] in multiset(Expected(ss));
    assert Expected(ss)[j] in Claims(xs) by { assert Expected(ss)[j] in multiset(Claims(xs)); }
  }

  lemma {:induction false} PredictedHas(bs: seq<Bundle>, b: Bundle) returns (j: nat)
    requires b in bs && b.id != ORCHESTRATOR_ROLE
    ensures j < |Predicted(bs)|
    ensures Predicted(bs)[j] == Summary(b.id, b.role, PreparedNames(b.entries), PreparedProfiles(b.entries))
  {
    if b == bs[0] {
      j := 0;
    } else {
      j := PredictedHas(bs[1..], b);
      if bs[0].id != ORCHESTRATOR_ROLE { j := j + 1; }
    }
  }

  // ------------------------------------------------------ what the check compares

  /** Texts side by side. */
  function Pairs(a: seq<string>, b: seq<string>): seq<(string, string)>
    requires |a| == |b|
  {
    if a == [] then [] else [(a[0], b[0])] + Pairs(a[1..], b[1..])
  }

  lemma {:induction false} PairsAre(a: seq<string>, b: seq<string>)
    requires |a| == |b|
    ensures Pairs(a, b) == Zip(a, b)
  {
    if a != [] {
      PairsAre(a[1..], b[1..]);
      assert Zip(a, b) == [(a[0], b[0])] + Zip(a[1..], b[1..]);
    }
  }

  /** The list holds exactly these texts. */
  predicate TextsAre(v: Wire, ss: seq<string>) {
    v.WList? && |v.items| == |ss| && forall i :: 0 <= i < |ss| ==> v.items[i] == WText(ss[i])
  }

  lemma TextsExactly(v: Wire, ss: seq<string>)
    ensures TextsAre(v, ss) <==> AllText(v) && Texts(v) == ss
  {
    if AllText(v) && Texts(v) == ss { assert forall i :: 0 <= i < |ss| ==> v.items[i] == WText(Texts(v)[i]); }
  }

  /** The claim lists these algorithms and profiles, in pairs that are those of the bundle's entries. */
  predicate PairedAs(x: Wire, b: Bundle, names: seq<string>, profiles: seq<string>) {
    && TextsAre(Field(x, "verified_algorithms"), names) && TextsAre(Field(x, "verified_standard_profiles"), profiles)
    && |names| == |profiles|
    && multiset(Pairs(names, profiles)) == multiset(Pairs(PreparedNames(b.entries), PreparedProfiles(b.entries)))
  }

  /** The claim of the bundle: its name, its role, verified, under this policy, with its algorithms and profiles paired. */
  ghost predicate ClaimFor(x: Wire, b: Bundle) {
    && Field(x, "component_id") == WText(b.id) && Field(x, "component_role") == WText(b.role)
    && Field(x, "verified") == WBool(true) && Field(x, "signature_policy") == WText("policy.v1")
    && exists names, profiles :: PairedAs(x, b, names, profiles)
  }

  function SummaryOf(b: Bundle): Summary {
    Summary(b.id, b.role, PreparedNames(b.entries), PreparedProfiles(b.entries))
  }

  lemma PairedNormal(x: Wire, b: Bundle, names: seq<string>, profiles: seq<string>)
    requires TextsAre(Field(x, "verified_algorithms"), names)
    requires TextsAre(Field(x, "verified_standard_profiles"), profiles)
    ensures NormalClaim(x).Some? <==> |names| == |profiles|
    ensures NormalClaim(x).Some? ==>
      (NormalClaim(x).value.pairs == NormalSummary(SummaryOf(b)).value.pairs <==> PairedAs(x, b, names, profiles))
  {
    hide Field, Zip, Pairs, TextsAre, AllText, Texts, PreparedNames, PreparedProfiles;
    TextsExactly(Field(x, "verified_algorithms"), names);
    TextsExactly(Field(x, "verified_standard_profiles"), profiles);
    ListLength(Field(x, "verified_algorithms"), names);
    ListLength(Field(x, "verified_standard_profiles"), profiles);
    BundleLengths(b);
    PairsAre(PreparedNames(b.entries), PreparedProfiles(b.entries));
    if |names| == |profiles| { PairsAre(names, profiles); }
  }

  lemma ListLength(v: Wire, ss: seq<string>)
    requires TextsAre(v, ss)
    ensures v.WList? && |v.items| == |ss|
  {
  }

  lemma BundleLengths(b: Bundle)
    ensures |PreparedNames(b.entries)| == |PreparedProfiles(b.entries)|
  {
  }

  lemma ClaimForExactly(x: Wire, b: Bundle)
    ensures NormalClaim(x).Some? && NormalClaim(x) == NormalSummary(SummaryOf(b)) <==> ClaimFor(x, b)
  {
    hide Field, Zip, Pairs, TextsAre, PreparedNames, PreparedProfiles;
    var algorithms, profiles := Field(x, "verified_algorithms"), Field(x, "verified_standard_profiles");
    BundleLengths(b);
    if AllText(algorithms) && AllText(profiles) {
      var names, others := Texts(algorithms), Texts(profiles);
      TextsExactly(algorithms, names);
      TextsExactly(profiles, others);
      PairedNormal(x, b, names, others);
    }
    if ClaimFor(x, b) {
      var names, others :| PairedAs(x, b, names, others);
      TextsExactly(algorithms, names);
      TextsExactly(profiles, others);
    }
  }

  /** The bundles that are not the orchestrator's. */
  function ComponentBundles(bs: seq<Bundle>): seq<Bundle> {
    if bs == [] then []
    else (if bs[0].id == ORCHESTRATOR_ROLE then [] else [bs[0]]) + ComponentBundles(bs[1..])
  }

  lemma {:induction false} PredictedOf(bs: seq<Bundle>)
    ensures |Predicted(bs)| == |ComponentBundles(bs)|
    ensures forall k :: 0 <= k < |Predicted(bs)| ==> Predicted(bs)[k] == SummaryOf(ComponentBundles(bs)[k])
  {
    if bs != [] { PredictedOf(bs[1..]); }
  }

  /** Taking out a claim with the summary it matches. */
  lemma AlignStep(xs: seq<Wire>, ss: seq<Summary>, j: nat)
    requires multiset(Claims(xs)) == multiset(Expected(ss)) && ss != []
    requires j < |xs| && NormalClaim(xs[j]) == NormalSummary(ss[0])
    ensures multiset(Claims(Without(xs, j))) == multiset(Expected(ss[1..]))
    ensures Expected(ss) == [NormalSummary(ss[0])] + Expected(ss[1..])
  {
    hide NormalClaim, NormalSummary, Claims;
    ClaimsWithout(xs, j);
    assert Expected(ss) == [NormalSummary(ss[0])] + Expected(ss[1..]);
    var n := NormalSummary(ss[0]);
    assert multiset(Expected(ss)) == multiset{n} + multiset(Expected(ss[1..]));
    Cancel(n, multiset(Claims(Without(xs, j))), multiset(Expected(ss[1..])));
  }

  lemma Cancel<T>(n: T, a: multiset<T>, b: multiset<T>)
    requires multiset{n} + a == multiset{n} + b
    ensures a == b
  {
    assert a == (multiset{n} + a) - multiset{n};
    assert b == (multiset{n} + b) - multiset{n};
  }

  lemma AlignBack(xs: seq<Wire>, j: nat, rest: seq<Wire>)
    requires j < |xs| && multiset(rest) == multiset(Without(xs, j))
    ensures multiset([xs[j]] + rest) == multiset(xs) && Claims([xs[j]] + rest) == [NormalClaim(xs[j])] + Claims(rest)
  {
    hide NormalClaim;
    assert xs == xs[..j] + [xs[j]] + xs[j + 1..];
  }

  /** The claims put in the order of the summaries they match. */
  lemma {:induction false} Aligned(xs: seq<Wire>, ss: seq<Summary>) returns (order: seq<Wire>)
    requires multiset(Claims(xs)) == multiset(Expected(ss))
    ensures multiset(order) == multiset(xs) && Claims(order) == Expected(ss)
  {
    if ss == [] {
      assert |Claims(xs)| == |multiset(Claims(xs))| == 0;
      order := [];
    } else {
      var j := Matching(xs, ss);
      hide NormalClaim, NormalSummary, Claims, Expected, Without;
      AlignStep(xs, ss, j);
      var rest := Aligned(Without(xs, j), ss[1..]);
      order := [xs[j]] + rest;
      AlignBack(xs, j, rest);
    }
  }

  lemma Matching(xs: seq<Wire>, ss: seq<Summary>) returns (j: nat)
    requires multiset(Claims(xs)) == multiset(Expected(ss)) && ss != []
    ensures j < |xs| && NormalClaim(xs[j]) == NormalSummary(ss[0])
  {
    hide NormalClaim, NormalSummary;
    assert Expected(ss)[0] in multiset(Claims(xs));
    j :| 0 <= j < |xs| && Claims(xs)[j] == Expected(ss)[0];
  }

  /** In some order the claims are those of the component bundles, one each. */
  ghost predicate ClaimedOneByOne(xs: seq<Wire>, cs: seq<Bundle>) {
    exists order: seq<Wire> ::
      multiset(order) == multiset(xs) && |order| == |cs| && forall k :: 0 <= k < |cs| ==> ClaimFor(order[k], cs[k])
  }

  /** The cross-check passes exactly when the receipt claims its component bundles, each as it is, and nothing else. */
  lemma CrossCheckExactly(xs: seq<Wire>, bs: seq<Bundle>)
    ensures CrossChecks(xs, Predicted(bs)) <==> ClaimedOneByOne(xs, ComponentBundles(bs))
  {
    hide NormalClaim, NormalSummary, ClaimFor, Predicted, ComponentBundles;
    var ss, cs := Predicted(bs), ComponentBundles(bs);
    PredictedOf(bs);
    forall x, b ensures NormalClaim(x).Some? && NormalClaim(x) == NormalSummary(SummaryOf(b)) <==> ClaimFor(x, b) {
      ClaimForExactly(x, b);
    }
    if CrossChecks(xs, ss) {
      var order := Aligned(xs, ss);
      assert |order| == |Claims(order)| == |Expected(ss)| == |cs|;
      forall k | 0 <= k < |cs| ensures ClaimFor(order[k], cs[k]) {
        assert Claims(order)[k] == Expected(ss)[k] && Expected(ss)[k] in Expected(ss);
      }
    }
    if ClaimedOneByOne(xs, cs) {
      var order: seq<Wire> :|
        multiset(order) == multiset(xs) && |order| == |cs| && forall k :: 0 <= k < |cs| ==> ClaimFor(order[k], cs[k]);
      assert forall k :: 0 <= k < |cs| ==> Claims(order)[k] == Expected(ss)[k] && Claims(order)[k].Some?;
      assert Claims(order) == Expected(ss);
      assert CrossChecks(order, ss);
      ClaimOrderIrrelevant(order, xs, ss);
    }
  }
}
