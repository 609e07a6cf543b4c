/** The staged verifier's acceptance against the one-shot contract validator's. */
module ReceiptStaging {
  import opened Wrappers
  import opened Trimming
  import opened ReceiptContract
  import opened ReceiptPipelines

  datatype Verdict = Passed(bundles: PreparedBundles) | Refused | Raised

  ghost predicate OneShotAccepts(r: Wire, context: string, env: Oracles) {
    ReceiptHolds(r, context, env) && IntegrityHolds(r, env) && BundlesShaped(r, env)
  }

  /** A component identity with surrounding whitespace, which a caller can see before the call. */
  predicate HasPaddedIdentity(r: Wire) {
    exists i :: 0 <= i < |Components(r)| && IdentityPadded(Components(r)[i])
  }

  predicate IdentityPadded(c: Wire) {
    Field(c, "component_id").WText? && Strip(Field(c, "component_id").s) != Field(c, "component_id").s
  }

  /** The staged checks of the verifier in its order: receipt preflight, bundle preflight, integrity. */
  method StagedValidate(r: Wire, context: string, env: Oracles) returns (v: Verdict)
    ensures v.Passed? ==> BundlesPrepared(r, env, v.bundles)
    ensures v.Passed? <==> OneShotAccepts(r, context, env) && !RepeatsAKey(r, env) && !HasPaddedIdentity(r)
    ensures v.Raised? ==> ReceiptHolds(r, context, env) && HasPaddedIdentity(r)
    ensures v.Refused? ==> !OneShotAccepts(r, context, env) || RepeatsAKey(r, env)
  {
    hide ReceiptHolds, IntegrityHolds, BundlesShaped, RepeatsAKey, BundlesPrepared, HasPaddedIdentity;
    var fault := PreflightReceipt(r, context, env);
    if fault.Some? { return Refused; }
    IdentityKnownExactly(r, context, env);
    var s := PreflightReceiptBundles(r, env);
    match s
    case KeyErrorRaised => v := Raised;
    case Rejected(_) => v := Refused;
    case Accepted(pb) =>
      PreparedMeansShaped(r, env, pb);
      var fault := CheckIntegrity(r, env);
      v := if fault.None? then Passed(pb) else Refused;
  }

  lemma RoleNamesStripped(s: string)
    requires s in COMPONENT_ROLES
    ensures Strip(s) == s
  {
    StripFixes(s);
  }

  /** Among accepted components, known as written and unpadded are the same thing. */
  lemma IdentityKnownExactly(r: Wire, context: string, env: Oracles)
    requires ReceiptHolds(r, context, env)
    ensures (exists i :: 0 <= i < |Components(r)| && !IdentityKnown(Components(r)[i])) <==> HasPaddedIdentity(r)
  {
    hide ReceiptHeaderHolds, ReceiptBodyHolds, ComponentBodyHolds, HashText, ExpectedOutcome;
    forall i | 0 <= i < |Components(r)|
      ensures !IdentityKnown(Components(r)[i]) <==> IdentityPadded(Components(r)[i])
    {
      assert ComponentHeaderHolds(Components(r)[i]);
      var id := Field(Components(r)[i], "component_id").s;
      if id in COMPONENT_ROLES { RoleNamesStripped(id); }
    }
  }

  lemma PreparedMeansShaped(r: Wire, env: Oracles, pb: PreparedBundles)
    requires BundlesPrepared(r, env, pb)
    ensures BundlesShaped(r, env) && !RepeatsAKey(r, env)
    ensures forall i :: 0 <= i < |Components(r)| ==> IdentityKnown(Components(r)[i])
  {
    hide Components, Field, HashOf, BundleHolds, KeyRepeated, IdentityKnown;
    var cs := Components(r);
    forall i | 0 <= i < |cs|
      ensures IdentityKnown(cs[i]) && ComponentBundleShape(cs[i], env)
      ensures forall ps :: ComponentPrepared(cs[i], env, ps) ==> !KeyRepeated(ps)
    {
      assert BundlePrepared(cs[i], env, pb.components[i]);
      UniquePreparation(Field(cs[i], "signature_bundle"), HashOf(cs[i]), COMPONENT_DOMAIN, env, pb.components[i]);
    }
    UniquePreparation(Field(r, "signature_bundle"), HashOf(r), RECEIPT_DOMAIN, env, pb.receipt);
  }

  lemma UniquePreparation(bundle: Wire, hash: string, domain: string, env: Oracles, ps: seq<Prepared>)
    requires BundleHolds(bundle, hash, domain, env, ps) && !KeyRepeated(ps)
    ensures BundleShape(bundle, hash, domain, env)
    ensures forall qs :: BundleHolds(bundle, hash, domain, env, qs) ==> !KeyRepeated(qs)
  {
    hide BundleHolds, KeyRepeated;
    forall qs | BundleHolds(bundle, hash, domain, env, qs) ensures qs == ps {
      BundleUnique(bundle, hash, domain, env, ps, qs);
    }
  }
}
