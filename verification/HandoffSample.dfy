/** A receipt that denies and yet is reported to hand off. */
module HandoffSample {
  import opened Wrappers
  import opened ReceiptContract
  import opened ReceiptPipelines
  import opened ReceiptVerifier
  import opened VerifierOutcomes
  import opened SampleReceipts
  import opened VerifiedSample

  function Denied(c: Wire): Wire {
    if c.WDict? then WDict(c.fields["decision" := WText("DENY")]) else c
  }

  function DeniedAll(cs: seq<Wire>): seq<Wire> {
    seq(|cs|, i requires 0 <= i < |cs| => Denied(cs[i]))
  }

  /** The receipt with every component denying, and a handoff value that is 1. */
  function DeniedReceipt(r: Wire): Wire
    requires r.WDict?
  {
    WDict(r.fields
      ["component_verdicts" := WList(DeniedAll(Components(r)))]
      ["final_outcome" := WText("DENY")]
      ["adamantineos_handoff" := WDict(map["handoff_allowed" := WInt(1)])])
  }

  lemma DeniedFields(c: Wire)
    requires c.WDict?
    ensures Field(Denied(c), "decision") == WText("DENY")
    ensures forall key :: key != "decision" ==> Field(Denied(c), key) == Field(c, key)
    ensures "decision" in c.fields ==> Denied(c).fields.Keys == c.fields.Keys
  {
  }

  lemma DeniedHolds(c: Wire, context: string, env: Oracles)
    requires ComponentHolds(c, context, env)
    ensures ComponentHolds(Denied(c), context, env) && Field(Denied(c), "decision") == WText("DENY")
    ensures Field(Denied(c), "component_id") == Field(c, "component_id")
  {
    hide Denied, NonEmpty, HashText, TextList, ForbiddenAuthority;
    assert c.WDict? && "decision" in c.fields;
    DeniedFields(c);
    hide Field;
  }

  lemma ReceiptChanged(r: Wire)
    requires r.WDict? && FieldsMatch(r, RECEIPT_FIELDS)
    ensures var d := DeniedReceipt(r);
      && FieldsMatch(d, RECEIPT_FIELDS) && Field(d, "component_verdicts") == WList(DeniedAll(Components(r)))
      && Field(d, "final_outcome") == WText("DENY")
      && Field(d, "adamantineos_handoff") == WDict(map["handoff_allowed" := WInt(1)])
      && forall key :: key !in {"component_verdicts", "final_outcome", "adamantineos_handoff"} ==> Field(d, key) == Field(r, key)
  {
    hide Components, DeniedAll;
    assert {"component_verdicts", "final_outcome", "adamantineos_handoff"} <= RECEIPT_FIELDS;
    assert DeniedReceipt(r).fields.Keys == r.fields.Keys;
  }

  lemma DeniedSet(cs: seq<Wire>, context: string, env: Oracles)
    requires ComponentSetHolds(WList(cs), context, env)
    ensures ComponentSetHolds(WList(DeniedAll(cs)), context, env) && ExpectedOutcome(DeniedAll(cs)) == "DENY"
    ensures forall i :: 0 <= i < |cs| ==> Field(DeniedAll(cs)[i], "decision") == WText("DENY")
  {
    hide ComponentHolds, Denied, Field, ExpectedOutcome;
    var ds := DeniedAll(cs);
    forall i | 0 <= i < |cs|
      ensures ComponentHolds(ds[i], context, env) && Field(ds[i], "decision") == WText("DENY")
      ensures Field(ds[i], "component_id") == Field(cs[i], "component_id")
    {
      DeniedHolds(cs[i], context, env);
    }
    assert Denies(ds[0]);
    OutcomeExact(ds);
  }

  lemma DeniedHeader(r: Wire, context: string, env: Oracles)
    requires ReceiptHeaderHolds(r, context, env)
    ensures ReceiptHeaderHolds(DeniedReceipt(r), context, env)
  {
    hide DeniedReceipt, HashText, DeniedAll, FieldsMatch, Components;
    ReceiptChanged(r);
  }

  lemma DeniedBody(r: Wire)
    requires r.WDict? && FieldsMatch(r, RECEIPT_FIELDS) && ReceiptBodyHolds(r)
    ensures ReceiptBodyHolds(DeniedReceipt(r))
  {
    hide DeniedReceipt, NonEmpty, TextList, ResultsHold, DeniedAll, FieldsMatch, Components, ForbiddenAuthority, Field;
    ReceiptChanged(r);
    NothingForbidden();
  }

  lemma DeniedReceiptHolds(r: Wire, context: string, env: Oracles)
    requires ReceiptHolds(r, context, env)
    ensures r.WDict? && ReceiptHolds(DeniedReceipt(r), context, env) && HandoffValue(DeniedReceipt(r)) == WInt(1)
    ensures Components(DeniedReceipt(r)) == DeniedAll(Components(r)) && |Components(r)| == 5
    ensures forall i :: 0 <= i < 5 ==> Field(Components(DeniedReceipt(r))[i], "decision") == WText("DENY")
  {
    hide DeniedReceipt, HashText, ExpectedOutcome, DeniedAll, ComponentSetHolds, ReceiptHeaderHolds, ReceiptBodyHolds;
    HeaderShaped(r, context, env);
    var inner := HashText(Field(r, "context_hash"), env).value;
    DeniedHeader(r, context, env);
    DeniedBody(r);
    ReceiptChanged(r);
    SetIsList(Field(r, "component_verdicts"), inner, env);
    DeniedSet(Components(r), inner, env);
  }

  lemma HeaderShaped(r: Wire, context: string, env: Oracles)
    requires ReceiptHeaderHolds(r, context, env)
    ensures r.WDict? && FieldsMatch(r, RECEIPT_FIELDS) && HashText(Field(r, "context_hash"), env).Some?
  {
  }

  lemma SetIsList(v: Wire, context: string, env: Oracles)
    requires ComponentSetHolds(v, context, env)
    ensures v.WList? && |v.items| == 5
  {
    hide ComponentHolds;
  }

  lemma NothingForbidden()
    ensures !ForbiddenAuthority(WDict(map["handoff_allowed" := WInt(1)]))
  {
  }

  /** The contract holds of it, every component denies, and a handoff is reported all the same. */
  lemma HandoffWithoutAllowance() returns (r: Wire, context: string, env: Oracles)
    ensures ReceiptHolds(r, context, env) && WaveOutcome(r, None).Verified?
    ensures WaveOutcome(r, None).handoffAllowed && SomeDeny(r) && !AllAllow(r)
    ensures WaveOutcome(r, None).state == VerifiedDeny
  {
    hide ReceiptHolds, DeniedReceipt, Components, Field;
    var sample := TheReceipt();
    context, env := D(), SampleEnv();
    SampleIsHashed();
    SampleReceiptHolds(TheSample(), env);
    DeniedReceiptHolds(sample, context, env);
    r := DeniedReceipt(sample);
    ReportsHandoff(r);
    VerifiedSays(r, context, env);
    SomeDenial(r);
  }

  lemma ReportsHandoff(r: Wire)
    requires HandoffValue(r) == WInt(1)
    ensures WaveOutcome(r, None).Verified? && WaveOutcome(r, None).handoffAllowed
  {
  }

  lemma SomeDenial(r: Wire)
    requires |Components(r)| == 5 && Field(Components(r)[0], "decision") == WText("DENY")
    ensures SomeDeny(r) && !AllAllow(r)
  {
    hide Components, Field;
    assert |"DENY"| == 4 && |"ALLOW"| == 5;
  }
}
