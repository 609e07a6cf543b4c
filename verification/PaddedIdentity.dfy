/** A correctly hashed receipt that the one-shot validator accepts and the staged verifier cannot process. */
module PaddedIdentity {
  import opened Trimming
  import opened ReceiptContract
  import opened ReceiptPipelines
  import opened ReceiptStaging
  import opened BundleResolution
  import opened SampleReceipts

  const PADDED_IDS: seq<string> := [" adn", "dqsn", "guardian_wallet", "qwg", "sentinel_ai"]

  lemma PaddedNames()
    ensures forall i :: 0 <= i < 5 ==> Strip(PADDED_IDS[i]) == SUPPORTED_COMPONENTS[i]
    ensures Strip(PADDED_IDS[0]) != PADDED_IDS[0]
  {
    hide Strip;
    StripIgnoresPadding(" ", "adn", "");
    assert " " + "adn" + "" == " adn";
    RoleNamesStripped("adn");
    RoleNamesStripped("dqsn");
    RoleNamesStripped("guardian_wallet");
    RoleNamesStripped("qwg");
    RoleNamesStripped("sentinel_ai");
    assert |PADDED_IDS[0]| == 4 && PADDED_IDS[0][0] == ' ';
  }

  /**
   * The one-shot validator accepts the receipt whose first component writes its identity as " adn", so the staged
   * verifier can only raise on it: no key repeats, and every digest is right.
   */
  lemma PaddedReceiptDiffers(s: Sample, env: Oracles)
    requires s.ids == PADDED_IDS && SampleHashed(s, env)
    ensures var r := SampleReceipt(s); OneShotAccepts(r, s.context, env) && HasPaddedIdentity(r) && !RepeatsAKey(r, env)
  {
    hide ReceiptHolds, IntegrityHolds, BundlesShaped, RepeatsAKey, SampleComponent, Strip;
    PaddedNames();
    SampleReceiptHolds(s, env);
    SampleBundles(s, env);
    assert Shaped(s);
    ReceiptComponents(s);
    SampleIdentity(s.ids[0], s.context, s.hashes[0]);
    assert IdentityPadded(Components(SampleReceipt(s))[0]);
  }
}
