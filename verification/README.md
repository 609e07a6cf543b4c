# Adamantine: verified model

A Dafny model of the deterministic core of AdamantineOS, with proofs of what its parts promise one another. Time,
hashing, cryptography, storage and the outside adapters are parameters: SHA-256, Unicode normalization, regular
expressions and calendars are abstract functions, an instant is an integer, and the signature verifier, the executor and
the audit sink are objects whose answers may depend on everything they were asked before. No hash function is assumed to
be free of collisions: where it matters, a lemma names the two values that must not collide.

Run `dafny verify dfyconfig.toml` to check everything.

## What is modelled

**Bounded canonical JSON.** `Json`, `CanonicalJson` and `JsonReader` define finite values, their canonical print and a
recursive-descent reader (RFC 8259, sections 6 and 7) with the gateway's four hooks. `JsonGrammar` defines the texts of
RFC 8259 by derivation trees, independently of the reader; `JsonReading` proves that the reader does with each of them
what its tree means, `JsonRoundTrip` that it undoes the printer in any delimited context, and `CanonicalForm` that the
print is the shortest tidy text of its value. `ObjectGraph` models Python objects as a heap of containers that may
be shared or cyclic, with `Unfold` giving the tree an object stands for, if any. `GatewayPreflight`, `GatewayEncoder`,
`GatewayCodec` and `GatewayLengths` are the AI Gateway profile over that heap; `WorkBudget` and `Identifiers` are the
Shield v4 work budget.

**Shield v4 verification and its audit transcript.** `ReceiptContract`, `ReceiptPipelines` and `ReceiptStaging` hold the
receipt contract and its two acceptance pipelines. `KeyRegistry`, `BundleResolution`, `ComponentSummaries`,
`VerificationWaves` and `ReceiptVerifier` are the staged verifier; `WaveProperties`, `PerBundleChecking` and
`VerifierProperties` prove what its runs guarantee, and `SampleReceipts` and `VerifiedSample` that there are receipts to
guarantee it of. `ReceiptMeaning`, `ClearedReceipts` and `VerifierOutcomes` say what all this means of the raw receipt
and the raw registry, and what each outcome tells. `AuditRecords`, `AuditEvents`, `AuditBatches` and `VerificationAudit`
are the observer protocol around it.

**At-most-once execution.** `FinalPolicy` is the eight-gate engine, `TruthGate` the nonce store and the last gate, and
`Orchestrator` the host call and arbitrary sequences of host calls over one store. `PolicyMeaning` and `AuthorityMeaning`
spell out what engine and gate ask for and how they refuse. `ShieldEvidence` connects the two halves: what the verifier
reports is what the engine demands.

**Injective encodings.** `ContextHash`, `SignatureInput`, `SignatureMaterial`, and `UpgradeGateway` with its meaning in
`UpgradeMeaning`.

A class stands for each object the program updates in place (budgets, call counters, transcript capture, nonce store,
sink, executor); loops that update variables are loops here, proved against functions and predicates that the lemmas
then reason about. A specification function appears in a row through the lemma or method that states something of it.

## Where the program does something other than it says

- A component identity is compared with the role names after stripping, but used as written. The one-shot validator
  therefore accepts `" adn"`, while the staged verifier raises a key error on it. `ReceiptStaging.StagedValidate` gives
  the exact condition, `PaddedIdentity.PaddedReceiptDiffers` and `VerifiedSample.SomeReceiptDiffers` an example.
- A handoff object without `handoff_allowed` passes the contract and every check; reading the key then raises after all
  callbacks have run, and the audit wrapper records only a failed preflight (`VerifierProperties.VerifiedExactly`).
- The contract refuses a handoff without allowance only where `handoff_allowed` is the boolean `true`, while the result
  reports any value that counts as true. `VerifierOutcomes.HandoffMeansAllow` gives the exact condition,
  `HandoffSample.HandoffWithoutAllowance` a receipt that denies and is reported to hand off.
- If the executor raises, the response reports the nonce as not consumed although it was marked. Consumption is
  therefore stated in one direction (`Orchestrator.OrchestrateExecution`).
- The base64url decoder ignores trailing bits, so several bodies can decode to the same bytes;
  `SignatureMaterial.EncodeInvertsDecode` says which of them is canonical.
- Built review receipts are refused by their own validator when the reviewer or the notes are blank, and when they are
  padded, unless stripping them happens to keep the hash (`UpgradeGateway.ReceiptNeedsPlainTexts`;
  `UpgradeGateway.PaddedReviewerRefused` is an example).
- A verification time of twenty blanks is reported as a registry fault, not as a freshness fault
  (`ReceiptVerifier.EstablishTrust`).
- Audit timestamps are matched with a pattern whose digits include non-ASCII decimal digits, so the size bounds allow
  four bytes for each digit (`AuditRecords.EventIsSmall`).

## Model

| member | source | states |
|---|---|---|
| Arithmetic.BitCeilingBelowDigitCeiling | src/adamantine/v1/integrations/ai_gateway_canonical_json_v1.py:14-15 | the decimal-digit limit is no tighter than the bit limit: 2^4096 < 10^1234 |
| Arithmetic.BitLengthBound | src/adamantine/v1/integrations/ai_gateway_canonical_json_v1.py:213-223 | a magnitude has at most k bits exactly when it is below 2^k |
| JsonReading.IntegerHookExact | src/adamantine/v1/integrations/ai_gateway_canonical_json_v1.py:213-223 | for any digit string without leading zeros, the digit count check and the early-exit bit check together accept exactly the magnitudes below 2^4096, and then return the signed value |
| GatewayEncoder.EncodeInteger | src/adamantine/v1/integrations/ai_gateway_canonical_json_v1.py:55-65 | the digit loop produces the canonical decimal numeral, sign and zero included |
| GatewayEncoder.ParseInteger | src/adamantine/v1/integrations/ai_gateway_canonical_json_v1.py:213-223 | the loop that stops at the first over-long prefix decides as the whole numeral would |
| GatewayEncoder.EncodeCharacter | src/adamantine/v1/integrations/ai_gateway_canonical_json_v1.py:151-166 | each code point is written as the UTF-8 of its minimal escape |
| GatewayEncoder.EncodeString | src/adamantine/v1/integrations/ai_gateway_canonical_json_v1.py:141-167 | fails exactly on text with a surrogate; otherwise the bytes are the UTF-8 of the quoted, minimally escaped text |
| GatewayEncoder.ObjectHookExact | src/adamantine/v1/integrations/ai_gateway_canonical_json_v1.py:226-232 | the object hook accepts exactly pair lists with distinct decoded keys, and then every pair is in the result and nothing else |
| GatewayEncoder.ObjectFromPairs | src/adamantine/v1/integrations/ai_gateway_canonical_json_v1.py:226-232 | the dict-filling loop is that hook |
| GatewayPreflight.PreflightBudget.CountText | src/adamantine/v1/integrations/ai_gateway_canonical_json_v1.py:43-52 | accepts a text exactly within the scalar limit, valid Unicode and what is left of the byte budget, and counts its encoded size |
| GatewayPreflight.PreflightBudget.Preflight | src/adamantine/v1/integrations/ai_gateway_canonical_json_v1.py:68-138 | on any object graph, shared or cyclic: terminates, accepts exactly when the unfolding is a finite value within depth, node, width, integer and text limits; the streaming counters equal the whole-tree sums; the active set is restored on every exit; anything but a resource limit is reported only of what denotes no JSON value with valid text |
| GatewayCodec.EncodeValue | src/adamantine/v1/integrations/ai_gateway_canonical_json_v1.py:170-187 | the recursive byte encoder writes the UTF-8 of the canonical print of the unfolded value |
| GatewayCodec.EncodeDict | src/adamantine/v1/integrations/ai_gateway_canonical_json_v1.py:181-186 | members appear in sorted key order, whatever the insertion order |
| GatewayCodec.CanonicalBytes | src/adamantine/v1/integrations/ai_gateway_canonical_json_v1.py:190-202 | accepts exactly the canonicalizable values, and returns their canonical bytes; anything but a resource limit is reported only of what denotes no JSON value |
| GatewayCodec.ParseInvertsCanonical | src/adamantine/v1/integrations/ai_gateway_canonical_json_v1.py:190-269 | the strict reader returns every canonicalizable value from its canonical bytes |
| GatewayCodec.ReparseFixedPoint | src/adamantine/v1/integrations/ai_gateway_canonical_json_v1.py:235-269 | whatever raw bytes the reader accepts, the value is canonicalizable and reading its canonical bytes gives the same value again |
| JsonReading.ReadsExactly | src/adamantine/v1/integrations/ai_gateway_canonical_json_v1.py:205-269 | the reader accepts exactly the texts that spell a value in the grammar of RFC 8259 (blanks, escapes, surrogate pairs, numbers without fraction or exponent, objects with distinct decoded keys), and returns the value they spell |
| JsonReading.DocumentReads | src/adamantine/v1/integrations/ai_gateway_canonical_json_v1.py:205-269 | any text of the grammar, floats, over-long integers, NaN and repeated keys included, is read as its tree means: its value, or the first fault that a hook meets |
| GatewayCodec.ParsesExactly | src/adamantine/v1/integrations/ai_gateway_canonical_json_v1.py:235-269 | raw bytes are accepted exactly when they are, within the size limit, the UTF-8 of a text that spells a canonicalizable value, and give that value |
| GatewayCodec.ParseReports | src/adamantine/v1/integrations/ai_gateway_canonical_json_v1.py:235-269 | the UTF-8 of any text of the grammar is refused for the first fault the text shows |
| GatewayCodec.CanonicalBytesTidy | src/adamantine/v1/integrations/ai_gateway_canonical_json_v1.py:141-202 | canonical bytes are the UTF-8 of the one shortest text of the value without blanks, with lower-case hexadecimal escapes and keys in dictionary order |
| GatewayCodec.CanonicalBytesInjective | src/adamantine/v1/integrations/ai_gateway_canonical_json_v1.py:190-202 | two canonicalizable values have equal bytes exactly when they are equal as JSON values |
| GatewayCodec.CanonicalBytesSeparable | src/adamantine/v1/integrations/ai_gateway_canonical_json_v1.py:141-202 | equal encodings followed by empty or delimiter-led rests mean equal values and equal rests |
| GatewayCodec.AdmitsIffProfile | src/adamantine/v1/integrations/ai_gateway_canonical_json_v1.py:68-138 | acceptance depends on the unfolded value alone, not on sharing in the graph |
| JsonRoundTrip.ReadInvertsPrint | src/adamantine/v1/integrations/ai_gateway_canonical_json_v1.py:141-187 | in any delimited context the recursive-descent reader consumes exactly the printed value and returns it |
| JsonRoundTrip.ReadStringInverts | src/adamantine/v1/integrations/ai_gateway_canonical_json_v1.py:141-167 | the string reader undoes every escape the printer chooses |
| JsonRoundTrip.ReadNumberInverts | src/adamantine/v1/integrations/ai_gateway_canonical_json_v1.py:55-65 | a printed integer followed by a delimiter reads back as itself |
| JsonRoundTrip.ReadDocumentInverts | src/adamantine/v1/integrations/ai_gateway_canonical_json_v1.py:235-269 | a whole printed document reads back as its value with nothing left over |
| JsonRoundTrip.ReadFits | src/adamantine/v1/integrations/ai_gateway_canonical_json_v1.py:213-223 | no value that is read holds an integer beyond the bit ceiling, at any depth |
| JsonRoundTrip.PrintInjective | src/adamantine/v1/integrations/ai_gateway_canonical_json_v1.py:170-187 | the printer is injective and delimiter-separable on text |
| CanonicalForm.PrintIsShortest | src/adamantine/v1/integrations/ai_gateway_canonical_json_v1.py:141-187 | among the texts that spell a value without blanks and in dictionary order of keys the print is the unique shortest: no escape is longer than need be |
| Strings.LessExactly | src/adamantine/v1/integrations/ai_gateway_canonical_json_v1.py:184 | the order of keys is the dictionary order: a proper prefix first, else the first difference decides |
| Strings.SortedExactly | src/adamantine/v1/integrations/ai_gateway_canonical_json_v1.py:184 | sorting lists a set in that order, and there is no other such listing |
| GatewayLengths.TextBudgetIsImplied | src/adamantine/v1/integrations/ai_gateway_canonical_json_v1.py:43-138 | the preflight text counter never exceeds the final length, so the text budget rejects nothing whose encoding fits |
| GatewayLengths.CanonicalizableWithoutTextBudget | src/adamantine/v1/integrations/ai_gateway_canonical_json_v1.py:68-202 | acceptance is the same with the text budget left out |
| GatewayLengths.EncodingWithinPreflight | src/adamantine/v1/integrations/ai_gateway_canonical_json_v1.py:43-202 | after preflight the encoding is at most six times the counted text plus nine bytes per node |
| GatewayLengths.PrintLength | src/adamantine/v1/integrations/ai_gateway_canonical_json_v1.py:141-187 | both bounds for every encodable value |
| Utf8.DecodeInvertsEncode | src/adamantine/v1/integrations/ai_gateway_canonical_json_v1.py:250-253 | strict UTF-8 decoding returns every encoded text |
| Utf8.EncodeInvertsDecode | src/adamantine/v1/integrations/ai_gateway_canonical_json_v1.py:250-253 | strict UTF-8 accepts only the one encoding of a text |
| WorkBudget.SnapshotBudget.ConsumeText | src/adamantine/v1/integrations/shield_v4_work_budget.py:77-91 | accepts a text exactly within its own limit and what is left of the scalar budget, and counts it |
| WorkBudget.SnapshotBudget.Snapshot | src/adamantine/v1/integrations/shield_v4_work_budget.py:93-116 | on any object graph: terminates, accepts exactly when the unfolding is finite and within what is left of the depth, node, text, 64-bit integer and scalar-byte limits; counters are the whole-tree sums; the active set is restored; the copy unfolds to the same value and owns all its containers; anything but an exceeded budget is reported only of what denotes no JSON value with valid text |
| WorkBudget.SnapshotBudget.SnapshotDict | src/adamantine/v1/integrations/shield_v4_work_budget.py:125-147 | the same for a dict, keys counted before their values |
| WorkBudget.SnapshotBudget.SnapshotList | src/adamantine/v1/integrations/shield_v4_work_budget.py:149-164 | the same for a list |
| WorkBudget.BoundedJsonSnapshot | src/adamantine/v1/integrations/shield_v4_work_budget.py:167-176 | a fresh budget: acceptance is exactly finiteness within all limits, and the result is an equal copy; anything but an exceeded budget is reported only of what denotes no JSON value |
| WorkBudget.CopyIndependent | src/adamantine/v1/integrations/shield_v4_work_budget.py:167-176 | no later change to any container of the input changes what the copy unfolds to |
| WorkBudget.CyclesRejected | src/adamantine/v1/integrations/shield_v4_work_budget.py:118-123 | a value on a cycle unfolds at no depth, so it is never accepted |
| Identifiers.BoundedIdentifierSet | src/adamantine/v1/integrations/shield_v4_work_budget.py:179-207 | a text, bytes, a dict, and anything iter() fails on are refused before anything is drawn; even of an endless iterable at most maximum + 1 items are drawn; succeeds exactly on a finite run of at most maximum bounded texts, with exactly their set |
| Identifiers.SizeCoversLength | src/adamantine/v1/integrations/shield_v4_work_budget.py:29-40 | a text has between one and four bytes per character, which makes the quick length check sound |
| Identifiers.SizeIsEncoded | src/adamantine/v1/integrations/shield_v4_work_budget.py:29-40 | the computed size is the length of the UTF-8 encoding |
| Identifiers.BoundedExactly | src/adamantine/v1/integrations/shield_v4_work_budget.py:29-40 | a text is bounded exactly when it takes 1 to 8192 bytes in UTF-8 |
| Trimming.StripExactly | src/adamantine/v1/contracts/shield_orchestrator_receipt_v4.py:212-215 | stripping removes all the whitespace around a text and nothing else |
| ReceiptContract.ValidateSignatureBundleShape | src/adamantine/v1/contracts/shield_orchestrator_receipt_v4.py:311-373 | accepts exactly well-formed bundles within the size limit; a mismatch is reported only where one is, and a repeated key is none of its faults |
| ReceiptContract.PreflightBundle | src/adamantine/v1/integrations/shield_orchestrator_receipt_v4_verifier.py:529-625 | accepts exactly well-formed bundles naming no key twice, returns their entries in order; a mismatch or duplicate-key fault is reported only where one is |
| ReceiptContract.PolicyOrderExact | src/adamantine/v1/contracts/shield_orchestrator_receipt_v4.py:356-360 | uniqueness, canonical order and completeness together leave exactly two algorithm sequences |
| ReceiptPipelines.PreflightComponent | src/adamantine/v1/contracts/shield_orchestrator_receipt_v4.py:417-459 | accepts exactly the component verdicts of the contract; each specific fault class is reported only for its own cause |
| ReceiptPipelines.PreflightComponentSet | src/adamantine/v1/contracts/shield_orchestrator_receipt_v4.py:490-509 | exactly five, each valid, identities distinct as written |
| ReceiptPipelines.ValidateSignatureResults | src/adamantine/v1/contracts/shield_orchestrator_receipt_v4.py:376-410 | exactly five valid claims, component identities distinct once stripped |
| ReceiptPipelines.OutcomeExact | src/adamantine/v1/contracts/shield_orchestrator_receipt_v4.py:302-308 | DENY exactly when some component denies or errs; ALLOW exactly when none denies and none escalates |
| ReceiptPipelines.HandoffNeedsUnanimity | src/adamantine/v1/contracts/shield_orchestrator_receipt_v4.py:516-564 | an accepted receipt that allows handoff has five components that all said ALLOW |
| ReceiptMeaning.PreparedExactly | src/adamantine/v1/integrations/shield_orchestrator_receipt_v4_verifier.py:529-600 | a signature entry is prepared exactly as what its seven fields say: algorithm with its one profile, key, version, hash, domain and a signature of either form |
| ReceiptMeaning.MismatchExactly | src/adamantine/v1/integrations/shield_orchestrator_receipt_v4_verifier.py:583-606 | the staged check reports a hash mismatch only of entries with a readable signature, the one-shot check of all: they look at the two in different order |
| ReceiptMeaning.BundleExactly | src/adamantine/v1/integrations/shield_orchestrator_receipt_v4_verifier.py:529-625 | a bundle holds exactly when it lists two or three such entries, each algorithm in its place and each for this hash and domain |
| ReceiptMeaning.HashesExactly | src/adamantine/v1/contracts/shield_orchestrator_receipt_v4.py:470-608 | a component must name the hash of its own signed fields, and a receipt those of its body and payload, with exactly the unsigned fields left out |
| ReceiptMeaning.ForbiddenExactly | src/adamantine/v1/contracts/shield_orchestrator_receipt_v4.py:292-299 | authority is forbidden in every dict inside a value, at any depth |
| ReceiptMeaning.ClaimExactly | src/adamantine/v1/contracts/shield_orchestrator_receipt_v4.py:376-410 | a claim is accepted exactly when it names a component with its role, both required algorithms and the matching profiles |
| ReceiptMeaning.SizesExactly | src/adamantine/v1/contracts/shield_orchestrator_receipt_v4.py:584-600 | a receipt may take 128 KiB in canonical form, a bundle 32 KiB |
| ReceiptPipelines.PreflightReceipt | src/adamantine/v1/contracts/shield_orchestrator_receipt_v4.py:516-564 | accepts exactly the receipts of the contract; a downgrade is reported exactly for v3 receipts, a context, policy or authority fault only where there is one, a hash mismatch never |
| ReceiptPipelines.CheckIntegrity | src/adamantine/v1/contracts/shield_orchestrator_receipt_v4.py:584-608 | accepts exactly when sizes and all hashes agree; receipt size, bundle sizes and hashes are reported in this order, and what cannot be canonicalized at all by the class its message selects |
| ReceiptPipelines.ValidateReceiptContract | src/adamantine/v1/contracts/shield_orchestrator_receipt_v4.py:611-641 | the one-shot validator accepts exactly: contract, integrity and bundle shapes |
| ReceiptPipelines.PreflightReceiptBundles | src/adamantine/v1/integrations/shield_orchestrator_receipt_v4_verifier.py:628-674 | prepares every bundle or says why not: a bad bundle, a repeated key, or a component identity that is no known role as written |
| ReceiptStaging.StagedValidate | src/adamantine/v1/integrations/shield_orchestrator_receipt_v4_verifier.py:1222-1340 | the staged pipeline accepts exactly what the one-shot validator accepts, minus receipts that repeat a key in a bundle and minus receipts with a padded component identity; it raises only on the latter |
| ReceiptStaging.IdentityKnownExactly | src/adamantine/v1/integrations/shield_orchestrator_receipt_v4_verifier.py:628-640 | on a receipt that passed preflight, a role lookup fails exactly when a component identity has surrounding whitespace |
| PaddedIdentity.PaddedReceiptDiffers | src/adamantine/v1/contracts/shield_orchestrator_receipt_v4.py:417-432 | a correctly hashed receipt that writes " adn" is accepted by the one-shot validator and not by the staged one |
| VerifiedSample.SomeReceiptDiffers | src/adamantine/v1/contracts/shield_orchestrator_receipt_v4.py:417-432 | there is such a receipt |
| KeyRegistry.LoadRegistry | src/adamantine/v1/integrations/shield_orchestrator_receipt_v4_verifier.py:332-445 | loads exactly the registries of the schema with distinct key identities, and returns their entries in order; otherwise the first bad entry decides between a registry and a time fault |
| KeyRegistry.RegistryExactly | src/adamantine/v1/integrations/shield_orchestrator_receipt_v4_verifier.py:332-445 | a registry holds exactly when it is a dict of just the three fields that lists 1 to 64 keys, each as its entry says, and no two for the same role, key, version and algorithm |
| KeyRegistry.ReadKeyExactly | src/adamantine/v1/integrations/shield_orchestrator_receipt_v4_verifier.py:332-445 | an entry is read as exactly what its eight fields say, trimmed; it counts as active exactly when its status is "active" |
| KeyRegistry.UsableExactly | src/adamantine/v1/integrations/shield_orchestrator_receipt_v4_verifier.py:448-495 | a key is usable exactly when it is active and in force now and over the whole window of the artifact |
| KeyRegistry.TimesUnreadableExactly | src/adamantine/v1/integrations/shield_orchestrator_receipt_v4_verifier.py:332-445 | a time fault is reported only of entries in which everything before the times is fine |
| KeyRegistry.FindKey | src/adamantine/v1/integrations/shield_orchestrator_receipt_v4_verifier.py:448-495 | the loop finds what the first matching entry decides; times are judged before any entry |
| KeyRegistry.LookupExact | src/adamantine/v1/integrations/shield_orchestrator_receipt_v4_verifier.py:448-495 | in a loaded registry the key found is exactly the usable one with that identity |
| KeyRegistry.LookupIgnoresOrder | src/adamantine/v1/integrations/shield_orchestrator_receipt_v4_verifier.py:448-495 | the order of registry entries does not matter |
| BundleResolution.ResolveBundles | src/adamantine/v1/integrations/shield_orchestrator_receipt_v4_verifier.py:894-972 | succeeds exactly when every component is there once, the call budget suffices and every entry has a usable key; the result is in the fixed order; an incomplete set and an exceeded budget are reported exactly when that is so, a time fault only where a time cannot be read |
| BundleResolution.OrderKeepsBundles | src/adamantine/v1/integrations/shield_orchestrator_receipt_v4_verifier.py:911-934 | the fixed order contains every candidate and nothing else, components first, the orchestrator last |
| BundleResolution.PolicyWithinBudget | src/adamantine/v1/integrations/shield_orchestrator_receipt_v4_verifier.py:939-948 | bundles in policy order never exceed three calls each, two of them post-quantum |
| BundleResolution.BudgetExactly | src/adamantine/v1/integrations/shield_orchestrator_receipt_v4_verifier.py:939-948 | the static budget allows exactly 18 entries in all bundles together, 12 of them post-quantum |
| VerificationWaves.CallBudget.BeforeCallback | src/adamantine/v1/integrations/shield_orchestrator_receipt_v4_verifier.py:228-241 | counts every call, and refuses exactly beyond 18 calls or 12 post-quantum calls |
| VerificationWaves.InvokeResolvedSignature | src/adamantine/v1/integrations/shield_orchestrator_receipt_v4_verifier.py:718-774 | one callback and one observation, which tells how the callback went |
| VerificationWaves.RunWave | src/adamantine/v1/integrations/shield_orchestrator_receipt_v4_verifier.py:1006-1026 | one wave over all bundles: calls, answers, results and observations are those of its plan, up to the first refusal |
| VerificationWaves.VerifyWaves | src/adamantine/v1/integrations/shield_orchestrator_receipt_v4_verifier.py:997-1039 | the run of all waves is the execution of the global plan: same calls in the same order, same fault, observed one by one; each bundle gets its own results |
| WaveProperties.RunsFollowPlan | src/adamantine/v1/integrations/shield_orchestrator_receipt_v4_verifier.py:997-1039 | over every run: calls are a prefix of the plan, all but the last answered yes, and the run ends early only by a refused answer or the budget |
| WaveProperties.PlanBounds | src/adamantine/v1/integrations/shield_orchestrator_receipt_v4_verifier.py:997-1039 | the plan over six well-formed bundles has 12 to 18 calls, at most 12 post-quantum, and invokes exactly the resolved entries |
| WaveProperties.CallsBounded | src/adamantine/v1/integrations/shield_orchestrator_receipt_v4_verifier.py:228-241 | in every run at most 18 callbacks and 12 post-quantum ones, so the runtime budget rejection cannot occur; a complete run makes at least 12 |
| WaveProperties.PlanSize | src/adamantine/v1/integrations/shield_orchestrator_receipt_v4_verifier.py:997-1039 | a complete run makes exactly 12 calls plus one for each bundle with a third signature |
| WaveProperties.BudgetIsTight | src/adamantine/v1/integrations/shield_orchestrator_receipt_v4_verifier.py:228-241 | both call limits are reached by some well-formed receipt, so neither is looser than need be |
| WaveProperties.NoEarlyCallback | src/adamantine/v1/integrations/shield_orchestrator_receipt_v4_verifier.py:997-1039 | before any callback for an algorithm, every bundle has verified its entries of all earlier algorithms |
| WaveProperties.WavesAcceptExactly | src/adamantine/v1/integrations/shield_orchestrator_receipt_v4_verifier.py:997-1039 | for a deterministic verifier the waves accept exactly when every entry verifies |
| WaveProperties.ResultsInOrder | src/adamantine/v1/integrations/shield_orchestrator_receipt_v4_verifier.py:1016-1039 | after a complete run each bundle's results are its prepared entries, in order |
| PerBundleChecking.VerifyPreparedBundle | src/adamantine/v1/integrations/shield_orchestrator_receipt_v4_verifier.py:777-809 | checking one bundle: accepts exactly when every entry resolves and is answered yes, in order |
| PerBundleChecking.PerBundleVerdict | src/adamantine/v1/integrations/shield_orchestrator_receipt_v4_verifier.py:777-809 | for a deterministic verifier that is a property of the bundle alone |
| PerBundleChecking.WavesRefinePerBundle | src/adamantine/v1/integrations/shield_orchestrator_receipt_v4_verifier.py:997-1039 | the global waves accept exactly when sequential checking of all six bundles accepts |
| PerBundleChecking.UnresolvableFails | src/adamantine/v1/integrations/shield_orchestrator_receipt_v4_verifier.py:894-972 | a bundle set that does not resolve also fails sequential checking |
| ComponentSummaries.SummariesAgree | src/adamantine/v1/integrations/shield_orchestrator_receipt_v4_verifier.py:975-994 | summaries of the actual results equal the summaries predicted before any callback |
| ComponentSummaries.PredictionDecides | src/adamantine/v1/integrations/shield_orchestrator_receipt_v4_verifier.py:975-1099 | after any complete run the cross-check on actual results decides as the one made before any callback |
| ComponentSummaries.ClaimOrderIrrelevant | src/adamantine/v1/integrations/shield_orchestrator_receipt_v4_verifier.py:1068-1099 | the cross-check does not depend on the order of the claims |
| ComponentSummaries.CrossCheckMeans | src/adamantine/v1/integrations/shield_orchestrator_receipt_v4_verifier.py:1042-1099 | a passed cross-check means that every component is claimed, with exactly its algorithms and profiles paired |
| ComponentSummaries.CrossCheckExactly | src/adamantine/v1/integrations/shield_orchestrator_receipt_v4_verifier.py:1042-1099 | the cross-check passes exactly when the receipt claims its component bundles one by one, in whatever order: name, role, verified, policy, and the same pairs of algorithm and profile |
| ReceiptVerifier.CheckInputs | src/adamantine/v1/integrations/shield_orchestrator_receipt_v4_verifier.py:1159-1219 | accepts exactly usable caller inputs; the only fault besides an invalid receipt is the time, and only when the identifiers before it are fine |
| ReceiptVerifier.CheckRequest | src/adamantine/v1/integrations/shield_orchestrator_receipt_v4_verifier.py:1267-1309 | wrong request, missing verifier, unusable replay lists and replay, in this order, each reported as what it is |
| ReceiptVerifier.CheckVersions | src/adamantine/v1/integrations/shield_orchestrator_receipt_v4_verifier.py:840-864 | accepts exactly when no rollback and all six versions agree |
| ReceiptVerifier.CheckFreshness | src/adamantine/v1/integrations/shield_orchestrator_receipt_v4_verifier.py:867-891 | accepts exactly when now lies in the receipt's window and every component's |
| ReceiptVerifier.EstablishTrust | src/adamantine/v1/integrations/shield_orchestrator_receipt_v4_verifier.py:1311-1325 | succeeds exactly when registry, versions, freshness, keys and cross-check hold; the first that fails decides the state, one state for each |
| ReceiptVerifier.ClearReceipt | src/adamantine/v1/integrations/shield_orchestrator_receipt_v4_verifier.py:1137-1350 | without access to the verifier callback: clears exactly the clearable receipts; otherwise the first failing stage, in program order, decides the outcome |
| ReceiptVerifier.VerifyReceipt | src/adamantine/v1/integrations/shield_orchestrator_receipt_v4_verifier.py:1137-1391 | no callback unless every other check passed; then exactly the calls and the outcome of the global plan; otherwise an explained refusal |
| VerifierProperties.FormedComplete | src/adamantine/v1/integrations/shield_orchestrator_receipt_v4_verifier.py:901-909 | a receipt that passed preflight always has the complete component set |
| VerifierProperties.ResolutionNeverOverBudget | src/adamantine/v1/integrations/shield_orchestrator_receipt_v4_verifier.py:939-948 | for such a receipt the static budget rejection cannot occur |
| VerifierProperties.PolicyMeansCrossCheck | src/adamantine/v1/integrations/shield_orchestrator_receipt_v4_verifier.py:1311-1325 | so the policy refusal reaches a caller only when everything but the cross-check of the claims holds |
| VerifierProperties.ClearedWellFormed | src/adamantine/v1/integrations/shield_orchestrator_receipt_v4_verifier.py:1311-1360 | what clearance hands to the waves is always six well-formed bundles |
| ClearedReceipts.ClearedBacked | src/adamantine/v1/integrations/shield_orchestrator_receipt_v4_verifier.py:1137-1350 | the six bundles of a cleared receipt are those of its five components and its own; every entry is made for the hash of the payload it stands with, and its key is an active one of the raw registry, for the signer's role, in force now and over the whole window |
| ClearedReceipts.CallsUnderActiveKeys | src/adamantine/v1/integrations/shield_orchestrator_receipt_v4_verifier.py:448-495 | so no callback is ever made under a key that the raw registry does not list as active |
| ClearedReceipts.FreshnessExactly | src/adamantine/v1/integrations/shield_orchestrator_receipt_v4_verifier.py:867-891 | a receipt is fresh exactly when its own window and those of all its components are open now, read from the raw fields |
| ClearedReceipts.ClearedOpen | src/adamantine/v1/integrations/shield_orchestrator_receipt_v4_verifier.py:867-891 | a cleared receipt and each of its components is within its own window, at both ends, read from the raw fields |
| ClearedReceipts.ReceiptDescribed | src/adamantine/v1/integrations/shield_orchestrator_receipt_v4_verifier.py:1342-1351 | the artifact a cleared receipt is recorded as carries its own payload hash, request, context, policy and registry version |
| VerifierProperties.VerifiedExactly | src/adamantine/v1/integrations/shield_orchestrator_receipt_v4_verifier.py:1137-1391 | for a deterministic verifier a cleared receipt is verified exactly when every bundle verifies by itself and the handoff key is there; without the key the call raises after its callbacks |
| VerifierOutcomes.VerifiedSays | src/adamantine/v1/integrations/shield_orchestrator_receipt_v4_verifier.py:1102-1391 | the state of a verified receipt follows from its components' decisions, denial before review before allowance, and handoff is reported exactly when the handoff value counts as true |
| VerifierOutcomes.HandoffMeansAllow | src/adamantine/v1/contracts/shield_orchestrator_receipt_v4.py:557-561 | a reported handoff means allowance by all components exactly when they all allow, or the handoff value is a boolean, or it does not count as true |
| HandoffSample.HandoffWithoutAllowance | src/adamantine/v1/integrations/shield_orchestrator_receipt_v4_verifier.py:1352-1391 | a receipt in which every component denies and the contract holds, yet a handoff is reported: its handoff value is 1 |
| VerifierOutcomes.RefusalSays | src/adamantine/v1/integrations/shield_orchestrator_receipt_v4_verifier.py:1137-1350 | each state of refusal is reported only for a cause of its own in the request, the receipt or the registry |
| VerifiedSample.SomeReceiptIsCleared | src/adamantine/v1/integrations/shield_orchestrator_receipt_v4_verifier.py:1137-1360 | some receipt passes every check before the callbacks, carries the handoff key and can be audited |
| VerifiedSample.SomeReceiptVerifies | src/adamantine/v1/integrations/shield_orchestrator_receipt_v4_verifier.py:1137-1391 | with a verifier that accepts every signature it is verified, after at least twelve callbacks |
| AuditRecords.ValidExactly | src/adamantine/v1/integrations/shield_v4_verification_audit.py:253-334 | the validator accepts the event of a record exactly when the record is fit: hashes, versions, profile, time shape, and pass agreeing with reason |
| AuditRecords.EventIsSmall | src/adamantine/v1/integrations/shield_v4_verification_audit.py:337-343 | every fit event has at most 18 fields, each small |
| AuditEvents.EventSays | src/adamantine/v1/integrations/shield_v4_verification_audit.py:86-250 | every member of every event by its name: a preflight event tells transport hash, request, context and registry version, a signature event artifact and key, a terminal event the artifact |
| AuditEvents.AcceptsExactly | src/adamantine/v1/integrations/shield_v4_verification_audit.py:253-334 | the validator accepts exactly the events of fit records, and no other JSON value |
| EventBytes.SmallEventPrints | src/adamantine/v1/integrations/shield_v4_verification_audit.py:337-348 | a small event prints to at most 102 bytes per field |
| AuditBatches.SerializeExact | src/adamantine/v1/integrations/shield_v4_verification_audit.py:337-363 | serialization succeeds exactly on fit records; the bytes are within the record limit and parse back to the same event |
| AuditBatches.ParseExactly | src/adamantine/v1/integrations/shield_v4_verification_audit.py:350-363 | a record is read exactly when it is the canonical form of a valid event, in at most 2048 bytes |
| AuditBatches.BatchExactly | src/adamantine/v1/integrations/shield_v4_verification_audit.py:365-372 | the bytes of a batch of 1 to 24 records are the canonical form of the object that lists their events in order, in at most 49152 bytes |
| AuditBatches.BatchAccepted | src/adamantine/v1/integrations/shield_v4_verification_audit.py:365-372 | a batch of up to 20 sound records is accepted by its own reader, at no more than 36794 of the 49152 bytes |
| AuditBatches.BatchBytesInjective | src/adamantine/v1/integrations/shield_v4_verification_audit.py:365-377 | two batches with equal canonical bytes hold the same events in the same order |
| AuditedArtifacts.ClearedRecordable | src/adamantine/v1/integrations/shield_v4_verification_audit.py:445-522 | whatever a cleared receipt lets the observer see can be written into a fit record |
| VerificationAudit.AppendRequiredAudit | src/adamantine/v1/integrations/shield_v4_verification_audit.py:525-551 | sound batches reach the sink exactly once; success exactly when it acknowledged this very batch |
| VerificationAudit.AcknowledgesExactly | src/adamantine/v1/integrations/shield_v4_verification_audit.py:534-551 | there is exactly one acknowledgement of a batch: its schema, hash and count, durably committed |
| VerificationAudit.SignatureRecords | src/adamantine/v1/integrations/shield_v4_verification_audit.py:630-633 | one record per observation, in order |
| VerificationAudit.IdentifierHashExactly | src/adamantine/v1/integrations/shield_v4_verification_audit.py:218-240 | exactly identifiers of 1 to 8192 bytes are hashed |
| VerificationAudit.BuildTranscript | src/adamantine/v1/integrations/shield_v4_verification_audit.py:618-642 | always yields a transcript in the grammar that its own serializer accepts; a failed preflight names the class of the refusal; the preflight record names transport hash, expected context, request and registry version, the terminal record the receipt given, and every record the time of the request |
| VerificationAudit.ReportFailure | src/adamantine/v1/integrations/shield_v4_verification_audit.py:606-617 | a call that raised appends one failed preflight record, naming the request and the delivery, and raises |
| VerificationAudit.ReportResult | src/adamantine/v1/integrations/shield_v4_verification_audit.py:618-644 | the result comes out exactly when the sink acknowledged its transcript |
| VerificationAudit.VerifyWithAudit | src/adamantine/v1/integrations/shield_v4_verification_audit.py:554-644 | every call past input validation does exactly one append of sound records; records match the callbacks one by one and in order, and are about this very request, delivery, time and receipt; a result escapes only after a matching acknowledgement, and is that of the verification |
| VerificationAudit.ReasonNamesState | src/adamantine/v1/integrations/shield_v4_verification_audit.py:554-604 | the reason recorded for a refusal before the callbacks names its state and no other |
| VerificationAudit.ClearedRun | src/adamantine/v1/integrations/shield_v4_verification_audit.py:406-419 | the calls of a cleared receipt: at least one, all but the last passed, 12 to 18 when all passed |
| ShieldEvidence.VerifiedMeetsDemand | src/adamantine/v1/policy/final_policy_engine.py:255-306 | the summary the Shield v4 verifier returns for a cleared receipt satisfies the engine's Shield v4 requirement |
| FinalPolicy.ShieldV4FailureExact | src/adamantine/v1/policy/final_policy_engine.py:285-306 | no failure exactly when the evidence meets every Shield v4 condition |
| FinalPolicy.EvidenceObjectionExact | src/adamantine/v1/policy/final_policy_engine.py:309-403 | an evidence gate stays silent exactly when its evidence passes |
| FinalPolicy.LocalObjectionExact | src/adamantine/v1/policy/final_policy_engine.py:406-442 | a local gate stays silent exactly when its result passes |
| FinalPolicy.ObjectionExact | src/adamantine/v1/policy/final_policy_engine.py:309-442 | whichever gate objects, it names itself, lists exactly the gates up to itself and allows nothing |
| FinalPolicy.EvaluateFinalPolicy | src/adamantine/v1/policy/final_policy_engine.py:445-542 | allows exactly when all eight gates pass, and then fully; otherwise the first failing gate decides, and nothing behind it is visited; malformed inputs stop before any gate |
| FinalPolicy.FirstFailureUnique | src/adamantine/v1/policy/final_policy_engine.py:498-530 | there is at most one first failing gate |
| PolicyMeaning.EvidenceSays | src/adamantine/v1/policy/final_policy_engine.py:309-403 | an evidence gate voices the first of eight causes there is, each with its own state, reason and dominant reasons, and is silent exactly when there is none |
| PolicyMeaning.LocalSays | src/adamantine/v1/policy/final_policy_engine.py:406-442 | a local gate denies in the state of its own name, or asks for a human, with the result's reason |
| PolicyMeaning.DecisionSays | src/adamantine/v1/policy/final_policy_engine.py:445-542 | so a denial tells the first gate that does not pass, the gates up to it, and the cause |
| PolicyMeaning.HiddenExactly | src/adamantine/v1/policy/final_policy_engine.py:118-177 | hidden authority is a forbidden key with a value that counts as true, in a dict at any depth of any attribute but the two asked about outright |
| PolicyMeaning.ShieldV4Exactly | src/adamantine/v1/policy/final_policy_engine.py:255-306 | the first of the seven Shield v4 demands that is not met is named |
| PolicyMeaning.ReasonGiven | src/adamantine/v1/policy/final_policy_engine.py:195-217 | the reason is the first non-blank dominant one, else the evidence's own, else the gate's; unknown ones are called unknown |
| TruthGate.NonceStore.CheckAndMark | src/adamantine/v1/enforcement/nonce_store.py:59-65 | accepts a key exactly when it is new, and keeps it for good |
| TruthGate.EnforceTva | src/adamantine/v1/enforcement/tva_gate.py:63-145 | passes exactly when the authority binds to the context, is in time, meets the posture and its stripped nonce is new, and then marks it; otherwise the store is unchanged and the fault is the first thing wrong, in the program's order |
| TruthGate.FirstWrongUnique | src/adamantine/v1/enforcement/tva_gate.py:63-145 | exactly one fault is the first, so the report is determined |
| TruthGate.PaddedNonceIsSame | src/adamantine/v1/enforcement/tva_gate.py:138-143 | padding a nonce with whitespace does not make it a new one |
| TruthGate.ExtractedIsBound | src/adamantine/v1/execution/orchestrator_v2.py:479-552 | an authority extracted from proofs is bound to the envelope's context, nonce and window |
| AuthorityMeaning.PostureExactly | src/adamantine/v1/enforcement/tva_gate.py:18-60 | the posture is met exactly when nothing is asked, or a v2 authority names known families, the very set that is asked for, the very posture, and the hash that binds it; otherwise the first demand that fails is blamed |
| AuthorityMeaning.FamiliesExactly | src/adamantine/v1/enforcement/tva_gate.py:18-60 | a list of families is accepted exactly when it is not empty and names known ones only, and stands for their set |
| AuthorityMeaning.AuthorizesExactly | src/adamantine/v1/enforcement/tva_gate.py:63-145 | an authority entitles exactly when wallet, action and context are those of the call, now is in its window, the posture is met and its nonce is not blank |
| AuthorityMeaning.ExtractExactly | src/adamantine/v1/execution/orchestrator_v2.py:479-552 | an authority is taken from the proofs exactly when they attest every field of it, families, posture and hash of a v2 one included, and the envelope says the same |
| Orchestrator.RejectionNeverAllows | src/adamantine/v1/execution/orchestrator_v2.py:211-230 | with one rejecting input the engine never allows, so the unexpected-allow coercion is unreachable |
| Orchestrator.DenyThrough | src/adamantine/v1/execution/orchestrator_v2.py:233-294 | a denial passes through the engine with the reason the rejecting boundary gave |
| Orchestrator.DenyQid | src/adamantine/v1/execution/orchestrator_v2.py:827-885 | the Q-ID and replay branches respond with the adapter's own reason |
| Orchestrator.DenyOracle | src/adamantine/v1/execution/orchestrator_v2.py:889-930 | so does the oracle branch |
| Orchestrator.DenyReceipt | src/adamantine/v1/execution/orchestrator_v2.py:946-983 | so does the Shield receipt branch |
| Orchestrator.DenyShield | src/adamantine/v1/execution/orchestrator_v2.py:1007-1069 | so do the Shield bundle and layer branches |
| Orchestrator.DenyEqc | src/adamantine/v1/execution/orchestrator_v2.py:1082-1109 | so does the EQC branch |
| Orchestrator.DenyAuthority | src/adamantine/v1/execution/orchestrator_v2.py:1111-1143 | so does the authority branch |
| Orchestrator.CheckBoundaries | src/adamantine/v1/execution/orchestrator_v2.py:679-1143 | the call stops exactly when some boundary rejects, with the status and the reason of the first one |
| Orchestrator.RejectionExactly | src/adamantine/v1/execution/orchestrator_v2.py:679-1143 | the first rejection is that of the first boundary that says no, with what it reports: its stage's own reason, a fixed one, or an error |
| Orchestrator.TruthExactly | src/adamantine/v1/execution/orchestrator_v2.py:666-1172 | the truth gate lets through exactly the calls whose boundaries all accept, whose own proofs attest an authority that says what the envelope says and entitles to it now, and whose nonce is unused |
| Orchestrator.DecideExecution | src/adamantine/v1/execution/orchestrator_v2.py:1181-1207 | the engine's last decision allows exactly when replay and human gates pass and the evidence agrees with the request; with sound evidence a denial is theirs, replay first |
| Orchestrator.CallEvidenceExactly | src/adamantine/v1/execution/orchestrator_v2.py:1181-1195 | the evidence of an accepted call passes exactly when oracle and Shield are bound to the request's context, the handoff is allowed and nothing is left to a human |
| Orchestrator.OrchestrateExecution | src/adamantine/v1/execution/orchestrator_v2.py:666-1388 | one call marks at most one nonce and runs at most once: exactly with a fresh mark of its own, a confirmation by the user and evidence that agrees with the request, whatever the adapters do; it marks the wallet's trimmed nonce exactly when the call is entitled, which includes the demanded families, posture and hash; a reported consumption implies a mark; a rejection carries its boundary's reason, and a refused authority the name of its first fault |
| Orchestrator.RunCalls | src/adamantine/v1/execution/orchestrator_v2.py:666-1388 | over any sequence of calls on one store no (wallet, stripped nonce) runs twice or after earlier use, and no mark is lost |
| ContextHash.RejectControlChars | src/adamantine/v1/eqc/context_hash.py:10-16 | rejects exactly texts with a control character |
| ContextHash.CanonicalContext | src/adamantine/v1/eqc/context_hash.py:19-48 | rejects exactly unusable parts; otherwise joins the sorted lines |
| ContextHash.ContextText | src/adamantine/v1/eqc/context_hash.py:19-48 | the canonical string is wallet, action and one line for each field, in dictionary order of the keys |
| ContextHash.ContextInjective | src/adamantine/v1/eqc/context_hash.py:10-50 | equal canonical strings come only from equal wallets, actions and field maps |
| ContextHash.ComputeContextHash | src/adamantine/v1/eqc/context_hash.py:19-50 | hashes exactly the encodable canonical string |
| ContextHash.HashInjective | src/adamantine/v1/eqc/context_hash.py:19-50 | the hashed bytes of two contexts are equal exactly when the contexts are; so are the hashes, unless the hash function collides on these two |
| SignatureMaterial.DecodeInvertsEncode | src/adamantine/v1/integrations/shield_v4_real_crypto_backend.py:139-180 | unpadded base64url (section 5 of RFC 4648) decodes back to the bytes it encoded |
| SignatureMaterial.EncodeInvertsDecode | src/adamantine/v1/integrations/shield_v4_real_crypto_backend.py:157-180 | re-encoding gives the same body exactly when its trailing bits are zero |
| SignatureMaterial.EncodeMaterialExact | src/adamantine/v1/integrations/shield_v4_real_crypto_backend.py:139-154 | encodes exactly 1 to 6140 bytes, to 5 + ceil(4n/3) characters |
| SignatureMaterial.LimitIsTight | src/adamantine/v1/integrations/shield_v4_real_crypto_backend.py:139-154 | 6140 bytes is exactly the most that renders within 8192 characters, so the final text check never fires |
| SignatureMaterial.MaterialRoundTrip | src/adamantine/v1/integrations/shield_v4_real_crypto_backend.py:139-180 | every encodable byte string is returned by the decoder |
| SignatureMaterial.DecodesExactly | src/adamantine/v1/integrations/shield_v4_real_crypto_backend.py:157-180 | the decoder takes exactly the prefix with 1 to 8187 letters of the alphabet after it, unpadded |
| SignatureMaterial.DecodedNonEmpty | src/adamantine/v1/integrations/shield_v4_real_crypto_backend.py:157-180 | every accepted body decodes to non-empty bytes |
| SignatureMaterial.CanonicalMaterialInjective | src/adamantine/v1/integrations/shield_v4_real_crypto_backend.py:157-180 | two accepted bodies with zero trailing bits that decode alike are the same text |
| SignatureInput.MessageInjective | src/adamantine/v1/integrations/shield_v4_real_crypto_backend.py:183-220 | the joined message determines domain, payload hash, algorithm, profile, key id and version, though key ids may contain newlines |
| SignatureInput.MessageBytesInjective | src/adamantine/v1/integrations/shield_v4_real_crypto_backend.py:183-220 | so do its bytes |
| SignatureInput.MessageIs | src/adamantine/v1/integrations/shield_v4_real_crypto_backend.py:183-220 | the message, line by line |
| UpgradeGateway.ValidateProposal | src/adamantine/v1/integrations/adaptive_core_upgrade_gateway_v1.py:187-273 | the imperative validator computes the canonical proposal, hash included |
| UpgradeGateway.CollectChanges | src/adamantine/v1/integrations/adaptive_core_upgrade_gateway_v1.py:219-239 | accepts exactly readable changes with distinct identifiers |
| UpgradeGateway.CanonGuardrails | src/adamantine/v1/integrations/adaptive_core_upgrade_gateway_v1.py:163-184 | the guardrail list becomes its sorted set of stripped names |
| UpgradeGateway.CanonicalizationIdempotent | src/adamantine/v1/integrations/adaptive_core_upgrade_gateway_v1.py:187-273 | a canonical proposal validates to itself |
| UpgradeMeaning.ValidatedExactly | src/adamantine/v1/integrations/adaptive_core_upgrade_gateway_v1.py:187-273 | a proposal is accepted as exactly the canonical one its fields say: texts trimmed and from their vocabularies, changes rearranged so that identifiers ascend in dictionary order, guardrail names distinct and ascending, and the hash of that form |
| UpgradeMeaning.ReceiptExactly | src/adamantine/v1/integrations/adaptive_core_upgrade_gateway_v1.py:308-375 | a review receipt is accepted as exactly what its fields say, with the hash of that |
| UpgradeMeaning.EvaluateExactly | src/adamantine/v1/integrations/adaptive_core_upgrade_gateway_v1.py:383-484 | each of the seven answers is given exactly when it is deserved, and only a bound approval, or no receipt where none is required, allows |
| UpgradeGateway.RestatedValidatesAlike | src/adamantine/v1/integrations/adaptive_core_upgrade_gateway_v1.py:187-273 | padding any text, putting the changes in another order, and reordering or repeating guardrails leaves the outcome of validation the same, for valid and invalid proposals alike |
| UpgradeGateway.EquivalentValidateAlike | src/adamantine/v1/integrations/adaptive_core_upgrade_gateway_v1.py:187-273 | proposals that read alike have the same canonical form |
| UpgradeGateway.RearrangedSame | src/adamantine/v1/integrations/adaptive_core_upgrade_gateway_v1.py:219-239 | a rearranged and re-padded list of changes reads as the same changes, or as unreadable alike |
| UpgradeGateway.GuardrailsForgetOrder | src/adamantine/v1/integrations/adaptive_core_upgrade_gateway_v1.py:163-184 | guardrail lists with the same names, in any order and number and however padded, are one set |
| UpgradeGateway.RefPaddingForgotten | src/adamantine/v1/integrations/adaptive_core_upgrade_gateway_v1.py:163-184 | nor does padding of a reference to guardrails |
| UpgradeGateway.PaddingForgotten | src/adamantine/v1/integrations/adaptive_core_upgrade_gateway_v1.py:138-144 | surrounding whitespace never matters |
| UpgradeGateway.ApprovalIsBound | src/adamantine/v1/integrations/adaptive_core_upgrade_gateway_v1.py:383-484 | with a receipt required, approval is only ever given to the very proposal an approving, valid receipt names and hashes |
| UpgradeGateway.ApprovalNeverTransfers | src/adamantine/v1/integrations/adaptive_core_upgrade_gateway_v1.py:276-484 | a receipt built for one proposal lets another through only if both share identifier and hash, so, unless their hashes collide, only if they are one |
| UpgradeGateway.ReceiptRoundTrip | src/adamantine/v1/integrations/adaptive_core_upgrade_gateway_v1.py:276-484 | a receipt built from a valid proposal with stripped, non-empty reviewer and notes validates and evaluates to exactly its decision |
| UpgradeGateway.ReceiptNeedsPlainTexts | src/adamantine/v1/integrations/adaptive_core_upgrade_gateway_v1.py:276-375 | a built receipt validates exactly when reviewer and notes are not blank and stripping them keeps its hash; so, unless the hash collides on these two receipts, exactly when both are stripped and non-empty |
| UpgradeGateway.PaddedReviewerRefused | src/adamantine/v1/integrations/adaptive_core_upgrade_gateway_v1.py:276-375 | an example: of two receipts built for one valid proposal the plain one validates and the one with a padded reviewer does not |
| UpgradeGateway.ReadsBack | src/adamantine/v1/integrations/adaptive_core_upgrade_gateway_v1.py:276-375 | what validation makes of a built receipt is that receipt with reviewer and notes stripped, or nothing |

## Left out

- Wording of error messages: what is stated of an error is its class, so two exceeded limits of one class are not told apart; of a value that is both too large and no JSON value it is stated that it is refused, not which of the two is met first.
- Python's own dicts and lists: a bounded snapshot is a heap of fresh containers.
- Why a receipt cannot be canonicalized (a null, keys that collide after normalization): a parameter, with the words of its message that select the class of the refusal.
- FinalPolicy.EvaluateFinalPolicy: a dict given as list of dominant reasons is not iterated over its keys; where the program raises because a value that cannot be iterated stands for a list of algorithms, the demand counts as not met.
- GatewayCodec.CanonicalBytes: interpreter recursion limits; the depth limit keeps nesting far below them, the raw reader is modelled without one.
- Unicode normalization: on audit texts it is the identity, since they consist of ASCII and decimal digits; on receipts it is inside the abstract canonical size and hash functions.
- Surrogates in receipts and host calls: text there is Unicode without surrogates, as the bounded snapshot guarantees.
- The JSON library's own reader: raw bytes and audit records are read by the strict reader modelled here, which agrees with it on canonical bytes.
- Envelope, Q-ID, Adaptive Core, Shield v3 adapters and EQC: oracles that accept or reject with a reason; a policy that fails its own validation is one of the ways the envelope stage rejects; exceptions inside EQC are not modelled.
- WSQK issuance, the canonical hash inside a WSQK v2 authority and the set of known evidence families: parameters of the truth gate.
- Response fields beyond status, reason, the gate flags and nonce consumption; protection mode; artifacts.
- Native signature backends and the text-based refusal of test-only keys.
- The test-only signature verifier, the older verifier of a single unprepared bundle, orchestrator v1, and v3 receipts.
- Durable nonce stores, sinks and any file, environment or clock access.
- Calendar arithmetic of RFC 3339 times: a parsed time is an integer.
- Mutation of inputs by other threads during a call, and subclasses of the built-in types.
