# ProofFlow verification model

ProofFlow lets an agent act only under a signed *action certificate*, records what was done in a signed *execution receipt*, and settles how it ended in a signed *outcome closure*. Around that sit a case run whose trace is checked event by event, an evaluation ledger chained by digests, and a small HTTP server with hand-written framing code. This project models those parts in Dafny and proves what they promise about every input, every run and every interleaving.

`dafny verify dfyconfig.toml` checks the whole project.

## How the model is laid out

- **Stores.** `ReplayLedger`, `ReceiptIndex`, `OutcomeIndex` and `TrustedStore` are classes with the source's dictionaries as fields. Each method is proved against an answer computed from a log of what was recorded; the theorems about runs are about that log. One lock section is one call.
- **Protocol.** `Attestations` holds the wire models and the validators of their results. `Selection` and `Signers` choose the signers that count. `ActionCertificate`, `ExecutionReceipt` and `OutcomeClosure` are the three verifiers, `Handoff` says when a later stage takes over an earlier result, `ClosureRuns` is about any number of verifiers over one index, `Progress` follows one action through all three verifiers, `Witnesses` writes such an action out.
- **Case run.** `StateMachine` is the guarded machine, `CaseTrace` defines the trace a run leaves, `ReferenceRun` prepares and approves, `TraceCheck` is the trace checker, `RunVerification` packages and verifies, `RunCompleteness` shows that honest runs pass.
- **HTTP framing.** `RequestReader`, `ChunkExtensions`, `PieceLoop`, `ChunkedBody`, `ContentLength`, `JsonNesting`.
- **Encodings.** `Decimal`, `Dsse`, `Base64`, `TextOrder`, `Canonical`, `DecimalText`.
- **Evaluation.** `Classification`, `EvaluationLedger`, `BuiltLedgers`, `ReplicateSelection`, `PairCounts`.

Digests, signatures, parsers and sort orders are fields of the records `World`, `Hashing`, `Protocol` and `Texts`, over which every theorem quantifies; injectivity and the like appear as `requires` exactly where they are needed. Identifiers and digests are abstract types with equality, times are integers.

## Results that differ from what one would hope

- A closure that covers every expected effect with some successes and some failures makes the verifier raise: the reason it then reports is not one its own result model admits. `TotalExceptCoveredMix` states that it raises exactly then, for every input; `MixedOutcomeRaises` is an action written out from certificate to closure, legal to every validator on the way, on which it does.
- A certificate whose human and workload are one principal is accepted at issue and refused at closure. `CertificateIsTakenOverIff` makes that difference part of an exact condition, `OnePrincipalIsCertified` is such a certificate.
- Greedy signer selection can miss a threshold that was reachable; it always reaches half of it (`SelectionReachesHalf`, `SelectionCanMissHalf`).
- The outcome index can answer ALREADY_PRESENT for a closure it never recorded, unless payload digests determine their fields (`PresentWithoutBeingRecorded`, `PresentMeansRecorded`).
- The producer's and the verifier's classification of a run agree only under the condition in `ClassifiersAgreeIff`; `NestedSignalDivides` and `RepeatedCodeDivides` are the two ways to break it.
- The chunked decoder refuses messages that section 7.1 of RFC 9112 allows: those with whitespace between a chunk size and the first semicolon (`SpaceBeforeSemicolonIsRefused`), with obs-text in a quoted string or a trailer value, or with one of seven trailer field names. `MessageIsServedIff` says that it delivers every other message within the limits and refuses these as malformed. It also accepts whitespace behind the last extension.
- When two keys of a mapping have one text, the last item wins, so the canonical form depends on their order. `MappingsAreAlikeIff` says exactly when two mappings have one canonical form, `OrderDecidesBetweenKeysOfOneText` when two such items may be exchanged.
- Negative zero is written apart from zero (`NegativeZeroIsWrittenApart`).

## Model

| member | source | states |
|---|---|---|
| `ReplayLedger.InMemoryReplayLedger.ReserveOnce` | src/proofflow/action_certificate.py:638-660 | the dictionaries answer REPLAY, CONFLICT, UNAVAILABLE or RESERVED as the log of grants demands; only a grant changes them |
| `ReplayLedger.EveryReachableLedgerSpendsOnce` | src/proofflow/action_certificate.py:627-660 | after any requests in any order, entries equal grants, never exceed the capacity, and spend each nonce and each idempotency key once |
| `ReplayLedger.AtMostOneGrantPerKey` | src/proofflow/action_certificate.py:638-660 | of two requests sharing a tenant's nonce or idempotency key at most one is ever granted |
| `ReplayLedger.GrantedNoncesAreReplays` | src/proofflow/action_certificate.py:648-653 | a granted nonce is a replay forever after |
| `ReceiptIndex.LookupAnswersFromTheLog` | src/proofflow/execution_receipt.py:698-729 | reading the three dictionaries in the source's order gives the answer the log of receipts demands |
| `ReceiptIndex.InMemoryReceiptIndex.AppendOnce` | src/proofflow/execution_receipt.py:698-729 | the method answers from the log and appends to it exactly on APPENDED |
| `ReceiptIndex.EveryReachableReceiptIndexIsValid` | src/proofflow/execution_receipt.py:686-729 | over every run receipts and attempts are recorded once, keys keep one intent, records equal APPENDED answers and fit the capacity |
| `ReceiptIndex.ReceiptsAndAttemptsCountTheLog` | src/proofflow/execution_receipt.py:686-729 | both dictionaries have one entry per record |
| `ReceiptIndex.OneIntentForever` | src/proofflow/execution_receipt.py:713-729 | two appended receipts under one idempotency key carry one intent, however far apart |
| `ReceiptIndex.RetriesStayPresent` | src/proofflow/execution_receipt.py:713-720 | repeating a recorded receipt is ALREADY_PRESENT in every later state |
| `OutcomeIndex.LookupAnswersFromTheLog` | src/proofflow/outcome_closure.py:467-516 | the four dictionaries together answer what the log of closures demands, for any integer sequence argument |
| `OutcomeIndex.InMemoryOutcomeClosureIndex.AppendOnce` | src/proofflow/outcome_closure.py:467-516 | the method answers from the log, appends exactly on APPENDED and overwrites nothing |
| `OutcomeIndex.AppendKeepsTheLogValid` | src/proofflow/outcome_closure.py:484-516 | one more accepted closure extends its attempt's chain by the next number and links to its predecessor's digest |
| `OutcomeIndex.EveryReachableIndexIsChained` | src/proofflow/outcome_closure.py:454-516 | in every reachable index each attempt's records are exactly 1..n, linked by digest, keys are used once, and records equal APPENDED answers within the capacity |
| `OutcomeIndex.EveryDictionaryHasOneEntryPerRecord` | src/proofflow/outcome_closure.py:457-465 | closures, executions and idempotency dictionaries have one entry per record |
| `OutcomeIndex.ChainCoversEveryStep` | src/proofflow/outcome_closure.py:502-516 | every step up to the latest of an attempt has been recorded |
| `OutcomeIndex.PresentMeansRecorded` | src/proofflow/outcome_closure.py:484-503 | when payload digests determine calls, ALREADY_PRESENT never comes from the idempotency dictionary |
| `OutcomeIndex.PresentWithoutBeingRecorded` | src/proofflow/outcome_closure.py:497-503 | without that condition a closure whose id was never recorded is reported present |
| `OutcomeIndex.RetriesStayPresent` | src/proofflow/outcome_closure.py:484-495 | a recorded closure repeated is ALREADY_PRESENT in every later state |
| `Selection.SelectionIsIndependent` | src/proofflow/action_certificate.py:936-957 | the greedy choice consists of eligible candidates with pairwise different principals and keys |
| `Selection.SelectionIsMaximal` | src/proofflow/action_certificate.py:936-957 | every eligible candidate passed over shares a label with a chosen one |
| `Selection.SelectionReachesHalf` | src/proofflow/action_certificate.py:936-957 | no independent set of eligible candidates is more than twice as large as the choice |
| `Selection.SelectionCanMissHalf` | src/proofflow/action_certificate.py:936-957 | half is all it reaches: three candidates for which one is chosen and two were possible |
| `Selection.ScanDistinct` | src/proofflow/execution_receipt.py:1096-1139 | the loop's dictionary, set and flags represent the greedy choice and what was seen |
| `Signers.CryptographicallyVerifiedRoots` | src/proofflow/action_certificate.py:887-915 | whatever the key id hints, the roots found are all roots under which some signature checks, in order of root id |
| `Signers.ChosenCount` | src/proofflow/action_certificate.py:936-957 | the chosen signers show as many principals and as many keys as there are signers |
| `Signers.ChosenFitTheSignatures` | src/proofflow/action_certificate.py:887-957 | when no signature of the envelope checks under two of the roots given, chosen signers never outnumber signatures |
| `Signers.SelectDistinct` | src/proofflow/action_certificate.py:924-957 | the loop and the listing by fingerprint give every chosen root once, in fingerprint order |
| `ActionCertificate.ActiveMeansListed` | src/proofflow/action_certificate.py:576-604 | the revocation snapshot says ACTIVE only inside its window and only for the very scope digest it lists |
| `ActionCertificate.VerifyActionCertificate` | src/proofflow/action_certificate.py:986-1221 | the verifier's result is the verdict on the bytes and the ledger's log, and only ACCEPT changes the ledger |
| `ActionCertificate.AdmittedIsAuthorized` | src/proofflow/action_certificate.py:1029-1172 | whatever reaches the ledger was authorized: policy, windows, thresholds of distinct issuers and approvers, unrevoked approval, and asks for exactly its own reservation |
| `ActionCertificate.EnoughIssuersAreFound` | src/proofflow/action_certificate.py:924-957 | the issuer threshold k is met whenever 2k - 1 independent eligible issuers signed |
| `ActionCertificate.EveryVerdictIsClosed` | src/proofflow/action_certificate.py:734-746 | every verdict is one the result model's validator accepts, in every ledger state, when no signature of the envelope checks under two configured keys |
| `ActionCertificate.VerdictIsClosedIff` | src/proofflow/action_certificate.py:725-746 | for every input, a verdict is one the validator accepts exactly when no more than 16 issuers count in a certificate that passes policy, binding and time; approvers are never too many |
| `ActionCertificate.PayloadTooLargeIsNeverReported` | src/proofflow/action_certificate.py:1009-1015 | the size check behind the envelope model never fires |
| `ActionCertificate.AcceptancesAreReservations` | src/proofflow/action_certificate.py:1174-1221 | over every interleaving of verifiers the ledger holds one reservation per ACCEPT, all spent once, within the capacity |
| `ActionCertificate.AtMostOneAcceptPerKey` | src/proofflow/action_certificate.py:1174-1221 | two accepted certificates of any run never share a tenant's nonce or idempotency key |
| `ExecutionReceipt.QualifyingObserverRoots` | src/proofflow/execution_receipt.py:1083-1139 | the observer loop returns the chosen observers, or the reason the flags call for |
| `ExecutionReceipt.VerifyExecutionReceipt` | src/proofflow/execution_receipt.py:1142-1482 | the verifier's result is the verdict on the bytes and the index's log, and only an appended receipt changes the index |
| `ExecutionReceipt.EveryReceiptVerdictIsClosed` | src/proofflow/execution_receipt.py:809-852 | every verdict is one the result model's validator accepts, for every input and index state |
| `OutcomeClosure.QualifyingOutcomeObservers` | src/proofflow/outcome_closure.py:942-1030 | the observer loop returns the chosen observers' ids or the reason the flags call for |
| `OutcomeClosure.ResolveOutcomeEvidence` | src/proofflow/outcome_closure.py:1045-1082 | the loops object with the first digest that is not backed, in the source's order |
| `OutcomeClosure.EvidenceBacksEveryDigest` | src/proofflow/outcome_closure.py:1056-1082 | there is no objection exactly when every digest of the closure resolves to bytes with that digest |
| `OutcomeClosure.SecondPassConfirmsTheFirst` | src/proofflow/outcome_closure.py:1337-1362 | once the first check of the observers passes, the second, with the accepted certificate and receipt known, gives SELF_OBSERVATION exactly when a declared observer is the human, the workload or a receipt observer, and exactly the first observers otherwise |
| `OutcomeClosure.VerdictIsExact` | src/proofflow/outcome_closure.py:1398-1518 | PASS, FAIL, UNSAFE_SUCCESS and UNKNOWN each hold exactly under their count conditions; the last branch is dead; only the covered mix does not fit the result model |
| `OutcomeClosure.OneOfTwoSucceeded` | src/proofflow/outcome_closure.py:1501-1509 | a legal reconciliation for which no result can be built |
| `OutcomeClosure.VerifyOutcomeClosure` | src/proofflow/outcome_closure.py:1085-1581 | the verifier's outcome is the one computed from the bytes and the index's log |
| `OutcomeClosure.TotalExceptCoveredMix` | src/proofflow/outcome_closure.py:581-670 | the verifier returns a legal result for every input but one family: it raises exactly when every guard passes on a covered mix of successes and failures |
| `Handoff.AcceptedCertificateIsUsable` | src/proofflow/execution_receipt.py:914-996 | a receipt that refers to an accepted certificate by its digests can use it |
| `Handoff.AuthorityIsEstablishedAgain` | src/proofflow/execution_receipt.py:999-1080 | a certificate accepted at a time is accepted again at that time, with exactly the signers found then |
| `Handoff.CertificateIsTakenOverIff` | src/proofflow/outcome_closure.py:769-871 | a closure takes an accepted certificate over exactly when human and workload differ and every signer's root is still current |
| `Handoff.ReceiptIsTakenOverIff` | src/proofflow/outcome_closure.py:874-939 | a closure takes an accepted receipt over exactly when every observer's root is still current |
| `Progress.ClosureIsJudgedIff` | src/proofflow/outcome_closure.py:1203-1397 | the closure of an accepted and reported action is judged on its effects exactly when human and workload differ, earlier signers are still current, the evidence is backed, the caller expects it, its observers qualify and had no part in the action, and it repeats the reported execution in time |
| `Progress.SoundClosuresAreReady` | src/proofflow/outcome_closure.py:1398-1518 | such a closure is ready to be recorded exactly when every expected effect was attempted and either all succeeded, as PASS, or all failed, as FAIL |
| `Progress.AcceptedActionsEndInPass` | src/proofflow/outcome_closure.py:1519-1557 | an accepted and reported action whose effects all succeeded is recorded as PASS when its closure is next in the index |
| `Witnesses.OnePrincipalIsCertified` | src/proofflow/outcome_closure.py:852-871 | a certificate with one principal as human and workload, under a policy and bindings their validators accept, that is accepted at issue and refused at closure |
| `Witnesses.MixedOutcomeRaises` | src/proofflow/outcome_closure.py:1501-1509 | an action whose statements, policy and bindings every validator accepts and whose certificate and receipt are accepted, one of whose two effects failed, on which the closure verifier raises in every index state |
| `Witnesses.OneEffectPasses` | src/proofflow/outcome_closure.py:1085-1581 | an action of the same kind that is recorded as PASS in an empty index |
| `ClosureRuns.RecordedVerdictsComeFromTheStatement` | src/proofflow/outcome_closure.py:1519-1557 | a recorded verdict is the one its own statement's attempts call for |
| `ClosureRuns.CallsComeFromPayloads` | src/proofflow/outcome_closure.py:1519-1532 | two verifications of one payload ask for one record |
| `ClosureRuns.RecordedClosuresStayPresent` | src/proofflow/outcome_closure.py:1533-1557 | over any sequence of verifications a recorded closure stays ALREADY_PRESENT |
| `ClosureRuns.NoStepIsBothPassAndFail` | src/proofflow/outcome_closure.py:1398-1557 | no step of an attempt is ever recorded both PASS and FAIL, whoever verifies under whatever policy |
| `StateMachine.MovesAreLinked` | src/proofflow/state_machine.py:119-155 | in any sequence of requests each accepted one finds the case as the accepted one before left it |
| `StateMachine.VersionCountsMoves` | src/proofflow/state_machine.py:142-142 | the state version counts the accepted requests |
| `StateMachine.PackagedOnlyAfterHumanApproval` | src/proofflow/state_machine.py:40-116 | in every run from RECEIVED a case is packaged only right after a human's valid APPROVE, given right after a passed audit |
| `StateMachine.OneMovePerVersion` | src/proofflow/state_machine.py:133-137 | of two requests made for one version at most the first is accepted |
| `CaseTrace.TransitionsReplay` | src/proofflow/state_machine.py:142-155 | the transition events a run leaves step through its targets, digest by digest |
| `ReferenceRun.PrepareRun` | src/proofflow/reference_runtime.py:416-799 | preparation succeeds exactly when every stage is ready, and leaves the run the plan of stages defines |
| `ReferenceRun.ReadyMeans` | src/proofflow/reference_runtime.py:441-741 | every stage is ready exactly when every skill succeeded, nothing is missing and the audit passed |
| `TraceCheck.TraceIntegrityErrors` | src/proofflow/reference_runtime.py:945-1143 | the checker reports no error exactly for traces that meet the specification of shape, scope, replay, approval, package and results |
| `TraceCheck.ReplayErrors` | src/proofflow/reference_runtime.py:1030-1064 | the loop over expected cases finds no error exactly when the transition events replay the plan to the stored case |
| `RunVerification.PlanIsExpected` | src/proofflow/reference_runtime.py:959-998 | the checker's flat lists of events and targets are the plan of stages |
| `RunVerification.TraceIsAReplay` | src/proofflow/reference_runtime.py:1010-1064 | a trace that passes is, event by event, the trace of a run through the planned targets |
| `RunVerification.ValidTraceHasOneReading` | src/proofflow/reference_runtime.py:1411-1522 | under an injective digest a valid trace has one starting case and one reading: from RECEIVED version 0 along allowed transitions, one per version, to the stored case |
| `RunVerification.PackagedMeansApprovedByAHuman` | src/proofflow/reference_runtime.py:1500-1522 | a valid PACKAGED run has exactly one approval event, by the human of an APPROVE record, before the last transition |
| `RunVerification.ApprovalIsBoundToItsRun` | src/proofflow/reference_runtime.py:322-396 | corollary of the verifier's checks: the approval record of a valid run names this run, its current subject, the required role and a time within the window, and stands in the trace as such |
| `RunVerification.ApprovalPinsItsSubject` | src/proofflow/reference_runtime.py:872-911 | corollary under an injective digest: two valid runs sealed under one subject digest hold the same artifacts, results and trace up to the approval |
| `RunVerification.VerifyRun` | src/proofflow/reference_runtime.py:1411-1660 | the verifier says valid exactly when every modelled check finds no error |
| `RunVerification.PackageRun` | src/proofflow/reference_runtime.py:1279-1408 | packaging refuses or leaves exactly the run the packaging stage defines |
| `RunCompleteness.SubjectIsStable` | src/proofflow/reference_runtime.py:289-293 | cutting the trace at the approval and rewinding the case gives the subject the preparation sealed, whatever was appended since |
| `RunCompleteness.PreparedRunIsValid` | src/proofflow/reference_runtime.py:742-799 | every prepared run is valid, with the subject digest recomputed equal |
| `RunCompleteness.ApprovedRunIsValid` | src/proofflow/reference_runtime.py:1221-1276 | every approved run is valid, whatever the decision |
| `RunCompleteness.PackagedRunIsValid` | src/proofflow/reference_runtime.py:1367-1408 | every packaged run is valid, with input and output digests regenerated equal |
| `RunCompleteness.ApprovalIsGrantedIff` | src/proofflow/reference_runtime.py:1146-1260 | a waiting run can be decided exactly by a holder of the role while the request is open |
| `RunCompleteness.PackagingIsPossibleIff` | src/proofflow/reference_runtime.py:1279-1366 | an approved run can be packaged exactly until its approval expires; the integrity check never stands in the way |
| `RunCompleteness.EveryRunIsValid` | src/proofflow/reference_runtime.py:416-1408 | prepare, then any decision, then package: each step is granted exactly under its role, time and decision, and the run is valid after each |
| `RequestReader.DeadlineRequestReader.ReadExact` | src/proofflow/tool_server.py:155-160 | however the stream fragments, the result depends on the bytes ahead only, or the deadline passed; no byte is lost |
| `RequestReader.DeadlineRequestReader.ReadLine` | src/proofflow/tool_server.py:162-174 | the same for a limited line: line, too long, or ended, decided by the bytes |
| `RequestReader.DeadlineRequestReader.Readline` | src/proofflow/tool_server.py:132-153 | the same for BinaryIO.readline with and without a size |
| `RequestReader.LineIsDecidedByAPrefix` | src/proofflow/tool_server.py:162-174 | a line or refusal read from a prefix is what the whole input gives |
| `ChunkExtensions.ValidChunkExtensions` | src/proofflow/tool_server.py:844-871 | the scanner terminates in bounds and accepts what the suffix functions accept |
| `ChunkExtensions.ConsumeQuotedString` | src/proofflow/tool_server.py:886-906 | a quoted string ends at its first unescaped quote, or nowhere |
| `ChunkExtensions.AcceptsExactlyTheGrammar` | src/proofflow/tool_server.py:844-906 | accepted are exactly the ASCII texts among those of section 7.1.1 of RFC 9112, obs-text included, with optional trailing whitespace |
| `ChunkExtensions.ListHasNoLineFeed` | src/proofflow/tool_server.py:844-906 | a list of extensions cannot end its line |
| `PieceLoop.RunsPast` | src/proofflow/tool_server.py:625-684 | a loop whose rounds read the texts of valid units passes over any list of them that fits |
| `PieceLoop.RanPast` | src/proofflow/tool_server.py:625-684 | whatever such a loop passed over was a list of valid units that fits |
| `ChunkedBody.ReadChunkedBody` | src/proofflow/tool_server.py:625-684 | for every fragmentation the verdict and the bytes left are those of the specification, or the deadline passed |
| `ChunkedBody.DecodesExactlyTheCoding` | src/proofflow/tool_server.py:625-684 | a body is delivered exactly for the messages of section 7.1 of RFC 9112 that are within the limits and served (no whitespace before the first semicolon of a size line, ASCII extensions and trailer values, none of seven trailer names; whitespace behind the last extension is let pass); it is their data, and nothing behind them is consumed |
| `ChunkedBody.MessageIsServedIff` | src/proofflow/tool_server.py:625-684 | of the messages of the grammar within the limits exactly the served ones are delivered, the others are refused as malformed |
| `ChunkedBody.SpaceBeforeSemicolonIsRefused` | src/proofflow/tool_server.py:826-841 | a message of the grammar whose size line is "1 ;a" is refused |
| `ChunkedBody.BodyIsBounded` | src/proofflow/tool_server.py:625-651 | no delivered body exceeds the configured limit, whatever the bytes |
| `ChunkedBody.VerdictIsFinal` | src/proofflow/tool_server.py:625-684 | every verdict but an incomplete body is unaffected by later bytes |
| `ChunkedBody.SizeLineIsParsed` | src/proofflow/tool_server.py:826-841 | a size line of the grammar gives the number its hexadecimal digits denote exactly when the server serves it |
| `ChunkedBody.SizeLineWasRendered` | src/proofflow/tool_server.py:826-841 | a line that gives a size is a hexadecimal token, an ASCII extension list that starts with its semicolon, and a line ending |
| `ChunkedBody.TrailerLineWasRendered` | src/proofflow/tool_server.py:909-922 | an accepted trailer line is a permitted field name, a colon and an ASCII field value |
| `ChunkedBody.FieldLineIsValidIff` | src/proofflow/tool_server.py:909-922 | a field line of the grammar is accepted exactly when its name is permitted and its value ASCII |
| `ContentLength.LengthsAreComparedAsNumbers` | src/proofflow/tool_server.py:566-582 | comparing the stripped digits as text refuses exactly the numbers above the limit, for digit strings of any length |
| `JsonNesting.JsonNestingExceeds` | src/proofflow/tool_server.py:767-788 | the loop computes whether some opening bracket outside strings goes beyond the limit |
| `JsonNesting.NestingIsMeasured` | src/proofflow/tool_server.py:767-788 | for every RFC 8259 text in every layout, brackets and escapes in strings included, the scanner says whether it nests deeper than the limit |
| `Base64.DecodeInvertsEncode` | src/proofflow/action_certificate.py:90-110 | decoding gives back what was encoded |
| `Base64.AcceptsExactlyTheEncodings` | src/proofflow/action_certificate.py:90-110 | accepted are exactly the RFC 4648 section 4 text of the bytes and, where allowed, the section 5 one, of the expected size |
| `Base64.NoMixedAlphabets` | src/proofflow/action_certificate.py:100-107 | no accepted text mixes the two alphabets |
| `Base64.DecodableButNotCanonical` | src/proofflow/action_certificate.py:104-107 | a text with stray bits decodes and is refused |
| `Dsse.PaeIsInjective` | src/proofflow/action_certificate.py:749-764 | the DSSE pre-authentication encoding never maps two (type, payload) pairs to one text |
| `Canonical.MappingOrderIsIrrelevant` | src/proofflow/canonical.py:55-60 | mappings of the same items under different keys have one canonical form, or none, in any order |
| `Canonical.OrderDecidesBetweenKeysOfOneText` | src/proofflow/canonical.py:55-60 | of any two items under one key the later wins, and exchanging them changes the canonical form exactly when their canonical values differ |
| `Canonical.MappingsAreAlikeIff` | src/proofflow/canonical.py:55-60 | two mappings have one canonical form exactly when the last values under every key that is not excluded do |
| `Canonical.MappingSucceedsIff` | src/proofflow/canonical.py:55-60 | a mapping has a canonical form exactly when every value under a key that is not excluded has one |
| `Canonical.SetOrderIsIrrelevant` | src/proofflow/canonical.py:61-63 | the canonical form of a set, or that there is none, does not depend on the order it is walked in |
| `Canonical.CanonicalizeIsIdempotent` | src/proofflow/canonical.py:33-71 | canonicalizing a canonical form gives it back, for every value and every set of excluded keys |
| `Canonical.MappingDeterminesItsFields` | src/proofflow/canonical.py:55-60 | equal canonical forms have equal canonical values under every key |
| `Canonical.DecimalsAlikeIffEqual` | src/proofflow/canonical.py:17-24 | two decimals have one canonical form exactly when they are equal and of one sign |
| `DecimalText.EqualTextsAreEqualNumbers` | src/proofflow/canonical.py:17-24 | two decimals have one text exactly when they are equal and of one sign |
| `DecimalText.NegativeZeroIsWrittenApart` | src/proofflow/canonical.py:17-24 | zero and negative zero are equal and written differently |
| `TrustedStore.TrustedArtifactStore.RegisterAll` | src/proofflow/trusted_store.py:48-82 | a batch is taken whole or not at all, nothing recorded changes, the capacity holds, and the answer is the one the batch and the records call for |
| `TrustedStore.PendingRecordsTheBatch` | src/proofflow/trusted_store.py:50-68 | the pending records of a batch are exactly its items under their own keys |
| `TrustedStore.TrustedArtifactStore.Contains` | src/proofflow/trusted_store.py:84-100 | a lookup succeeds exactly for the recorded canonical JSON under the caller's scope |
| `TrustedStore.HeldEvidenceIsInScope` | src/proofflow/trusted_store.py:84-100 | evidence that is found carries the caller's own tenant, case and trace and was registered as such |
| `TrustedStore.RegisteredEvidenceIsHeld` | src/proofflow/trusted_store.py:70-100 | whatever was registered is found by its own scope in every later state |
| `Classification.ClassifiersAgreeIff` | benchmarks/evaluation/suite.py:726-769 | the producer's and the verifier's status agree exactly under a stated condition on signals, execution and counts of issue codes |
| `Classification.ClassifiersAgreeOnQuietRuns` | benchmarks/evaluation/ledger_verifier.py:115-133 | without signals and without repeated issue codes they agree |
| `Classification.NestedSignalDivides` | benchmarks/evaluation/ledger_verifier.py:115-118 | a signal in its nested place only is PASS for one and UNSAFE_SUCCESS for the other |
| `Classification.RepeatedCodeDivides` | benchmarks/evaluation/suite.py:754-757 | a repeated required issue code is FAIL for one and PASS for the other |
| `EvaluationLedger.VerifyRunLedger` | benchmarks/evaluation/ledger_verifier.py:233-433 | the verifier gives no reason exactly for ledgers whose chain, names, entries, coverage and root fit |
| `EvaluationLedger.LastHashFixesTheLedger` | benchmarks/evaluation/ledger_verifier.py:238-249 | two verified ledgers with one last entry digest have the same entries |
| `EvaluationLedger.VerifiedLedgerIsThePlan` | benchmarks/evaluation/ledger_verifier.py:382-404 | corollary of the coverage check: the keys of a verified ledger are exactly the planned ones, each once |
| `EvaluationLedger.BuildRunLedger` | benchmarks/evaluation/ledger.py:111-207 | the nested loops and the chaining loop give the chained drafts of the plan's keys |
| `BuiltLedgers.PlanKeysAre` | benchmarks/evaluation/ledger.py:131-178 | the builder visits exactly the planned keys |
| `BuiltLedgers.PlanKeysDiffer` | benchmarks/evaluation/ledger.py:131-178 | it visits no key twice |
| `BuiltLedgers.ChainedFits` | benchmarks/evaluation/ledger.py:179-184 | chaining gives every entry its index, its predecessor's digest and its own |
| `BuiltLedgers.BuiltLedgerIsVerifiedIff` | benchmarks/evaluation/ledger_verifier.py:233-433 | a ledger from the builder is verified exactly when the two classifiers agree on every deterministic run |
| `BuiltLedgers.QuietBuildsAreVerified` | benchmarks/evaluation/ledger.py:111-207 | a build of runs without signals and repeated codes is verified |
| `ReplicateSelection.SelectReplicateResults` | benchmarks/evaluation/ledger_verifier.py:162-186 | exactly one result is selected per arm, scenario and replicate, the one the policy names |
| `ReplicateSelection.Pick` | benchmarks/evaluation/ledger_verifier.py:178-185 | the pick is not beaten by any candidate: unsafe first, then terminal, then the highest attempt |
| `ReplicateSelection.SelectionIgnoresOrder` | benchmarks/evaluation/ledger_verifier.py:162-186 | with unique keys the selection is the same for every order of the entries |
| `ReplicateSelection.UnsafeSuccessIsSticky` | benchmarks/evaluation/ledger_verifier.py:165-172 | no added retry turns an unsafe group into anything else |
| `PairCounts.CountPairs` | benchmarks/evaluation/ledger_verifier.py:505-524 | complete and incomplete pairs are all pairs, each counted by its definition, and blocked ones are among the incomplete |
| `PairCounts.CountsAddUp` | benchmarks/evaluation/ledger_verifier.py:458-504 | the status counts of the arms account for every entry once |
| `PairCounts.SelectedAndDiscarded` | benchmarks/evaluation/ledger_verifier.py:549-552 | selected results are as many as groups and never more than entries |
| `PairCounts.VerifiedPairsHaveAllArms` | benchmarks/evaluation/ledger_verifier.py:405-418 | in a verified ledger every pair has all its arms |

## Left out

- Cryptography, SHA-256, JSON parsing and the model library: digests, signature checks and parsers are arbitrary functions, validators are predicates on the parsed values; field patterns and remote-reference checks are not modelled; the details of a receipt that no guard reads (runtime, protocol, trace, measurements, provenance) are digests or states without checks of their own.
- Timestamp texts and naive datetimes: times are integers, so the branches that refuse naive times do not arise.
- Sockets, HTTP routing, headers other than Content-Length and the server classes: a stream is the bytes a peer delivers before it ends or fails, a passed deadline is a choice made at each read.
- Stores supplied by callers that raise or misbehave: the verifiers are modelled over the in-memory stores, and the UNAVAILABLE answer stands for a store at capacity.
- `_policy_allows_outcome` (src/proofflow/outcome_closure.py:1033-1042) is never called by the verifier and is not modelled; the closure's own guard chain is.
- `OutcomeClosure.ResolveOutcomeEvidence`: the in-memory resolver's lookup is an arbitrary function of digest, source and time.
- `OutcomeClosure.QualifyingOutcomeObservers`: the source returns from inside its loop at the first undeclared signer, before it has seen the rest; the model's loop goes on, and lets an undeclared signer outrank everything else it finds, with the same result.
- `ReferenceRun.PrepareRun`: the skills are arbitrary functions whose successes carry no issues and the digest of their value, as every skill in the repository does; file writing, path checks and the registration of evidence are not modelled.
- `RunVerification.VerifyRun`: the flat checks of each artifact's own hash and scope, of the manifest's scope, of reference strings and of the package's files on disk are not modelled.
- `RunVerification.PackageRun`: the refusal to overwrite an existing package directory is file-system work.
- `Base64.Decode`: stands for the library's strict decoding, which is lenient about the bits behind the last byte only.
- `ContentLength.LengthToRead`: the checks for exactly one header value made of ASCII digits come before the part modelled.
- `Canonical.SetOrderIsIrrelevant`: takes it that JSON text tells canonical values apart; the JSON encoder itself is not part of this model.
- `Canonical.DecimalsAlikeIffEqual`: a decimal is its sign, coefficient and exponent; infinities and NaN are one value that is refused.
- `DecimalText.TextOf`: positional formatting of a decimal is the library's and is written out by its meaning.
- `TrustedStore.TrustedArtifactStore.RegisterAll`: one item's producer, classification, status and hash checks are one flag.
- `EvaluationLedger.VerifyRunLedger`: schema validation, latency and cost semantics, the worker evidence's own schema, binding and semantic gate (one predicate here) and the comparison of model configurations within an executed pair are not modelled. The checks of arm sets, rule catalogs and formulas within an attempt or a pair follow from the coverage and the per-entry checks that are.
- `EvaluationLedger.BuildRunLedger`: a deterministic scenario without a runner binding, which the source refuses, does not arise.
- `BuiltLedgers.BuiltLedgerIsVerifiedIff`: replicate ids and attempts are taken without repetition, which the ledger's schema demands. The schema also refuses a result with fields of its own at the top level and with repeated issue codes (benchmarks/evaluation/run-ledger.schema.json:83, :94): a run whose classifiers agree because both see a signal at the top is verified here and refused there.
- `ReplicateSelection.SelectReplicateResults`: groups are visited in an arbitrary order where the source sorts them; what is selected does not depend on it.
- Skills, worker execution gate, schema export, demo server, browser code and benchmarks of performance: flat checks, user interface or measurement.
