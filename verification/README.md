# Verified model of the Underpass choreographer's adapters

The choreographer runs councils of LLM agents: proposals are drafted, validated
against an output contract, scored, ranked, possibly judged, and the winner is
executed in a remote runtime. This project models the code that decides what
wins, what is executed and what is recorded, and proves what that code promises.

Each module follows one component of the Rust sources.

| module | component |
|---|---|
| `Utf8`, `ClaimPreviews` | UTF-8 text and the character-safe preview of a claim |
| `EventShape` | the bounded walk over a JSON document |
| `Fences`, `Text`, `Json` | unwrapping fenced payloads; the string and JSON primitives |
| `Grounding`, `Support` | the evidence gate and the judge-backed support gate |
| `OutputGates`, `Contracts`, `Reports` | the wired chain of eight gates and its score |
| `Scoring`, `Ranking`, `Counting`, `JudgeReply`, `JudgedChain` | scores, ranking, judge discrimination, reading a judge's reply; all of them on the wired chain |
| `RuntimeRequest`, `Protobuf`, `RuntimeOutcome`, `RuntimeSession` | the runtime executor: request, value translation, outcome, session protocol |
| `ProviderCalls`, `JudgeCalls` | metrics accounting of provider and judge calls |
| `Participants` | the participant plan of a ceremony |
| `Selector`, `Labels` | the scenario selector language and Prometheus label escaping |
| `Seeding` | start-up seeding of agents, councils and contracts |

Code that works by recursion and expressions is written as functions; loops over
vectors, sets, maps and buffers, the recorder, the runtime channel and the
registries are methods and classes, each proved equal to a function of its
inputs or of the old state. Protocols under concurrency (`RuntimeSession`,
`ProviderCalls`, `JudgeCalls`) are step functions over a world of any number of
calls; a run is any sequence of actions, and a suspended call may be cancelled
(its future dropped) at any await.

Foreign code is a parameter: JSON text parsing and printing and JSON Schema are
arbitrary functions (`Engines`), the support judge is an arbitrary function of
the whole call history, the rounding of integers to doubles is an arbitrary
function `round`, remote answers and clock readings are inputs.

## Where the code differs from what is promised

- Scores compare equal by their bits but are ordered by value
  (`crates/choreo-core/src/value_objects/score.rs:48-66`), so a top score shared
  by 0 and -0 is not reported as a tie: `TieIsMissedIff` is exact,
  `Ranking.SignedZeroExample` an instance. As a function of its list the metric
  can then also depend on list order (`OrderMattersIff`), but its only caller
  passes the completed ranking, where it cannot (`MetricIgnoresArrivalOrder`).
- The structural baseline is documented as the winner without the judge
  (`crates/choreo-adapters/src/scoring.rs:120-128`). The exact condition has three
  exhaustive cases: some valid proposal has a structural report
  (`BaselineIsTopIff`, which covers the documented case), the valid ones have none
  (`EmptyBaselineIsTopIff`), or none is valid (`FallbackIsTopIff`).
  `MetricIsRightIff` carries it over to the reported answer. The wired chain
  always gives eight structural reports, so there only the last case can go wrong:
  `WiredMetricIsRightIff` is exact, `JudgedChain.FallbackExample` an input.
- Behind a passing grounding gate the support gate judges every claim only up to
  64 of them; above that it judges none and fails
  (`GroundedProposalIsJudgedInFull`, `GroundedButNotJudged`).
- `execute` closes the session it created on every return, but a call cancelled
  between create and close leaves it open: `OpenSessionsAreHeld` is exact,
  `CancelledCallLeaks` an instance. This is about sessions whose creation was
  answered. A call that is cancelled while it awaits the answer, or that gets an
  error for it, may leave a session at the runtime of which no log shows a trace.
- A caller-supplied session is never closed by the call it was supplied to, but it
  is closed by another call whose create is answered with the same id, which
  `runtime.session.requested_id` lets a caller ask for:
  `SuppliedUntouchedIffIdsApart` is exact, `SuppliedSessionClosedByAnother` an
  instance.
- The judge's latency is documented as recorded on every path
  (`crates/choreo-adapters/src/agents/judge.rs:126-128`); a cancelled rating
  records none. `TimedIffAllReturned` is exact, `CancelledRatingExample` an
  instance. A rating can be charged tokens and
  an error at once (`PaidFailureExample`); agent completions cannot.
- A provider call cancelled while its error body is read keeps its error record
  although it returned nothing; `MetersAreExact` counts it among the failed calls.
- An info string with an inner space is kept in front of the payload:
  `FenceTransparency` is an if-and-only-if. Content that starts and ends with a
  fence is unwrapped even when it holds several blocks, although the comment at
  `crates/choreo-adapters/src/validators.rs:1150-1156` says such text is untouched:
  `OnlyTrimmedIff` is exact, `TwoBlocksAreUnwrapped` gives the instances.
- The shape gate measures the text with its fence (`FencesCountTowardsSize`).
- A null option hides the winner's attribute of the same key
  (`LayersAreOverrides`).
- Restarts of the seeding are documented as idempotent; after a storage failure
  the second run completes the first instead (`RestartRecovers`).
  `SeedingIsIdempotent` is exact, `InterruptedRunExample` an instance.

## Model

| member | source | states |
|---|---|---|
| `Utf8.EncodeDecode` | crates/choreo-adapters/src/validators.rs:848-862 | the RFC 3629 grammar accepts every encoded text, and decoding gives the text back |
| `Utf8.DecodeEncode` | crates/choreo-adapters/src/validators.rs:848-862 | and conversely: every byte string of the grammar is the encoding of what it decodes to |
| `Utf8.BoundariesAround` | crates/choreo-adapters/src/validators.rs:855-857 | a byte offset inside a character is never a boundary, its first byte always is |
| `ClaimPreviews.FitIsLongest` | crates/choreo-adapters/src/validators.rs:853-858 | the cut is the longest whole-character prefix within the byte budget |
| `ClaimPreviews.ClaimPreview` | crates/choreo-adapters/src/validators.rs:848-862 | the byte loop, on all well-formed UTF-8: it takes at most three steps and yields the encoding of the character-level preview; texts of at most 80 bytes come back unchanged |
| `ClaimPreviews.PreviewMeaning` | crates/choreo-adapters/src/validators.rs:848-862 | on texts: up to 80 bytes unchanged, beyond that the longest whole-character prefix of at most 80 bytes and an ellipsis U+2026 |
| `EventShape.WalkIsFirstOffence` | crates/choreo-adapters/src/validators.rs:578-635 | from any position and depth, the recursive walk equals "first offence of the pre-order listing", with the path rendered from that position |
| `EventShape.WalkReportsFirstOffence` | crates/choreo-adapters/src/validators.rs:578-635 | None exactly when no node offends; otherwise the first offending node in pre-order, with its rendered position, and actual > limit |
| `EventShape.PreorderIsAllNodes` | crates/choreo-adapters/src/validators.rs:578-635 | the reference listing contains exactly the (position, node) pairs of the document |
| `EventShape.PassingDocumentSize` | crates/choreo-adapters/src/validators.rs:447-467 | a passing document has at most 1 + b + ... + b^max_depth nodes, b the larger of the array and key limits |
| `EventShape.WalkIgnoresDeepNodes` | crates/choreo-adapters/src/validators.rs:578-635 | on any input, blanking everything below depth max_depth + 1 does not change the answer: the recursion looks no further |
| `EventShape.RaisingLimitsKeepsPasses` | crates/choreo-adapters/src/validators.rs:470-493 | raising limits never turns a pass into a failure |
| `Fences.StripWrapped` | crates/choreo-adapters/src/validators.rs:1157-1170 | what stripping makes of any wrapped body, for every info string without newline and any blank margins |
| `Fences.OnlyTrimmedIff` | crates/choreo-adapters/src/validators.rs:1157-1170 | text is only trimmed if and only if it does not both start and end with a fence |
| `Fences.TwoBlocksAreUnwrapped` | crates/choreo-adapters/src/validators.rs:1150-1170 | any two fenced blocks are unwrapped as one, the fences between them left inside |
| `Fences.StripOneLine` | crates/choreo-adapters/src/validators.rs:1166-1168 | a delimited text without a newline strips to its trimmed inside, with any blank margins |
| `Fences.DelimitedIsOneOfTwo` | crates/choreo-adapters/src/validators.rs:1157-1170 | this and StripWrapped cover every delimited text: its inside has no newline, or is an info line and a body |
| `Fences.FenceTransparency` | crates/choreo-adapters/src/validators.rs:1157-1170 | for a body that is not itself delimited, the wrapped and the bare form strip to the same text if and only if the trimmed info string has no space |
| `Grounding.ClaimViolations` | crates/choreo-adapters/src/validators.rs:786-843 | the loop over one claim: the violations, in order, that the reference value lists |
| `Grounding.OrphansMeaning` | crates/choreo-adapters/src/validators.rs:820-841 | the orphans reported are exactly the cited strings the contract does not allow |
| `Grounding.ClaimTextSays` | crates/choreo-adapters/src/validators.rs:848-852 | a claim's text is its `text` entry when that is a string, and the printed object otherwise |
| `Grounding.PreviewOfPreviews` | crates/choreo-adapters/src/validators.rs:848-862 | so its preview is the shortened `text` string, or the shortened printed object |
| `Grounding.RefsMeaning` | crates/choreo-adapters/src/validators.rs:799-803 | the refs of a claim are the array under the contract's refs field, and there are none without such an array |
| `Grounding.GroundedMeaning` | crates/choreo-adapters/src/validators.rs:786-843 | grounded, said on the entries of the claim: an array of strings, not empty, all of them allowed |
| `Grounding.ViolationsMeanUngrounded` | crates/choreo-adapters/src/validators.rs:786-843 | a claim has no violation exactly when it is an object citing a non-empty array of allowed strings, and its violations carry its own index |
| `Grounding.ViolationsSayWhy` | crates/choreo-adapters/src/validators.rs:786-843 | each violation carries the claim's preview and states the true reason: type, missing refs, no refs, a non-string ref of that type, or exactly the orphans |
| `Json.TypeNames` | crates/choreo-adapters/src/validators.rs:1172-1181 | the type name a violation gives tells the type of the value |
| `Grounding.NamedClaimsAreUngrounded` | crates/choreo-adapters/src/validators.rs:747-751 | the indices named by the gate are exactly the ungrounded claims |
| `Grounding.SilentIffAllGrounded` | crates/choreo-adapters/src/validators.rs:747-766 | the gate is silent exactly when every claim is grounded |
| `Support.JudgeClaims` | crates/choreo-adapters/src/validators.rs:1044-1110 | the loop, against an arbitrary stateful and fallible judge: result and call log equal the recursive judgement |
| `Support.CallsAreTheQuestions` | crates/choreo-adapters/src/validators.rs:1044-1110 | fail closed: on Ok every question was asked once, in order, and answered; on Err the log stops at the first failing call and that error is the result |
| `Support.CallsQuoteTheirClaims` | crates/choreo-adapters/src/validators.rs:1071-1078 | every call in the log quotes one of the claims: its `text` string or its printed object, with the excerpts it cites |
| `Support.AskedIffJudgeable` | crates/choreo-adapters/src/validators.rs:1061-1070 | a claim is put to the judge exactly when it is an object that cites a string with a body |
| `Support.ResolveOneByOne` | crates/choreo-adapters/src/validators.rs:1119-1135 | the excerpts follow the cited refs one by one, in order and with repetitions; refs without a body are skipped |
| `Support.OneViolationPerRejection` | crates/choreo-adapters/src/validators.rs:1052-1108 | violation indices strictly increase and are exactly the claims rejected by the rule or never judged |
| `Support.OneVerdictPerQuestion` | crates/choreo-adapters/src/validators.rs:1052-1090 | verdict records are, one each and in order, exactly the judged claims |
| `Support.VerdictsAreAnswers` | crates/choreo-adapters/src/validators.rs:1079-1091 | each verdict record carries the judge's own answer to that claim, its preview and the references it was shown |
| `Support.ViolationsSayWhy` | crates/choreo-adapters/src/validators.rs:1052-1108 | each violation states the true reason: not an object, nothing judgeable, supported at the judge's own confidence below the minimum, or not supported |
| `Support.RecordsAddUp` | crates/choreo-adapters/src/validators.rs:1044-1110 | verdicts plus unjudged violations equal the claim count |
| `Support.VerdictsMatchCalls` | crates/choreo-adapters/src/validators.rs:1044-1110 | there are as many verdict records as judge calls |
| `Support.ExcerptsAreCited` | crates/choreo-adapters/src/validators.rs:1115-1135 | the judge sees a body if and only if the claim cites its reference and the rule has that body |
| `Support.GroundedClaimsAreAllJudged` | crates/choreo-adapters/src/validators.rs:1115-1135 | of grounded claims with a body for every allowed ref, the judging loop has one question each, on exactly the cited refs in order |
| `Support.NoMissingBodyReported` | crates/choreo-adapters/src/validators.rs:1052-1078 | and the loop, when it completes, reports none of them as unjudgeable and makes one call each |
| `Scoring.FullScore` | crates/choreo-adapters/src/scoring.rs:41-51 | the pass fraction lies in [0, 1] and is 1 exactly for a non-empty list of passing reports |
| `Scoring.ScoreIsTheFraction` | crates/choreo-adapters/src/scoring.rs:41-51 | the score times the number of reports is the number of positions with a passing one; without a report it is a plain zero |
| `Scoring.PolicyMeaning` | crates/choreo-adapters/src/scoring.rs:98-118 | the judge-aware policy where there is a judge report: the number in the first one cut off at 0 and 1, or the pass fraction when it holds no number |
| `Scoring.BaselineExists` | crates/choreo-adapters/src/scoring.rs:164-175 | the baseline is the least id among the structurally valid, or among all when none is valid |
| `Text.LessMeaning` | crates/choreo-adapters/src/scoring.rs:167-175 | the order of ids: a proper prefix comes first, otherwise the first difference decides |
| `Scoring.BaselineIgnoresOrder` | crates/choreo-adapters/src/scoring.rs:164-175 | the baseline depends only on the multiset of outcomes |
| `Scoring.DiscriminatesIffJudged` | crates/choreo-adapters/src/scoring.rs:129-150 | Some exactly when there are two outcomes and one carries a judge verdict: the inner `?` never fires |
| `Scoring.TieIffTopShared` | crates/choreo-adapters/src/scoring.rs:133-140 | Tie coincides with "the maximum is shared" if and only if the top is not a zero whose sign no other entry has |
| `Scoring.DiscriminateIgnoresOrder` | crates/choreo-adapters/src/scoring.rs:129-150 | any two score-descending orders of the same outcomes give the same answer, unless a zero of one sign stands alone against the other |
| `Scoring.OrderSensitiveMatters` | crates/choreo-adapters/src/scoring.rs:129-150 | in that case another order does give another answer |
| `Scoring.OrderMattersIff` | crates/choreo-adapters/src/scoring.rs:129-150 | the two together: as a function of its argument the metric depends on list order exactly on those lists |
| `Scoring.ScoredOutcomesAreValid` | crates/choreo-adapters/src/scoring.rs:98-118 | outcomes scored by the judge-aware policy from details that are doubles have scores in [0, 1], signed only at zero |
| `Ranking.RankSorts` | crates/choreo-core/src/entities/deliberation.rs:272-272 | the ranking is a permutation sorted by score, then by smallest id |
| `Ranking.RankingIsUnique` | crates/choreo-core/src/entities/deliberation.rs:272-272 | with distinct ids there is only one ranking of the same outcomes |
| `Ranking.MetricIgnoresArrivalOrder` | crates/choreo-app/src/usecases/deliberate.rs:166-170 | so the metric, read off the completed ranking, does not depend on the order of the proposals, signed zeros included |
| `Ranking.TieIsMissedIff` | crates/choreo-app/src/usecases/deliberate.rs:166-170 | there Tie coincides with a shared maximum if and only if no lone signed zero leads |
| `Ranking.SignedZeroExample` | crates/choreo-core/src/value_objects/score.rs:48-66 | whatever the gates found, a judge answering 0 and -0 shares the top of the completed ranking without a tie being reported |
| `Ranking.BaselineIsTopIff` | crates/choreo-adapters/src/scoring.rs:164-184 | some valid proposal has a structural report: exactly when the one named has one too |
| `Ranking.EmptyBaselineIsTopIff` | crates/choreo-adapters/src/scoring.rs:164-184 | valid proposals exist but none has a structural report: exactly when nobody passes any structural report and the one named has the least id |
| `Ranking.BaselineIsJudgeFreeWinner` | crates/choreo-adapters/src/scoring.rs:120-128 | the documented case, for every list order: the baseline is the judge-free winner |
| `Ranking.MetricIsRightIff` | crates/choreo-adapters/src/scoring.rs:120-150 | without a tie, in every case: the metric says whether the leader wins without the judge exactly when the baseline is the judge-free winner or the leader is neither of the two |
| `Ranking.AgreedIffJudgeFreeWinner` | crates/choreo-adapters/src/scoring.rs:120-150 | in the documented case it always does |
| `Ranking.FallbackIsTopIff` | crates/choreo-adapters/src/scoring.rs:167-175 | no proposal is valid: exactly when the one named, the smallest id, attains the best pass fraction |
| `JudgedChain.WiredHasReports` | crates/choreo/src/compose.rs:146-176 | a judged proposal's structural reports are the eight of the wired gates, and its score is the policy's |
| `JudgedChain.WiredMetricIsRightIff` | crates/choreo-adapters/src/scoring.rs:120-150 | on wired proposals without a tie: always right when one passes every gate; otherwise exactly when the smallest id attains the best pass fraction or the leader is neither it nor the judge-free winner |
| `JudgedChain.FallbackExample` | crates/choreo-adapters/src/scoring.rs:129-150 | wired proposals on which the metric reports agreement although the other one wins without the judge: non-JSON text the judge prefers, against an empty array |
| `JudgeReply.ProseDoesNotChangeTheReply` | crates/choreo-adapters/src/agents/judge.rs:263-279 | a prefix without `{` and a suffix without `}` change neither the score nor the verdict read |
| `JudgeReply.ReplyMeaning` | crates/choreo-adapters/src/agents/judge.rs:263-279 | a document is read exactly from the stretch between the first `{` and the last `}`, when that parses |
| `JudgeReply.ScoreMeaning` | crates/choreo-adapters/src/agents/judge.rs:280-286 | a score is read exactly when the document has a number under `score`: that number as a percentage, cut off at 0 and 1 |
| `JudgeReply.VerdictMeaning` | crates/choreo-adapters/src/agents/support_judge.rs:230-271 | a verdict is read exactly when `supported` is a boolean and `confidence` a number: it carries that boolean, that number rounded and cut off, and the string under `reason` or the empty text |
| `JudgeReply.RefusalSaysWhy` | crates/choreo-adapters/src/agents/judge.rs:263-286 | why a reply is refused: no braces, no document between them, or a missing field |
| `JudgeReply.ParsedScoreIsAFraction` | crates/choreo-adapters/src/agents/judge.rs:263-286 | every score read is a finite double in [0, 1] |
| `JudgeReply.MinusZeroIsRead` | crates/choreo-adapters/src/agents/judge.rs:280-286 | a reply that writes minus zero is read as minus zero |
| `JudgeReply.ParsedScoreIsThePercentage` | crates/choreo-adapters/src/agents/judge.rs:280-286 | within 0 to 100 the score times 100 is the raw number; beyond, the score is 0 or 1 |
| `JudgeReply.ParsedScoreIsMonotone` | crates/choreo-adapters/src/agents/judge.rs:280-286 | a higher raw score never yields a lower one |
| `JudgeReply.ReplyBecomesScore` | crates/choreo-adapters/src/scoring.rs:98-118 | the score read is, unchanged, the score the ranking uses: the scorer's clamp is the identity on it; the judge's own report passes exactly from the threshold on |
| `JudgeReply.NoJudgeMeansUniform` | crates/choreo-adapters/src/scoring.rs:98-118 | without a judge detail the judge-aware policy is the uniform one |
| `JudgeReply.ConfidenceIsRoundedPercentage` | crates/choreo-adapters/src/agents/support_judge.rs:258-260 | a verdict's confidence is the written number rounded half up, cut off at 0 and 100 |
| `OutputGates.AllowedViolations` | crates/choreo-adapters/src/validators.rs:193-261 | the loop over constrained fields: it reports nothing exactly when every present constrained field is an allowed string |
| `OutputGates.MissingMeaning` | crates/choreo-adapters/src/validators.rs:120-175 | the missing fields reported are exactly the required names the object lacks |
| `OutputGates.DisallowedMeaning` | crates/choreo-adapters/src/validators.rs:193-261 | the disallowed values reported are exactly those with which the object breaks a rule |
| `OutputGates.FieldGatesMean` | crates/choreo-adapters/src/validators.rs:120-261 | the required-field, allowed-value and schema gates together mean their predicate on the parsed object |
| `OutputGates.EvidenceGatesMean` | crates/choreo-adapters/src/validators.rs:698-782 | so do the grounding and support gates, given the judge's answers |
| `OutputGates.ShapeMeans` | crates/choreo-adapters/src/validators.rs:508-575 | the shape gate passes exactly when the trimmed text fits, parses, and every node is within budget |
| `OutputGates.ClaimsMeaning` | crates/choreo-adapters/src/validators.rs:732-745 | the claims are the array under the contract's claims field |
| `OutputGates.ChainOrder` | crates/choreo/src/compose.rs:146-173 | the eight reports come in the order of the wiring, each from its own validator |
| `OutputGates.FieldGateDetails` | crates/choreo-adapters/src/validators.rs:120-261 | failing field gates say what is wrong: no object, exactly the missing names, exactly the disallowed values |
| `OutputGates.GroundedGateDetails` | crates/choreo-adapters/src/validators.rs:698-782 | a failing grounding gate says so: no object, no claims under that field, or violations naming exactly the ungrounded claims |
| `OutputGates.SupportedGateDetails` | crates/choreo-adapters/src/validators.rs:951-1040 | the support gate says why it did not judge, at no call, or reports one verdict per call and violations naming exactly the rejected claims |
| `OutputGates.SchemaGateDetails` | crates/choreo-adapters/src/validators.rs:301-445 | a failing schema gate says whether the schema or the instance is at fault |
| `OutputGates.PassingGatesSayNothing` | crates/choreo/src/compose.rs:146-173 | only the support gate has anything to report on a pass |
| `OutputGates.ShapeGateDetails` | crates/choreo-adapters/src/validators.rs:508-575 | the shape gate reports the size first, then the parse error, then the first offending node |
| `OutputGates.ChainPassesIffConforms` | crates/choreo/src/compose.rs:146-173 | under a contract all eight gates pass exactly the conforming proposals |
| `OutputGates.FullScoreIffConforms` | crates/choreo-adapters/src/scoring.rs:41-51 | so the uniform score is 1 exactly on them |
| `OutputGates.UnparsableScores` | crates/choreo/src/compose.rs:146-173 | under any contract non-JSON content scores at most 1/2 and a non-object root at most 5/8 |
| `OutputGates.NoContractScore` | crates/choreo/src/compose.rs:146-173 | with no contract the score is 1, or 7/8 for blank content |
| `OutputGates.MissingJudgeIsHardError` | crates/choreo-adapters/src/validators.rs:951-959 | a contract that demands judgement without a judge fails the run, whatever the content |
| `OutputGates.NoGateWritesJudgeScore` | crates/choreo-adapters/src/scoring.rs:21-21 | no wired gate writes the judge detail |
| `OutputGates.ChainScore` | crates/choreo/src/compose.rs:174-176 | so without a judge the chain is scored by its pass fraction under either policy |
| `OutputGates.JudgedChainScore` | crates/choreo/src/compose.rs:174-176 | and with one appended the score is its reply's, whatever the gates found |
| `OutputGates.JudgeBudget` | crates/choreo-adapters/src/validators.rs:992-1005 | no proposal costs more than 64 judge calls, and a hard error is the answer to the last of them |
| `OutputGates.GroundedProposalIsJudgedInFull` | crates/choreo-adapters/src/validators.rs:927-1040 | gate composition: behind a passing grounding gate a completed support gate has judged every claim if and only if there are at most 64; every call shows exactly its claim's refs in order and no missing body is reported; above 64 there is no call and the gate fails |
| `OutputGates.GroundedButNotJudged` | crates/choreo-adapters/src/validators.rs:992-1005 | instances of the latter: more than 64 copies of a grounded claim |
| `OutputGates.FencesDoNotChangeVerdicts` | crates/choreo-adapters/src/validators.rs:1137-1170 | fenced and bare forms get the same report from every gate that parses the payload |
| `OutputGates.FencesCountTowardsSize` | crates/choreo-adapters/src/validators.rs:522-541 | the shape gate also measures the text: it passes the fenced form exactly when it passes the bare one and the fence fits the byte limit |
| `Protobuf.JsonRoundTrip` | crates/choreo-adapters/src/runtime.rs:859-897 | through protobuf and back only number representations change; shape, order, keys and other leaves are kept |
| `Protobuf.PbRoundTrip` | crates/choreo-adapters/src/runtime.rs:859-897 | the other direction is the identity if and only if kinds are set, nulls are 0 and numbers finite |
| `Protobuf.TranslationIsCanonical` | crates/choreo-adapters/src/runtime.rs:859-876 | translating JSON always gives such a value |
| `Protobuf.UnsayableIsNull` | crates/choreo-adapters/src/runtime.rs:878-897 | an unset kind and a number that is not finite both become null |
| `Protobuf.RoundTripIsIdempotent` | crates/choreo-adapters/src/runtime.rs:859-897 | normalising twice is normalising once |
| `RuntimeRequest.LayersAreOverrides` | crates/choreo-adapters/src/runtime.rs:851-857 | two layers read like the winner's attributes overridden key by key, null options included |
| `RuntimeRequest.OptionsAreNamed` | crates/choreo-adapters/src/runtime.rs:47-58 | which of the twelve `runtime.*` keys each raw option is looked up under, options before attributes |
| `RuntimeRequest.RequestReadsItsKeys` | crates/choreo-adapters/src/runtime.rs:490-505 | the text fields of a built request are those under their own literal keys in the overridden attributes; the correlation id defaults to the winner's id |
| `RuntimeRequest.RequestReadsItsOtherKeys` | crates/choreo-adapters/src/runtime.rs:498-511 | so are approval, arguments, expiry, paths and metadata, each under its literal key |
| `RuntimeRequest.BuiltIffWellFormed` | crates/choreo-adapters/src/runtime.rs:490-539 | a request is built exactly from options of the demanded shapes with a visible tool name |
| `RuntimeRequest.RefusalIsTheFirst` | crates/choreo-adapters/src/runtime.rs:490-511 | a refusal names the first option, in reading order, that is not of its shape |
| `RuntimeRequest.BuiltRequestReads` | crates/choreo-adapters/src/runtime.rs:490-539 | each field of a built request is what its own option says, or that option's default |
| `RuntimeRequest.BuiltCollectionsRead` | crates/choreo-adapters/src/runtime.rs:791-835 | so are the allowed paths, in order, and the supplied metadata, key by key |
| `RuntimeRequest.ProvenanceIsRecorded` | crates/choreo-adapters/src/runtime.rs:512-521 | provenance entries are always present and never overwrite supplied metadata |
| `RuntimeOutcome.OutcomeMeaning` | crates/choreo-adapters/src/runtime.rs:586-677 | exactly the terminal invocations with a non-negative duration become outcomes, and only the succeeded status succeeds; which error the others get |
| `RuntimeOutcome.FixedAttributes` | crates/choreo-adapters/src/runtime.rs:600-620 | the five attributes every outcome has: status name, session, tool, correlation and exit code of the invocation |
| `RuntimeOutcome.OptionalAttributes` | crates/choreo-adapters/src/runtime.rs:622-668 | output, references, error and artifacts are there exactly when the invocation has them, with its own values |
| `RuntimeOutcome.ResultArrives` | crates/choreo-adapters/src/runtime.rs:622-624 | a JSON result the runtime sent through protobuf arrives in the outcome with nothing but its numbers normalised |
| `RuntimeSession.RuntimeChannel.Execute` | crates/choreo-adapters/src/runtime.rs:414-470 | one call against any answers: its result and the requests it sent |
| `RuntimeSession.StatusErrors` | crates/choreo-adapters/src/runtime.rs:679-693 | which gRPC codes become which error |
| `RuntimeSession.EveryRunKeepsInv` | crates/choreo-adapters/src/runtime.rs:414-470 | in every interleaving each call has done exactly what its phase demands |
| `RuntimeSession.ReturnedCallsRanAlone` | crates/choreo-adapters/src/runtime.rs:414-470 | a returned call did, among all others, what it does alone |
| `RuntimeSession.OwnActionsDecide` | crates/choreo-adapters/src/runtime.rs:414-470 | in every interleaving a call is where the actions that reached it take it alone |
| `RuntimeSession.AnsweredCallsComplete` | crates/choreo-adapters/src/runtime.rs:414-470 | and one that was given its answers has returned with the result, and sent the requests, those answers make |
| `RuntimeSession.SuspendedCallsCanBeDropped` | crates/choreo-adapters/src/runtime.rs:414-470 | dropping a suspended call sends nothing |
| `RuntimeSession.FinishedCallsStay` | crates/choreo-adapters/src/runtime.rs:414-470 | whatever happens later, a returned or dropped call stays so and sends nothing more |
| `RuntimeSession.EventCensus` | crates/choreo-adapters/src/runtime.rs:414-470 | in every interleaving the log of all calls holds each event, about each session, exactly as often as there are calls that caused it |
| `RuntimeSession.SessionsAreConserved` | crates/choreo-adapters/src/runtime.rs:414-470 | for every run and session id: creations = close attempts + calls, live or cancelled, still holding it |
| `RuntimeSession.OpenSessionsAreHeld` | crates/choreo-adapters/src/runtime.rs:414-470 | call by call: its created session has no close attempt exactly while the call is between create and close, live or cancelled there |
| `RuntimeSession.UnclosedIffAllHeld` | crates/choreo-adapters/src/runtime.rs:449-453 | a session id is unclosed exactly as long as every call that was handed it still holds it |
| `RuntimeSession.ApartIdsProtectSupplied` | crates/choreo-adapters/src/runtime.rs:424-443 | in every run in which no create is answered with an id some caller supplies, no supplied session is closed by anyone |
| `RuntimeSession.SuppliedUntouchedIffIdsApart` | crates/choreo-adapters/src/runtime.rs:424-453 | and exactly then, once every call has returned |
| `RuntimeSession.SuppliedSessionClosedByAnother` | crates/choreo-adapters/src/runtime.rs:424-453 | a run in which a call answered with a supplied id closes it under the supplier's running invocation |
| `RuntimeSession.ReturnedCallsCloseTheirSession` | crates/choreo-adapters/src/runtime.rs:449-453 | a returned call that opened a session did create, one invoke and one close, whatever they answered |
| `RuntimeSession.CallDiscipline` | crates/choreo-adapters/src/runtime.rs:414-470 | by its own hand, a call with a malformed request sends nothing, one with a supplied session only invokes it, and one without creates, invokes once and closes once, in that order |
| `RuntimeSession.CancelledCallLeaks` | crates/choreo-adapters/src/runtime.rs:445-453 | a run in which a cancelled call leaves its session open |
| `ProviderCalls.Recorder.Complete` | crates/choreo-adapters/src/agents/openai.rs:207-306 | a completion call records, on every return path, what the specification lists |
| `ProviderCalls.CompletedCallAccounts` | crates/choreo-adapters/src/agents/anthropic.rs:204-300 | a call that runs to its end leaves the gauge where it was, is timed once, and pays one error exactly when it fails; tokens only on success |
| `ProviderCalls.StatusKinds` | crates/choreo-core/src/value_objects/llm_error_kind.rs:38-45 | the error kind recorded for every HTTP status |
| `ProviderCalls.AnswerMeaning` | crates/choreo-adapters/src/agents/openai.rs:207-306 | a call answers the text of a completed 2xx reply, with that reply's own token figures recorded, or the kind of the failure |
| `ProviderCalls.CallsEndWithTheirReply` | crates/choreo-adapters/src/agents/openai.rs:207-306 | in any world a call ends with just the reply it was given, and a live one can be dropped where it is |
| `ProviderCalls.MetersAreExact` | crates/choreo-adapters/src/agents/instrument.rs:21-46 | in every interleaving, cancellations included, and per provider: gauge = live guards, observations = ended calls, errors = failed calls, token reports = billed successes |
| `ProviderCalls.GaugeDrains` | crates/choreo-adapters/src/agents/instrument.rs:39-46 | with no call live the gauge is zero |
| `ProviderCalls.EveryCallIsAccounted` | crates/choreo-adapters/src/agents/openai.rs:207-306 | each call's records are exactly those its phase demands |
| `ProviderCalls.ReturnedCallsAreExact` | crates/choreo-adapters/src/agents/openai.rs:207-306 | a returned call recorded one error if Err, none if Ok, tokens only if Ok |
| `JudgeCalls.Rate` | crates/choreo-adapters/src/agents/judge.rs:129-214 | rating a proposal: a score exactly when the completion's text parses to it, and the records made on the way, the latency last |
| `JudgeCalls.Assess` | crates/choreo-adapters/src/agents/support_judge.rs:111-211 | assessing a claim: likewise with a verdict |
| `JudgeCalls.CallsReturnWithTheirReply` | crates/choreo-adapters/src/agents/judge.rs:137-214 | in any world a judge call returns with just the reply it was given and records what that reply demands |
| `JudgeCalls.SuccessWaitsForItsBody` | crates/choreo-adapters/src/agents/judge.rs:183-198 | a call answered with a success has recorded nothing until its body is read |
| `JudgeCalls.RatingAccounts` | crates/choreo-adapters/src/agents/judge.rs:137-214 | a returned rating is timed once, pays one error exactly when it fails, and reports tokens exactly when billed, usable or not |
| `JudgeCalls.PaidFailureExample` | crates/choreo-adapters/src/agents/judge.rs:198-213 | tokens and an error can both be charged to one failed rating |
| `JudgeCalls.JudgeMetersAreExact` | crates/choreo-adapters/src/agents/support_judge.rs:111-211 | the same for every model in every interleaving of both judges' calls, each with its own way of reading |
| `JudgeCalls.TimedIffAllReturned` | crates/choreo-adapters/src/agents/judge.rs:126-135 | latency observations match the calls made exactly when none is unanswered or cancelled |
| `JudgeCalls.CancelledRatingExample` | crates/choreo-adapters/src/agents/judge.rs:129-135 | a cancelled rating: one call, no observation |
| `Participants.ParticipantAttributes` | crates/choreo-adapters/src/ceremony/ceremony_participant_plan_adapter.rs:59-84 | the inserts: own entries win over the step's, everything else is kept |
| `Participants.ParticipantsFromStep` | crates/choreo-adapters/src/ceremony/ceremony_participant_plan_adapter.rs:32-57 | the participants of a step, one per index in order, or the first refusal, the checks on their attributes included |
| `Participants.StepReads` | crates/choreo-adapters/src/ceremony/ceremony_participant_plan_adapter.rs:36-44 | when a configuration is refused and with which error; otherwise the step has its specialty, kind and labels, and as many participants as labels, else the agent count, else one |
| `Participants.DescriptorsAreDescribed` | crates/choreo-adapters/src/ceremony/ceremony_participant_plan_adapter.rs:46-57 | field by field, each is the step's: id from specialty and index, kind, attributes, and the label at that index if there is one |
| `Participants.FromDefinition` | crates/choreo-adapters/src/ceremony/ceremony_participant_plan_adapter.rs:15-30 | the nested loops: the first refused step is the error, else the plan of the steps |
| `Participants.RefusedIff` | crates/choreo-core/src/value_objects/attributes.rs:24-40 | a definition is refused exactly when a step's configuration is malformed or its participants' bags would exceed 1024 keys or hold a blank one |
| `Participants.AgentIdIsInjective` | crates/choreo-adapters/src/ceremony/ceremony_participant_plan_adapter.rs:50-50 | `agent-{s}-{i}` determines s and i, dashes and digits notwithstanding |
| `Participants.AgentIdIsAccepted` | crates/choreo-adapters/src/ceremony/ceremony_participant_plan_adapter.rs:50-50 | the id check never fails on a valid specialty |
| `Participants.PlanGathers` | crates/choreo-adapters/src/ceremony/ceremony_participant_plan_adapter.rs:19-28 | per specialty the ids are 0 up to the largest count, nothing else; every field of each participant is that of the first step reaching it |
| `Participants.MaxCountMeaning` | crates/choreo-adapters/src/ceremony/ceremony_participant_plan_adapter.rs:40-44 | the bound is attained and no step exceeds it |
| `Participants.FirstReachingMeaning` | crates/choreo-adapters/src/ceremony/ceremony_participant_plan_adapter.rs:21-24 | the describing step reaches the index and no earlier one does |
| `Participants.PlanSize` | crates/choreo-adapters/src/ceremony/ceremony_participant_plan_adapter.rs:26-28 | the plan size is the sum of the per-specialty maxima |
| `Selector.AddScenarioToken` | crates/choreo-e2e-runner/src/scenario_selection.rs:112-186 | growing a set by one token adds what the token selects, or refuses |
| `Selector.AddRange` | crates/choreo-e2e-runner/src/scenario_selection.rs:162-172 | the loop over a range |
| `Selector.ParseScenarioSelection` | crates/choreo-e2e-runner/src/scenario_selection.rs:94-110 | the whole parser equals the union over its tokens, defaulting to the compose suite |
| `Selector.SeparatorIsUnion` | crates/choreo-e2e-runner/src/scenario_selection.rs:94-110 | two texts with a comma or white space between them parse exactly when both do, to the union |
| `Selector.DefaultIsCompose` | crates/choreo-e2e-runner/src/scenario_selection.rs:94-98 | nothing or blanks select scenarios 1 to 9 |
| `Selector.CaseDoesNotMatter` | crates/choreo-e2e-runner/src/scenario_selection.rs:113-113 | tokens equal up to the case of ASCII letters select the same |
| `Selector.NamesAreTokens` | crates/choreo-e2e-runner/src/scenario_selection.rs:112-160 | a name is a token for its group |
| `Selector.SuiteNames` | crates/choreo-e2e-runner/src/scenario_selection.rs:114-129 | which scenarios, by number, each suite name stands for |
| `Selector.CeremonyNames` | crates/choreo-e2e-runner/src/scenario_selection.rs:130-160 | likewise the ceremony names |
| `Selector.DebateNames` | crates/choreo-e2e-runner/src/scenario_selection.rs:130-160 | the stand-up and debate names |
| `Selector.MeetingNames` | crates/choreo-e2e-runner/src/scenario_selection.rs:130-160 | the planning and talk names |
| `Selector.OnlyTheTokenSetMatters` | crates/choreo-e2e-runner/src/scenario_selection.rs:94-110 | order, repetition and separators do not matter |
| `Selector.NumberToken` | crates/choreo-e2e-runner/src/scenario_selection.rs:174-208 | a printed number selects its scenario, or is refused when there is none |
| `Selector.PrefixedNumberToken` | crates/choreo-e2e-runner/src/scenario_selection.rs:174-181 | `s5` and `scenario-5` mean `5` |
| `Selector.RangeToken` | crates/choreo-e2e-runner/src/scenario_selection.rs:162-172 | a printed range selects what it spans and is refused unless all of it exists |
| `Selector.RangeIsUnionOfMembers` | crates/choreo-e2e-runner/src/scenario_selection.rs:162-172 | a range is the union of its members |
| `Selector.TokensSelectSomething` | crates/choreo-e2e-runner/src/scenario_selection.rs:112-186 | an accepted token never selects nothing, so the final emptiness check fires only without tokens |
| `Selector.SummaryRoundTrip` | crates/choreo-e2e-runner/src/scenario_selection.rs:210-216 | parsing the printed summary of a non-empty selection gives it back |
| `Selector.SummaryIsWritten` | crates/choreo-e2e-runner/src/scenario_selection.rs:210-216 | the summary lists the numbers of the selection in ascending order, separated by commas |
| `Labels.EscapeLabelValue` | crates/choreo/src/health.rs:263-274 | the loop computes the escaped value |
| `Labels.ReadRendered` | crates/choreo/src/health.rs:214-221 | a reader of the quoted label gets the value back and stops exactly at the closing quote, whatever follows |
| `Labels.RenderedIsOneLine` | crates/choreo/src/health.rs:263-274 | no raw newline survives |
| `Labels.EscapeIsInjective` | crates/choreo/src/health.rs:263-274 | distinct values render differently |
| `Seeding.AgentRegistry.Register` | crates/choreo-adapters/src/memory/agent_registry.rs:33-41 | registration that refuses a taken id |
| `Seeding.CouncilRegistry.Register` | crates/choreo-adapters/src/memory/council_registry.rs:40-47 | registration that refuses a taken specialty |
| `Seeding.ContractRegistry.Register` | crates/choreo-adapters/src/memory/contract_registry.rs:39-46 | registration that refuses a taken contract id |
| `Seeding.SeedIdentifiers` | crates/choreo/src/seeding.rs:78-87 | the agent of a label is `seed-{label}-0` and its council `seed-{label}`, of the trimmed label's specialty |
| `Seeding.LabelIsAcceptedIff` | crates/choreo/src/seeding.rs:78-79 | a label is accepted exactly when it is visible, has no control character, and it and the identifier made from it fit their limits |
| `Seeding.LabelRefusals` | crates/choreo/src/seeding.rs:78-79 | why a label is refused, the specialty being checked before the identifier |
| `Seeding.AcceptedAsItStands` | crates/choreo-core/src/value_objects/ids.rs:16-32 | a text is accepted as it stands exactly when it needs no trimming, fits and has no control character |
| `Seeding.ApplySeeding` | crates/choreo/src/seeding.rs:71-95 | the loop over the labels, with a store that may fail on any registration: result and both registries equal the specification |
| `Seeding.SeedingIsSafe` | crates/choreo/src/seeding.rs:77-94 | nothing is overwritten and every new council's agent is registered, also when the run stops half way |
| `Seeding.FirstLabelWins` | crates/choreo/src/seeding.rs:77-94 | each council a run adds is the one its specialty's first label asks for, with that label's agent and time |
| `Seeding.EveryLabelIsSeeded` | crates/choreo/src/seeding.rs:77-94 | a successful run leaves every label's agent and council registered |
| `Seeding.RefusalLeavesNoTrace` | crates/choreo/src/seeding.rs:77-94 | a run succeeds exactly when every label is accepted and no store fails; otherwise it has seeded exactly the labels before the one it stopped at, plus that one's agent if its council store failed |
| `Seeding.RerunIsNoOp` | crates/choreo/src/seeding.rs:71-95 | on any later state a rerun of a run no store failed changes nothing and answers the same |
| `Seeding.StorageFailsIff` | crates/choreo/src/seeding.rs:77-94 | a run fails on its storage exactly when an accepted label is met by a fault before any label is refused |
| `Seeding.SeedingIsIdempotent` | crates/choreo/src/seeding.rs:71-95 | an undisturbed second run changes nothing and answers the same exactly when the first met no such fault |
| `Seeding.CalmSeedingIsIdempotent` | crates/choreo/src/seeding.rs:71-95 | in particular whenever the stores do not fail |
| `Seeding.InterruptedRunExample` | crates/choreo/src/seeding.rs:80-93 | a run whose council store fails leaves an agent without a council, which the second run adds |
| `Seeding.RestartRecovers` | crates/choreo/src/seeding.rs:77-94 | and after any store failure it answers what an undisturbed first run would have, with the same agents and council specialties, overwriting nothing |
| `Seeding.ApplyContractSeeding` | crates/choreo/src/seeding.rs:118-174 | a missing directory seeds nothing, an unreadable one is an error, a listed one is seeded as specified |
| `Seeding.RegisterAllMeaning` | crates/choreo/src/seeding.rs:146-172 | first file wins and never over what is registered |
| `Seeding.SeedContractsMeaning` | crates/choreo/src/seeding.rs:132-172 | in terms of the directory: of the readable `.json` files offering an id, the one whose name comes first is registered, unless the id was taken |
| `Seeding.ListingOrderIsIrrelevant` | crates/choreo/src/seeding.rs:132-140 | the same registry for every order of the directory listing |
| `Seeding.ContractSeedingIsIdempotent` | crates/choreo/src/seeding.rs:118-174 | a second seeding, in any listing order, changes nothing |

## Left out

- HTTP, gRPC, NATS, Postgres, TLS loading, environment reading and server lifecycle: only their outcomes appear, as inputs.
- JSON text parsing and printing, JSON Schema compilation and its violation list, URL parsing: foreign libraries; the schema gate keeps only whether the instance conforms.
- Floating-point rounding: finite doubles are reals with a signed zero, and integer-to-double conversion is an arbitrary function, so printing and parsing of doubles are not modelled.
- Human-readable summaries and the JSON layout of report details: details are typed records, one constructor per validator.
- JSON objects and protobuf structs are field lists in iteration order; that their keys are distinct and sorted is not needed by any proof.
- RuntimeRequest.BuiltIffWellFormed: the request's principal, a copied constant, and the two protobuf request messages built from a request are not modelled; the metadata map is filled on values, not in place.
- RuntimeSession.RuntimeChannel.Execute: the outcome's attribute map is filled on values, not in place, and its names are an enumeration rather than `runtime.*` strings; with at most ten of them the 1024-key limit cannot be met.
- ProviderCalls.Recorder.Complete: `extract_text` and the operation label are inputs; `classify_error` is reduced to the error kind that is recorded.
- JudgeCalls.Rate: the score histogram recorded by `validate` after a rating and the prompt text are not modelled.
- Participants.FromDefinition: configuration errors are reduced to the offending field and the final list of descriptors to the map it lists; a descriptor keeps its attribute bag as the step's attributes and the entries inserted over them.
- Selector.ParseScenarioSelection: refusals carry no message.
- Seeding.ApplySeeding: a failing registration is taken to change nothing, and the splitting of the environment variable is not modelled.
- Seeding.ApplyContractSeeding: file names are Unicode text, and registration can only fail because the id is taken, as with the in-memory registry that is wired.
- The ceremony and deliberation state machines, journals, publication stores and the MCP surface: other components, apart from the ranking order.
