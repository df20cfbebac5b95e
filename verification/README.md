# Verification model of the OpenARDP evidence scripts

This project models the parts of the OpenARDP scripts that decide something: which evidence records are valid and
what their identifiers bind, which packages are complete, which benchmark observations and summaries are accepted,
which verdicts follow from them, and what a staged publication can leave behind. For each part it states what the
script promises and proves it for every input, run or reachable state of the model.

How it is laid out, one group of modules for each script:

- `Unicode`, `CanonicalJson`, `OrderedJson`, `PythonValues`: strings as code points, strict UTF-8, the canonical JSON
  printer and the parser that rejects duplicate members, a recursive descent over code points. `OrderedJson` prints
  dicts in insertion order after sorting each of them; `PythonValues` is Python's `==`, truth and `int()` on JSON
  values.
- `Jcs`: which values `canonical_sha256` accepts, and which of them it tells apart.
- `Evidence`, `EvidenceSets`, `EvidenceCoherence`, `EvidenceProducer`, `TextSources`, `TextLengths`, `ConfinedReader`:
  the evidence contract of `alternate_evidence_process.py`, its second producer and its budgeted reader. Python's
  `True == 1` is kept apart from typed equality.
- `Manifests`, `InterchangePackage`, `PackageValidity`: the package validator.
- `ReviewBudget`, `ReviewFitness`, `ReviewScore`, `ReviewPipeline`, `ReviewRepeats`, `ReviewSummary`: the budgeted
  review, by the benchmark and by its independent validator.
- `Statistics`, `TimingSummary`, `Rounding`, `ValueDecision`: order statistics, the bootstrap summary, half-even
  rounding, the CI cost model and the product value decision.
- `HoldoutRows`, `HoldoutSupport`, `ObservationProducer`, `ObservationRows`, `ObservationIdentity`, `HoldoutMetrics`,
  `Readiness`: what each fact of an observation means, the script that writes rows, the other script that accepts
  them with its own derivation, what an accepted identifier binds, exact metrics and verdicts.
- `HoldoutUpstream`, `HoldoutSet`, `HoldoutGeneration`, `HoldoutValidity`, `HoldoutGenerator`: generation of the
  retrieval holdout and its validation.
- `CorpusTree`, `StagedPublication`, `PublishedTree`, `Reproduction`: the corpus verifier, staged reproduction as a
  step machine with an exception possible at every step, and the writer whose calls are runs of that machine.

Conventions. Python exceptions are `Result` values with the script's failure category. Hashes, Unicode tables, the
CSV dialect, ZIP decoding and unseen models are parameters, so every theorem holds for all of them. Where a theorem
needs a hash without collisions it asks for that on the finite set of preimages in front of it (`CollisionFree`,
`NoCollision`), never in general. Methods with loops or state are proved against specification functions, and the
lemmas are about those functions. A method that decides acceptance states an if-and-only-if.

Where the code and a reader's expectation part ways, the code is kept and a lemma says so:

- A text source that starts with a line break is produced, then refused by the validators
  (`TextSources.LineFeedIsProducedThenRefused`; the exact condition is in `EvidenceProducer.ProducedRecordsConform`).
- A source whose `sha256` is null is produced from whatever its bytes are (`ConfinedReader.NullDigestIsProduced`).
  Every produced payload has its declared digest exactly when no source leaves its digest null
  (`ConfinedReader.VerifiedIffNoNullDigest`).
- The summed source-fitness score of a review can fall when the budget grows (`ReviewScore.SummedScoreCanDrop`); the
  ratio kept for each source cannot. `ReviewScore.ScoreDropsExactly` says which next item makes it fall, and
  `ReviewScore.CommonMaximumNeverDrops` that under one common maximum none does.
- An accepted observation row may write a fact as anything that Python calls equal, under an identifier that depends
  only on canonical bytes. Writing 2.0 for 2 changes nothing but the type, and even the identifier stays
  (`ObservationIdentity.FloatForIntegerIsAccepted`); writing 1 for true needs another identifier
  (`ObservationIdentity.OneForTrueIsAccepted`). Without a collision, identifiers are equal exactly when the inputs are
  the same and no fact is a Boolean in one row and a number in the other (`ObservationIdentity.AcceptedRowsAgree`).
- Accepted holdout rows may cover atoms that are not the question's. Atom recall can then exceed one
  (`HoldoutMetrics.AcceptedRecallCanExceedOne`; exactly when, `HoldoutMetrics.RecallAtMostOne` and
  `HoldoutMetrics.OneRowRecall`), and a row can claim full support while an atom is missing
  (`HoldoutMetrics.ForgedFullSupport`; exactly when not, `HoldoutMetrics.FullSupportIsGenuine`).
- Code-point order of keys is not the UTF-16 code-unit order that section 3.2.3 of RFC 8785 asks for: two keys are
  ordered differently exactly when their first differing code points are one in U+E000..U+FFFF and one at or above
  U+10000 (`Unicode.OrdersAgreeUnlessStraddling`; an object so printed is in `CanonicalJson.MisorderedObject`).
- A manifest read back need not be the canonical rendering: a carriage return at the end of a line is dropped
  (`Manifests.ManifestIsCanonicalIffNoCr`).
- A search latency that was not measured passes the value decision (`ValueDecision.UnmeasuredSearchPasses`).
- Two checks never reject: the pattern check after slugging (`HoldoutSet.SlugFailsOnlyWhenEmpty`) and the comparison
  of results after a stage has verified (`PublishedTree.MismatchNeverHappens`).

## Model

| member | source | states |
|---|---|---|
| Unicode.EncodeOfDecode | scripts/alternate_evidence_process.py:110-128 | strict UTF-8 decoding accepts only the encoding of the text it returns |
| Unicode.OrdersAgreeUnlessStraddling | scripts/alternate_evidence_process.py:75-88 | the code-point order of two keys is the UTF-16 order of section 3.2.3 of RFC 8785 exactly when their first differing code points are not one in U+E000..U+FFFF and one at or above U+10000 |
| CanonicalJson.CanonicalBytesTotal | scripts/alternate_evidence_process.py:48-88 | canonical bytes exist exactly for values that the safety check accepts |
| CanonicalJson.LoadOfCanonical | scripts/alternate_evidence_process.py:75-128 | loading the canonical bytes of a safe value returns that value |
| CanonicalJson.CanonicalInjective | scripts/alternate_evidence_process.py:75-88 | two safe values with the same canonical bytes are equal |
| OrderedJson.PrintIsCanonical | scripts/alternate_evidence_process.py:48-88 | printing a value whose dicts keep an insertion order, each sorted as it is printed, yields the canonical text of the value without its orders, at every depth |
| OrderedJson.PrintIgnoresInsertionOrder | scripts/alternate_evidence_process.py:75-88 | two orderings of one value print the same text |
| CanonicalJson.KeysEmittedInOrder | scripts/alternate_evidence_process.py:75-88 | scanning the text of an object meets exactly its members, keys strictly increasing by code point, and by UTF-16 unit exactly when no two keys straddle U+E000..U+FFFF and U+10000 |
| CanonicalJson.MisorderedObject | scripts/alternate_evidence_process.py:75-88 | the canonical bytes of a concrete object with two keys are not in the order of section 3.2.3 of RFC 8785 |
| CanonicalJson.ParseRendered | scripts/alternate_evidence_process.py:75-128 | a rendered value followed by any delimiter parses to that value and leaves the rest, at every nesting depth |
| EvidenceSets.KeepFirst | scripts/alternate_evidence_process.py:636-669 | a dict filled by `setdefault` keeps the first record under each identifier |
| EvidenceSets.CheckReferences | scripts/alternate_evidence_process.py:636-656 | accepts exactly the references in the native record's scope without identifier collisions, under Python equality |
| EvidenceSets.CheckProjections | scripts/alternate_evidence_process.py:644-669 | accepts exactly the projections in scope, embedding a listed reference, without collisions |
| EvidenceSets.CheckRecordSet | scripts/alternate_evidence_process.py:624-670 | accepts exactly the coherent record sets |
| EvidenceCoherence.EqualIdsBind | scripts/alternate_evidence_process.py:99-107 | with no collision among the hashed preimages, equal identifiers force equal domains and equal payloads |
| EvidenceCoherence.NativeIdentified | scripts/alternate_evidence_process.py:278-296 | an accepted native record carries the hash of its domain-tagged allowlisted fields |
| EvidenceCoherence.ReferenceIdentified | scripts/alternate_evidence_process.py:297-307 | an accepted reference carries the hash of its domain-tagged allowlisted fields |
| EvidenceCoherence.ProjectionIdentified | scripts/alternate_evidence_process.py:308-332 | an accepted projection, and the reference it embeds, carry the hashes of their domain-tagged allowlisted fields |
| EvidenceCoherence.AcceptedSetHasOneScope | scripts/alternate_evidence_process.py:624-670 | every record of an accepted set, embedded references included, shares the native record's source and native identifiers |
| EvidenceCoherence.EmbeddedReferenceIsListed | scripts/alternate_evidence_process.py:656-670 | the reference embedded in a projection agrees with a listed one on identifier, source, native and anchor |
| EvidenceCoherence.EqualIdsForceEqualFields | scripts/alternate_evidence_process.py:278-330 | records of one kind with equal identifiers have equal allowlisted fields |
| EvidenceCoherence.DomainsNeverCoincide | scripts/alternate_evidence_process.py:99-107 | identifiers of native records, references and projections never coincide |
| EvidenceProducer.TextSpanConforms | scripts/alternate_evidence_process.py:226-277 | a text span is valid exactly when it is not empty, within its text and within the integer bound |
| EvidenceProducer.NativeConforms | scripts/alternate_evidence_process.py:333-363 | a produced native record passes its validator exactly when its artifact length is a safe integer |
| EvidenceProducer.ReferenceConforms | scripts/alternate_evidence_process.py:364-387 | a produced reference passes its validator exactly when its anchor is valid |
| EvidenceProducer.ProjectionConforms | scripts/alternate_evidence_process.py:428-486 | a produced projection passes its validator exactly when its reference does and its payload length is a safe integer |
| EvidenceProducer.AnchorsConform | scripts/alternate_evidence_process.py:796-900 | the anchors of a reading are all valid exactly when a text source does not start with a line break |
| EvidenceProducer.ProducedRecordsConform | scripts/alternate_evidence_process.py:729-942 | a produced set passes every validator exactly when its source does not start with a line break and its artifact lengths are safe integers |
| EvidenceProducer.ProducedSetIsCoherent | scripts/alternate_evidence_process.py:780-942 | what is produced has one scope, lists every embedded reference and has no identifier collision |
| EvidenceProducer.ProducedSetIsAccepted | scripts/alternate_evidence_process.py:624-942 | when that condition holds and no hashed preimages collide, produced records pass the validators and the record-set checks together |
| TextSources.TextIsProduced | scripts/alternate_evidence_process.py:780-942 | a plain-text source is produced exactly when it is strict UTF-8, not empty and without carriage returns |
| TextSources.LineFeedIsProducedThenRefused | scripts/alternate_evidence_process.py:780-850 | the source of one line feed is produced, and the validators refuse the result |
| TextLengths.TextConforms | scripts/alternate_evidence_process.py:729-942 | a text source of at most some ninety terabytes, once produced, passes every validator exactly when it does not start with a line break |
| ConfinedReader.EveryRunKeepsBudget | scripts/alternate_evidence_process.py:488-555 | over every sequence of reads, files and total stay within their limits, each counted payload within the file limit, and the total is the sum of the counted payloads |
| ConfinedReader.ReturnedMeansCounted | scripts/alternate_evidence_process.py:507-555 | a returned payload was counted and has the expected digest if one was given; a counted payload that is not returned failed on its digest |
| ConfinedReader.BudgetOnlyShrinks | scripts/alternate_evidence_process.py:507-555 | later reads never give budget back |
| ConfinedReader.Reader.Read | scripts/alternate_evidence_process.py:507-555 | the stateful reader moves exactly as the specification of a run, error category included |
| ConfinedReader.ProduceSource | scripts/alternate_evidence_process.py:945-988 | a source is produced exactly when the reader returns its bytes, with the declared digest or with none declared, and they can be produced; what is produced is then made from those counted bytes |
| ConfinedReader.Produce | scripts/alternate_evidence_process.py:945-988 | succeeds exactly when every source can be produced under a key of its own and together they fit the budget that is left; then the result maps each key to what its source makes, and each source costs its file and its bytes |
| ConfinedReader.NullDigestIsProduced | scripts/alternate_evidence_process.py:507-988 | a readable text whose source declares null as its digest is produced, whatever its bytes are |
| ConfinedReader.VerifiedIffNoNullDigest | scripts/alternate_evidence_process.py:507-988 | every produced payload has its declared digest exactly when no source declares null |
| Manifests.ReadManifest | scripts/validate_interchange_package.py:294-312 | accepts exactly ASCII manifests of well-formed lines in strictly increasing path order, and returns their entries |
| Manifests.ManifestIsCanonicalIffNoCr | scripts/validate_interchange_package.py:294-312 | an accepted manifest renders back to its bytes exactly when it has no carriage return |
| InterchangePackage.ValidateInfos | scripts/validate_interchange_package.py:146-195 | accepts exactly sorted, unencrypted, safe, folded-distinct names within the entry, expansion and ratio limits |
| InterchangePackage.CheckTagDigests | scripts/validate_interchange_package.py:198-230 | accepts exactly when every listed tag has the listed digest |
| InterchangePackage.ValidateTags | scripts/validate_interchange_package.py:198-230 | accepts exactly the bag tags that a record of this package demands |
| InterchangePackage.VerifyMember | scripts/validate_interchange_package.py:232-275 | accepts a member exactly when it is a tag or the payload of an expected asset with the asset's length and digest |
| InterchangePackage.VerifyMembers | scripts/validate_interchange_package.py:232-275 | accepts exactly when all members are acceptable and payloads are those expected, and returns the payload byte count |
| PackageValidity.HashArchive | scripts/validate_interchange_package.py:324-351 | the loop over chunks hashes exactly a regular, unchanged file within the archive limit |
| PackageValidity.Validate | scripts/validate_interchange_package.py:83-119 | accepts exactly the packages that the passes describe together and that hash alike before and after, and reports their facts |
| PackageValidity.AcceptedIsComplete | scripts/validate_interchange_package.py:83-275 | members are exactly the five tags and the payload paths of the included assets, each once (section 3 of RFC 8493) |
| PackageValidity.AcceptedPayloadIsExact | scripts/validate_interchange_package.py:232-275 | every payload member has the length and digest of an included asset with its path |
| PackageValidity.AcceptedPayloadManifest | scripts/validate_interchange_package.py:198-321 | the payload manifest lists exactly the payload members with the digests of their bytes |
| PackageValidity.AcceptedTagManifest | scripts/validate_interchange_package.py:198-230 | the tag manifest lists exactly the other tag files with the digests of their bytes |
| PackageValidity.AcceptedOxum | scripts/validate_interchange_package.py:232-321 | the Payload-Oxum counts of section 2.2.2 of RFC 8493 are those of the payload members, and the octet count is the one reported |
| PackageValidity.AcceptedWithinLimits | scripts/validate_interchange_package.py:83-351 | every limit holds of what the archive and its members really are: archive bytes, entries, bytes of each and of all, metadata, paths and relationships; and no two names collide after case folding |
| ReviewBudget.EvaluateObservation | scripts/downstream_utility_benchmark.py:138-228 | the benchmark's loop computes the specified row or fails with the specified category |
| ReviewBudget.EvaluateIndependently | scripts/validate_downstream_utility_benchmark.py:132-219 | the validator's loop computes the specified evaluation with any count that equals the right integer, such as True or 2.0, and differs from the benchmark on nothing else |
| ReviewBudget.BenchmarkRowsAreReproduced | scripts/validate_downstream_utility_benchmark.py:132-219 | an observation is accepted by the benchmark exactly when it is accepted with its count read loosely and that count is an integer, and then the row is the same |
| ReviewBudget.CompletionIsLeastCover | scripts/downstream_utility_benchmark.py:170-205 | the latch is set exactly when some prefix covers, and then holds the least covering prefix length |
| ReviewBudget.BudgetCurve | scripts/downstream_utility_benchmark.py:138-228 | acceptance passes to every smaller positive budget; trusted counts and completion never fall with the budget; the completion rank is stable |
| ReviewBudget.CompletionMeansTrusted | scripts/downstream_utility_benchmark.py:196-228 | an answerable row is complete exactly when both trusted counts reach what is required |
| ReviewFitness.KeptPairIsEarliestBest | scripts/downstream_utility_benchmark.py:185-195 | the pair kept for a source is the earliest of maximal ratio among its relevant cited items with a positive maximum, or zero over zero |
| ReviewFitness.KeptRatioIgnoresOrder | scripts/downstream_utility_benchmark.py:185-195 | the kept ratio does not depend on the order of the items |
| ReviewFitness.KeptRatioGrowsWithBudget | scripts/downstream_utility_benchmark.py:185-195 | the kept ratio never falls when the budget grows |
| ReviewScore.KeepDrops | scripts/downstream_utility_benchmark.py:185-195 | keeping one more pair lowers the sum of scores exactly when it replaces a pair of larger score |
| ReviewScore.ScoreDropsExactly | scripts/downstream_utility_benchmark.py:138-228 | the summed score at one more item is smaller exactly when that item is there, is cited, and beats the pair kept for its source on ratio with a smaller score |
| ReviewScore.CommonMaximumNeverDrops | scripts/downstream_utility_benchmark.py:138-228 | with one common positive maximum the summed score never falls when the budget grows |
| ReviewScore.SummedScoreCanDrop | scripts/downstream_utility_benchmark.py:185-228 | the summed score of a concrete observation is five under one item and one under two |
| ReviewPipeline.CoverageAgrees | scripts/validate_downstream_utility_benchmark.py:280-322 | the benchmark's coverage check accepts exactly the rows that the validator's does, if each suite has a group |
| ReviewPipeline.LoadersAgree | scripts/validate_downstream_utility_benchmark.py:222-322 | the benchmark's loader accepts exactly the inputs that the validator's does, if each suite has a group, and yields the same rows |
| ReviewPipeline.ReviewAllAgrees | scripts/validate_downstream_utility_benchmark.py:325-348 | both paths review the same rows into the same result |
| ReviewPipeline.GatheringsAgree | scripts/downstream_utility_benchmark.py:458-472 | gathering a run budget by budget or in one pass meets the same rows the same number of times exactly when the budget of each of its rows occurs once |
| ReviewPipeline.ReviewRowsDistinct | scripts/downstream_utility_benchmark.py:359-384 | review rows have distinct keys and budgets of the protocol |
| ReviewRepeats.SameProjectionIff | scripts/validate_downstream_utility_benchmark.py:415-420 | two runs have the same timing-free projection exactly when they hold the same rows, each equally often, apart from run and wall time |
| ReviewRepeats.ProjectionsAgree | scripts/validate_downstream_utility_benchmark.py:415-420 | the timing-free projections of both gatherings are equal exactly when the budget of each row of the run occurs once |
| ReviewRepeats.GatheringsDecideAlike | scripts/validate_downstream_utility_benchmark.py:415-420 | two runs look the same gathered budget by budget exactly when they do gathered in one pass, for every list of budgets, repeated ones included |
| ReviewSummary.SummariesAgree | scripts/validate_downstream_utility_benchmark.py:445-551 | both summaries of the same rows are equal for every list of budgets; with repeated budgets, if the projections compared do not collide |
| ReviewSummary.PathsAgree | scripts/validate_downstream_utility_benchmark.py:132-574 | whatever inputs the benchmark accepts, the validator accepts, with the same review rows, summary and decision, for every list of positive budgets; with repeated ones, if the hashed projections compared do not collide |
| ReviewSummary.MetricsAreFractions | scripts/downstream_utility_benchmark.py:138-449 | every metric of rows that the evaluation returned is a fraction between zero and one |
| Statistics.SortIgnoresOrder | scripts/product_benchmark_evaluation.py:45-75 | a stable sort without ties depends on the elements only |
| Statistics.NearestRankIsOrderStatistic | scripts/product_benchmark_evaluation.py:28-34 | at least the given fraction of the values lies at or below the nearest rank, and less than it strictly below |
| Statistics.NearestRankIsMonotone | scripts/product_benchmark_evaluation.py:28-34 | a higher percentile of the same values is never lower |
| Statistics.NearestRankIgnoresOrder | scripts/retrieval_holdout_evaluation.py:83-88 | a nearest rank does not depend on the order of the values |
| TimingSummary.CheckGroup | scripts/product_benchmark_evaluation.py:45-75 | accepts exactly homogeneous timing groups with distinct repetitions |
| TimingSummary.RunBootstrap | scripts/product_benchmark_evaluation.py:76-100 | the bootstrap loop appends the integer median of each resample |
| TimingSummary.SummarizeTiming | scripts/product_benchmark_evaluation.py:45-128 | accepts exactly homogeneous groups and returns the specified summary |
| TimingSummary.SummaryIgnoresOrder | scripts/product_benchmark_evaluation.py:45-128 | neither acceptance nor the summary depends on the order of the observations |
| TimingSummary.MedianAtMostP95 | scripts/product_benchmark_evaluation.py:28-43 | the integer median never exceeds the nearest-rank 95th percentile |
| TimingSummary.SummaryIsWithinSample | scripts/product_benchmark_evaluation.py:45-128 | for every way of resampling, p50 is at most p95, the confidence bounds are in order and all lie within the sample range |
| Rounding.RoundingIsMonotone | scripts/retrieval_holdout_evaluation.py:28-38 | a larger fraction never rounds to less |
| Rounding.RoundingIsUnique | scripts/retrieval_holdout_evaluation.py:28-38 | within half a quantum and even on ties determines the rounded value |
| Rounding.DoubleRoundingIsHarmless | scripts/retrieval_holdout_evaluation.py:28-38 | rounding to the context precision and then to six digits is rounding once |
| Rounding.RatioIsMonotone | scripts/retrieval_holdout_evaluation.py:28-38 | a larger fraction never has a smaller six-digit text, with the context precision in between |
| Rounding.FullRatioMeansOne | scripts/retrieval_holdout_evaluation.py:306-309 | below a denominator of two million the six-digit text is that of one exactly for the fraction one |
| Rounding.FullRatioBoundIsTight | scripts/retrieval_holdout_evaluation.py:306-309 | at a denominator of two million the text of a smaller fraction is already that of one |
| Rounding.EstimateIsOrdered | scripts/audit_ci.py:441-469 | the cost estimate always has low at most high at most gross |
| ValueDecision.HardChecks | scripts/product_benchmark_evaluation.py:167-244 | all eight hard checks pass exactly when the hard thresholds hold, and only then is there no hard reason |
| ValueDecision.FormatCheck | scripts/product_benchmark_evaluation.py:246-264 | the rich-format check passes exactly when no required format is missing, and each missing one is a reason |
| ValueDecision.ConditionalChecks | scripts/product_benchmark_evaluation.py:246-343 | the conditional checks pass exactly when the conditional thresholds hold |
| ValueDecision.DecideValue | scripts/product_benchmark_evaluation.py:159-378 | the outcome is the one the thresholds define, every check passes exactly for the unconditional outcome, and reasons are given exactly otherwise |
| ValueDecision.OutcomesAreMonotone | scripts/product_benchmark_evaluation.py:159-378 | if no metric is worse, the outcome is no lower |
| ValueDecision.UnmeasuredSearchPasses | scripts/product_benchmark_evaluation.py:280-293 | measuring the search latency changes the outcome exactly when all else holds and the target is missed |
| HoldoutRows.MakeFacts | scripts/semantic_e2e_benchmark.py:240-291 | the loops of the producer compute facts that hold: sorted unions with exactly the covered atoms and sources, the least relevant rank, the sums and full support |
| HoldoutRows.FactsAreDetermined | scripts/semantic_e2e_benchmark.py:240-291 | at most one list of facts holds of a question, an outcome and selected items |
| ObservationRows.FactsOfHold | scripts/retrieval_holdout_evaluation.py:167-215 | the validator's own derivation yields facts that hold |
| ObservationRows.DescribedByDerivation | scripts/retrieval_holdout_evaluation.py:167-217 | a row states facts that hold exactly when each of its values equals the validator's derived one, as Python compares |
| ObservationRows.ReadSelected | scripts/retrieval_holdout_evaluation.py:144-180 | accepts exactly lists of readable items with the ten keys, in order |
| ObservationRows.CheckFacts | scripts/retrieval_holdout_evaluation.py:167-217 | accepts exactly rows whose values describe their own items |
| ObservationRows.CheckRow | scripts/retrieval_holdout_evaluation.py:139-235 | accepts exactly rows with closed keys, readable items, facts that hold, and identity, times and audit in order |
| ObservationRows.ValidateRows | scripts/retrieval_holdout_evaluation.py:121-237 | accepts exactly complete coverage in question-by-treatment order of acceptable rows |
| ObservationProducer.MakeObservation | scripts/semantic_e2e_benchmark.py:240-291 | returns a row that states facts that hold under the identity of what it states, or raises because that has no canonical bytes |
| ObservationProducer.WrittenRowFits | scripts/retrieval_holdout_evaluation.py:121-237 | a row written from consecutively ordered items, with an audit attached, is acceptable to the other script |
| ObservationProducer.ObserveAll | scripts/semantic_e2e_benchmark.py:192-291 | a run succeeds exactly when every row that it would write has canonical bytes; then each row shows what its query selected, and the other script accepts them all |
| Jcs.EqualScalarsHashAlike | src/openardp/domain/identity.py:37-52 | two hashable scalars that Python calls equal have the same canonical bytes exactly when both are Booleans or neither is |
| ObservationIdentity.AcceptedRowsAgree | scripts/retrieval_holdout_evaluation.py:111-237 | accepted rows of one question: the same inputs give Python-equal facts; without a collision, identifiers are equal exactly when the inputs are the same and no fact is a Boolean in one row and a number in the other |
| ObservationIdentity.FloatForIntegerIsAccepted | scripts/retrieval_holdout_evaluation.py:206-232 | any integer fact of an accepted row may be written as the equal float: the row is accepted under the very same identifier |
| ObservationIdentity.RewrittenIsAccepted | scripts/retrieval_holdout_evaluation.py:206-232 | whatever Python calls equal may stand in place of a fact: under its own identifier the row is accepted as well |
| ObservationIdentity.OneForTrueIsAccepted | scripts/retrieval_holdout_evaluation.py:206-232 | wherever an accepted row says true of a fact, a row with equal inputs that says 1 is accepted under an identifier of its own |
| ObservationIdentity.EmptyRowIsAnAbstention | scripts/semantic_e2e_benchmark.py:240-291 | every question and treatment that can be encoded have such a row: that of a run which selects nothing |
| HoldoutSupport.CoverageIsBounded | scripts/semantic_e2e_benchmark.py:215-262 | selected evidence covers no more atoms or sources than the question asks for |
| HoldoutSupport.FullSupportMeansEveryAtomIsShown | scripts/semantic_e2e_benchmark.py:115-291 | for a question that meets the contract, full support holds exactly when the run passed, the question is answerable and every atom occurs in a selected body of its own source |
| HoldoutSupport.MoreEvidenceKeepsSupport | scripts/semantic_e2e_benchmark.py:240-291 | selecting more evidence never loses full support |
| HoldoutMetrics.AcceptedRowReads | scripts/retrieval_holdout_evaluation.py:41-80 | the metrics read from an accepted row what its facts are, however it writes them |
| HoldoutMetrics.MetricsAreFractions | scripts/retrieval_holdout_evaluation.py:41-80 | every metric lies in [0, 1] over accepted rows whose items cover no atoms but their question's |
| HoldoutMetrics.ObservedMetricsAreFractions | scripts/retrieval_holdout_evaluation.py:41-80 | over the rows that a run writes, with the facts that the validator derives for them, every metric lies in [0, 1] |
| HoldoutMetrics.RecallAtMostOne | scripts/retrieval_holdout_evaluation.py:41-80 | over accepted rows of questions with distinct atoms, atom recall is at most one exactly when the answerable rows cover at most as many foreign identifiers as they miss atoms, or no atom is asked for |
| HoldoutMetrics.OneRowRecall | scripts/retrieval_holdout_evaluation.py:41-80 | the atom recall of one answerable row is at most one exactly when its distinct covered identifiers number at most its atoms |
| HoldoutMetrics.PerfectRankMeansFirst | scripts/retrieval_holdout_evaluation.py:41-80 | with an answerable row, MRR is one exactly when every answerable row ranks a relevant item first |
| HoldoutMetrics.FullSupportMeansFullRecall | scripts/retrieval_holdout_evaluation.py:41-80 | full support of every answerable row makes atom and source recall one |
| HoldoutMetrics.CitationTextIsExact | scripts/retrieval_holdout_evaluation.py:300-310 | the rounded citation check holds exactly when every selected citation is valid, below two million |
| HoldoutMetrics.AcceptedRecallCanExceedOne | scripts/retrieval_holdout_evaluation.py:41-80 | a row that covers two made-up identifiers for a question of one atom has an atom recall of two |
| HoldoutMetrics.ForgedIsAccepted | scripts/retrieval_holdout_evaluation.py:121-237 | the row that is written for an item covering any identifiers at all is accepted |
| HoldoutMetrics.ForgedFullSupport | scripts/retrieval_holdout_evaluation.py:121-237 | a row that covers one made-up identifier has full support and covers no atom of its question |
| HoldoutMetrics.FullSupportIsGenuine | scripts/retrieval_holdout_evaluation.py:121-237 | with full support, every atom of the question is covered exactly when the row covers its own atoms only |
| Readiness.MeetsIsMonotone | scripts/semantic_e2e_evaluation.py:160-163 | a fraction that is no smaller meets every threshold the other met |
| Readiness.VerdictIsExplained | scripts/semantic_e2e_evaluation.py:214-234 | READY and CONDITIONAL have no blockers or failures; NOT_READY has one |
| Readiness.DecisionsAreMonotone | scripts/semantic_e2e_evaluation.py:160-234 | if no metric falls, run identity is kept and failures only shrink, the verdict never drops, and an unchanged verdict has no new blocker |
| Readiness.EqualFractionsDecideAlike | scripts/semantic_e2e_evaluation.py:160-234 | the decision depends on the values of the fractions, not on how they are written |
| Readiness.HoldoutVerdictIsExplained | scripts/retrieval_holdout.py:1028-1055 | validity and quality say exactly which checks failed; an invalid run reports no quality |
| Readiness.HoldoutVerdictIsMonotone | scripts/retrieval_holdout.py:1028-1055 | more passing checks and fewer failures lower neither axis |
| HoldoutUpstream.IndexParagraph | scripts/retrieval_holdout.py:227-254 | extends an article's questions exactly when identifiers stay distinct and answers are not empty |
| HoldoutUpstream.UpstreamIndex | scripts/retrieval_holdout.py:203-256 | accepts exactly well-formed data and returns an index that holds each article's contexts and questions and nothing else |
| HoldoutSet.SlugFailsOnlyWhenEmpty | scripts/retrieval_holdout.py:172-176 | a stripped slug that is not empty always matches the key pattern |
| HoldoutSet.CheckQuestion | scripts/retrieval_holdout.py:834-859 | accepts exactly the questions that meet the answerable or unsupported contract against the corpus |
| HoldoutSet.ValidateQuestionSet | scripts/retrieval_holdout.py:802-860 | accepts exactly valid sets and files each question under its identifier |
| HoldoutGeneration.RankIgnoresArticleOrder | scripts/retrieval_holdout.py:562-566 | the ranking of titles does not depend on the order of the articles |
| HoldoutGenerator.CheckParallel | scripts/retrieval_holdout.py:552-560 | accepts exactly files with equal titles and equal question identifiers per title |
| HoldoutGenerator.SelectPlans | scripts/retrieval_holdout.py:580-611 | succeeds exactly when every selected title has a key of its own and five questions |
| HoldoutGenerator.BuildQuestions | scripts/retrieval_holdout.py:666-717 | the loops build the specified questions with consecutive identifiers |
| HoldoutGenerator.Generate | scripts/retrieval_holdout.py:542-727 | succeeds exactly when the upstream is generable, everything that is ranked, written or hashed being encodable, with the specified selection and questions |
| HoldoutValidity.SetIsValid | scripts/retrieval_holdout.py:802-860 | the built set has one hundred ordered identifiers and the exact counts, and is valid exactly when every used answer occurs in its text and no question is blank |
| HoldoutValidity.LanguagesAreExact | scripts/retrieval_holdout.py:666-717 | fifty English, twenty-five German and twenty-five Spanish questions |
| HoldoutValidity.StrataAreExact | scripts/retrieval_holdout.py:666-717 | thirty direct, forty cross-language, and ten of each other stratum |
| HoldoutGenerator.HeldAreNotSelected | scripts/retrieval_holdout.py:562-566 | no title asked about in an unsupported question is in the corpus |
| HoldoutGenerator.GeneratedSetIsValid | scripts/retrieval_holdout.py:542-860 | whatever generation yields passes validation exactly when its answers occur in their texts and no question is blank |
| HoldoutGenerator.GenerationIgnoresArticleOrder | scripts/retrieval_holdout.py:562-717 | reordering the articles of parallel files changes neither success, nor the selection, nor any plan |
| HoldoutGenerator.ContextGrounds | scripts/retrieval_holdout.py:592-594 | an answer in a stripped context is mentioned by the written text after case folding |
| HoldoutGenerator.FaithfulUpstreamIsValid | scripts/retrieval_holdout.py:542-860 | from files whose answers occur in their contexts, whatever generation yields is a valid set |
| HoldoutGenerator.GenerateFromArticles | scripts/retrieval_holdout.py:203-860 | from parsed articles to questions: succeeds exactly when the articles are well formed and their index is generable; the result is a valid set exactly when its used answers occur in their texts and no used question is blank, and it is when the files are faithful |
| CorpusTree.VerifyCorpus | scripts/realworld_corpus.py:417-447 | accepts exactly the trees that meet every check of the lock, and returns the lock's facts |
| StagedPublication.EveryRunIsSafe | scripts/realworld_corpus.py:501-593 | at every point of every run the destination is as found or a complete verified tree, and a finished run leaves no stage |
| StagedPublication.PublishedWithinCaps | scripts/realworld_corpus.py:560-583 | published payloads respect the cap on each file and the cap on their sum |
| PublishedTree.StageNeedsOnlyShapes | scripts/realworld_corpus.py:585-587 | after the writes, verification can only fail on the shape of a fetched payload |
| PublishedTree.MismatchNeverHappens | scripts/realworld_corpus.py:585-587 | a filled stage that verifies has the template's result |
| PublishedTree.PublishedIsTheTemplate | scripts/realworld_corpus.py:529-593 | without digest collisions the published tree is the template, byte for byte |
| Reproduction.Workspace.AtomicWrite | scripts/realworld_corpus.py:501-526 | all chunks land under the path or nothing does; without faults, exactly when the chunks are usable |
| Reproduction.Workspace.Reproduce | scripts/realworld_corpus.py:529-593 | success publishes a complete tree of what was delivered, failure leaves no stage, the destination is safe at every moment, and without faults success holds exactly when the destination was absent and the delivery is publishable |

## Left out

- SHA-256, Unicode case folding, NFC, `str.rstrip` and ZIP decoding are parameters; FoldsPointwise is the only law asked of case folding, and only by two lemmas.
- The CSV dialect of Python's `csv` module is a parameter from text to rows.
- The CSV half of the producer has no success condition like the one for text: ProducedRecordsConform speaks of every CSV source on which the producer returns.
- Pydantic models, JSON Schema engines, portable-path rules and the package record model are not part of this model; a parsed package record is taken to satisfy the record model's own invariants.
- Python's limits on recursion depth and on 4300-digit integers in `json` are not modelled.
- A float is its exact decimal value: a number that a double rounds to a neighbour, or to infinity, is left out.
- When several extension members are invalid at once, the model fixes the order in which they are met.
- ReviewBudget.EvaluateIndependently: budgets are positive, as in every protocol that the loader accepts.
- ReviewSummary.PathsAgree: assumes what the frozen protocol fixes, namely positive budgets and suites of different names; with repeated budgets the two gatherings hash different lists, so it asks that the hashes compared do not collide.
- In the independent loader a suite that is not a string is refused when it is read rather than when it is compared.
- The printed ratio text of the downstream scripts uses float formatting and is left out; the fractions are exact.
- TimingSummary.SummarizeTiming: the generator's draws are a function of the observation identifiers, and float percentiles are exact fractions.
- Rounding.EstimateIsOrdered: the cost model rounds exact amounts; the 28-digit working precision of the script is not modelled.
- Rounding.DoubleRoundingIsHarmless: asks for a denominator below the context precision, which every metric has.
- ObservationRows.CheckRow: covered-atom lists with elements that are not strings are refused, where the script would sort numbers; `int()` of a string and the hash of canonical bytes are parameters.
- ObservationIdentity.AcceptedRowsAgree: the RFC 8785 text is not printed; the hash is a function of the canonical value that the text stands for.
- EvidenceProducer.ProducedSetIsAccepted: the artifact lengths it bounds are those of the output, because for CSV they depend on a reader that is a parameter; for text they follow from the source (TextLengths).
- Atom identifiers of a question are distinct in the model of selected observations, as the question contract demands; covered atoms are therefore a sorted set.
- Readiness.DecisionsAreMonotone: thresholds and metrics have positive denominators, as both scripts build them.
- The capability-gap list, report rendering and slice tables of the summaries only repeat metrics.
- HoldoutUpstream.UpstreamIndex: works on typed articles; shape errors of the JSON are left out.
- The corpus files, locks and protocol that generation writes beside the questions are left out; the texts of the sources are kept.
- HoldoutSet.ValidateQuestionSet: the operator query equals the question text in every generated record and is not repeated.
- CorpusTree.VerifyCorpus: the JSON of the lock, payload formats, provider snapshots and the schema file are parameters; symbolic links and hard links are left out.
- StagedPublication.EveryRunIsSafe: removing the stage is taken to succeed, and there is no other writer.
- Durability after power loss, directory fsync, network redirects and timeouts are left out; a response is its final scheme, host, type and chunks.
- Argument parsing, exit codes, report files, privacy scans, generators of schemas and the runners of the product would only add easy members.
