# Aegis verification model

Aegis reviews pull requests for security problems: a webhook gateway claims and queues a scan, a worker
fetches the diff, runs detectors and language models over the added lines, scores the findings
and gates the merge. This project models the parts of Aegis that compute or coordinate and proves
what they promise, in Dafny 4.11. `dafny verify dfyconfig.toml` checks all of it.

| module | what it models |
|---|---|
| `ScanProtocol`, `ScanInvariant`, `ScanTheorems` | webhook handlers and workers as program counters over shared Redis keys, the scan table, the job queue and a clock; the inductive invariant; what holds in every run, under every interleaving |
| `ScanKeys`, `ScanHeads`, `ScanClaims`, `ScanExamples` | what the Redis keys identify; the theorems about heads and claims told by PRs and deliveries; schedules of what does not hold |
| `ScanServices` | the same coroutines as methods over the shared store, each proved to take exactly the protocol's steps |
| `Text`, `Numbers`, `DiffText`, `FileText` | decimal numerals, `splitlines`, `int()`, hunk headers; the rows that `splitlines` makes of a file |
| `GitlabDiff`, `Patches`, `DiffParse` | the two diff parsers, for any text, against a printer, and against what a patch means |
| `Sorting`, `ContextWindow`, `ContextText`, `ContextCoverage` | stable sorting, interval merging, the context as text, and which added lines it shows |
| `RiskScore`, `Dropping`, `MergeGate` | the capped score, what dropping findings does to it, suppression, the label and the merge decision on the pipeline state |
| `Consolidate` | consolidation of findings when the judge model is unavailable |
| `Router`, `RouterCalls`, `RouterRefinement` | tier selection with the timed health cache: one call, calls that overlap as a step system, and the link between the two |
| `LineMapping` | model replies and Gitleaks, Semgrep and Bandit reports mapped to added lines |
| `Fingerprints`, `Dialog` | what a fingerprint identifies; what a comment tells, the fingerprint it carries, read back from its thread, and false-positive reports |

Names follow the source: `Receive` is `receive`, `EnqueueScan` is `enqueue_scan`, and so on.

How the scan protocol is read: a schedule is any sequence of actions (time passing, a request
arriving, a handler's step, a delivery, a worker's step, a job timeout), an action that is not
enabled changes nothing, and `Run(cfg, acts)` is the state after schedule `acts`. Each step is one
effect on the shared store. The histories in the state (`writes`, `claimed`, `finishes`, `rows`)
never influence a step.

The overlapping router calls are read the same way. A call can be interrupted only while a probe
or a completion is under way, so a step runs from one such suspension to the next effect.

Where the code differs from its own documentation the model follows the code:

- The docstring of `aegis/idempotency.py` describes one scan for each PR and head; the dedupe key
  also holds the delivery id (`aegis/schemas.py:102-107`), so uniqueness holds per delivery
  (`ScanTheorems.OneScanPerDelivery`), and one push delivered under two ids is scanned twice
  (`ScanExamples.TwoDeliveriesTwoScans`).
- `release` in `aegis/idempotency.py` has no caller; no run of the model drops a claim.
- `aegis/queue.py:3-6` says that a newer head supersedes older scans; the head recorded last wins,
  which need not be the head that arrived last (`ScanExamples.OlderCommitWins`).
- The docstring of `aegis/providers/diffparse.py` says line mapping is identical for all providers.
  It is, counts apart, exactly for patches without `\ No newline` markers and without line breaks
  other than line feeds (`DiffParse.ParsersAgreeExactly`). For a file with carriage returns the
  GitLab parser drops the return that the other one keeps (`DiffParse.ReturnsDiffer`); a marker
  raises the numbers after it in the GitLab parser only (`Patches.MarkersShiftExactly`).
- `extract_context` splits the file at every line break Python knows, a patch at line feeds, so the
  rows of the context can be off (`ContextCoverage.AddedLinesShown`).
- The health cache is meant to keep a failed tier unused for its TTL. The two detector calls of a
  scan run at once, and then it does so exactly when no probe of the tier is under way at the
  failure (`RouterCalls.FailureHoldsExactly`).
- `aegis/pipeline/dialog.py:92-96` promises suppression in one repository; the query counts the
  reports of all repositories (`Dialog.ForeignReportsSuppress`).

## Model

| member | source | states |
|---|---|---|
| `ScanHeads.NewestHeadScanned` | aegis/queue.py:26-38 | in every run, for every PR (provider, repository, number), the scan whose enqueue recorded its head last is never superseded, and once nothing is pending for it, it has run to a terminal status with one `_finish`; the only ways out are a job timeout and an event that expired before the worker started |
| `ScanHeads.SupersededOnlyIfOvertaken` | aegis/pipeline/runner.py:76-84 | a scan is superseded only if, after its own write of the active head, an enqueue for the same provider, repository and PR wrote a different head, whether or not the key expired in between |
| `ScanHeads.StaleExactly` | aegis/queue.py:49-52 | the stale check is true exactly when the last head recorded for the same provider, repository and PR is younger than a day and a different one |
| `ScanKeys.ActiveKeysExactly` | aegis/queue.py:31 | two events have one active-head key if and only if provider, repository and PR are equal, whatever the repository holds, as long as provider and PR hold no colon |
| `ScanExamples.CollidingPrs` | aegis/queue.py:31 | concrete PRs of two repositories whose keys collide because a number holds a colon, and the run in which one supersedes the only scan of the other |
| `ScanTheorems.JobsHaveInputs` | aegis/queue.py:28-36 | every waiting or delivered job has its stored event, its scan row and its recorded head, and they agree |
| `ScanTheorems.FinishedOnce` | aegis/pipeline/runner.py:45-63 | `_finish` runs at most once for a job and exactly once for a job that is done, the row then carries the status it wrote, and a job is dropped only when its event expired |
| `ScanTheorems.StatusMovesForward` | aegis/pipeline/runner.py:76-136 | whatever action comes next, a row stays and its status moves only from queued to superseded or running and from running to a terminal status |
| `ScanTheorems.GaugeCounts` | aegis/queue.py:35-36 | the queue-depth gauge equals the jobs waiting plus the jobs delivered and not done, less the handlers between enqueue and increment |
| `ScanTheorems.JobStops` | aegis/pipeline/runner.py:66-138 | from any state of the invariant, a job given as many turns as its rank stops, whatever the other coroutines do |
| `ScanTheorems.EveryJobFinishes` | aegis/pipeline/runner.py:66-138 | in every run a delivered job stops after at most 17 of its own steps whatever its stages raise, and having loaded its event and not been cancelled it has then called `_finish` exactly once |
| `ScanTheorems.ClaimsApart` | aegis/idempotency.py:14-19 | two successful claims of one dedupe key are at least the TTL apart |
| `ScanTheorems.RowsAreClaimed` | aegis/api/webhooks.py:86-119 | behind every scan row stand a request whose signature verified, an event that opens or updates a PR, and a successful claim of that event's own key |
| `ScanTheorems.OneRowPerWindow` | aegis/api/webhooks.py:106-119 | two scan rows with one dedupe key come from claims at least the TTL apart |
| `ScanTheorems.OneScanPerDelivery` | aegis/idempotency.py:3-5 | two scans of one provider, repository, PR and head whose claims lie less than the TTL apart come from different deliveries |
| `ScanKeys.DedupeKeysExactly` | aegis/schemas.py:102-107 | two events have one dedupe key if and only if provider, repository, PR, head and delivery id are equal: a new head or a new delivery is a new key |
| `ScanClaims.DuplicateExactly` | aegis/api/webhooks.py:106-109 | in every run, a verified webhook is turned away exactly when the same delivery of the same commit was claimed less than the TTL ago; otherwise its handler goes on to insert a scan or to queue the dialog |
| `ScanExamples.TwoDeliveriesTwoScans` | aegis/schemas.py:102-107 | in the run of two handlers that get one commit under two dedupe keys, both insert a row, with claims in the same instant |
| `ScanExamples.PushDeliveredTwice` | aegis/schemas.py:102-107 | a concrete such pair: one push with the delivery ids d1 and d2 |
| `ScanHeads.CheckLosesExactly` | aegis/pipeline/runner.py:76-84 | a job is found superseded at its check exactly when the last head recorded for its own PR was recorded after its own, differs and has not expired, whatever the order of arrival and whatever other PRs do |
| `ScanExamples.OlderCommitWins` | aegis/queue.py:31-32 | a run of two overlapping handlers in which the commit that arrived first records its head last and the scan of the commit that arrived last ends superseded |
| `ScanInvariant.Keeps` | aegis/pipeline/runner.py:66-138 | every action of every handler, worker and clock keeps the protocol's invariant |
| `ScanInvariant.StaleMeansOvertaken` | aegis/queue.py:49-52 | a written scan that looks stale was overtaken by a later write of another head |
| `ScanServices.Services.Claim` | aegis/idempotency.py:14-19 | set-if-absent with expiry: true exactly when no live claim of the key exists, and the key is then held for the TTL |
| `ScanServices.Services.EnqueueScan` | aegis/queue.py:26-38 | takes the protocol's four steps in order (event, active head, job, gauge); right after it the job has its event and the scan is not stale |
| `ScanServices.Services.IsStale` | aegis/queue.py:49-52 | in every run of the protocol that reaches this store, true exactly when the last head recorded for the PR is younger than a day and another one |
| `ScanServices.Services.Finish` | aegis/pipeline/runner.py:45-63 | sets the row's status and decrements the gauge, nothing else |
| `ScanServices.Services.Receive` | aegis/api/webhooks.py:42-123 | from any protocol state with the same store, the call is a run of one handler's steps; which of the nine responses a request gets is decided exactly by its checks in their order, its kind and a live claim of its event; a PR event that is not claimed gets a row and a job, a comment a dialog, and everything else changes nothing |
| `ScanServices.Services.RunBody` | aegis/pipeline/runner.py:94-136 | the `try` body and its `except` clauses are a run of one job's steps; it ends completed exactly when all twelve operations succeed, without token exactly when the first returns none, and otherwise failed by the first operation that raises |
| `ScanServices.Services.RunScanPipeline` | aegis/pipeline/runner.py:66-138 | the call is a run of one job's steps to its stop, calls `_finish` once unless the event is gone, and leaves the row superseded exactly when the scan is stale |
| `DiffText.SplitUnlines` | aegis/providers/gitlab.py:229 | splitting joined lines gives the lines back when none holds a line break |
| `DiffText.HeaderRoundTrip` | aegis/providers/gitlab.py:230-236 | reading any printed hunk header, with or without counts and whatever its section text, gives its two start lines back |
| `DiffText.HeadersExactly` | aegis/providers/gitlab.py:232-236 | a header is readable exactly when what stands between its markers is two ranges around one space and a number follows the first character of each |
| `DiffText.IntegersExactly` | aegis/providers/gitlab.py:234-235 | `int` reads an optional sign and groups of digits between single underscores, inside white space, and nothing else; the value is that of the digits |
| `DiffText.BreaksExactly` | aegis/pipeline/context.py:62 | the ten characters at which `splitlines` breaks a text |
| `GitlabDiff.ParseGitlabDiff` | aegis/providers/gitlab.py:222-265 | for every text: fails exactly when some header is unreadable; otherwise the hunks account for every text line from the first header on, in order, each with its kind and content, its position the offset from the first header, and each side's numbers consecutive from the hunk's start |
| `GitlabDiff.ParsedIsExplained` | aegis/providers/gitlab.py:229-265 | the same of the parse function |
| `GitlabDiff.ExplainedHunk` | aegis/providers/gitlab.py:229-265 | where in the text the i-th hunk of a result lies: after as many text lines from the first header on as the hunks before it take |
| `Patches.ParsePrinted` | aegis/providers/gitlab.py:229-265 | every printed patch without stray line breaks parses to one hunk per hunk, each marker read as one more context line; no body line is taken for a header |
| `Patches.RoundTripExactly` | aegis/providers/gitlab.py:229-265 | printing a patch and parsing the text gives exactly the patch's numbered hunks if and only if no text in it holds a line break and no hunk holds a `\ No newline` marker |
| `Patches.ReturnsDropped` | aegis/providers/gitlab.py:229 | a patch whose texts hold no line break but trailing carriage returns reads like the patch without them |
| `Patches.ParsedLinesTrue` | aegis/providers/gitlab.py:222-265 | if a patch turns file O into file N, with markers only after a file's last line and line breaks only as trailing carriage returns, every number on a parsed line is the number of a line of N or O with that text less its carriage return, if and only if the patch holds no marker; numbers run consecutively from the hunk's start |
| `Patches.ParsedHunksRebuild` | aegis/providers/gitlab.py:222-265 | for such patches, printed with context, applying the parsed hunks to O gives N, carriage returns apart, when the patch holds no marker, and does not fit O when it holds one |
| `Patches.MarkersShiftExactly` | aegis/providers/gitlab.py:258-264 | in a patch with markers and carriage returns, the number the parser puts on an edit exceeds the number of its file line by the number of markers before it in its hunk |
| `Patches.MarkerShiftsNumbers` | aegis/providers/gitlab.py:258-264 | a concrete patch of a one-line file whose added line 1 is reported as line 2 |
| `DiffParse.ParseUnifiedDiff` | aegis/providers/diffparse.py:52-96 | every hunk and line of every file keeps its kind, text and numbers, and its position is its offset in its own file's diff, headers counted |
| `DiffParse.UnifiedLinesTrue` | aegis/providers/diffparse.py:59-74 | for every patch that turns O into N, markers and carriage returns included, every number this parser puts on an edit is the number of the file line with that very text |
| `DiffParse.ParsersAgreeExactly` | aegis/providers/diffparse.py:4-6 | both parsers give the same kinds, texts, numbers and positions for the same patch, counts and header printing apart, if and only if no text of it holds a line break other than a line feed and no hunk holds a marker; the counts of this one are the true lengths of both sides |
| `DiffParse.ReturnsDiffer` | aegis/providers/diffparse.py:70 | a concrete patch adding a line with a carriage return, which this parser keeps and the GitLab parser drops |
| `ContextWindow.MergeIntervals` | aegis/pipeline/context.py:79-90 | the loop computes the merge function; the merged intervals cover exactly the lines the given ones cover, and leave an uncovered line between neighbours |
| `ContextWindow.MergeProperties` | aegis/pipeline/context.py:79-90 | merging keeps the covered lines exactly, empty intervals included, and separates the results |
| `ContextWindow.MergeIdempotent` | aegis/pipeline/context.py:79-90 | merging twice is merging once |
| `ContextWindow.MergePermuted` | aegis/pipeline/context.py:79-90 | the order of the intervals does not matter |
| `ContextText.ExtractContext` | aegis/pipeline/context.py:61-76 | split at line feeds, the text's rows with a number in front are exactly the file lines within `context_lines` of some hunk's new side, each once, in order, under its own number and with its own text; every other row names the path and the first and last line of the rows that follow it; also for hunks past the end of the file |
| `ContextText.ContextExactly` | aegis/pipeline/context.py:61-76 | the same of the specification function, for all hunks and all files |
| `ContextCoverage.AddedLinesNear` | aegis/pipeline/context.py:66-69 | with the true counts of `parse_unified_diff`, every added line of a patch, markers and carriage returns included, is a line of the new file and inside the windows |
| `FileText.RowOfLine` | aegis/pipeline/context.py:62 | line x of a file begins at its own row of `splitlines` exactly when no line before it holds a break other than a trailing carriage return, and otherwise further down |
| `ContextCoverage.AddedLinesShown` | aegis/pipeline/context.py:61-76 | the number of every added line is shown, and the row with that number is the line itself if and only if no file line up to it holds another line break, a carriage return at the end of an earlier line excepted |
| `ContextCoverage.AddedLinesShownAsTheyAre` | aegis/pipeline/context.py:61-76 | in a file without other line breaks every added line is shown under its number with its own text |
| `ContextCoverage.FormFeedMisplaces` | aegis/pipeline/context.py:62 | a concrete file with a form feed in line 1, whose added line 2 the context shows with the text of another row |
| `ContextCoverage.GitlabWindowExactly` | aegis/providers/gitlab.py:237-240 | with the GitLab parser's zero counts, the context shows the number of an added line exactly when it comes within `context_lines` of the first line of its own hunk, or of the next hunk's |
| `ContextCoverage.FourthLineMissing` | aegis/providers/gitlab.py:237-240 | a concrete patch adding four lines to an empty file, of which the context with the default setting does not show the fourth |
| `RiskScore.RiskBreakdown` | aegis/pipeline/risk_score.py:57-64 | every text a finding counts under has a total of its own: the CWE if there is one, else the rule, else the severity; the total is the least of the sum of the weights of exactly those findings and of each cap plus all later weights |
| `RiskScore.CappedIsMinPlus` | aegis/pipeline/risk_score.py:59-63 | the saturating fold has that closed form for every list of weights |
| `RiskScore.CappedBounds` | aegis/pipeline/risk_score.py:61-63 | a key's total lies between its last weight and twice its last weight |
| `RiskScore.AppendRaisesExactly` | aegis/pipeline/risk_score.py:61-63 | one more finding keeps the key's total from falling if and only if the total so far is at most the new finding's cap |
| `RiskScore.SumOf` | aegis/pipeline/risk_score.py:41 | the sum over the totals in whatever order the dictionary yields them |
| `RiskScore.SingleScores` | aegis/pipeline/risk_score.py:77-82 | the score of every single finding: by its CWE if that is listed, else 20 for a high-entropy secret, else by its severity |
| `MergeGate.DifferentCwesAdd` | aegis/pipeline/risk_score.py:60 | two findings with different CWEs share no cap, whatever their rules and severities: their scores add up |
| `MergeGate.TwoCwesBlock` | aegis/pipeline/policy.py:49-51 | two high findings of the judge under one rule, one SQL injection and one XSS, score 70 and block the merge |
| `RiskScore.DeterminedTotal` | aegis/pipeline/risk_score.py:57-64 | when keys determine weights, a key contributes its weight at most twice |
| `RiskScore.PermutationInvariant` | aegis/pipeline/risk_score.py:57-64 | when keys determine weights, no reordering of the findings changes the breakdown or the score |
| `RiskScore.OrderMattersExactly` | aegis/pipeline/risk_score.py:57-64 | the breakdown is independent of the order of the findings if and only if keys determine weights |
| `RiskScore.MixedWeightsMisbehave` | aegis/pipeline/risk_score.py:61-63 | concrete findings under one key whose score falls when one is added and depends on their order |
| `MergeGate.SuppressFindings` | aegis/pipeline/suppression.py:38-48 | kept and dropped are the input split in order, dropped exactly the suppressed fingerprints |
| `MergeGate.SplitUnique` | aegis/pipeline/suppression.py:38-48 | there is only one such split |
| `Dropping.DroppingWeightsExactly` | aegis/pipeline/risk_score.py:59-63 | leaving weights of one key out never raises its total if and only if the total equals the best one, which a fold over the weights computes |
| `Dropping.DroppingFromPrefixesExactly` | aegis/pipeline/risk_score.py:61-63 | in no prefix of the weights does leaving some out raise the total if and only if no weight's cap lies below the total so far |
| `Dropping.DroppingTotalsExactly` | aegis/pipeline/risk_score.py:57-64 | dropping findings raises no key's total if and only if every key's total is its best |
| `Dropping.DroppingScoreExactly` | aegis/pipeline/risk_score.py:39-41 | dropping findings never raises the score if and only if the score is the best score |
| `MergeGate.DroppingLabelExactly` | aegis/pipeline/risk_score.py:67-74 | dropping findings never raises the label if and only if the label of the best score is the label already |
| `MergeGate.DroppingDecisionExactly` | aegis/pipeline/policy.py:34-58 | dropping findings never turns a passing decision into a block if and only if the findings block already or would pass even with the best score |
| `MergeGate.DroppingBounded` | aegis/pipeline/policy.py:34-58 | whatever part of the findings goes, score, label and decision stay within those of the best score |
| `MergeGate.SuppressionReachesBest` | aegis/pipeline/suppression.py:38-48 | when no two findings share a fingerprint, suppressing some fingerprints reaches the best score |
| `MergeGate.SuppressionCanBlock` | aegis/pipeline/suppression.py:38-48 | four concrete findings that pass with score 27 and label low, and block with score 75 and label high once the informational one is suppressed |
| `MergeGate.DroppingNeverHurts` | aegis/pipeline/policy.py:34-58 | when keys determine weights, dropping any part of the findings never raises a total, the score or the label and never turns a passing decision into a block, in every mode |
| `MergeGate.SuppressedExactly` | aegis/pipeline/suppression.py:51-64 | a fingerprint is suppressed if and only if three feedback rows report it as a false positive; rows of other kinds do not count |
| `MergeGate.PipelineState.ApplySuppression` | aegis/pipeline/suppression.py:18-64 | exactly the findings that three rows report as false positives move, in order, to the suppressed ones; nothing is written when there are none |
| `MergeGate.PipelineState.ComputeRiskScore` | aegis/pipeline/risk_score.py:39-47 | state and result get the sum, cut at 100, of totals each of which belongs to one CWE, rule or severity, and the label: critical exactly with a critical finding, else by the thresholds 60 and 30 |
| `MergeGate.PipelineState.DecideMerge` | aegis/pipeline/policy.py:34-58 | the merge is blocked exactly when the mode is not off and there is a critical finding, or a high one in mode high, or a score above 60; state and reason agree with that |
| `MergeGate.PipelineState.Gate` | aegis/pipeline/runner.py:169-173 | suppression, score and decision run in order on exactly the findings not reported often enough; whatever team feedback drops, score, label and decision stay within those of the best score of all findings |
| `Consolidate.FallbackConsolidate` | aegis/pipeline/llm_stage.py:172-181 | exactly one finding for each key under which some finding has confidence 0.80 or more, none for other keys; it comes no later than any such finding of its key by file, line, CWE and falling confidence, and the result is in that order |
| `Consolidate.StrLeExactly` | aegis/pipeline/llm_stage.py:175 | the order of strings: a prefix first, else the first character that differs decides |
| `Consolidate.ConsolidatedProperties` | aegis/pipeline/llm_stage.py:172-181 | the same of the specification function |
| `Consolidate.Idempotent` | aegis/pipeline/llm_stage.py:172-181 | consolidating twice is consolidating once |
| `Consolidate.SurvivorIsBest` | aegis/pipeline/llm_stage.py:175-176 | when keys do not collide across sort groups, the survivor of a key has the highest confidence under it |
| `Consolidate.SurvivorsBestExactly` | aegis/pipeline/llm_stage.py:175-176 | the survivors have the highest confidence for every assignment of confidences if and only if keys do not collide across sort groups |
| `Consolidate.CwesSeparateKeys` | aegis/pipeline/llm_stage.py:176 | keys cannot collide when file names hold no colon and every finding names a CWE |
| `Consolidate.CollisionKeepsLower` | aegis/pipeline/llm_stage.py:175-176 | a concrete collision in which the less confident finding survives |
| `Router.Dedupe` | aegis/llm/router.py:90 | the tiers of a role without repetition, in the order of their first occurrences |
| `Router.LlmRouter.Healthy` | aegis/llm/router.py:56-64 | a fresh cache entry answers; otherwise the tier is probed and the outcome cached at the time the probe began |
| `Router.LlmRouter.Attempt` | aegis/llm/router.py:99-118 | a failed completion is cached as unhealthy at the time it failed |
| `Router.LlmRouter.TryTier` | aegis/llm/router.py:95-118 | one tier's turn: what it adds to the history, how long it takes, and that other tiers' entries stay |
| `Router.LlmRouter.Complete` | aegis/llm/router.py:66-120 | for each role: the tier that answers has a client, and every tier that its role tries before it would not have served at some time of the call; nobody answers only if all four fail so; the configured primary answers whenever it has a client and serves at once; the answer is that of the first known tier that serves, judged by the cache as the call finds it, and a fallback is counted exactly when that is not the first known one |
| `Router.FirstServing` | aegis/llm/router.py:90-118 | the least index of a known tier that serves |
| `Router.OneStartEach` | aegis/llm/router.py:90-118 | a call sends no tier two completions |
| `Router.ProbeSound` | aegis/llm/router.py:58-62 | a probe sent when the cache has no fresh entry keeps the history sound: it comes at least the TTL after every earlier probe and failure of its tier |
| `Router.StartSound` | aegis/llm/router.py:95-99 | a completion sent when the latest outcome is a successful probe keeps the history sound |
| `Router.NoCompletionAfterFailure` | aegis/llm/router.py:114-116 | in every history of calls one after another, after a failed completion the next one to that tier comes at least the TTL later and after a successful probe in between |
| `RouterCalls.EarlySendIsSpanned` | aegis/llm/router.py:56-64 | in every run of any number of overlapping calls, a completion goes to a tier less than the TTL after a recorded failure only if some probe of that tier began before the failure and ended after it |
| `RouterCalls.QuietFailureHolds` | aegis/llm/router.py:114-116 | a failure recorded while no probe of the tier is under way keeps completions away for the TTL in every continuation |
| `RouterCalls.FailureHoldsExactly` | aegis/pipeline/llm_stage.py:112 | in every run, the TTL of a recorded failure holds in every continuation if and only if no probe of the tier is under way when the completion fails |
| `RouterCalls.LateProbeHidesFailure` | aegis/llm/router.py:61-62 | after a probe that ends past a failure, later calls trust the tier exactly when the probe succeeded and is itself still fresh, and probe again once it is not |
| `RouterCalls.DetectorsBreakTtl` | aegis/pipeline/llm_stage.py:112 | a schedule of the two detector calls with the default tiers in which a completion goes to a tier in the instant in which the other call's completion on it failed |
| `RouterCalls.Keeps` | aegis/llm/router.py:56-118 | every action of every call, and time passing, keeps the invariant of the overlapping calls |
| `RouterRefinement.UninterruptedCall` | aegis/llm/router.py:78-120 | a call begun in any state and left alone is a run of the step system with the outcome and the time that `Complete` promises |
| `ContextCoverage.AddedNumbersExactly` | aegis/pipeline/deterministic/semgrep.py:30-31 | the numbers against which reports and replies are checked are exactly those of the new file's lines that the patch adds |
| `LineMapping.PositionFor` | aegis/pipeline/deterministic/semgrep.py:34-38 | the position of the first added line with that number; none when there is no such line |
| `LineMapping.RunSemgrep` | aegis/pipeline/deterministic/semgrep.py:85-109 | one finding for each report entry on an added line of a changed file, in order, at that line's position and with the entry's rule, CWE, severity and texts, and no other finding |
| `LineMapping.HitsExactly` | aegis/pipeline/deterministic/semgrep.py:86-93 | the entries kept are exactly those that name a changed file and the number of a line added to it |
| `LineMapping.FindingsFromReport` | aegis/pipeline/deterministic/bandit.py:59-94 | the same of Bandit reports, an entry without a line counting as line 0, with the CWE of its test |
| `LineMapping.ChangedLinesOfLast` | aegis/pipeline/llm_stage.py:22-26 | the numbers of a path are those of the added lines of the last file with that path |
| `LineMapping.DiffPositions` | aegis/pipeline/llm_stage.py:29-35 | every added number of a path's last file has a recorded position, and it is that of a line with this number in that file |
| `LineMapping.ParseFindings` | aegis/llm/parser.py:84-103 | exactly the replies on changed lines become findings, in order, each at the recorded position, with the reply's fields, texts cut to their limits and blank ones left out |
| `LineMapping.LlmFindings` | aegis/pipeline/llm_stage.py:117-123 | exactly the replies on changed lines become findings, and whatever a model replies, its findings lie on added lines of changed files and carry the positions of those lines |
| `LineMapping.MaterializeAddedLines` | aegis/pipeline/deterministic/gitleaks.py:88-100 | every temporary line stands for an added line of a file of that path, and every file with a numbered added line has one |
| `LineMapping.BuildLineMap` | aegis/pipeline/deterministic/gitleaks.py:31-38 | line i of a temporary file, counted from 1, maps to the i-th line it was made of, and no other line maps |
| `LineMapping.TempLinesExactly` | aegis/pipeline/deterministic/gitleaks.py:35 | line i of a temporary file is the text of the diff line behind it, for every i, if and only if no added line holds a line feed |
| `LineMapping.MappedLineIsItsText` | aegis/pipeline/deterministic/gitleaks.py:35-38 | a mapped temporary line reads as the text of the diff line it maps back to |
| `LineMapping.RunGitleaks` | aegis/pipeline/deterministic/gitleaks.py:58-85 | an entry becomes a finding exactly when its start line, or without one its line, is a line of the temporary file of its path; the finding lies at the diff line behind that line and is on an added line of a changed file |
| `LineMapping.LeakIsItsLine` | aegis/pipeline/deterministic/gitleaks.py:31-38 | the diff line behind a finding reads as the row of the temporary text that the entry names |
| `LineMapping.NumberedInOrder` | aegis/pipeline/deterministic/gitleaks.py:93-99 | the temporary lines are the added lines in the order of the diff |
| `Schemas.AddedLinesInOrder` | aegis/schemas.py:80-81 | the added lines come in the order of the diff: cutting a diff anywhere cuts them, and a line counts exactly when it is an addition |
| `Fingerprints.FingerprintsExactly` | aegis/schemas.py:139-141 | two findings have one fingerprint if and only if file, line, CWE and rule (or title) agree |
| `Dialog.RenderInlineComment` | aegis/pipeline/render.py:50-67 | the comment holds severity, title, CWE, confidence and rationale, exploit and fix if there are any, the fix as a suggestion if it is one, and the marked fingerprint, and for single-line texts its lines are exactly these, in this order; the fingerprint search finds the finding's own fingerprint in it when no text field holds the mark, and whenever the text before the last part does not match by itself |
| `Dialog.DigestsExactly` | aegis/pipeline/dialog.py:26 | the text after a mark is read as a fingerprint if and only if it is forty digits and letters from a to f |
| `Dialog.ThreadFingerprint` | aegis/pipeline/dialog.py:213-219 | the first comment that matches decides; none exactly when no comment matches |
| `Dialog.ReadBackExactly` | aegis/pipeline/dialog.py:26 | for all findings, reading a rendered comment gives its own fingerprint, unless the text before the last part matches by itself, and then it gives that match |
| `Dialog.FingerprintReadBack` | aegis/pipeline/render.py:50-67 | reading a rendered comment gives the finding's own fingerprint whenever no text field holds the mark "Finding fingerprint:" |
| `Dialog.PlantedDigest` | aegis/pipeline/render.py:58 | a rationale that is itself a marked digest is read back in place of the finding's own |
| `Dialog.RecordedExactly` | aegis/pipeline/dialog.py:174-186 | a report adds one row for its fingerprint, and nothing when the thread has none |
| `Dialog.ThreeReportsSuppress` | aegis/pipeline/suppression.py:51-64 | three false-positive replies under a finding's comment, in whatever repositories, suppress exactly that fingerprint, on top of what earlier feedback suppresses |
| `Dialog.ForeignReportsSuppress` | aegis/pipeline/dialog.py:92-96 | three reports in one repository suppress the fingerprint also in a repository that never reported it |
| `Dialog.SuppressedByOthersExactly` | aegis/pipeline/suppression.py:51-64 | a fingerprint is suppressed beyond a repository's own reports exactly when those of the other repositories make up what is missing |

## Left out

- Failures of Redis, the database and the queue, redelivery of a job after a worker crash, and collisions of scan identifiers: each job is delivered once and every store operation succeeds.
- SHA-256 and SHA-1 are arbitrary functions; storing an event as JSON and loading it again is the identity.
- The queue-depth gauge is one counter, although the API and the worker are separate processes; a job timeout skips `_finish` and its job stays counted.
- `ScanServices.Services.Receive`: states an uninterrupted call; interleaved handlers and workers are the step system's subject, and the methods are tied to its steps.
- `ScanServices.Services.RunScanPipeline`: states an uninterrupted call, as above; the body's operations are outcomes given from outside.
- `ScanHeads.NewestHeadScanned`: provider names and PR numbers hold no colon; where numbers may, `ScanExamples.CollidingPrs` shows two PRs with one key, and `ScanTheorems.LastWriterScanned` is what holds of a key.
- `ScanClaims.DuplicateExactly`: the digest of the dedupe key has no collisions, and the fields around the repository hold no colon.
- `ContextText.ExtractContext`: says nothing of the text for a path that holds a line feed.
- The queue delivers in any order (a multiset), which covers the real one.
- Aliasing of the current hunk: `cur` is the last element of `hunks`, and appending to it replaces that element.
- `int()` on non-ASCII decimal digits, and the integer width limit of very long numerals.
- The text parser of the unidiff library is not part of this model: the hunk structure it yields is given (true counts and numbers, a marker as a line without numbers), and so is the header it prints.
- `Patches.ParsedLinesTrue`: says nothing of patches with other line breaks than line feeds and trailing carriage returns, which `Patches.RoundTripExactly` and `DiffParse.ParsersAgreeExactly` show to be misread.
- `MergeGate.DroppingNeverHurts`: is the special case of key-determined weights; the exact conditions for all findings are the `Exactly` lemmas above it.
- `Consolidate.SurvivorIsBest`: confidences are real numbers, not floating point.
- `Router.NoCompletionAfterFailure`: is about calls one after another; calls that overlap are the subject of `RouterCalls`.
- `RouterRefinement.UninterruptedCall`: says nothing of the answer's text and of the fallback count, which `Router.LlmRouter.Complete` states.
- A probe that raises and a call that is cancelled end a call without an entry in the cache; what its caller does then is not modelled.
- Formatting a confidence with two decimals is a parameter of the rendered text.
- Messages of decisions: a reason is a value instead of a sentence.
- JSON parsing and validation of model replies and tool reports; entries arrive as records, with severities in upper case and paths relative to the scanned directory.
- Normalisation of temporary paths: a temporary file's relative path is the path of its file.
- Diff line numbers are integers without a bound, as in Python; report entries whose line is not a number are not modelled.
- `extract_python_call_context`, the file filter, severity counts, the token estimate, the summary layout, blast-radius diagrams, prompts: they would only add easy members.
- Regular-expression secret patterns, Shannon entropy, dependency lookups, HTTP calls, signatures, the admin API, logging and all metrics other than the gauge and the fallback count.
