# Prompt router: verified model

This project models the two hardest parts of the prompt-router repository and proves what they are for.

**The budgeted allocator and the score that judges it.** A router assigns one of three models to every episode of a
batch. The shipped allocator prices cost with a penalty, doubles the penalty until the batch fits three hard
constraints, halves the bracket 40 times, and routes everything to the light model if that fails. Two training copies
and an older baseline with a second "fill" pass run relatives of the same search. The scorer then compares realised
cost with the all-light cost, in 160-digit decimals.

**The evaluation protocol.** A container engine may complete a create long after its client gave up, and the evaluator
may die between any two steps. A write-ahead journal keeps track of what one attempt may own. On top of it stand the
bounded retry machine, the secret identifier-and-order audit, the status function, a one-container version of the
journal for image measurements, and a transactional publisher of report files.

Smaller arithmetic cores are the Clopper-Pearson bound, the two-branch ridge solver, canonical decimal text and the
latency tie-break.

## How it is modelled

- Loops that update variables are methods with loop invariants, proved equal to a function of their inputs (the searches
  of `TeamAllocator`, `TrainingCopies`, `HashRegex`, `Scoring`, `Attempts`, `IdOrderAudit`, `ClopperPearson`,
  `Tiebreak`) or directly against the property (`ClopperPearsonUpper`, `RankCandidates`, `RunAudit`).
- The evaluator (`Evaluator.OutputDirectory`), the measurement (`MeasurementJournal.MeasurementDesk`) and the publisher
  (`ReportPublisher.ReportDirectory`) are classes whose state is exactly what survives a crash: files and the engine's
  resources. A ghost field keeps every state that was ever on disk; each method extends it by single protocol steps,
  with the engine interfering between them. A theorem about every element of such a history therefore covers a crash at
  every instant.
- Outcomes of the outside world (a command's answer, a failing disk, an exception) are chosen arbitrarily where the code
  asks for them. Keyed digests, predictors, the linear solver, decimal rounding and the participant's answers are
  parameters about which no more is assumed than is stated.
- Each of the three classes has a constant `undisturbed`: engine and disk do what they are asked, at once. Safety is
  claimed whether or not it holds; contracts under it say exactly what a run then achieves, so that doing nothing is not
  a way to be safe. The publisher's constant `undoes` does the same for its undo after a failure.
- What a computation returns is also said without its intermediate functions, from the inputs alone: the allocations
  (`AllocatorAnswers`, `HashRegexAnswers`), the figures of a score report (`Scoring.Accounts`), the kind of a reconciled
  result (`Evaluator.CalledFor`), the scramble of a secret (`IdOrderAudit.Keyed`), the status of a tier
  (`OfficialTier.StatusExactly`) and the fields of a policy (`PolicyForm.ParsedAsWritten`).
- Floating-point numbers are reals. `math.fsum` and numpy's sums are exact sums.

Assumptions about the environment, all of them stated in contracts or step relations:

- A participant client that exits on its own has no outstanding create (`SettleCreate`), as
  src/ossp_router/runtime.py:1871-1878 relies on; a `create` that reports success has created.
- `confirm_daemon_restarted` means that pending creates of the engine at hand were dropped.
- Others may hold any name of ours at any time, and a removal deletes whatever holds the name. Only between a reading of
  our label under a name and the stop and removal that rest on this reading does nobody else take the name
  (`confirmed`). The reading that confirms a create licenses no removal, and no reading outlives the operation that made
  it.
- After a check of the engine's identity, the commands up to the next check reach the same engine.

## Findings

- The bisection's premise, that a larger penalty never promotes a row that the router can predict, holds exactly if the
  risk multipliers satisfy mid >= 0, light <= K mid and mid <= K high, where K = 1 + 10^-12 is the factor by which the
  cost clamp keeps the models apart (`AntitoneExactly`, `SoundRisk`). The artifact loader does not check this.
- The returned assignment meets the three constraints exactly if the tier leaves room for the all-light plan
  (`ResultFeasibleExactly`). The policy parser guarantees only a positive multiplier.
- A valid verdict can stand without any exit record: if the container still runs after its client exited with 0, is
  stopped, and is then absent, classification is skipped (`ReconcileParticipant`, `VanishedWhileStopping`).
  docs/OPERATIONS.md:205-209 describes the record as always read.
- Reconciling a measurement whose journal names another engine, with the restart confirmed, removes the journal without
  looking. Reconciling never leaks exactly outside that branch (`ReconcileSafeExactly`, `AbandonCanLeak`);
  docs/OPERATIONS.md:148-150 asks for the absence to be checked.
- A failure of the publisher's very last directory sync starts a rollback after the marker is gone. Then the set is
  unmixed at every instant exactly if the rollback fails before its first deletion, or right after it where that happens
  to bring back the old set (`PublishReports`, `Unmixed`). If an undo operation fails, the clean-up that follows deletes
  the backups of the reports not yet restored (`Lost`).
- Tier weights are summed in the default 28-digit context. The check for a sum of exactly 1 is exact up to 27 digits
  behind the point and not beyond (`WeightCheckExactly`); the parser accepts 30, and 0.5, 0.3 and 0.2 + 10^-28 pass.
- The budget guarantee, over all batches that pass the parsers and lie within the margins, holds exactly for policies
  whose light model is `ax31-light`, the model the router treats as light (`GuaranteedExactly`, with a failing batch in
  `DearLight`); the parser accepts any of the three. The router refuses a policy whose digest differs from its
  artifact's (src/ossp_router/heuristic.py:4493), so such a batch needs an artifact baked with such a policy.

## Model

| member | source | states |
|---|---|---|
| PenaltyBisection.FinalBracketFacts | src/ossp_router/heuristic.py:4461-4473 | For any predicate, the low end violates, the high end violates only at 2^limit, and the bracket is at most 2^-iterations of max(1, high) |
| PenaltyBisection.FailsExactlyAtLimit | src/ossp_router/heuristic.py:4463-4475 | For an antitone predicate the search ends on a violating penalty exactly if the largest penalty violates |
| PenaltyBisection.BracketSeparates | src/ossp_router/heuristic.py:4466-4473 | The final bracket separates violating penalties from the others |
| PenaltyBisection.MoreIterationsLowerPenalty | training/search_standalone.py:145-152 | More halvings never raise the final penalty |
| PenaltyBisection.MoreViolationsRaisePenalty | training/calibrate_safety.py:210-225 | A predicate that violates more never ends on a smaller penalty |
| TeamAllocator.CostFrom | src/ossp_router/heuristic.py:4324-4335 | The clamp yields strictly increasing positive costs and keeps the light prediction |
| TeamAllocator.CostFromExactly | src/ossp_router/heuristic.py:4324-4335 | The clamp returns exactly the costs that rise by at least its factor from model to model |
| TeamAllocator.CostFromLeast | src/ossp_router/heuristic.py:4324-4335 | No clamped costs above the predictions with the same light cost are lower |
| TeamAllocator.Pick | src/ossp_router/heuristic.py:4425-4435 | The picked model is the maximum by value and then by lower index |
| TeamAllocator.ValueIsPenalised | src/ossp_router/heuristic.py:4427-4432 | The key is score minus penalty times the risk-weighted normalised cost |
| TeamAllocator.Choose | src/ossp_router/heuristic.py:4422-4457 | The row loop computes the choice of a penalty and its verdict |
| TeamAllocator.SelectModels | src/ossp_router/heuristic.py:4360-4477 | The two search loops and the fallback compute the allocation with 40 halvings |
| AllocatorTheorems.PickAntitone | src/ossp_router/heuristic.py:4425-4435 | A row's model index never rises with the penalty |
| AllocatorTheorems.AntitoneExactly | src/ossp_router/heuristic.py:4425-4435 | That holds for every row the router can predict, in every batch, exactly if the middle risk multiplier is not negative and the multipliers fall by no more than the clamp's factor |
| AllocatorTheorems.PredictedRise | src/ossp_router/heuristic.py:4324-4335 | Under that condition every batch of predicted rows meets the premise of the batch theorems below |
| AllocatorTheorems.ViolatesAntitone | src/ossp_router/heuristic.py:4452-4457 | Once a penalty satisfies the constraints every larger one does |
| AllocatorTheorems.SearchCorrect | src/ossp_router/heuristic.py:4459-4475 | Fallback exactly if 2^40 violates; otherwise the choice of a sufficient penalty with a violating one within 2^-iterations of max(1, penalty) below, or penalty 0 |
| AllocatorTheorems.AllLightFits | src/ossp_router/heuristic.py:4474-4475 | The all-light plan meets the constraints exactly if the tier leaves room for it |
| AllocatorTheorems.ResultFeasibleExactly | src/ossp_router/heuristic.py:4452-4477 | The result meets all three constraints exactly if the tier leaves room, and then only can any assignment |
| AllocatorTheorems.ChoiceMaximisesLagrangian | src/ossp_router/heuristic.py:4422-4436 | A penalty's choice maximises score minus penalty times weight over all assignments of the batch |
| AllocatorTheorems.WeakDuality | src/ossp_router/heuristic.py:4459-4477 | Any assignment scores at most the result plus penalty times its extra weight; none of no greater weight scores more |
| AllocatorAnswers.BestExactly | src/ossp_router/heuristic.py:4422-4436 | A penalty's choice gives every row the model of greatest score less priced, risk-weighted share of the light ranking cost, the cheapest of these, and no other choice does |
| AllocatorAnswers.WithinExactly | src/ossp_router/heuristic.py:4391-4457 | The verdict says that chosen less light cost is at most the safe part of the excess, the high model's cost at most its part of the cap, and twice the middle and 32 times the high rows' light cost at most the share's part of the excess |
| AllocatorAnswers.AllocationExactly | src/ossp_router/heuristic.py:4360-4477 | The router returns the unpenalised best assignment if that keeps the three inequalities; otherwise the best at a penalty that keeps them while one below it by at most 2^-40 of max(1, it) breaks one, or all light if 2^40 breaks one; the result keeps them exactly if the tier leaves room |
| AllocatorInvariance.AllocationPermutes | src/ossp_router/heuristic.py:4373-4477 | Permuting the rows permutes the allocation in the same way |
| AllocatorInvariance.AllocationIgnoresCostLevel | src/ossp_router/heuristic.py:4391-4420 | Rescaling all budget costs and all ranking costs by positive factors changes no selection |
| TrainingCopies.ArrayChoiceAgrees | training/search_standalone.py:120-129 | Argmax by columns picks what the router's keyed maximum picks |
| TrainingCopies.OverLimitsAgrees | training/search_standalone.py:131-136 | The masked sums reach the router's verdict |
| TrainingCopies.Allocate | training/search_standalone.py:75-155 | With the same number of halvings the copy returns exactly the router's allocation |
| TrainingCopies.MoreIterationsPromoteMore | training/search_standalone.py:145-155 | With more halvings no row gets a cheaper model, and the fallback is taken in the same cases |
| TrainingCopies.AllocateVectorized | training/calibrate_safety.py:154-227 | The older copy computes the search under the two caps alone |
| TrainingCopies.VectorizedAgrees | training/calibrate_safety.py:206-227 | Where the share bound cannot bind the older copy equals the newer one |
| TrainingCopies.LooseShareNeverBinds | training/search_standalone.py:117-136 | A share allowance of at least 32 can never bind |
| TrainingCopies.VectorizedPromotesMore | training/calibrate_safety.py:206-227 | Dropping the share bound never makes a row's model cheaper |
| TrainingCopies.VectorizedIsLoose | training/calibrate_safety.py:154-227 | For a multiplier above 1 the older copy returns what the router's search returns under a share ratio of 32 divided by the excess |
| HashRegex.PickIsUnitRisk | baselines/hash_regex.py:379-386 | The baseline's rule is the shipped one with unit risk and one cost |
| HashRegex.SelectModels | baselines/hash_regex.py:361-414 | The first search returns its pass, which `FirstPassExactly` describes, and its predicted ratio, and refuses an empty batch |
| HashRegex.FirstPassFits | baselines/hash_regex.py:372-414 | The first pass fits its cap and falls back exactly if 2^60 does not fit |
| HashRegex.FillUpgrades | baselines/hash_regex.py:417-488 | The second search returns the fill pass and its ratio, and refuses the inputs the source refuses |
| HashRegex.PlanTier | baselines/hash_regex.py:505-524 | The two passes composed, the second on the premium tier only |
| HashRegex.FillNested | baselines/hash_regex.py:449-467 | What a larger penalty upgrades a smaller one upgrades too |
| HashRegex.FillOnlyUpgrades | baselines/hash_regex.py:449-488 | Non-light choices stay; every changed row goes from light to the middle model with a strictly higher score; the total score does not fall |
| HashRegex.FillFits | baselines/hash_regex.py:444-488 | The filled total stays within the larger of the first total and the fill cap |
| HashRegex.PlanWithinTier | baselines/hash_regex.py:509-524 | The plan's ratio is within max(first ratio, 1, 0.65 multiplier), hence within a multiplier of at least 1 |
| HashRegexAnswers.RatioExactly | baselines/hash_regex.py:411-414 | The reported ratio times the light cost is the cost of the selection |
| HashRegexAnswers.FirstPassExactly | baselines/hash_regex.py:361-414 | The first pass is the unpenalised best selection if its cost is at most the light cost times max(1, multiplier times safety); otherwise the best at a penalty within it while one below by at most 2^-80 of max(1, penalty) exceeds it, or all light if 2^60 exceeds it |
| HashRegexAnswers.FirstPassOptimal | baselines/hash_regex.py:376-414 | No selection of no greater cost scores higher than the first pass, the fallback included |
| HashRegexAnswers.FillPassExactly | baselines/hash_regex.py:417-488 | The fill makes every upgrade with a higher score if all fit max(first cost, light cost times max(1, multiplier times safety)); otherwise it prices the upgrades just enough, or makes none if 2^60 does not fit |
| Scoring.CostLaws | src/ossp_router/scoring.py:49-56 | Without tokens the cost is the fixed cost; it is additive in either count; a million more input or output tokens cost the input or the output rate |
| Scoring.MillionMoreTokens | src/ossp_router/scoring.py:138-147 | A million more tokens of one episode's chosen model raise the selected total by that model's rate, and the light total exactly if it is the light model |
| Scoring.CostIsExact | src/ossp_router/scoring.py:49-56 | No operation of an episode's cost rounds at 160 digits |
| Scoring.RunningTotalExact | src/ossp_router/scoring.py:138-147 | Adding an episode to a running total never rounds |
| Scoring.LimitExact | src/ossp_router/scoring.py:154-156 | Multiplying the baseline by the multiplier never rounds |
| Scoring.ScoreTier | src/ossp_router/scoring.py:119-163 | The loop computes the rounded result; on accepted inputs every figure of the report follows from scores, token counts and rates (both totals in millionths, limit, ratio, verdict, warning, quality, tier points and score), and a baseline error comes exactly if the light model costs nothing; a decision range error comes exactly if the decisions do not cover the episodes |
| Scoring.ThresholdExact | src/ossp_router/scoring.py:159-162 | Multiplying the multiplier by the warning ratio never rounds |
| Scoring.RoundedIsExact | src/ossp_router/scoring.py:138-163 | For accepted inputs the source's computation and exact arithmetic give the same result |
| StructuralBudget.CostDecomposes | src/ossp_router/heuristic.py:4402-4407 | The cost of a plan is the light cost plus each promoted group's extra cost |
| StructuralBudget.ExcessFromShares | src/ossp_router/heuristic.py:4445-4449 | The bounded excess is 2 times the middle and 32 times the high predicted light share |
| StructuralBudget.ShareBoundKeepsBudget | README.md:36-49 | Group multiples within 3 and 33 and shares within the share ratio keep the realised cost within the multiplier |
| StructuralBudget.Decisions | src/ossp_router/heuristic.py:4516-4526 | Every episode gets the decision of its row and no other episode gets one |
| StructuralBudget.RouterKeepsBudget | src/ossp_router/heuristic.py:4402-4420 | Within the margins the exact cost of the shipped router's submission is within the multiplier for every batch |
| StructuralBudget.RouterPassesBudget | src/ossp_router/scoring.py:138-156 | Within the margins the scorer's rounded computation passes the shipped router's submission for every batch |
| StructuralBudget.GuaranteedExactly | src/ossp_router/scoring.py:142-147 | That holds for all batches within the parsers' ranges exactly if the policy's light model is ax31-light |
| StructuralBudget.DearLight | src/ossp_router/scoring.py:142-156 | For any other light model a batch within the parsers' ranges and the margins that the scorer finds over budget |
| Attempts.RunWithRetry | src/ossp_router/runtime.py:3042-3106 | The machine's outcome is justified by a history of at most participant + infrastructure - 1 runs, the first valid result winning |
| Attempts.ExactlyOneVerdict | src/ossp_router/runtime.py:3058-3106 | Exactly one verdict holds, and no run follows a valid one, a violation or a pending cleanup |
| Attempts.RecordNumbers | src/ossp_router/orchestrator.py:481-493 | The record's numbers count executions and valid results before each entry |
| Attempts.RecordMatchesCalls | src/ossp_router/orchestrator.py:481-493 | The recorded numbers are those the attempts were called with |
| KeySort.SortedRange | src/ossp_router/orchestrator.py:256-267 | Sorting positions by key and position gives an ordered permutation |
| KeySort.SortedUnique | src/ossp_router/orchestrator.py:256-267 | Keys and positions leave one order only |
| IdOrderAudit.AssignIds | src/ossp_router/orchestrator.py:254-270 | Along the cycle every position receives its successor's identifier |
| IdOrderAudit.AvoidIdentity | src/ossp_router/orchestrator.py:283-285 | The order is a permutation and not the identity |
| IdOrderAudit.MakeVariant | src/ossp_router/orchestrator.py:244-292 | The variant scrambles the inputs along the cycle sorted by the secret's cycle digests and in the order sorted by its order digests, ties by position, the order rotated by one exactly if that sort is the identity; short secrets are refused |
| IdOrderAudit.VariantDetermined | src/ossp_router/orchestrator.py:244-292 | Batch, secret and digest leave one variant only |
| IdOrderAudit.OneCycle | src/ossp_router/orchestrator.py:268-270 | Following the mapping from any identifier returns to it after n steps and not before |
| IdOrderAudit.CycleReachesAll | src/ossp_router/orchestrator.py:256-270 | Every position lies on the cycle of every other |
| IdOrderAudit.NoFixedPoint | src/ossp_router/orchestrator.py:268-282 | With distinct identifiers none keeps its own and no two receive the same |
| IdOrderAudit.Differences | src/ossp_router/orchestrator.py:376-388 | The mismatches are empty exactly if all mapped choices agree, and each is a real difference with both its choices |
| IdOrderAudit.DifferencesInOrder | src/ossp_router/orchestrator.py:376-388 | Every differing pair is listed once, in the order of the mapping |
| IdOrderAudit.RunAudit | src/ossp_router/orchestrator.py:339-409 | Only unfinished infrastructure failures are repeated, at most the allowed number; passed exactly if the last run is valid without a difference |
| IdOrderAudit.TeamRouter | src/ossp_router/heuristic.py:4496-4526 | The submission pairs each identifier with the allocation of the predictions of content alone |
| IdOrderAudit.VariantDistinct | src/ossp_router/orchestrator.py:273-291 | A scramble of distinct identifiers has distinct identifiers |
| IdOrderAudit.RouterPassesAudit | src/ossp_router/orchestrator.py:368-409 | On every scramble of every batch the team router's two submissions agree on all pairs |
| OfficialTier.RunTier | src/ossp_router/orchestrator.py:586-708 | A journal in either directory, or one that cannot be read, stops the tier, then a refused image does; otherwise the outcome follows from its runs, is audited exactly if selected and enabled, and is valid exactly if the audit passed; the tier finishes whenever neither stops it, valid runs carry submissions and the secret is long enough |
| OfficialTier.StatusExactly | src/ossp_router/orchestrator.py:457-478 | Each status follows from the kind of the last official run, whether an audit was due, and the last audit run with its mismatches |
| OfficialTier.ValidMeansCompared | src/ossp_router/orchestrator.py:457-478 | A valid status stands on a valid audit run on the secret's scramble of the inputs without a difference |
| OfficialTier.Verdicts | src/ossp_router/orchestrator.py:457-478 | A submission is selected exactly if none of the three failing statuses applies |
| OfficialTier.TeamRouterNeverReviewed | src/ossp_router/orchestrator.py:660-698 | If the runs execute the team router, no finished tier is sent to review: its audit has no mismatch and passes or stays inconclusive |
| TierDirectories.RunAll | src/ossp_router/orchestrator.py:646-657 | Any number of runs in a directory without a journal: if none reports a pending cleanup, nothing of any attempt is left, and a valid last run's submission is the file; undisturbed, none does |
| TierDirectories.DecidedLeavesNothing | src/ossp_router/orchestrator.py:457-478 | A finished tier whose status is neither infrastructure unavailable nor audit inconclusive has no run with a pending cleanup in either history |
| TierDirectories.RunTierIn | src/ossp_router/orchestrator.py:646-698 | Whatever happens, a finished tier whose status is neither infrastructure unavailable nor audit inconclusive leaves no journal and nothing of any attempt in the official and the audit directory, and the selected submission is the official one's file |
| JournalProtocol.HistoryAccounted | src/ossp_router/runtime.py:2600-2955 | In every state of every history only the journalled attempt owns anything, observed roles have no create outstanding and no result lies beside a journal |
| JournalProtocol.NoLeakAtAnyInstant | src/ossp_router/runtime.py:2438-2547 | Without a journal nothing of any attempt exists or can still appear, at every instant of every history |
| JournalProtocol.NoResultBesideJournal | src/ossp_router/runtime.py:2640-2650 | While a journal is on disk no submission is |
| JournalProtocol.OneOwner | src/ossp_router/runtime.py:2993-3025 | No two attempts ever own something at the same time |
| JournalProtocol.HarmIsForever | src/ossp_router/runtime.py:1585-1647 | Once a stranger's resource was stopped or removed, every later state of the history shows it |
| JournalProtocol.HarmIsPossible | src/ossp_router/runtime.py:1604-1606 | The steps alone allow a removal to hit a stranger |
| JournalProtocol.CrashLeavesHistory | src/ossp_router/runtime.py:2223-2267 | A crash at any instant leaves a history from which the next evaluator continues |
| Evaluator.JudgedExactly | src/ossp_router/runtime.py:1889-1987 | A valid verdict survives exactly if a clean recorded exit confirms it or the container vanished while being stopped, and is then unchanged |
| Evaluator.KindExactly | src/ossp_router/runtime.py:1895-1999 | The operator failed exactly if the verdict says so, the container's state was not settled, or the record contradicts the client (never started, runtime error, no exit, other exit code) outside 126 and 127; the participant failed exactly if the verdict stands as such or the record shows a kill for memory; pending, code and submission follow as well |
| Evaluator.OutputDirectory.NoStrangerHarmed | src/ossp_router/runtime.py:1575-1647 | At no instant of the evaluator's history was a resource of somebody else stopped or removed |
| Evaluator.OutputDirectory.Inspect | src/ossp_router/runtime.py:1355-1402 | Reading our label proves that the create was answered; reading absence on the right engine settles a role without outstanding create |
| Evaluator.OutputDirectory.Remove | src/ossp_router/runtime.py:1827-1841 | Deletes whatever holds the name, so the last label read there must be ours and read for this removal; one reading serves one removal; success settles the role |
| Evaluator.OutputDirectory.StopContainer | src/ossp_router/runtime.py:1803-1824 | Ends whatever runs under the name, so the last label read there must be ours |
| Evaluator.OutputDirectory.WriteJournal | src/ossp_router/runtime.py:2223-2267 | A failed write leaves no journal or the intended one |
| Evaluator.OutputDirectory.Observe | src/ossp_router/runtime.py:2270-2288 | Only answered roles become observed; a failed write leaves the old or the new list |
| Evaluator.OutputDirectory.DropJournal | src/ossp_router/runtime.py:2426-2435 | The journal goes only when its attempt is settled; a failed sync may come after the unlink |
| Evaluator.OutputDirectory.CreateAndConfirm | src/ossp_router/runtime.py:1404-1523 | Success means the label was read as ours; this reading licenses no removal; other roles are untouched either way |
| Evaluator.OutputDirectory.RemoveIfOwn | src/ossp_router/runtime.py:1585-1647 | Removes only after reading our label; without error an answered role is settled |
| Evaluator.OutputDirectory.CleanUp | src/ossp_router/runtime.py:1657-1687 | Without error every attempted and answered workspace resource is gone; if the engine's identity cannot be confirmed nothing is done and an error reported |
| Evaluator.OutputDirectory.RunParticipant | src/ossp_router/runtime.py:897-1149 | Whatever ends the client, only the participant's create can be outstanding, and not after the client exited alone |
| Evaluator.OutputDirectory.StopIfRunning | src/ossp_router/runtime.py:1901-1942 | A stop is asked exactly of a container that seems to run; absence afterwards settles it |
| Evaluator.OutputDirectory.ReconcileParticipant | src/ossp_router/runtime.py:1856-1999 | The result is the one that verdict and evidence call for, in kind, pending state and submission; without pending cleanup the participant is settled; the verdict is valid exactly if it was and the evidence confirms it or the container vanished while stopping; undisturbed, it is judged and the container removed |
| Evaluator.OutputDirectory.BestEffortRemove | src/ossp_router/runtime.py:2002-2025 | Stops and removes only after reading our label, stops exactly what still seems to run, and creates nothing |
| Evaluator.OutputDirectory.RunAndReconcile | src/ossp_router/runtime.py:2820-2888 | An escaping exception, a changed engine and a reconciled run each leave helper and volume answered |
| Evaluator.OutputDirectory.CreateRecorded | src/ossp_router/runtime.py:2727-2776 | A workspace create is recorded as observed only after its label was read |
| Evaluator.OutputDirectory.RunBody | src/ossp_router/runtime.py:2690-2888 | The journal precedes every create, and a result without pending cleanup leaves only answered workspace resources |
| Evaluator.OutputDirectory.CloseJournal | src/ossp_router/runtime.py:2903-2915 | A settled attempt's journal is listed as observed and unlinked, unless writing, identity or unlinking fails; without confirmed identity it is kept |
| Evaluator.OutputDirectory.RunInWorkspace | src/ossp_router/runtime.py:2686-2950 | A result without pending cleanup leaves no journal; only a valid one, borne out by the evidence, is published |
| Evaluator.OutputDirectory.RunOnceLocked | src/ossp_router/runtime.py:2600-2955 | A result without pending cleanup leaves no journal; a valid one is the published submission; an exception may follow a publication, but then of a confirmed result without a journal; undisturbed, the client's verdict is judged by the engine's record and the container removed |
| Evaluator.OutputDirectory.RecoverRole | src/ossp_router/runtime.py:2463-2532 | One role is settled, left unresolved, or stops the recovery; only answered roles become observed |
| Evaluator.OutputDirectory.RemoveAndConfirm | src/ossp_router/runtime.py:2500-2532 | Recovery goes on only if the role's absence was read after the removal |
| Evaluator.OutputDirectory.Reconcile | src/ossp_router/runtime.py:2438-2547 | Recovery never creates or publishes; clean means no journal, blocked means it is kept, and a surviving journal is the same attempt's; undisturbed, it is clean exactly if command and engine match and every role was observed, exists, or is covered by the confirmation |
| Evaluator.OutputDirectory.BindAttemptId | src/ossp_router/runtime.py:2409-2423 | Only a pending result is bound, and only to the journal on disk |
| Evaluator.OutputDirectory.RunOnce | src/ossp_router/runtime.py:2963-3039 | Pending implies infrastructure failure; not pending under the lock implies that nothing of any attempt is left; valid implies published; a participant is charged only where verdict and evidence call for it; a surviving earlier journal implies no create and no publication; no earlier submission is left beside a found or left journal; undisturbed, exactly the result that verdict and evidence call for is returned if recovery was possible, else a pending failure |
| MeasurementJournal.DeskHistoryTracked | src/ossp_router/image_evidence.py:331-519 | At every instant whatever exists or is outstanding is journalled or lost, and a certain create is not outstanding |
| MeasurementJournal.LeaksOnlyIfLost | src/ossp_router/image_evidence.py:749-776 | A container without its journal belongs to an attempt whose journal was abandoned |
| MeasurementJournal.ReconcileSafeExactly | src/ossp_router/image_evidence.py:770-776 | Reconciling a journal keeps the desk free of leaks from every state exactly unless its command matches, its engine differs and the restart is confirmed |
| MeasurementJournal.AbandonCanLeak | src/ossp_router/image_evidence.py:770-776 | A history that ends in that branch with the container outliving its journal |
| MeasurementJournal.CountBytes | src/ossp_router/image_evidence.py:462-477 | The member loop returns the bytes of all files exactly if members and bytes stay within their limits |
| MeasurementJournal.MeasurementDesk.NoStrangerHarmed | src/ossp_router/image_evidence.py:522-602 | At no instant of the desk's history was a container of somebody else removed |
| MeasurementJournal.MeasurementDesk.Remove | src/ossp_router/image_evidence.py:574-590 | Deletes whatever holds the name, so the last label read there must be ours; one reading serves one removal |
| MeasurementJournal.MeasurementDesk.WriteIntent | src/ossp_router/image_evidence.py:605-649 | Linking fails beside an existing journal and leaves it unchanged |
| MeasurementJournal.MeasurementDesk.CleanUp | src/ossp_router/image_evidence.py:522-602 | Success after a possible create means the container is over, removed after our label was read |
| MeasurementJournal.MeasurementDesk.Measure | src/ossp_router/image_evidence.py:331-519 | A verdict on the size comes only when journal and container are gone, and is the byte sum exactly within the limits; beside an earlier journal nothing is created; undisturbed, a verdict comes exactly if there was none |
| MeasurementJournal.MeasurementDesk.Reconcile | src/ossp_router/image_evidence.py:749-846 | On the journal's own engine it goes only with the container settled; it is abandoned only for another engine with confirmation; undisturbed, it goes exactly if the command matches and the restart is confirmed or its own engine shows the container or the create is certain |
| ReportPublisher.FirstTakenBack | tools/benchmark_runtime.py:2022-2026 | Without a marker the set lacking its first publication is recoverable exactly if it coincides with the old set |
| ReportPublisher.UndoMixes | tools/benchmark_runtime.py:2019-2035 | Taking back two publications without a marker passes through a mixture, whatever was there before |
| ReportPublisher.ReportDirectory.CreateMarker | tools/benchmark_runtime.py:1933-1964 | An existing marker is left alone and refused; success means that it is new |
| ReportPublisher.ReportDirectory.Stage | tools/benchmark_runtime.py:2000-2001 | Staging touches no destination and leaves every content in its temporary file |
| ReportPublisher.ReportDirectory.BackUp | tools/benchmark_runtime.py:2002-2012 | Every destination ends absent, its former content in a backup exactly if it existed |
| ReportPublisher.ReportDirectory.Publish | tools/benchmark_runtime.py:2013-2020 | The marker is withdrawn only over a complete set; a late failure is exactly one after that |
| ReportPublisher.ReportDirectory.TakeBack | tools/benchmark_runtime.py:2022-2026 | Deleting publications keeps the transaction undoable; without a marker the way is a mixture |
| ReportPublisher.ReportDirectory.Restore | tools/benchmark_runtime.py:2027-2029 | Backups return to their destinations, the rest stays recorded as unrestored |
| ReportPublisher.ReportDirectory.Undo | tools/benchmark_runtime.py:2021-2036 | A marked transaction stays recoverable at every instant of its undo; an unmarked one exactly if it got nowhere, or over one deletion that brings back the old set |
| ReportPublisher.ReportDirectory.Tidy | tools/benchmark_runtime.py:2037-2042 | Deleting temporary files changes no report and no marker |
| ReportPublisher.ReportDirectory.RollBack | tools/benchmark_runtime.py:2021-2042 | All undone means wholly old including absences; half undone means the unrestored reports have no copy left; the exact condition for an unmarked rollback to stay recoverable |
| ReportPublisher.ReportDirectory.PublishReports | tools/benchmark_runtime.py:1967-2042 | Returning means wholly new, rolled back means wholly old; every instant is marked or unmixed unless the last sync failed, and then exactly if the rollback stopped before its first deletion or after one that brought back the old set; undisturbed, everything is published exactly if no marker was there; where the undo works, a failed publication ends wholly old, without marker or temporary files |
| ClopperPearson.Pascal | training/finalize_search.py:70-74 | The coefficients from factorials satisfy Pascal's rule |
| ClopperPearson.MassRecursion | training/finalize_search.py:64-74 | The distribution for one trial more is the mixture of two for the present number |
| ClopperPearson.WholeMass | training/finalize_search.py:64-74 | All terms together sum to 1 |
| ClopperPearson.MassAtEnds | training/finalize_search.py:66-69 | At rates 0 and 1 the sum equals the values returned without summing |
| ClopperPearson.CdfIsMass | training/finalize_search.py:64-74 | Between the ends the function is the sum of the terms, the special cases included; beyond them it is the value at the end |
| ClopperPearson.CdfAntitone | training/finalize_search.py:64-74 | The distribution function never rises with the rate |
| ClopperPearson.ClopperPearsonUpper | training/finalize_search.py:77-98 | Every rate from the bound up has probability at most alpha; some rate within 2^-80 of the way below exceeds it, or the bound is that close to the observed rate |
| Ridge.Adjunction | training/train_router.py:121-127 | A matrix and its transpose are adjoint |
| Ridge.SystemApplied | training/train_router.py:124-126 | The regularised Gram system applies the matrix and its transpose and adds alpha times the vector |
| Ridge.RowsSolveNormal | training/train_router.py:123-125 | The row branch satisfies the column branch's equations |
| Ridge.LossAround | training/train_router.py:121-127 | Away from a solution the penalised loss grows by two squares |
| Ridge.NormalMinimises | training/train_router.py:121-127 | For positive alpha a solution of the normal equations is the unique minimiser of the loss |
| Ridge.BranchesAgree | training/train_router.py:123-127 | Both branches return the same coefficients |
| Ridge.SolveRidgeMinimises | training/train_router.py:121-127 | Whichever branch is taken minimises the loss, and nothing else does |
| DecimalText.ShowRead | src/ossp_router/protocol.py:27-30 | An accepted integer part is the canonical text of its number |
| DecimalText.ParseFixed | src/ossp_router/protocol.py:209-225 | Fixed notation within the limits is accepted and read back digit for digit |
| DecimalText.AcceptedExactly | src/ossp_router/protocol.py:209-225 | The texts accepted are the fixed notations with at most 40 digits, 30 of them fractional, and no others |
| DecimalText.TextOfNormal | src/ossp_router/protocol.py:559-565 | The printed text is the fixed notation without trailing zeros |
| DecimalText.NormalUnique | src/ossp_router/protocol.py:559-565 | A value has one notation without trailing zeros |
| DecimalText.TextExactlyForEqualValues | src/ossp_router/protocol.py:559-565 | Two decimals print alike exactly if they are equal |
| DecimalText.AcceptedRoundTrip | src/ossp_router/protocol.py:209-235 | Whatever is accepted prints to an accepted text of the same value, and printing again changes nothing |
| PolicyForm.CanonicalExactly | src/ossp_router/protocol.py:568-592 | Two policies have the same canonical form exactly if they are equal, their decimals as numbers |
| PolicyForm.PolicyRoundTrip | src/ossp_router/protocol.py:446-592 | A parsed policy prints to a form that parses to an equal policy with the same form |
| PolicyForm.ParsedIsScoredExactly | src/ossp_router/protocol.py:209-235 | Every parsed decimal is within the scorer's exact range |
| PolicyForm.ParsedPolicyIsScored | src/ossp_router/protocol.py:446-558 | Every parsed policy, read as the scorer reads it, meets the premises of exact scoring, as do its tiers' multipliers |
| PolicyForm.ParsedExactly | src/ossp_router/protocol.py:446-558 | A policy document is accepted exactly if every number is well written and in its range, the rounded weights sum to 1, and the other fields are those of version 1 |
| PolicyForm.ParsedAsWritten | src/ossp_router/protocol.py:446-558 | Every rate, multiplier, weight and ratio is the value of its own text or default, under its own model or tier |
| PolicyForm.WeightCheckExactly | src/ossp_router/protocol.py:537-538 | For every number of digits: all weights of at most so many digits pass exactly if they sum to 1, if and only if it is at most 27 |
| PolicyForm.ExcessAccepted | src/ossp_router/protocol.py:537-538 | 1/2, 3/10 and 1/5 + 10^-28 are accepted although their sum exceeds 1 |
| Tiebreak.TickIsNearest | src/ossp_router/tiebreak_latency.py:112-119 | The comparison time is a whole number of ticks, within half a tick and never half a tick below, and none is nearer |
| Tiebreak.TickOrder | src/ossp_router/tiebreak_latency.py:112-119 | Rounding is monotone and separates totals a full tick apart |
| Tiebreak.MedianSplits | src/ossp_router/tiebreak_latency.py:122-128 | The median is one of the five, with at most two below and two above |
| Tiebreak.RankCandidates | src/ossp_router/tiebreak_latency.py:131-160 | Refuses exactly what has no comparison time; rows come by time and then id, and each rank is one more than the number of strictly faster candidates |
| Tiebreak.RanksFollowTotals | src/ossp_router/tiebreak_latency.py:131-160 | A smaller total never ranks lower, and one smaller by a tick ranks higher |
| Tiebreak.MeasureRounds | src/ossp_router/tiebreak_latency.py:420-457 | The rotation loops measure every candidate once a round in its rotated position |
| Tiebreak.PositionsEven | src/ossp_router/tiebreak_latency.py:420-457 | Over R rounds each of n positions occurs floor(R/n) times, or once more |

## Left out

- Floating-point rounding in the allocators, the ridge solver and the Clopper-Pearson bound; `exp`, `lgamma` and `log` appear as the exact values they stand for.
- Feature extraction, token hashing and the baked coefficients: predictions are arbitrary positive clamped costs and arbitrary scores.
- HMAC and SHA-256: the audit's digest is an arbitrary function, so nothing is claimed about secrecy.
- Docker, subprocess, pipes, signals, permissions and fsync mechanics: only success, failure, late effect and crash are modelled. Files written before a crash count as written.
- An exception raised asynchronously between a file operation and the bookkeeping line after it.
- Stream size, deadline and stderr limits of an export: that it fails is an arbitrary outcome.
- Field-by-field metadata checks, JSON schemas, reports, records on disk and their replacement, command lines, clocks and wall-clock measurement.
- Bagging in `fit_ridge`: it averages solutions of the same solver.
- The aggregate over tiers.
- What a run achieves when engine or disk are disturbed: only safety is claimed then.
- Scoring.ScoreTier: the token and generation counts and the texts rounded to 12 places are not part of the report.
- OfficialTier.RunTier: how an image is resolved is its outcome, the format of its size-evidence hash is not part of it, and the record's metadata is not kept.
- PolicyForm.PolicyRoundTrip: documents with unknown or ill-typed fields, and the digest of the form, are outside the model.
- Evaluator.OutputDirectory.RunParticipant: the client, extraction and validation are one arbitrary outcome; only what they leave outstanding and the form of the verdict is stated.
- Evaluator.OutputDirectory.RunOnce: an exception other than an unavailable infrastructure is returned as raised; of it only the kept history is claimed, and that a submission file it leaves is a confirmed one.
- MeasurementJournal.MeasurementDesk.Measure: the stream's size, deadline and stderr limits are one arbitrary outcome.
- MeasurementJournal.MeasurementDesk.Reconcile: for another engine nothing is promised about the container, because the code promises nothing there.
- HashRegex.PlanTier: takes equally long rows, so the length checks of the source are part of its types.
- Tiebreak.MeasureRounds: each measurement is only its position; the warm-up round and retries of infrastructure failures are not modelled.
