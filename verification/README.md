# go-cascade, modelled and proved

go-cascade routes a Go coding problem through tiers of models, cheapest first.
Candidates are executed, clustered by observed behaviour and scored; a tier whose
score reaches its threshold is accepted if a held-out test partition passes, and
the thresholds carry a Learn-then-Test certificate. This project models that
statistical core, the router it certifies, and five smaller protocols and
transformations, and proves what each of them is for.

| files | what they hold |
|---|---|
| Wrappers, Powers, Binomial, PValue, PValueExact | optional values; exact binomial tails; the Hoeffding-Bentkus p-value without exp or log, and what it is from the counts alone |
| Policy, Means | replay of thresholds on profiled records, and what its averages are from the records alone |
| Grid, GridDrift, Calibration, Search, Cheapest | the threshold grid, the grid search as it runs, and what it returns |
| Sampling, Guarantee | finite weighted populations, n independent draws, and the certificate's guarantee end to end |
| PValueMonotone, ClaimExact | the p-value rises with the error count, and so the exact levels at which the guarantee holds |
| GuaranteeLimits, DisjointErrors, MixedFlags | exactly where that guarantee stops, with populations that break it |
| Headroom | why fan-out separates flaky from confident errors |
| Router, RouterTheorems | the online router's tier loop as a class, and holdout isolation as a two-run property |
| RouterTalk, RouterRuns | everything a run asks, notes, accepts and pays, repair included, read off its prompt log |
| RouterReplay, ProfileTalk | the profiler, what its records say, and the router against the replay |
| Speculative, RaceTalk | the concurrent topology: free of arrival order, what it accepts and pays, and against the sequential one |
| EndToEnd | what the certificate on profiled problems says about the router that runs under it |
| Wilson, RoutingScore, Cluster, ClusterReps | the Wilson score without a square root, grouping, and the configuration checks built on it |
| LockProgram, LockEdits | a small statement language with locks, defers and exits; the scar-free mutation operators and when they always keep the meaning |
| LockExact, LockVisits, LockDeferred | exactly which runs they keep, for one block and for whole functions |
| LockOffers, LockLimits | which sites the code offers, that its tree edits are those operators, and offered sites that fail |
| AstEdits | mutation sites applied to and undone on one shared tree |
| Canonical, CanonicalOrder, CanonicalTree | renaming locals for the canonical hash: which names, in what order, as a function and in place |
| Absorb, AbsorbShuffle, AbsorbSweep, AbsorbRows | absorbing part of the stream, sweeping the certificate over it, and what each row says |
| Resume, ResumeTheorems, ResumeRecords | the paired run's checkpoints under kills |
| LazyCache, LazyDeadlock | a compute-once cache under interleaving, and exactly when it deadlocks |
| IntegerMean | a floored mean in wrapping int64 |

Methods carry the loops of the source and are proved equal to specification
functions; the lemmas beside them say what those functions mean, in terms of the
inputs: the records, the prompt log, the syntax tree, the kill points.

## What the proofs found

- The promise P[risk(tau) <= alpha] >= 1 - delta holds end to end for two or more
  tiers, alpha away from 0 and 1 by 1e-12, records collected with one shadow flag, and
  fewer than 10^12 draws (more, if the least error count whose term `h1` keeps passes
  already). It carries over to the router: with fixed outcomes and repair off, the
  certified router leaves more than alpha of the problems unsolved with probability at
  most delta.
- Where delta is not divided (fixed-sequence, or Bonferroni on a grid of one level) the
  conditions have an exact form for every alpha between 0 and 1: the claim holds for all
  samples of up to n draws if and only if, for each size j up to n, the error counts that
  pass come up with probability at most delta at an error rate of alpha.
- Each condition is needed. With one tier nothing is tested and everything is
  certified. Within 1e-12 of 0 and below 10^12 draws the claim holds if and only if
  delta >= 1 - alpha, and within 1e-12 of 1, for n < 10^12 draws, if and only if
  delta >= 1 - alpha^n. Bonferroni with a level to divide delta among holds at either end
  only if delta >= 1: when each problem is answered right by one tier alone, every
  vector is bad and every sample certifies one. At 10^12 draws or more the term that
  `h1` drops makes the p-value smaller than the tail it must dominate, and the
  certificate fails at the level of one error's p-value.
- `Calibrate` chooses between the shadow subset and the full sample by counting
  shadow records in the draw. For populations that mix the flags the bound is
  delta * (1 + P[shadow preferred]), and from 30 draws on, and only from there, delta
  itself does not hold: at the level of n error-free points some such population breaks
  it, for every alpha clear of both ends.
- `buildGrid` repeats vectors exactly when the rounded levels drift from the
  thousandths by more than half a unit, which no step of 0.001 or more does.
- "The gap WIDENS with N" holds from n to n + 1 if and only if there is no k from 1 to n
  that the right and the wrong answer are equally likely to be reproduced exactly k
  times of n + 1. Pairs symmetric about one half, such as 0.9 against 0.1, gain nothing
  from any odd fan-out to the next even one.
- The scar-free operators keep a run's locks exactly when what they move or cover
  performs no operation on the lock on that run and falls through, and for a deferred
  Unlock when nothing after it does up to the function's end. In a whole function,
  loops included, the mutant of a cleanly ending run ends cleanly, where the Unlock is a
  plain one, if and only if that holds at every visit to the block. The code checks only
  part of this: for each operator there is a site it offers and a program that ends
  cleanly and whose mutant does not.
- A resumed run never repairs a problem whose checkpoint was split between the two
  files. A restart without -resume leaves arms that do not match if and only if it is
  killed after its first file write and before its second and the old judge ids are
  not a subsequence of what that first write held. A finished run records an id twice
  if and only if a problem that profiles is listed twice before any cancellation.
- A run's log explains it: who was repaired and with which diagnostic, who voted, what
  was accepted, what the next tier was told and every dollar spent follow from the
  prompts sent and the replies to them. A representative that passes the visible tests
  and falls to the held-out ones is never recorded as a failure; only a note is carried.
- The comment on `preferRepair` says that with a certificate the gains are measured
  rates; the code always weighs 0.45 against 0.35.
- `MinSamplesFor` reports 0 although a fan-out exists exactly for wants above the
  score of 100000 samples and below 1. The unanimous score is rational, n/(n + z^2),
  although a comment in the configuration calls it irrational.
- The comment in the mean's reference solution says no intermediate leaves int64. Only
  the running quotient ever does, by exactly one unit, if and only if the mean's floor
  is -2^63 and the last element carries; the wrapped result is right all the same.
- The lazy cache returns nil for a key exactly when that key's one compute call returned
  nil or panicked. Its Gets can wait for each other for good if and only if the Gets
  that compute functions make have a cycle; two keys that compute each other are enough.
- The planner's reply is charged by the profiler even when it is empty, and by the
  router only when it is not, so the profiled cost is an upper bound.
- The canonical form is stable under a change of local names exactly when the walks
  give the same label to everything they rename that is no local: the function's own
  name, composite-literal keys, struct fields, labels, package-level names, and the
  inner fields of nested selectors. T{x: x} and x.x.y are the smallest failures. Function
  literals' parameters are never declared, so their names show in the hash unless a
  declared local has the same name, and so does splitting a name that two variables
  share.

## Model

| member | source | states |
|---|---|---|
| PValue.BinomCdfIsTheExactTail | internal/calibrate/stats.go:73-86 | the documented P(X <= k): on every k, n and p the branches agree with the exact finite binomial sum |
| PValue.LikelihoodRatioBoundsTail | internal/calibrate/stats.go:105-127 | the Hoeffding term, written as a rational power, bounds the binomial tail below the mean |
| PValue.PValueDominatesExactTail | internal/calibrate/stats.go:88-127 | the p-value is at least P(Bin(n, alpha) <= k) if and only if n is 0, or the empirical risk reaches alpha, or alpha is clear of both ends and `h1` keeps the count's term; for every n, and for n of 10^12 or more unless alpha is between 1e-12 and 5e-12 |
| PValue.KeptPValueDominates | internal/calibrate/stats.go:89-103 | the positive half for every n: k is 0 or k/n is above 1e-12 |
| PValue.PValueFailsWhereTermDropped | internal/calibrate/stats.go:89-103 | where the term is dropped and 5k <= n*alpha, the p-value is strictly below the tail |
| PValueExact.PValueIsTheLeastOfThree | internal/calibrate/stats.go:116-127 | below a risk of alpha the p-value is at most 1, at most e times P(Bin(n, alpha) <= k) and at most alpha^k (1-alpha)^(n-k) n^n / (k^k (n-k)^(n-k)), without the k-th powers where `h1` drops them, and it is one of the three |
| PValueExact.TermIsLikelihoodRatio | internal/calibrate/stats.go:89-103 | exp(-n h1(k/n, alpha)) is that ratio of likelihoods, in whole powers |
| PValueExact.PValueElsewhere | internal/calibrate/stats.go:116-122 | it is 1 on no points or at a risk of alpha or more, and 0 below that for alpha within 1e-12 of 0 or 1 |
| PValueExact.EulerIsTheSeries | internal/calibrate/stats.go:125 | the constant is 1/0! + ... + 1/17! to within 1e-15 |
| PValue.MinCalibrationSize | internal/calibrate/stats.go:129-148 | the least n with (1-alpha)^n <= delta |
| PValue.PValueFloor | internal/calibrate/stats.go:113-115 | for every n, no error count gives a p-value below (1-alpha)^n, and zero errors give exactly that |
| PValue.CertifiableIffFloorReached | internal/calibrate/stats.go:129-148 | n points can pass the test for some error count if and only if n reaches MinCalibrationSize |
| Binomial.CdfAntitoneInRate | internal/calibrate/stats.go:73-86 | the tail falls as the true error rate rises, for every n and k |
| Policy.Replay | internal/calibrate/ltt.go:168-187 | the walk stops at the first tier that accepts, the last one always accepting, and pays for every tier reached |
| Policy.ReplayTruth | internal/calibrate/ltt.go:232-246 | stops where Replay stops and reports execution truth there |
| Policy.CascadeSpend | internal/calibrate/selfconsistency.go:216-230 | spends what Replay spends on a record that reached the tiers |
| Policy.WalkCascade | internal/calibrate/baseline.go:28-83 | the baselines' inner walk stops at Replay's tier at Replay's cost |
| Policy.Baselines | internal/calibrate/baseline.go:28-83 | the three arms are the first-tier, replayed and last-tier policies scored on truth over the records that reached a model |
| Policy.Risk | internal/calibrate/ltt.go:189-210 | empirical risk and mean cost of a threshold vector; risk 1 on no records |
| Policy.RealizedRisk | internal/calibrate/ltt.go:212-230 | the share of records whose accepted answer is wrong in truth |
| Policy.StopIsUnique | internal/calibrate/ltt.go:174-187 | a tier that accepts while none before it does is the tier every walk stops at |
| Policy.RaisingThresholdsEscalates | internal/calibrate/ltt.go:422-423 | raising thresholds pointwise never stops the walk earlier and, with non-negative costs, never spends less |
| Policy.RiskGapIsOracleNoise | internal/calibrate/ltt.go:212-230 | realized minus empirical risk is exactly accepted false passes minus accepted false failures, over n |
| Policy.SoundOracleHasNoGap | internal/calibrate/ltt.go:212-219 | labels that are truth make the two risks equal |
| Means.RecordOutcome | internal/calibrate/ltt.go:168-187 | a record costs the sum of its tiers through the first that accepts, or its cache cost on a hit, and answers what that tier or the cache answered |
| Means.RecordTruth | internal/calibrate/ltt.go:232-246 | and is truly wrong as that tier's execution truth, or its label without one, says |
| Means.AveragesOfOne | internal/calibrate/ltt.go:189-230 | the mean cost, risk and realized risk of one record are its own |
| Means.AveragesJoin | internal/calibrate/ltt.go:189-230 | those of two samples together are their size-weighted averages |
| Means.ArmsOfOne | internal/calibrate/baseline.go:28-83 | each arm on one record is what its first, accepting or last tier cost and truly answered; a record that reached no model adds nothing |
| Means.ArmsJoin | internal/calibrate/baseline.go:28-83 | each arm on two runs of records is the size-weighted average of the two |
| Grid.BuildGrid | internal/calibrate/ltt.go:511-533 | the regrown grid is all vectors over the levels the loop produces |
| Grid.GridListsEveryVectorOnce | internal/calibrate/ltt.go:511-533 | for steps of at least 0.001 every level combination occurs exactly once and nothing else occurs |
| GridDrift.GridListsOnceExactlyWhen | internal/calibrate/ltt.go:511-533 | for every positive step: exactly once if and only if the last level has not drifted by more than half a thousandth |
| GridDrift.LevelCount | internal/calibrate/ltt.go:516-519 | level i is i * step rounded to thousandths, for every i with i * step <= 1 + 1e-9 and no other |
| Cheapest.GridInLexOrder | internal/calibrate/ltt.go:519-532 | without repeated levels the grid is in strict lexicographic order |
| Grid.VisitOrderSorts | internal/calibrate/ltt.go:424-435 | the order visits every grid point once, by falling sum and then lexicographically |
| Cheapest.BeforeExactlyWhen | internal/calibrate/ltt.go:428-435 | a vector is visited before another if and only if its sum is larger, or the sums are equal and its entry is larger where the two first differ |
| Grid.DominatingVectorsComeFirst | internal/calibrate/ltt.go:422-435 | a vector pointwise above another is visited before it |
| Calibration.Partition | internal/calibrate/ltt.go:319-363 | which records are dropped or counted, and when the shadow subset is preferred |
| Calibration.SearchFixedSequence | internal/calibrate/ltt.go:436-444 | the walk returns the first cheapest point of the run of rejections |
| Calibration.SearchBonferroni | internal/calibrate/ltt.go:414-420 | the first cheapest point that passes delta over the grid size |
| Calibration.FindLeastRisk | internal/calibrate/ltt.go:447-461 | the fallback is the first point of least empirical risk |
| Calibration.Calibrate | internal/calibrate/ltt.go:315-471 | the certificate or refusal, field by field but for the note, the mutation mean and the time, on every input including no usable records and one tier |
| Means.EveryRecordIsAccountedFor | internal/calibrate/ltt.go:319-363 | the stream is the counted shadow records when there are 30 and all counted ones otherwise; the certificate says how many records were contaminated, unsound, shadow, inconclusive or timed out, and every record is counted or left out for a stated reason |
| Means.RefusesExactlyWhen | internal/calibrate/ltt.go:363-376 | Calibrate refuses if and only if every record is contaminated or unsound, naming the count |
| Means.FilterOfOne | internal/calibrate/ltt.go:319-363 | each record is kept or left out on its own merit |
| Means.FilterJoins | internal/calibrate/ltt.go:319-363 | and those kept of two runs of records are those kept of each, in order |
| Cheapest.CalibrateReturnsCheapest | internal/calibrate/ltt.go:315-471 | with two or more tiers the certificate is valid if and only if the records prove some grid vector; then its thresholds are a proven vector of least mean cost, otherwise a vector of least risk, and it reports that vector's own risk, cost, realized risk and p-value |
| Cheapest.TiesGoToTheFirst | internal/calibrate/ltt.go:411-461 | among equally cheap proven vectors the first visited wins, lexicographically first for Bonferroni; so does the first of the least risky |
| Cheapest.SoundCertificateIsNotNominal | internal/calibrate/ltt.go:463-471 | with sound labels a valid certificate's realized risk is its empirical risk, below alpha, and it is never flagged nominal |
| Cheapest.OneTierReports | internal/calibrate/ltt.go:391-397 | with one tier it is valid without thresholds and reports the lone tier's numbers |
| Search.PrefixIsCertifiedSet | internal/calibrate/ltt.go:436-444 | a grid point is reached by the fixed-sequence walk if and only if it and everything visited before it passes |
| Search.CertifiedUpwardClosed | internal/calibrate/ltt.go:421-445 | if a vector is certified, every grid vector pointwise above it is certified too |
| Search.FixedSequenceReturnsCheapestCertified | internal/calibrate/ltt.go:421-445 | the search succeeds if and only if some point is certified, and returns a certified point of least mean cost |
| Search.BonferroniReturnsCheapestPassing | internal/calibrate/ltt.go:413-420 | the same for points passing the divided level |
| Search.ValidCertificatePassedItsTest | internal/calibrate/ltt.go:463-470 | with two or more tiers a valid certificate names a grid vector whose own p-value is at most delta |
| Search.NothingCertifiesBelowTheFloor | internal/calibrate/stats.go:137-142 | below MinCalibrationSize no sample of any size is certified by either method |
| Search.ValidIffFinalTierPasses | internal/calibrate/ltt.go:421-445 | with 1.0 on the grid, no cache hits and scores below 1, fixed-sequence certifies if and only if the final tier's error count passes |
| Search.OneTierCertifiesBlindly | internal/calibrate/ltt.go:391-397 | one tier is always declared valid, even at empirical risk 1 |
| Sampling.CountsFollowChain | internal/calibrate/ltt.go:189-191 | the number of counted draws and errors in n independent draws follows the two-stage chain used by the guarantee |
| Sampling.RandomSampleSize | internal/calibrate/ltt.go:350-358 | a rejection bound for every fixed stream size from some size on holds, times the chance of a stream that long, when the size is itself random |
| Sampling.ErrorsFollowBinomial | internal/calibrate/ltt.go:189-191 | when every draw is counted the number of errors is binomial |
| Guarantee.PValueIsSuperUniform | internal/calibrate/stats.go:105-112 | if each point errs with probability at least alpha, P[p-value <= t] <= t, for alpha clear of both ends and every size below 10^12 or at which the least kept error count passes |
| Guarantee.BadVectorRarelyPasses | internal/calibrate/ltt.go:405-410 | one vector with population risk above alpha passes its test, on a stream of some least length, with probability at most the level times the chance of such a stream |
| Guarantee.FixedSequenceGuarantee | internal/calibrate/ltt.go:421-445 | fixed-sequence certifies a vector of risk above alpha with probability at most delta |
| Guarantee.BonferroniGuarantee | internal/calibrate/ltt.go:413-420 | so does Bonferroni, by a union bound over the grid |
| Guarantee.CertificateTheorem | internal/calibrate/ltt.go:189-191 | P[valid and population risk > alpha] <= delta, for every finite population collected with one shadow flag, both methods, and every n below 10^12 or at which the least kept error count passes |
| PValueMonotone.PValueMonotone | internal/calibrate/stats.go:89-127 | one more error never lowers the p-value, for every n, the terms that `h1` drops included |
| PValueMonotone.PassesExactlyWhen | internal/calibrate/stats.go:116-127 | so a count passes a level if and only if it is at most the largest count that does |
| ClaimExact.ClaimHoldsExactlyWhen | internal/calibrate/ltt.go:189-191 | with delta undivided and any alpha between 0 and 1, the claim holds for every population collected with one flag, every number of tiers but one and every sample of up to n draws if and only if, for each size j from 1 to n, P(Bin(j, alpha) <= the largest passing count) <= delta |
| Guarantee.MixedStreamTheorem | internal/calibrate/ltt.go:347-363 | at most delta * (1 + P[the draw prefers the shadow subset]) for every population |
| MixedFlags.MixedFlagsBreakTheClaim | internal/calibrate/ltt.go:347-363 | and more than delta for some: for every alpha clear of both ends and every n of at least 30 draws, at the level of n error-free points, a population that mixes the flags is miscertified too often |
| MixedFlags.FewDrawsKeepTheClaim | internal/calibrate/ltt.go:347-363 | below 30 draws mixed flags do no harm: delta bounds every population |
| MixedFlags.MixedFlagsMatterExactlyWhen | internal/calibrate/ltt.go:347-363 | n draws of a mixed population break the claim at some delta if and only if n is at least 30 |
| GuaranteeLimits.LikelyPassesBreakTheClaim | internal/calibrate/ltt.go:405-410 | if every error count up to c passes and c or fewer errors are likelier than delta at a risk of alpha, some population is miscertified with probability above delta |
| GuaranteeLimits.LowAlphaExactlyWhen | internal/calibrate/stats.go:92-94 | for alpha within 1e-12 of 0 the claim holds below 10^12 draws if and only if 1 - alpha <= delta, and under Bonferroni with a positive level on the grid if and only if 1 <= delta |
| GuaranteeLimits.HighAlphaExactlyWhen | internal/calibrate/stats.go:92-94 | for alpha within 1e-12 of 1 it holds for n draws if and only if 1 - alpha^n <= delta, and under Bonferroni with a positive level if and only if 1 <= delta |
| DisjointErrors.DisjointErrorsBreakTheClaim | internal/calibrate/ltt.go:413-420 | under Bonferroni, if every count short of all errors passes the divided level, more than 1/(1 - alpha) tiers make the claim fail with probability 1 |
| GuaranteeLimits.HugeSampleBreaksTheClaim | internal/calibrate/stats.go:95-102 | from 10^12 draws on with n*alpha >= 5 the certificate fails at the level of one error's p-value; every failing level is given by ClaimExact.ClaimHoldsExactlyWhen |
| GuaranteeLimits.OneTierBreaksTheClaim | internal/calibrate/ltt.go:391-397 | with one tier the claim fails with probability 1 |
| Headroom.BinomGe | results/headroom_theorem.py:40-42 | the loop computes the exact upper tail |
| Headroom.AtLeastIsComplement | results/headroom_theorem.py:40-42 | which is the complement of the lower tail |
| Headroom.BestDiscrimination | results/headroom_theorem.py:45-55 | the first cluster size of largest acceptance gap |
| Headroom.TailMixes | results/headroom_theorem.py:40-42 | n S_{n-1}(k) = (n-k) S_n(k) + k S_n(k+1) |
| Headroom.HeadroomMonotone | results/headroom_theorem.py:17-23 | the best gap never shrinks as the fan-out grows, for every pair of probabilities |
| Headroom.ConfidentErrorLeavesNoHeadroom | results/headroom_theorem.py:17-23 | it is 0 at every fan-out when the two probabilities are equal |
| Headroom.FlakyErrorLeavesHeadroom | results/headroom_theorem.py:17-23 | it is at least the difference of the probabilities, so positive for a flakier error |
| Headroom.WidensExactlyWhen | results/headroom_theorem.py:17-23 | one more sample widens the best gap if and only if the two answers are equally likely to be reproduced exactly k of n + 1 times for no k from 1 to n |
| Headroom.SymmetricPairsStall | results/headroom_theorem.py:17-23 | so a pair symmetric about one half has the same best gap at 2h as at 2h - 1 samples |
| Headroom.HeadroomNeedNotWiden | results/headroom_theorem.py:17-23 | 0.9 against 0.1: the best gap is 0.8 at one sample and at two |
| Router.FirstWith | internal/cascade/cascade.go:1000-1007 | the representative lookup finds the first candidate with that index, or none when there is none |
| Router.Session.SampleTier | internal/cascade/cascade.go:643-728 | which prompts a fan-out sends, with which avoid notes, what comes back and what it costs |
| Router.Session.RecordFailure | internal/cascade/cascade.go:947-961 | only refuted, parseable candidates enter the failure cache, once per canonical form, last 64 kept |
| Router.Session.RepairLoop | internal/cascade/cascade.go:875-920 | the rounds of repair, their prompts and trace, and the repaired candidate if any |
| Router.Session.Survey | internal/cascade/cascade.go:377-413 | a tier's sampling and, if nothing survives, recording and repair |
| Router.Session.Decide | internal/cascade/cascade.go:404-466 | escalate on no survivor or a low score, otherwise accept or reject on the held-out partition |
| Router.Session.RunTier | internal/cascade/cascade.go:373-466 | one pass of the tier loop on the whole router state |
| Router.Session.Sequential | internal/cascade/cascade.go:361-468 | the whole run ends in the state of the specification, planner call included |
| RouterTalk.TierIsReadable | internal/cascade/cascade.go:373-466 | a tier's prompts carry the plan, the carried notes and every known failure; who votes, who is put to the held-out tests and at which score (0.6 and 0.5 without a certificate), what is accepted, noted for the next tier, traced and paid all follow from its log |
| RouterTalk.RepairIsReadable | internal/cascade/cascade.go:875-920 | repair asks with the source, stage and diagnostic of the refuted program before it, at most repairDepth times, until a reply passes or is no program; what passes is the candidate returned |
| RouterRuns.RefutedSamplesAreRepaired | internal/cascade/cascade.go:391-402 | a tier reached, none of whose samples survives and for which repair is worth its price, does repair the first sample that got furthest, and what passes votes with the samples |
| RouterRuns.OneRepairSolves | internal/cascade/cascade.go:391-466 | one tier, one refuted sample and a repair that passes everything: the run asks for it and accepts it |
| RouterRuns.RepairIsPreferredExactlyWhen | internal/cascade/cascade.go:922-945 | below the last tier, on positive prices, if and only if 7 times one repair call costs less than 9 times the next tier's sample |
| RouterRuns.RunIsReadable | internal/cascade/cascade.go:361-468 | a whole run: the plan first and once, every tier reached reads as its log says, and nothing happens after acceptance |
| RouterRuns.SequentialPays | internal/cascade/cascade.go:361-468 | it spends exactly what its prompts, and the held-out tests it consulted, cost |
| RouterRuns.TierRemembers | internal/cascade/cascade.go:391-452 | a tier records its whole sample when none survives, and a rejected representative only if the visible tests refuted it too |
| RouterRuns.RecordsTheNews | internal/cascade/cascade.go:947-961 | while there is room, recording appends each new canonical form once, in order |
| RouterRuns.OldestMakesRoom | internal/cache/cache.go:213-226 | beyond 64 the oldest goes |
| RouterRuns.CacheStaysSmall | internal/cache/cache.go:213-226 | at most 64 are kept, no form twice, and what failed last for certain |
| RouterTheorems.TierIsolation | internal/cascade/cascade.go:431-452 | two worlds that differ only in the held-out partition send the same prompts in a tier; equal verdict bits leave equal notes and failures |
| RouterTheorems.HoldoutIsolation | internal/cascade/cascade.go:431-452 | two whole runs send identical prompts up to and including the first tier whose verdict bit differs |
| RouterTheorems.PromptsDependOnBitsOnly | internal/cascade/cascade.go:361-468 | equal verdict bits make the whole prompt logs and the accepted answers equal |
| RouterTheorems.AcceptedMeansHeldOutPassed | internal/cascade/cascade.go:431-466 | whatever is accepted passed the held-out partition |
| RouterReplay.Profile | internal/cascade/profile.go:24-87 | the record: score, held-out verdict and cost of every tier, the plan charged to tier 0 once |
| ProfileTalk.ProfileIsReadable | internal/cascade/profile.go:24-87 | every tier is sampled with the same plan and notes; its entry is the cluster score and held-out verdict of whoever speaks for it, at the price of its prompts and that verdict, with the plan on tier 0 |
| RouterReplay.RouterStopsAtFirstPass | internal/cascade/cascade.go:361-468 | with fixed outcomes and repair off, the router accepts at the first tier where Replay's rule stops and the held-out run passes, and nowhere else |
| RouterReplay.RouterDominatesReplay | internal/cascade/cascade.go:361-468 | where Replay is correct the router accepts that tier at no greater cost; otherwise it ends unsolved or accepts a later tier on a held-out pass |
| RouterReplay.UnsolvedAtMostRisk | internal/calibrate/ltt.go:189-210 | over any problems the router leaves at most Replay's errors unsolved |
| EndToEnd.CertifiedRouterSolves | internal/calibrate/ltt.go:189-191 | over the draw of profiled problems, P[valid and the router under the certificate leaves more than alpha of the admitted problems unsolved] <= delta |
| Speculative.SortedWinnersAreOrderFree | internal/cascade/cascade.go:519-544 | sorting makes the winners independent of the order of completion |
| Speculative.BillIsOrderFree | internal/cascade/cascade.go:497-518 | so is the bill |
| Speculative.Speculative | internal/cascade/cascade.go:473-593 | for every completion order the run returns the same answer, cost and trace |
| RaceTalk.RaceIsReadable | internal/cascade/cascade.go:473-593 | it accepts the cheapest tier whose representative passes the held-out tests, nothing only if all fall, and pays for the plan, every fan-out and each held-out test tried, with one trace entry for each |
| Speculative.SpeculativeIsZeroThresholdCascade | internal/cascade/cascade.go:473-593 | it accepts what the sequential topology accepts with every threshold 0 |
| Speculative.SpeculativeSolvesNoLess | internal/cascade/cascade.go:469-472 | whatever a sequential run solves under any thresholds it solves too, at that tier or a cheaper one |
| Wilson.ScoreIsTheCut | internal/cluster/cluster.go:119-132 | for any root the square root returns, the clamped formula is at least t if and only if the square-free condition holds |
| RoutingScore.UnanimousIsTheCut | internal/cluster/cluster.go:161-170 | the unanimous score is exactly n / (n + z^2) |
| RoutingScore.UnanimousGrows | internal/cluster/cluster.go:165-169 | strictly increasing in n |
| ClusterReps.QuotedCeilings | internal/cluster/cluster.go:161-170 | 0.270, 0.425 and 0.649 at one, two and five samples, as documented |
| RoutingScore.MoreAgreementScoresMore | internal/cluster/cluster.go:134-147 | a larger class among the same samples never scores lower |
| RoutingScore.DissentScoresLess | internal/cluster/cluster.go:134-147 | one more dissenting sample never raises the score |
| RoutingScore.MoreSamplesScoreMore | internal/cluster/cluster.go:137-144 | the same share of m times the samples scores at least as high |
| RoutingScore.BelowTheShare | internal/cluster/cluster.go:134-147 | a positive share is never itself reached |
| RoutingScore.CeilingIsUnanimity | internal/cluster/cluster.go:161-170 | no arrangement of at most m samples scores above m unanimous ones |
| RoutingScore.RepairStaysBelowTheCeiling | internal/cascade/cascade.go:391-402 | nor does a lone repaired candidate among n + 1 |
| RoutingScore.MinSamplesFor | internal/cluster/cluster.go:172-186 | the least unanimous fan-out up to the cap that reaches the wanted score, or 0 |
| RoutingScore.CapHidesAnAnswerExactlyWhen | internal/cluster/cluster.go:172-186 | 0 hides an existing answer if and only if the want lies above the cap's score and below 1 |
| RoutingScore.MaxAttainableScore | internal/config/config.go:273-289 | the largest unanimous score over the tiers |
| RoutingScore.DefaultAdmitScore | internal/config/config.go:291-319 | the least unanimous score over the tiers, so every tier meets it on unanimity |
| RoutingScore.CheckAdmissionReachable | internal/config/config.go:321-367 | rejects a score if and only if no run of any tier attains it, and its suggestions work |
| Cluster.Group | internal/cluster/cluster.go:65-117 | one sorted class per behaviour that occurs, whatever order the map is ranged over |
| Cluster.GroupingIsUnique | internal/cluster/cluster.go:65-117 | the result is determined by the candidates |
| Cluster.GroupIsAPartition | internal/cluster/cluster.go:65-117 | classes hold exactly the candidates of their behaviour, no behaviour has two, and the sizes add up |
| Cluster.MembersBehaveAlike | internal/cluster/cluster.go:41-63 | a candidate is in the class of its behaviour, and verified classes hold survivors only |
| Cluster.FirstVerifiedIsLargest | internal/cluster/cluster.go:102-115 | the class Score finds first is a largest verified one |
| ClusterReps.RepresentativeIsSimplest | internal/cluster/cluster.go:82-101 | the representative is a candidate of its class that none of the class is simpler than |
| ClusterReps.MassesAddUp | internal/cluster/cluster.go:90 | each class has its share of the candidates as mass, and the masses add up to 1 |
| Cluster.Score | internal/cluster/cluster.go:134-159 | the first verified class and the total size, or nothing when no class is verified |
| Cluster.Route | internal/cluster/cluster.go:134-159 | grouping and scoring a sample: nothing exactly when no candidate survived; else a largest verified class, a representative that behaves as it does, and no score above unanimity |
| LockProgram.EditMatchesInContext | internal/verify/mutation.go:578-588 | an edit that preserves a block's runs preserves them at any depth of any program |
| LockProgram.LiteralEditMatchesInContext | internal/verify/mutation.go:578-588 | an edit that preserves a whole function's runs preserves them where that function is a literal, at any depth |
| LockEdits.FindUnlock | internal/verify/mutation.go:596-607 | the matching Unlock is the first one on the same receiver later in the block |
| LockOffers.CollectIn | internal/verify/mutation.go:578-804 | the sites collected from a block are exactly the offered ones, comment vetoes apart |
| LockOffers.EscapeOfferedExactlyWhen | internal/verify/mutation.go:727-733 | operator 2 is offered if and only if the section it leaves still guards something |
| LockOffers.UndeferOfferedExactlyWhen | internal/verify/mutation.go:641-676 | operator 2b if and only if the section it leaves still guards something and nothing it uncovers can exit |
| LockOffers.ExitsExactlyWhen | internal/verify/mutation.go:464-506 | the veto fires if and only if a return, break, continue or panic stands in the block outside its literals |
| LockOffers.EscapeDenotesEscaped | internal/verify/mutation.go:746-760 | the in-place swap is operator 2, whatever the statements mean |
| LockOffers.UndeferDenotesUndeferred | internal/verify/mutation.go:678-683 | the list put in place of the block's own is operator 2b |
| LockOffers.DowngradeDenotesDowngraded | internal/verify/mutation.go:621-639 | renaming the selectors is operator 1, and the lock's type becomes one that has the read lock |
| LockEdits.EscapeKeepsMeaning | internal/verify/mutation.go:727-770 | moving the last guarded statement past the Unlock keeps exits, variables, defers and every lock's final state, if that statement neither touches the lock nor exits |
| LockEdits.DowngradeKeepsMeaning | internal/verify/mutation.go:613-639 | the same for the read-lock downgrade with a plain Unlock, if the section neither touches the lock nor exits |
| LockEdits.DowngradeDeferredKeepsMeaning | internal/verify/mutation.go:613-639 | and with a deferred Unlock, over the rest of the function |
| LockEdits.UndeferKeepsMeaning | internal/verify/mutation.go:641-725 | the undeferred escape behaves the same on every path, given the veto, no hidden panic and no later use of the lock |
| LockEdits.BalancedRunsStayBalanced | internal/verify/mutation.go:522-534 | a run that ended with no lock fault and no lock held still does, with the same variables and the same way out |
| LockExact.EscapeKeepsLockExactlyWhen | internal/verify/mutation.go:727-770 | on one run of the block, whatever surrounds it: same exit, variables and other locks, and this lock ends the same if and only if the moved statement was not reached or fell through silent on it |
| LockExact.DowngradeKeepsLockExactlyWhen | internal/verify/mutation.go:613-639 | the same for the downgrade against a plain Unlock, if and only if the Lock was not reached or the section fell through silent |
| LockExact.DowngradeDeferredKeepsLockExactlyWhen | internal/verify/mutation.go:613-639 | and against a deferred Unlock, if and only if the Lock was not reached, or the defer was and nothing operated on the lock up to the deferred call |
| LockExact.UndeferKeepsLockExactlyWhen | internal/verify/mutation.go:641-725 | and for the undeferred escape, if and only if the defer was not reached, or the covered region fell through and nothing operated on the lock from the escaping statement to the deferred call |
| LockVisits.EscapeStaysCleanExactlyWhen | internal/verify/mutation.go:727-770 | on a clean run of any function, the block at any depth under ifs and loops, the mutant ends clean if and only if at every visit the moved statement crossed quietly or was not reached |
| LockVisits.DowngradeStaysCleanExactlyWhen | internal/verify/mutation.go:613-639 | likewise for the downgrade against a plain Unlock: every visit's section fell through silent or was not reached |
| LockDeferred.RunRelated | internal/verify/mutation.go:578-588 | what a run does around the one visit that reaches an edit, loops included, does not depend on the edit, as long as it ends alike |
| LockDeferred.DowngradeStaysCleanExactlyWhen | internal/verify/mutation.go:613-639 | on a clean run that gets to the Lock at most once, the mutant of a deferred Unlock ends clean if and only if that visit is quiet up to the deferred call |
| LockDeferred.UndeferStaysCleanExactlyWhen | internal/verify/mutation.go:641-725 | likewise for the undeferred escape on a clean run that passes the defer at most once, with or without the veto |
| LockDeferred.OneVisitOutsideLoops | internal/verify/mutation.go:641-725 | which every run does when the block is under ifs only |
| LockLimits.EscapeNeedsUntouchedStatement | internal/verify/mutation.go:727-770 | a site the code offers whose mutant unlocks twice |
| LockLimits.EscapeNeedsNoExit | internal/verify/mutation.go:727-770 | a site the code offers whose moved statement exits a loop, and whose mutant faults |
| LockLimits.DowngradeNeedsUntouchedSection | internal/verify/mutation.go:613-639 | a site the code offers whose early Unlock meets a read lock |
| LockLimits.UndeferNeedsTheVeto | internal/verify/mutation.go:656-673 | without exitsIn's veto a return leaks the lock |
| LockLimits.UndeferNeedsNoPanicInLiterals | internal/verify/mutation.go:464-506 | exitsIn skips function literals, and a panic raised in one leaks the lock |
| LockLimits.UndeferNeedsUntouchedLast | internal/verify/mutation.go:641-725 | a site the code offers whose escaping statement touches the lock |
| AstEdits.ClearPositions | internal/verify/mutation.go:405-462 | exactly the positions of the statements end up zero and are logged, with their values, first value first, however positions are shared; all others are as they were |
| AstEdits.Restore | internal/verify/mutation.go:457-461 | undoing the log newest first gives every position its first logged value |
| AstEdits.Edit.Apply | internal/verify/mutation.go:578-804 | what applying each kind of site changes, and that nothing else changes: among positions, both swapped statements' for the escape and everything from the removed defer through the closing brace for the undeferring are zero |
| AstEdits.AppliedOnce | internal/verify/mutation.go:184-213 | a token swap gives its token the new text and a deletion its statement the replacement, and no other token or statement changes |
| AstEdits.Edit.Revert | internal/verify/mutation.go:578-804 | what reverting it changes back |
| AstEdits.ApplyAndRevert | internal/verify/mutation.go:127-131 | applying, printing and reverting one site, negated conditions included, leaves every name, position, condition, block and list as it was |
| AstEdits.HarvestAll | internal/verify/mutation.go:184-213 | so does any sequence of sites |
| AstEdits.UndoneOrder | internal/verify/mutation.go:748-770 | the in-place list edits are undone by their reverts |
| Canonical.Itoa | internal/cache/canonical.go:135-147 | the decimal digits, for numbers that fit the eight-byte buffer |
| Canonical.DigitsAreUnique | internal/cache/canonical.go:135-147 | different numbers have different digits, so labels never collide |
| Canonical.OrderCommutes | internal/cache/canonical.go:52-107 | a faithful renaming of a function renames its declaration order |
| CanonicalOrder.DeclaredExactlyWhen | internal/cache/canonical.go:52-107 | a name is a local if and only if it is not blank and stands in the receiver, parameters or results or is a plain identifier bound anywhere in the body |
| CanonicalOrder.OrderIsByFirstDeclaration | internal/cache/canonical.go:52-107 | locals are listed once each, in the order they are first declared |
| CanonicalOrder.LocalsAreNumbered | internal/cache/canonical.go:53-64 | and the i-th is renamed to v followed by i |
| Canonical.CanonIsIdempotent | internal/cache/canonical.go:50-133 | a canonical form is its own canonical form, for every function |
| Canonical.AlphaInvariantExactlyWhen | internal/cache/canonical.go:50-133 | an injective renaming of locals that avoids other variables leaves the form unchanged if and only if it changes the label of nothing else the walks rename: the function's name, keys, fields, labels, package-level names, inner selector fields |
| Canonical.HashIgnoresLocalNames | internal/cache/canonical.go:16-22 | hence the hash is stable when none of those is named like a local, before or after |
| Canonical.NestedFieldBreaksInvariance | internal/cache/canonical.go:109-124 | x.x.y with x renamed hashes differently |
| Canonical.KeyBreaksInvariance | internal/cache/canonical.go:125-131 | so does T{x: x} |
| Canonical.LiteralParameterBreaksInvariance | internal/cache/canonical.go:81-107 | a function literal's parameters are never declared: any two names hash differently |
| Canonical.SplittingANameBreaksInvariance | internal/cache/canonical.go:19-22 | giving one of two variables of the same name a name of its own changes the hash |
| Canonical.FreeLabelCollides | internal/cache/canonical.go:16-21 | two different functions with one canonical form |
| CanonicalTree.RenameLocals | internal/cache/canonical.go:50-133 | overwriting identifiers in place leaves the canonical form of what was there |
| Absorb.Permutation | internal/calibrate/absorb.go:510-529 | the in-place shuffle computes the specified one |
| Absorb.PermutationIsBijection | internal/calibrate/absorb.go:510-529 | a bijection on the positions for every length and seed |
| AbsorbShuffle.SamePermutationExactlyWhen | internal/calibrate/absorb.go:510-529 | two seeds give the same permutation if and only if every exchange drawn is the same, so the n! sequences of draws stand one to one for the permutations |
| AbsorbShuffle.ShuffleVectors | internal/calibrate/absorb.go:510-529 | the permutations of four positions for two seeds |
| Absorb.StableOrderIsBijection | internal/calibrate/absorb.go:382-413 | the selective patterns' sort loses and repeats nothing |
| Absorb.StableOrderSorts | internal/calibrate/absorb.go:382-413 | and puts no record behind one it is strictly ahead of |
| Absorb.KeptIsASubset | internal/calibrate/absorb.go:358-415 | every pattern hands on distinct records, as many as the rate asks for and at least one |
| Absorb.AbsorbStream | internal/calibrate/absorb.go:358-415 | the residual stream, or a refusal outside [0, 1) |
| Absorb.EasyFirstAccuracyNeverRises | internal/calibrate/absorb.go:382-395 | the cheap tier's accuracy on the easy-first residual never rises with the absorption rate |
| AbsorbRows.AbsorbsTheEasiest | internal/calibrate/absorb.go:382-413 | a selective pattern keeps nothing easier than what it absorbs, and hands on the easiest first |
| AbsorbRows.DropRounds | internal/calibrate/absorb.go:363-367 | it absorbs rho * n records, rounded half up, but never all |
| AbsorbRows.SplitMixVectors | internal/calibrate/absorb.go:510-529 | the generator gives splitmix64's published outputs from seed 0 |
| AbsorbSweep.ShadowIsASubset | internal/calibrate/absorb.go:417-438 | a shadow draw is distinct records of the residual, at least one; from rate 1 on all of them |
| AbsorbSweep.ShadowDraw | internal/calibrate/absorb.go:417-438 | the loop draws that stream |
| AbsorbSweep.StripForcesTheStream | internal/calibrate/absorb.go:440-459 | without flags the calibrator uses exactly the stream it is given |
| AbsorbSweep.MakeRow | internal/calibrate/absorb.go:201-263 | one row of the sweep, with both bail-outs and the underpowered flag |
| AbsorbSweep.SweepAbsorption | internal/calibrate/absorb.go:155-267 | one row for every pattern, rate and shadow rate in order, defaults and refusals included |
| AbsorbRows.RowIsReadable | internal/calibrate/absorb.go:201-263 | at every shadow rate the row calibrates on all records or on distinct residual ones from the head of its keyed shuffle, its calibrated risk is the error share there, and its deployed risk the true error share of the same thresholds on the whole residual |
| AbsorbRows.RowCertifiesExactlyWhen | internal/calibrate/absorb.go:241-251 | with two or more tiers and enough records it is certified if and only if its stream proves some vector, and names a cheapest proven one |
| AbsorbRows.RowIsFlaggedExactlyWhen | internal/calibrate/absorb.go:224-236 | it is flagged underpowered if and only if it got that far and its stream is smaller than MinCalibrationSize |
| AbsorbRows.SweepRowsInOrder | internal/calibrate/absorb.go:155-267 | rows come pattern by pattern, rate by rate, shadow rate by shadow rate |
| AbsorbRows.ShadowRounds | internal/calibrate/absorb.go:417-438 | a shadow draw below rate 1 takes eps of the residual, rounded half up, and at least one |
| AbsorbRows.DefaultDial | internal/calibrate/absorb.go:178-186 | empty lists mean the default rates, shadow rates and patterns |
| AbsorbSweep.FullShadowGapIsOracleNoise | internal/calibrate/absorb.go:253-260 | from shadow rate 1 on the reported gap is exactly accepted false passes minus false failures, over n |
| AbsorbSweep.FullShadowGapIsZeroWhenSound | internal/calibrate/absorb.go:253-260 | so 0 for sound labels, whether or not a certificate issued |
| AbsorbSweep.UnderpoweredIsBelowFloor | internal/calibrate/absorb.go:232-240 | the flag means fewer records than MinCalibrationSize |
| AbsorbSweep.UnderpoweredRowIsNeverCertified | internal/calibrate/absorb.go:221-240 | with two or more tiers a flagged row is never a certified one |
| Resume.Process.WriteFile | cmd/go-cascade/main.go:2194-2233 | a kill at any point leaves the target as it was; otherwise it is complete |
| Resume.Process.Checkpoint | cmd/go-cascade/main.go:1153-1166 | the execution arm is written first, and a kill may fall between |
| Resume.Process.RunCompare | cmd/go-cascade/main.go:1132-1206 | the run's effect on the two files, for every point at which it may be killed |
| ResumeTheorems.ArmsStayConsistent | cmd/go-cascade/main.go:1132-1206 | under any resumed runs and kills no file is torn, no id repeats, the judge ids are a subsequence, and the lengths differ by exactly the number of kills between the two writes |
| ResumeTheorems.FilesOnlyGrow | cmd/go-cascade/main.go:1153-1155 | no kill loses a record: each file only grows at its end |
| ResumeTheorems.SplitIsNeverRepaired | cmd/go-cascade/main.go:1135-1151 | a problem missing from the judge arm stays missing |
| ResumeTheorems.FinishedRunCovers | cmd/go-cascade/main.go:1135-1151 | a resumed run that finishes has a record of every problem that can be profiled |
| ResumeRecords.RecordsAreGenuine | cmd/go-cascade/main.go:1174-1193 | over any runs and kills each file holds its own arm's verdicts, each for the problem it names |
| ResumeRecords.KilledWorkSurvives | cmd/go-cascade/main.go:1153-1155 | of problems that all profile, every one whose two writes were performed survives the kill, and one more in the execution file if its first was |
| ResumeTheorems.FreshRestartMixesExactlyWhen | cmd/go-cascade/main.go:1139-1151 | a run without resume leaves arms that do not match if and only if it was killed between its first and second file write and the old judge ids are not a subsequence of what the first write held |
| ResumeTheorems.FreshRestartMixesArms | cmd/go-cascade/main.go:1139-1151 | two problems, one finished run, a restart without resume killed between its first two writes: one execution record beside two old judge records |
| ResumeTheorems.RecordsTwiceExactlyWhen | cmd/go-cascade/main.go:1140-1173 | a finished run from empty files records an id twice if and only if a problem that profiles is listed twice before any cancellation |
| ResumeTheorems.ListedTwiceRecordedTwice | cmd/go-cascade/main.go:1140-1173 | one problem listed twice is recorded twice |
| LazyCache.NextKeepsInv | examples/bench/hard/refs/hard_conc_once_init/solution.go:38-51 | every action of every goroutine keeps the invariant and never replaces or unsettles an entry |
| LazyCache.ComputeRunsExactlyOnce | examples/bench/hard/refs/hard_conc_once_init/solution.go:15-18 | compute starts at most once per key, and exactly once for a key some Get has completed on |
| LazyCache.EveryGetAgrees | examples/bench/hard/refs/hard_conc_once_init/solution.go:31-37 | any two completed Gets of a key returned the same value |
| LazyCache.GetReturnsTheOutcome | examples/bench/hard/refs/hard_conc_once_init/solution.go:38-51 | a completed Get returns exactly what its key's one compute call returned, and nil if that call panicked |
| LazyCache.NilExactlyWhen | examples/bench/hard/refs/hard_conc_once_init/solution.go:47-50 | so it returns nil if and only if that call returned nil or panicked |
| LazyDeadlock.DeadlocksExactlyWhenCyclic | examples/bench/hard/refs/hard_conc_once_init/solution.go:38-51 | for any relation "compute of k calls Get of k'", the cache can get stuck, and goroutines can wait for each other for good, if and only if the relation has a cycle |
| LazyDeadlock.TwoKeysDeadlock | examples/bench/hard/refs/hard_conc_once_init/solution.go:38-51 | two goroutines whose computes get each other's key reach a deadlock |
| LazyDeadlock.DeadlockStays | examples/bench/hard/refs/hard_conc_once_init/solution.go:47-49 | no action of anyone ends a deadlock or moves a goroutine in it |
| LazyDeadlock.SomeoneCanAct | examples/bench/hard/refs/hard_conc_once_init/solution.go:38-51 | without a cycle some goroutine inside a Get can act whenever a Get is in progress |
| IntegerMean.Mean | examples/bench/hard/refs/hard_num_mean_overflow/solution.go:17-53 | floor(sum/n) for every non-empty slice shorter than 2^62, in wrapping arithmetic; the source panics on the empty slice |
| IntegerMean.MidQuotientBounds | examples/bench/hard/refs/hard_num_mean_overflow/solution.go:30-34 | for every slice shorter than 2^62 each exact intermediate is at least -2^63 - 1 and below 2^63 |
| IntegerMean.IntermediateLeavesInt64ExactlyWhen | examples/bench/hard/refs/hard_num_mean_overflow/solution.go:30-50 | over every quantity the loop computes, one leaves int64 if and only if the floored mean is -2^63 and the last element carries |
| IntegerMean.ThreeSmallestLeaveInt64 | examples/bench/hard/refs/hard_num_mean_overflow/solution.go:30-50 | as it is for three copies of the least int64 |

## Left out

- Floating point: all arithmetic is over exact reals; BinomCDF is its documented meaning rather than the incomplete-beta continued fraction; math.E is a constant of at least 1.
- Guarantee.CertificateTheorem: needs two or more tiers, alpha at least 1e-12 from 0 and 1 and one shadow flag, each shown to be needed; from 10^12 draws on it also asks that the least error count whose term is kept passes. With delta undivided ClaimExact.ClaimHoldsExactlyWhen replaces the conditions on alpha and the sample size by the exact one; for a divided delta and huge samples only this sufficient condition is given.
- PValue.PValueDominatesExactTail: from 10^12 points on it leaves out alpha between 1e-12 and 5e-12, where a dropped term can but need not matter.
- GuaranteeLimits.LowAlphaExactlyWhen: the claim under Bonferroni ranges over every number of tiers; the exact bound for one fixed number of tiers is not given.
- GuaranteeLimits.HighAlphaExactlyWhen: the same.
- MixedFlags.MixedFlagsBreakTheClaim: is for two tiers and fixed-sequence, at one level for each n; which other levels fail is not given.
- RouterReplay.RouterDominatesReplay: assumes outcomes and prices of a tier that do not depend on notes or earlier prompts, repair off, and as many thresholds as the certificate carries; with repair or live notes the two policies are not comparable.
- Router: Router.record, the cache arm, spec generation, deadlines, cancellation and provider errors, tier-level planners (mutually exclusive with the cascade-level one), and timeout flags.
- Speculative: goroutine scheduling is the order of completion; replies of concurrent tiers are drawn against the prompts sent before the fan-out.
- LockEdits.EscapeKeepsMeaning: conditions on touching and exiting are sufficient on syntax; the exact condition on one run is in LockExact.
- LockEdits.UndeferKeepsMeaning: for blocks under ifs that are the last use of the lock in their function or literal; what later uses do is in the exact condition of LockExact.UndeferKeepsLockExactlyWhen, and a defer inside a loop only through that theorem's arbitrary surroundings.
- LockDeferred.UndeferStaysCleanExactlyWhen: for runs that get past the defer at most once in one call of the function; of a run that does so several times only LockExact.UndeferKeepsLockExactlyWhen speaks, one visit at a time.
- LockDeferred.DowngradeStaysCleanExactlyWhen: the same.
- LockVisits.EscapeStaysCleanExactlyWhen: for blocks outside function literals; inside one the literal is the function, and LockProgram.LiteralEditMatchesInContext carries a kept run to the surrounding one.
- LockEdits: goto, labels and fallthrough, panics other than a panic statement, the comment vetoes, co-mutation of the declared mutex type (covered as a tree edit in AstEdits), wg.Wait and the deletion operators' effect on behaviour, and every concurrent execution; fuel bounds loop iterations only.
- AstEdits: parsing and printing (which only read), comment vetoes, which sites are sampled, how sites other than those of LockOffers are collected, and node kinds whose positions clearPositions leaves alone.
- Canonical: which identifiers name a variable is part of the model's syntax, as Go's scope rules decide it; go/parser, go/printer and SHA-256 (an arbitrary digest of the canonical form); a function with 10^8 or more locals, on which itoa runs out of buffer.
- Cluster: the hash of a test-outcome vector is the vector; the order of key strings is an injective ranking.
- Absorb: the bits of a rate and the hash of a pattern name are arbitrary salts; notes on rows and the null envelope over seeds are not modelled.
- Resume: leftover temporary files, JSON, permissions and fsync ordering; a failed write ends the run and counts as a kill.
- LazyCache: Go panics that cross goroutines, and a compute function that waits for another goroutine by any means other than Get.
- Certificates: MutationMean, note strings, timestamps, saving and loading.
- The LLM judge, the paired profiler, prompts, the mock, workspaces and subprocesses, mutation scoring, reports, failure retrieval by similarity, and the other benchmark solutions.
