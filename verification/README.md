# Verified model of the Velarix truth-maintenance engine

Velarix keeps a session's *facts* in an engine that computes, for every fact, how far it can be trusted. A root carries
a status given by its caller; a derived fact has alternative justification sets, each a conjunction of dependencies that
may be negated. The engine stores the results and repairs them with a work queue after every change. This project models
that engine and the protocols built on it, and proves what they are for: the stored statuses are the ones a from-scratch
evaluation gives, what-if simulation predicts retraction, status queries and cycle checks are right, a session rebuilt
from snapshot and journal is the session that was saved, and an execution token authorises one execution. Where one of
these fails, the failing input and the exact condition are proved instead; they are listed below.

`dafny verify dfyconfig.toml` checks everything.

## Layout

| file | contents |
|---|---|
| `Strings.dfy`, `Digraph.dfy` | the order `sort.Strings` uses, sorting; paths, cycles and reachability of finite graphs |
| `Facts.dfy` | facts, dependency tokens, the rules that decide one dependency |
| `Semantics.dfy`, `Derivation.dfy` | the meaning: recursive evaluation of the OR-of-AND graph with negation, with no cache, queue or index; when a set supports its fact |
| `Cache.dfy`, `Weights.dfy` | the invariant of the cache while facts are waiting to be propagated; the weight that falls on each visit |
| `Engine.dfy` | class `Engine`: propagation, mutations, assertion, sweep, status queries, snapshots |
| `Exactness.dfy` | whole runs; expiry; independence of processing order |
| `Belief.dfy` | the equations the stored statuses solve, in terms of tokens as written; where a graded confidence comes from |
| `Scopes.dfy` | scope non-interference, and what it takes |
| `Cycles.dfy`, `Closure.dfy` | cycle checks, transitive dependencies, locality of changes |
| `Dominators.dfy`, `Pruning.dfy`, `Queries.dfy` | the dominator forest; pruned status queries and exactly when they are right |
| `Simulation.dfy`, `Impact.dfy`, `ImpactLimits.dfy` | the what-if simulation; what it predicts and exactly when; engines on which it does not |
| `Consistency.dfy`, `Collisions.dfy` | contradiction scan and automatic retraction; engines whose ids hide a contradiction |
| `Partition.dfy`, `GlobalTruth.dfy` | union-find components; the shared namespace, its two indexes and its fan-out |
| `Extractor.dfy` | Kahn's sort, the check of a candidate graph, greedy acceptance of dependencies |
| `Replay.dfy` | snapshot-then-journal boot |
| `Journal.dfy` | the records each handler writes, and what a boot makes of them |
| `Decisions.dfy` | decision checks, quorums, recorded dependencies |
| `Ledger.dfy`, `DecisionServer.dfy` | the invariant of the execution-token protocol over a log of handler times; class `DecisionServer` and its runs |

## How the program is represented

- A `Fact` is what a caller asserts. Fields the engine computes (`DerivedStatus`, set confidences, indexes, intervals) are
  fields of classes `Engine` and `DominatorTree`. Metadata that some rule reads is an explicit field (source type,
  verification, review, grounding policy, claim fields, `requires_human_review`); the duplicated copies of such fields in
  payload and metadata are one field.
- Ids are the keys of the maps, assumed trimmed. A dependency token is a string, negated by a leading `!`. A justification
  set is named by the pair of its fact and its position.
- A status is a `real`; only comparison, minimum, maximum and `1 - x` are used. Rounding and NaN are outside the model.
- Iterating over a Go map is choosing the next key freely (`:|`), so every result holds for every iteration order.
- An operation receives the time it reads; times never decrease. An engine operation reads the clock once.
- `World` is the facts, the retractions and a ghost ranking by order of assertion. `Truth(w, now, f)` evaluates f from
  scratch. `Eval(w, at, f)` does so when each justification set reads the clock at its own time, which is what the cache
  holds between refreshes; the two agree when the world is `Quiet` (no live fact has expired, no fact limits the age of its
  parents), and `Quiet` is the only hypothesis of the exactness results.
- What the code computes and what it is specified by are written apart: a ghost function or predicate is never called by
  code. A function that code and specification share has a contract or lemma of its own that says what it means.
- String comparison that ignores case folds ASCII letters. A stored review or verification status is already normalised.

## What came out differently from the documentation

- `detectCycle`, asked about a fact that is not stored yet, searches from the parent to the new fact. Nothing can reach a
  fact that is not there, so after the unknown-parent check it never fires; acyclicity of engines comes from that check
  alone. The branch for stored facts, which snapshot validation uses, is exact.
- `GetImpact` reports facts that retraction would leave as they are. When a fact below the one asked about negates
  something that depends on it too, a fact that stands on another support by then is reported (`StandingIsReported`).
  Otherwise, in quiet, the report is right exactly when no fact below the one asked about was down already, had two sets
  worth something, and loses one of them together with whatever supports it (`ImpactIsExactly`); `RetractedIsReported` is
  an engine with such a fact.
- Status queries prune by dominators, and pruning can hide a fact that holds. A fact whose only dependency is on the
  absence of a root is answered Invalid whenever it holds (`LoneNegationExactly`, `AbsenceIsMispruned`). Of an odd number
  of independent alternatives, three or more, one counts as dominator of a fact that does not need it
  (`AlternativesRightExactly`, `ChoiceIsMispruned`). In quiet, queries about a fact are right under every assignment of
  root confidences exactly when they are right under the assignments of three values, Valid, Invalid and one in between
  (`RightExactly`, with negation anywhere); without negation above it, exactly when the fact needs every root on its
  dominator path (`PruningIsRightExactly`).
- A sweep takes a negative `ValidUntil` as due; reading a fact does not.
- Scope is not checked on negated dependencies, so an empirical fact can follow a hypothetical one by negating it
  (`NegationLeaks`), and a fact of a kind outside the four documented ones passes hypothetical support on
  (`UndocumentedKindLaunders`). The scope result asks that neither stands between an imagined fact and a real one.
- One pass of automatic retraction is not always enough: the scan and the pass recognise a pair by the text `a:b` or `a|b`,
  so ids that contain those characters can hide each other's contradictions. `PassSufficesExactly` gives the exact
  condition on the ids, and `PassLeavesContradiction` an engine for every two colliding pairs of different ids.
- Overlapping replay is harmless except for a fact that is asserted as already approved or waived and as still requiring a
  review; after any successful settled history, asserting such a fact makes some continuation diverge (`HarmlessExactly`).
- A snapshot loses entries written in its own millisecond. It restores every journal with given times exactly when each
  entry it does not hold is later than it, or it carries no positive time (`ScheduleExactly`).
- A boot ignores confidence entries, though the journal file's own replay applies them. A history of acts is restored
  exactly when no confidence entry is the last word on a root's confidence, unless it repeats the confidence the root had
  been given (`ReplayedExactly`). Outside `store/journal.go` and its tests nothing in the repository writes such entries.
- A verification may be dated before 1970: the handler stores and records that time, but a boot reads
  it back as the time of the record (`WrittenIsRead`, `EarlyDatesAreLost`). What was run and what is booted from its
  records agree exactly when neither a confidence nor such a time is lost (`RunThenBoot`).
- A token can execute twice when three handlers in a row fall into one millisecond; on every schedule with such a window
  some run does it (`ReuseOnSchedule`), and on no other (`Run`). A failing check reopens an executed decision.
- A selective `RetractGlobal` can tell nobody, exactly when sessions index the fact, they are fewer than the subscribers,
  and none of them subscribes (`WhoIsTold`, `RetractionReachesNobody`).
- Subscribing offers global facts in map order. Below the fact cap a live global fact is sure to arrive exactly when the
  engine held all its dependencies before (`GainedExactly`).
- A decision that names an unknown dependency dereferences a nil fact; the model makes the request fail.

## Model

| member | source | states |
|---|---|---|
| `Facts.ParseDependencyRef` | core/dependencies.go:20-35 | a token is rejected exactly when it names no id; otherwise writing the result gives the token back |
| `Facts.ParseWritten` | core/dependencies.go:20-43 | parsing undoes writing for every id that is not empty and does not begin with `!` |
| `Facts.SplitDependencySet` | core/dependencies.go:45-68 | succeeds iff every token parses; the result holds exactly the named references, by polarity, each once |
| `Facts.GroundingSatisfied` | core/dependencies.go:132-172 | accepts iff the source type is allowed, verified when demanded, and not too old |
| `Facts.DependencySatisfied` | core/dependencies.go:174-193 | a positive dependency needs scope, provenance and the threshold; a negated one only a status below the threshold |
| `Facts.FoldedAlike` | core/dependencies.go:138-149 | two texts fold alike iff they differ at most in the case of their letters |
| `Strings.StringLeExactly` | core/global_truth.go:313-320 | the order ids are sorted in: the first difference decides, and a text comes after its beginnings |
| `Semantics.CountIsAll` | core/engine.go:186-216 | counting satisfied dependencies up to the target is the same as all of them holding |
| `Semantics.FloorIsLeast` | core/engine.go:186-216 | the running minimum is the weakest contribution |
| `Semantics.SetValueSame` | core/engine.go:186-216 | the value of a set depends only on which dependencies it has, not on their order or repetition |
| `Semantics.BestIsLargest` | core/engine.go:235-262 | a derived status is the largest confidence at or above the threshold, or Invalid |
| `Derivations.WorthOfSet` | core/engine.go:186-216 | a conjunction is worth something iff all its dependencies hold, and the threshold iff each contributes that much |
| `Derivations.TruthByDerivation` | core/engine.go:235-262 | a live derived fact is at the threshold iff some set of it is supported, and Invalid otherwise |
| `Semantics.AgreeingWorlds` | core/engine.go:186-297 | two worlds that look alike to a set of facts closed under visible dependencies give them the same statuses |
| `Semantics.QuietIsTimeless` | core/engine.go:131-152 | when nothing has expired and no age limit is set, it does not matter when each set last read the clock |
| `Semantics.RetractionLowers` | core/engine.go:529-547 | without negation, retracting more and reading later never lifts a status to the threshold or raises one that stays there |
| `Cache.CacheIsEval` | core/engine.go:225-297 | a settled cache holds the from-scratch evaluation of every fact |
| `Cache.CachedSetIsEval` | core/engine.go:225-297 | and of every justification set |
| `Cache.PopUnchanged` | core/engine.go:225-265 | a dequeued fact whose status stands can be forgotten |
| `Cache.PopChanged` | core/engine.go:264-296 | a dequeued fact whose status moved leaves open only the facts whose sets its refresh moved |
| `Cache.SettledMutation` | core/engine.go:477-547 | changing the manual status or retraction of one fact leaves only that fact to be propagated |
| `Cache.SettledVerification` | core/verification.go:75-116 | changing a verification status changes no status of the fact itself, and refreshing its dependents restores the invariant |
| `Cache.SettledExtension` | core/engine.go:405-475 | a new fact with all its sets entered leaves only itself to be propagated |
| `Weights.KidVisited` | core/engine.go:268-293 | visiting one dependent set takes exactly its weight off what its parent weighs |
| `Weights.PopIsLighter` | core/engine.go:225-297 | although facts come back to the queue, each dequeue makes it lighter: propagation terminates on every graph |
| `Engines.Engine.constructor` | core/engine.go:74-83 | an empty engine satisfies every invariant |
| `Engines.Engine.EffectiveStatus` | core/engine.go:131-152 | the status others see: Invalid when unknown, retracted or expired |
| `Engines.Engine.ComputeJustificationSetParents` | core/engine.go:186-216 | counts the dependencies that hold and finds the weakest contribution, as the meaning defines them; what that comes to in terms of tokens and statuses is `Beliefs` |
| `Engines.Engine.RefreshSet` | core/engine.go:277-293 | stores the recomputed count and confidence of one set, and tells whether either moved |
| `Engines.Engine.RecomputeChildrenForParent` | core/engine.go:303-332 | refreshes exactly the dependents of a fact and names every fact one of whose sets moved |
| `Engines.Engine.NewStatus` | core/engine.go:235-262 | the status the queue loop computes |
| `Engines.Engine.Propagate` | core/engine.go:225-297 | from any engine in which only queued facts are open, ends with none open, whatever the order of visits; touches nothing outside a zone closed under dependents |
| `Engines.Engine.PropagateFrom` | core/engine.go:225-297 | propagating one fact moves the stored status of no fact that does not depend on it, expiry or not |
| `Engines.Engine.PropagateFirst` | core/engine.go:226-296 | one dequeue: the invariant holds of the new queue, which is lighter than the old one |
| `Engines.Engine.InvalidateRoot` | core/engine.go:477-501 | only a root can be invalidated; the cache is exact again afterwards; statuses move only downstream |
| `Engines.Engine.SetRootConfidence` | core/engine.go:503-527 | only a root takes a confidence; the collapsed roots stay exactly those below the threshold; statuses move only downstream |
| `Engines.Engine.RetractFact` | core/engine.go:529-549 | records the reason, default "retracted"; the cache is exact again; sets are only ever refreshed later; statuses move only downstream |
| `Engines.Engine.SweepExpiredFacts` | core/engine.go:154-182 | retracts exactly the due facts that were not retracted, each once |
| `Engines.Engine.SetFactVerification` | core/verification.go:75-116 | details left blank keep their values, a verified fact no longer requires verification, and dependents are refreshed |
| `Engines.Engine.SetFactReview` | core/governance.go:105-137 | repeating the current status changes nothing; approval or waiver clears the need for a review; no status moves |
| `Engines.Engine.AssertFact` | core/engine.go:336-358 | the answer is that of the first check that fails; an error or a repetition changes nothing; a new fact keeps the engine exact |
| `Engines.Engine.ValidateAssert` | core/engine.go:360-403 | the order of the checks, and that cycle detection never rejects |
| `Engines.Engine.CheckTokens` | core/engine.go:383-398 | accepts iff the sets are there, not empty, and parse to known parents; otherwise names the first thing wrong in the order of sets and tokens |
| `Engines.Engine.NewJustificationSet` | core/engine.go:420-458 | a new set is indexed under each of its parents and is up to date |
| `Engines.Engine.GetStatus` | core/engine.go:551-575 | answers the effective status unless below threshold or under a collapsed dominator; on conjunctive graphs pruning changes nothing |
| `Engines.Engine.PruneIfDominated` | core/engine.go:563-575 | the interval test against each collapsed root decides as path climbing would |
| `Engines.Engine.FromSnapshot` | core/engine.go:888-957 | restores iff the copy is intact, the facts few enough, well formed and acyclic; a reported cycle is one; a sound snapshot gives a valid engine |
| `Engines.SaveAndRestore` | core/engine.go:849-957 | saving an engine and restoring the copy gives a valid engine with the same facts, retractions, statuses and sets |
| `Engines.SoundSnapshotIsAccepted` | core/engine.go:800-834 | restoring never refuses what an engine saved |
| `Engines.MutationOpens` | core/engine.go:477-547 | a mutated fact is the only one open, and everything else still fits together |
| `Engines.NoCollapsedDominator` | core/engine.go:551-575 | on a conjunctive graph no collapsed root dominates a fact that is at or above the threshold |
| `Engines.RegisterKeepsRanked` | core/engine.go:383-409 | every fact is asserted after its parents, so the graph can be ranked |
| `Exactness.EngineIsEval` | core/engine.go:225-332 | every stored status and confidence is the evaluation with each set reading the clock at its last refresh |
| `Exactness.EngineIsExact` | core/engine.go:225-332 | in quiet, every stored status, read status and set confidence is the from-scratch truth |
| `Beliefs.EvaluationSolves` | core/engine.go:131-262 | from-scratch evaluation solves the equations of belief, which speak of tokens and numbers only: a set brings the least of what its tokens bring, at most 1, and a fact is the best of its sets that come to 0.6, or 0 |
| `Beliefs.OneSolution` | core/engine.go:225-297 | and nothing else solves them |
| `Beliefs.StoredSolve` | core/engine.go:225-332 | at any time the stored statuses and set confidences solve them, each set reading the clock at its last refresh |
| `Beliefs.StoredSolveNow` | core/engine.go:225-332 | in quiet with every set reading the clock now |
| `Beliefs.GradesComeFromRoots` | core/dependencies.go:70-81 | without denial a status at or above 0.6 is 1 or what some live root below was given, and some set has every parent at that status or above |
| `Beliefs.AbsenceIsMirrored` | core/dependencies.go:70-81 | a live fact that rests on the absence of p alone is at 1 when p is at 0 or below, at 1 minus p while that is 0.6 or more, and else at 0 |
| `Beliefs.Graded` | core/engine.go:186-297 | an engine on which a fact on a root at 0.7 reads 0.7, and one on the absence of a root at 0.25 reads 0.75 |
| `Exactness.SameFactsSameStatuses` | core/engine.go:225-297 | engines with the same facts and retractions agree, however they got there |
| `Exactness.SweptIsQuiet` | core/engine.go:154-182 | after a sweep no live fact has expired, and nothing is left to sweep |
| `Exactness.SweptIsUnique` | core/engine.go:154-182 | the facts a sweep returns are determined |
| `Exactness.SweepTwice` | core/engine.go:154-182 | a sweep restores exactness at that time, and a second one returns nothing |
| `Exactness.Run` | core/engine.go:336-575 | after any sequence of operations at non-decreasing times, facts and retractions are what those operations make, and in quiet every status is exact |
| `Scopes.ImaginationDoesNotLeak` | core/dependencies.go:83-104 | whatever happens to hypothetical and fictional facts, empirical and uncertain ones keep their statuses, unless one negates an imagined fact or an undocumented kind stands in between |
| `Scopes.NegationLeaks` | core/dependencies.go:83-104 | an empirical fact that negates a hypothetical one follows it |
| `Scopes.UndocumentedKindLaunders` | core/dependencies.go:83-104 | an undocumented kind in between lets an empirical fact follow a hypothetical one |
| `Cycles.Reachable` | core/cycles.go:54-76 | a depth-first search sharing its visited set: a returned path leads to the target; what was visited without one is explored |
| `Cycles.FindPath` | core/cycles.go:54-76 | finds a path iff there is one |
| `Cycles.DetectCycle` | core/cycles.go:20-52 | for a stored fact, reports a path iff some dependency closes a cycle; for a new one it looks from the parent |
| `Cycles.BuildValidationIndex` | core/engine.go:800-834 | the index built for validation is the declared dependency relation, or a token or parent is bad |
| `Cycles.ValidateGraph` | core/engine.go:800-834 | accepts iff well formed and acyclic; a reported path is a genuine cycle |
| `Cycles.RankedWorldIsAcyclic` | core/engine.go:383-400 | facts asserted after their parents form no cycle |
| `Cycles.NewFactUnreachable` | core/cycles.go:20-52 | nothing reaches a fact that is not stored, so the check on a new fact cannot fire |
| `Dominators.LcaIsLowest` | core/dominators.go:114-143 | every common ancestor of two nodes is an ancestor of their lowest common one |
| `Dominators.PathIsChain` | core/dominators.go:145-159 | of two nodes on one dominator path, one lies on the path of the other |
| `Dominators.TopologicalSort` | core/dominators.go:161-187 | every node after all its predecessors, each once |
| `Dominators.DominatorTree.GetDominatorPath` | core/dominators.go:145-159 | climbs the links to the top |
| `Dominators.DominatorTree.LowestCommonAncestor` | core/dominators.go:114-143 | the first link shared by both paths; no ancestor is neutral |
| `Dominators.DominatorTree.ComputeIDoms` | core/dominators.go:10-63 | every fact and set gets the fold of its predecessors' dominators; the links form a forest that respects assertion order |
| `Dominators.DominatorTree.Recompute` | core/dominators.go:10-111 | the links are right and the interval test agrees with path climbing for every pair of facts |
| `Dominators.DominatorTree.ComputeIntervals` | core/dominators.go:65-111 | u encloses v iff u lies on the dominator path of v |
| `Dominators.DominatorTree.Dfs` | core/dominators.go:80-108 | numbering a subtree opens and closes it around exactly its members |
| `Dominators.StageEnd` | core/dominators.go:22-56 | processing the order to its end leaves every fact and set right |
| `Engines.ForestKept` | core/engine.go:405-409 | operations that add no fact leave the forest right, so a clean flag means it is current |
| `Pruning.DominatorsHold` | core/dominators.go:22-56 | on conjunctive graphs a fact at or above the threshold has all its dominators there |
| `Queries.PruningIsRightExactly` | core/engine.go:551-575 | without negation above it, queries about a fact are right under every assignment of root confidences iff it needs every root on its dominator path |
| `Queries.RightExactly` | core/engine.go:551-575 | with negation anywhere: queries about a fact are right under every assignment of root confidences iff no three-valued assignment misleads them |
| `Queries.LevelsDecide` | core/engine.go:225-262 | roots of the same levels give every fact the same level, whatever is negated |
| `Queries.AssignAndAsk` | core/engine.go:503-575 | on an engine: after any assignment the answer is right when no three-valued assignment misleads, or when the fact needs every root on its dominator path |
| `Queries.AskWithout` | core/engine.go:503-575 | on an engine: with a dominating root Invalid and all others Valid the answer is Invalid, and wrong iff the fact does not need that root |
| `Queries.RootsDecide` | core/engine.go:225-262 | without negation, raising roots to the threshold brings nothing below it |
| `Queries.AlternativesRightExactly` | core/dominators.go:22-56 | queries about a fact with independent eligible alternatives are always right iff there is one of them or their number is even |
| `Queries.FoldOfRoots` | core/dominators.go:114-143 | folding different roots leaves the last one when their number is odd, and nothing when it is even |
| `Queries.LoneNegationExactly` | core/engine.go:551-575 | a query about a fact that rests on the absence of a live root is right iff the fact does not hold |
| `Queries.AbsenceIsMispruned` | core/engine.go:551-575 | an engine on which such a fact is Valid and the query answers Invalid |
| `Queries.ChoiceIsMispruned` | core/engine.go:551-575 | an engine on which a fact with three alternatives is Valid and the query answers Invalid |
| `Closure.DependencyIDs` | core/engine.go:972-1014 | exactly the transitive parents, with the fact itself if asked, sorted and without repetition |
| `Closure.MutationIsLocal` | core/engine.go:225-297 | a mutation changes the truth of no fact whose closure omits the mutated one |
| `Closure.RetractElsewhere` | core/engine.go:529-549 | on an engine: retracting moves no stored status of a fact whose closure omits the retracted one, in quiet or not |
| `Simulations.SimulateSet` | core/engine.go:614-641 | the simulated value of a set is its meaning on simulated statuses |
| `Simulations.SimulateInvalidation` | core/engine.go:660-701 | every simulation is a run: each step evaluates a dependent set of an impacted fact, and in the end every dependent set of every impacted fact was visited |
| `Impact.MidwayStep` | core/engine.go:668-699 | while nothing below the fact asked about negates what depends on it, one visit keeps the simulation's invariant: sets only lose their worth |
| `Impact.RunIsDownstream` | core/engine.go:660-701 | whatever the situation, only facts that depend on the one asked about are impacted |
| `Impact.FixedPointIsRetraction` | core/engine.go:587-701 | a set of facts that explains itself is exactly what retraction brings down |
| `Impact.ImpactIs` | core/engine.go:587-598 | what is reported: the facts that fall when the one asked about is retracted, and spurious ones that were down already |
| `Impact.ImpactIsExactly` | core/engine.go:587-598 | the report is what falls iff there is no spurious fact |
| `Impact.GetImpact` | core/engine.go:587-598 | fails iff the fact is unknown; the result ends a run of the simulation from the engine's statuses; while nothing below the fact negates what depends on it, it explains itself |
| `Impact.WhatIfThenRetract` | core/engine.go:529-547 | asking and then retracting: the facts announced are those that fall, and the spurious ones |
| `ImpactLimits.StandingIsReported` | core/engine.go:660-701 | an engine with a negated dependency on the fact asked about, where a reported fact stands after the retraction |
| `ImpactLimits.RetractedIsReported` | core/engine.go:660-701 | an engine on which a retracted fact is reported although it was Invalid before |
| `Consistency.ContradictionExactly` | core/consistency.go:99-174 | two facts contradict each other iff they are of one scope and one of these holds, and the kind is the first that does: one names the other; both give one claim key different values; both give one subject and predicate different objects; they give the same object different polarities; the pair is a mismatch |
| `Consistency.AgreeingNeverReported` | core/consistency.go:127-174 | facts that agree in what they claim, with nothing declared and no mismatch, never show up in a report |
| `Consistency.EffectiveEntrenchment` | core/governance.go:33-91 | between 0 and 1: as far as the fact says, or else as its label does |
| `Consistency.ContradictionIsSymmetric` | core/consistency.go:127-174 | which fact is named first makes no difference |
| `Consistency.ScopesDoNotContradict` | core/consistency.go:114-125 | imagined claims never contradict real ones |
| `Consistency.UniqueSortedFactIDs` | core/consistency.go:176-192 | blank ids dropped, the others once, sorted |
| `Consistency.ConsistencyIssuesForIDs` | core/consistency.go:194-245 | reports only contradictions, in the sense of `ContradictionExactly`, between live known facts, no key twice, and every contradiction's key; semantic ones last, otherwise by the joined ids |
| `Consistency.CheckConsistency` | core/consistency.go:247-265 | the same of the named ids, or of all facts when none is named |
| `Consistency.KeyParts` | core/consistency.go:226-231 | equal keys mean equal issue types and equal joined ids |
| `Consistency.FlagFactsForReview` | api/consistency_flags.go:25-65 | every fact an issue names waits for a review, flagged once; no other fact changes |
| `Consistency.AutoRetractContradictions` | api/extract_assert.go:234-302 | retracts exactly the less entrenched fact of each pair seen for the first time, the first one on a tie; flags exactly the named facts, if asked to |
| `Consistency.EveryPairLoses` | api/extract_assert.go:255-299 | with unambiguous ids every reported contradiction costs the member that is no more entrenched |
| `Consistency.LiveShrinks` | core/engine.go:529-547 | without negation no fact comes alive by retraction |
| `Consistency.RetractThenRecheck` | api/extract_assert.go:234-302 | in a negation-free engine with unambiguous ids, rechecking the same ids at any later time finds nothing |
| `Consistency.PassSufficesExactly` | api/extract_assert.go:250-256 | one pass suffices for exactly the id lists whose pairs both joined texts tell apart |
| `Consistency.PlainIdsAreTold` | core/consistency.go:226-231 | ids without colon and bar are always told apart |
| `Consistency.ColonsCollide` | core/consistency.go:226-231 | four ids with colons that are not |
| `Collisions.OnePairLoses` | api/extract_assert.go:250-299 | whatever order the scan takes, a pass over two colliding pairs costs one pair a member and the other none |
| `Collisions.PassLeavesContradiction` | api/extract_assert.go:234-302 | for every two colliding pairs of different ids, an engine on which the check after the pass still finds a contradiction |
| `Collisions.OrdinaryIdsCollide` | api/extract_assert.go:250-256 | four ordinary-looking ids are such pairs |
| `Partitions.Find` | core/global_truth.go:278-284 | returns the root; path compression moves no root, and the recursion ends |
| `Partitions.Union` | core/global_truth.go:286-291 | afterwards two facts share a root iff the edges, with the new one, connect them |
| `Partitions.NamesIsDependsOn` | core/global_truth.go:296-301 | what a fact names, by either polarity, is what it depends on once its tokens parse |
| `Partitions.LinksAreConnections` | core/global_truth.go:293-305 | so the links are the declared dependencies, taken in both directions |
| `Partitions.UnionAll` | core/global_truth.go:293-305 | after all tokens, roots stand for connection by dependencies, taken in both directions |
| `Partitions.Partition` | core/global_truth.go:271-322 | sorted groups in order of their first members, each a whole component of the declared dependencies, covering all facts |
| `Partitions.SameGroupIsConnected` | core/global_truth.go:253-267 | two facts share a group iff dependencies, taken in both directions, connect them |
| `Partitions.GroupsAreDisjoint` | core/global_truth.go:253-267 | no fact is in two groups |
| `GlobalTruths.InverseIsUnique` | core/global_truth.go:48-53 | the two indexes determine each other |
| `GlobalTruths.GlobalTruth.RemoveSessionIndex` | core/global_truth.go:344-355 | drops the session and keeps the indexes inverse, with no empty entries |
| `GlobalTruths.GlobalTruth.RebuildSessionIndex` | core/global_truth.go:357-394 | indexes exactly the global facts the engine's facts depend on |
| `GlobalTruths.GlobalTruth.IndexFactDependencies` | core/global_truth.go:398-428 | adds exactly the global facts one fact depends on |
| `GlobalTruths.ConcernedAreConnected` | core/global_truth.go:430-462 | a session is concerned iff it depends on the fact or on one that dependencies connect with it |
| `GlobalTruths.GlobalTruth.AffectedSubscribers` | core/global_truth.go:430-462 | exactly the sessions that depend on the fact or on one that dependencies connect with it, sorted |
| `GlobalTruths.GlobalTruth.RetractGlobal` | core/global_truth.go:176-213 | retracts in exactly the sessions concerned when they are some but fewer than the subscribers, else in all; nobody else changes |
| `GlobalTruths.WhoIsTold` | core/global_truth.go:183-206 | everyone concerned is told, and nobody at all iff the concerned are some, fewer than the subscribers, and none subscribes |
| `GlobalTruths.RetractionReachesNobody` | core/global_truth.go:176-213 | two subscribed engines hold a global fact and neither learns of its retraction |
| `GlobalTruths.GlobalTruth.AssertGlobal` | core/global_truth.go:119-171 | a changed fact is offered to exactly the subscribers concerned when there are any, and otherwise to all; nobody else changes and no engine loses a retraction |
| `GlobalTruths.WhoIsOffered` | core/global_truth.go:136-160 | everyone concerned hears of an assertion, somebody does if anybody subscribes, and of a change that concerns a subscriber only those it concerns |
| `GlobalTruths.GlobalTruth.Subscribe` | core/global_truth.go:76-105 | indexes what the engine held and offers it every live global fact once, in some order; the engine holds exactly what those offers make |
| `GlobalTruths.GainedExactly` | core/global_truth.go:91-102 | below the cap a live global fact not yet held arrives in every order iff the engine held all its dependencies |
| `GlobalTruths.GlobalTruth.Unsubscribe` | core/global_truth.go:109-114 | forgets the session and its index |
| `Extractor.UniqueStrings` | extractor/pipeline.go:1241-1256 | blank ids dropped, the others once, in order of first occurrence |
| `Extractor.TopoOrderFromParents` | extractor/pipeline.go:933-971 | succeeds iff every named parent is a key and the relation is acyclic; then each id once, after its parents, and of the ids that are ready the first by name |
| `Extractor.OrdersAgree` | extractor/pipeline.go:947-966 | which leaves one order for each graph, whatever order maps are read in |
| `Extractor.OrderNext` | extractor/pipeline.go:957-966 | each dequeue keeps in-degrees equal to unordered parents and the queue equal to the ids that are ready |
| `Extractor.StuckIsNotOrderable` | extractor/pipeline.go:967-969 | if nothing is ready before all are ordered, there is a cycle or an unknown parent |
| `Extractor.OrderedIsAcyclic` | extractor/pipeline.go:933-971 | an order with parents first exists only for closed acyclic graphs |
| `Extractor.ValidateDependencyGraphWithEngine` | extractor/pipeline.go:888-931 | accepts only acyclic graphs over known facts, and all of those with plain ids below the fact cap |
| `Extractor.NextIsAssertable` | extractor/pipeline.go:901-929 | in that order, the fresh engine refuses none of the facts |
| `Extractor.AcceptProposals` | extractor/pipeline.go:790-816 | the accepted graph is acyclic and made of proposals; every proposal was accepted, names an unknown fact or would close a cycle; the result passes the check; graph and counts are those of the greedy fold that looks at cycles only |
| `Extractor.CheckDecides` | extractor/pipeline.go:797-813 | with plain ids the check of a candidate says whether the proposal is between known facts and keeps the graph acyclic |
| `Extractor.ConsiderProposal` | extractor/pipeline.go:797-813 | one proposal: accepted and counted, rejected and counted, or skipped as a repetition |
| `Extractor.GreedyIsMaximal` | extractor/pipeline.go:790-816 | a proposal between known facts was accepted iff it keeps the final graph acyclic |
| `Replay.DecodedIsStamped` | api/server.go:179-232 | with defaults for missing payload fields, a replay reads the clock for exactly the records without the times it needs |
| `Replay.ApplyEntry` | api/server.go:179-232 | what each kind of journal entry does to facts and retractions; confidence entries do nothing |
| `Replay.StepIsOperation` | api/server.go:179-232 | an entry with recorded times replays as the operation it records; a confidence entry iff it changed nothing |
| `Replay.ReplayedExactly` | api/server.go:177-234 | replaying a journal of taken assertions and any other acts gives the state of the operations they stand for iff no confidence entry is the last word on a root, unless it repeats what the root was given |
| `Journals.WrittenIsRead` | api/server.go:185-232 | reading back the record of an act gives the act, except that a verification dated at or before time 0 comes back with the time of its record |
| `Journals.FieldsAreRead` | api/server.go:185-232 | each record stands for the operation its fields spell; missing texts are blank, missing statuses none, missing times those of the record |
| `Journals.Handle` | api/server.go:509-590 | each operation as its handler performs it: its effect is that of the operation, and its records are those of the acts it puts on record, none for what is refused before, one for each fact a sweep retracts |
| `Journals.PerformedIsRecorded` | api/server.go:509-590 | whatever is handled, the acts on record replay to the live state, up to confidences |
| `Journals.BootedExactly` | api/server.go:177-234 | what the records bring back is the live state iff no confidence and no verification time is lost |
| `Journals.EarlyDatesAreLost` | api/verification.go:129-152 | a history in which a verification time is lost |
| `Journals.RunThenBoot` | api/server.go:118-252 | on engines: operations are handled on one, another is booted from the records written, and the two agree under exactly that condition, in quiet on statuses too |
| `Replay.ReplayHistory` | api/server.go:177-234 | replay is the fold of the entries its records decode to |
| `Replay.GetEngine` | api/server.go:118-252 | boots from the snapshot and the records after it when it is accepted, and from all records when there is none or it is damaged or refused; when the records have their times, whatever the clock says |
| `Replay.HistoryAfter` | store/badger.go:602-617 | the records with a later timestamp, or all when the time is not positive |
| `Replay.LaterIsSuffix` | store/badger.go:602-617 | in a journal written in order these are a suffix |
| `Replay.FoldCell` | api/server.go:177-234 | facts do not interact in a replay |
| `Replay.UpdatesTwice` | api/server.go:177-234 | a fact's entries run again over their own result change nothing |
| `Replay.FoldTwice` | api/server.go:177-234 | nor do a stretch of successful entries over the state they led to |
| `Replay.OverlappingReplay` | api/server.go:163-234 | restoring after j entries and replaying from any earlier one gives what a full replay gives |
| `Replay.FilteredReplay` | store/badger.go:602-617 | so does the timestamp filter when nothing later carries the snapshot's time |
| `Replay.HarmlessExactly` | core/governance.go:105-137 | after any successful settled history, a new fact breaks some overlapping replay iff it is asserted as cleared by a review and as still requiring one |
| `Replay.ScheduleExactly` | store/badger.go:602-617 | a snapshot restores every successful settled journal with given times iff every entry it does not hold is later than it, or its own time is not positive |
| `Replay.RestoreBothWays` | api/server.go:163-252 | restored and fully replayed engines hold the same facts, retractions and, in quiet, statuses |
| `Decisions.PassesUnlessBlocked` | api/decision_contracts.go:297-419 | a dependency passes iff no reason stands against it |
| `Decisions.Assess` | api/decision_contracts.go:297-419 | the blockers of a dependency are exactly the reasons that stand |
| `Decisions.RequiresHumanReview` | core/governance.go:93-103 | a review of the fact is pending, or it asks for one and none has cleared it |
| `Decisions.CountSources` | api/decision_contracts.go:455-478 | counts the different sources of a claim that verified recorded facts name: the recorded reference, else that of the verification, else the source type |
| `Decisions.NoObjection` | api/decision_contracts.go:255-508 | no objection stands iff every dependency passes and every quorum is met |
| `Decisions.QuorumBlockers` | api/decision_contracts.go:422-493 | one objection for each claim key with fewer different verified sources than it needs |
| `Decisions.ComputeDecisionCheck` | api/decision_contracts.go:255-508 | executable iff every dependency passes and every quorum is met; blocked by exactly the reasons that stand and the quorums that are not met |
| `Decisions.ExecutableMeansValid` | api/decision_contracts.go:269-325 | an executable check means every dependency is known and effectively at or above the threshold |
| `Decisions.BuildDecisionDependencies` | api/decision_contracts.go:131-183 | records the named facts, or the closure of the decision's fact, each once and in order, with the reference to its source and its present need for review |
| `Decisions.QuorumOfFacts` | api/decision_contracts.go:131-183 | right after recording, a quorum counts the sources of the facts the decision depends on |
| `Decisions.CheckOfFacts` | api/decision_contracts.go:255-508 | a check of dependencies just recorded passes only if every fact the decision depends on passes and every quorum has its sources, on conjunctive graphs whenever that is so; and it misses a quorum iff sources are wanting |
| `Ledgers.StatusFromCheck` | api/decision_contracts.go:510-521 | a failing check blocks even an executed decision; a passing one leaves it executed |
| `Ledgers.TokenLifetime` | api/decision_contracts.go:757-764 | a token lives for thirty seconds, counted in whole seconds from the second of its check |
| `Ledgers.SavingIsLawful` | api/decision_contracts.go:725-866 | saving a decision keeps every invariant of the protocol: its tokens are void unless the clock stands still |
| `Ledgers.SigningIsLawful` | api/decision_contracts.go:742-764 | so does signing the token of the check just saved |
| `Ledgers.ExecutingIsLawful` | api/decision_contracts.go:766-866 | so does an execution by a usable token with all dependencies at threshold |
| `Ledgers.SecondUseNeedsWindow` | api/decision_contracts.go:766-866 | a used token is usable again only if its check, its use and the reopening of the decision fell into one tick |
| `DecisionServers.DecisionServer.CreateDecision` | api/decision_contracts.go:569-646 | a new decision with its dependencies and check, which speaks of the facts and their sources; replaces one of the same id |
| `DecisionServers.DecisionServer.RecomputeDecision` | api/decision_contracts.go:680-723 | fresh dependencies, a fresh check that speaks of the facts and their sources, a new version |
| `DecisionServers.DecisionServer.ExecuteDecisionCheck` | api/decision_contracts.go:725-764 | a token is issued iff the check passes, bound to this version, check and session version, for 30 seconds |
| `DecisionServers.DecisionServer.Refusal` | api/decision_contracts.go:774-811 | a request is refused with the answer of the first test it fails |
| `DecisionServers.DecisionServer.ExecuteDecision` | api/decision_contracts.go:766-866 | goes past validation iff the token is signed, in force and matches everything; otherwise the answer is that of the first test that fails; executes iff every dependency then passes, with the whole execution on record; otherwise blocks |
| `DecisionServers.DecisionServer.JournaledMutation` | store/badger.go:45-63 | a journaled change does to the facts what the operation does, and raises the session version, which voids all tokens |
| `DecisionServers.DecisionServer.UnjournaledChange` | api/server.go:1545-1578 | a change that is not journaled does what the operation does and leaves tokens standing, which is why execution checks again |
| `DecisionServers.Run` | api/decision_contracts.go:569-866 | over every interleaving: executions use tokens of the present session version with every recorded dependency known and at threshold; a token executes twice only on a schedule with a one-tick window; when the clock ticks, each token is that of the latest saved check |
| `DecisionServers.ReuseOnSchedule` | api/decision_contracts.go:817-820 | on every schedule with such a window some run of a new server uses a token twice |

## Left out

- HTTP handling, authentication, billing, export, metrics, the CLI, the web client and the SDKs.
- Storage engines, encodings and checksums: storage returns what was saved, and a snapshot is a copy of the state.
- Locks and goroutines: each public operation and each handler is one step.
- Listeners, mutation counters, explanation text, `ValidJustificationCount`, `ResolvedStatus` and the counts in an impact report.
- Embeddings: which texts are close but differ in negation is a parameter of the contradiction scan.
- Trimming of whitespace, and the caller's alias to the fact it asserted.
- Facts with a blank id, whose expiry a boot would skip: ids are taken to be non-blank where the journal is concerned.
- Language-model and rule-based extraction; the order in which proposals arrive is a parameter.
- Signing: a token is a record of its claims that only the server can issue.
- Organisations and the engine cache of a running server; subscribing a booted engine to the global facts is not part of a boot.
- The `_global_truth` flag and the version wait of the shared namespace.
- Branches for missing map entries that the invariants exclude.
- Exactness.Run: says nothing about statuses while a live fact is past its expiry or an age limit is set, because nothing re-propagates those until the next sweep or mutation.
- Engines.Engine.GetStatus: its own contract is exact on conjunctive graphs; `Queries` states exactly when queries are right on all others.
- Impact.GetImpact: when a fact below the one asked about negates something that depends on it, the contract says only that the result ends a run of the simulation.
- Dominators.DominatorTree.ComputeIntervals: visits children in any order, where the source sorts them; the intervals mean the same.
- Replay.GetEngine: an accepted snapshot is assumed to be one that an engine saved; others may be damaged in any way.
- Extractor.AcceptProposals: promises the answers for plain ids below the fact cap only, as the check it ends with does.
- Extractor.ValidateDependencyGraphWithEngine: promises acceptance only for plain ids below the fact cap; an id that begins with `!` reads as a negated reference.
- Closure.DependencyIDs: the walk is over values, since it changes only its own set of visited ids.
