# A verified model of the collector

The collector reads Prometheus datapoints, turns each of them into a plan of nodes and
relationships by configured rules, and applies the plans to a Neo4j graph from several
workers at once. This project models four linked parts of it and proves what they promise.

* **The upsert engine** (`Cypher`, `Upsert`, `Repository`, `Invariants`, `PlanInvariants`,
  `Written`, `PostStates`, `Matching`, `Idempotence`, `PlanIdempotence`, `IdempotenceLimits`,
  `RelationshipLimits`, `Values`, `Comparisons`, `Filters`, `Domain`). The graph is a pair of maps;
  each fixed query has a small meaning on it. `Upsert` says as functions what a transaction does; the
  classes of `Repository` follow the source's branches and loops and are proved equal to these
  functions. The invariants, the accounting, the post-states and the idempotence theorem are about
  the functions.
* **The lock protocol** (`Locks`, `Concurrency`, `ConcurrentLocks`, `ConcurrentViews`,
  `ConcurrentWrites`, `Kernel`, `ConcurrentNodes`, `ConcurrentLinks`, `ConcurrentRuns`,
  `ConcurrentSequential`, `ConcurrencyLimits`, `ConcurrentLinkLimits`, `ConcurrentNamedEnds`). Any
  number of concurrent `ApplyPlan` calls as a transition system over the graph: take one mutex, run
  one query of `Upsert` on committed data under the call's own writes, commit, roll back, retry,
  release one mutex. `Kernel` holds the argument why counting before creating keeps identities
  unique, once for nodes and relationships. Proved: the steps of one call alone are
  `Upsert.ApplyPlan`; mutual exclusion, no duplicate identity in any interleaving, deadlock freedom,
  no endless run; and exactly which pairs of writers are safe.
* **The worker pool, the job processor and the scheduler** (`WorkerPool`, `Processor`,
  `Scheduler`). The concurrent branch of the pool is a transition system; every complete run of it
  refines the sequential loop, sends never block, and a job's statistics do not depend on the order
  in which datapoints finish.
* **The rule engine, its validator and the identities** (`Config`, `Normalize`, `Rules`, `RuleLaws`,
  `Planner`, `PlanShape`, `RegexOutput`, `Validate`, `Defects`, `Soundness`, `Identity`, `Uuid`, `Pipeline`,
  `PipelineConcurrency`). An interpreter for conditions, layered properties, transforms and templates,
  with laws in the terms of a configuration; the validator as methods that decide predicates, equal to
  the documented list of defects; and the theorem that validated jobs fail only for four causes in the data.
  `Pipeline` and `PipelineConcurrency` join the parts: plans of validated jobs satisfy the hypotheses
  of the graph invariants, and the canonical identities decide which planned elements, and which
  whole configurations, are safe to write concurrently.

`dafny verify dfyconfig.toml` checks the whole project.

## What turned out to need a condition

Some promises hold only under a condition. Each line names the theorem that says exactly when they
hold, and where it helps a lemma with a failing input.

* Concurrent uniqueness needs lock keys that are fixed by the identity written. The lock key of a
  node also depends on template hashes, so two templates with equal labels and name but different
  hashes can create the node twice (`ConcurrencyLimits.TwoNodeWritersExactly`,
  `PipelineConcurrency.PlannedNodesSafeExactly`). The lock key of a relationship depends on the
  selectors, not on the matched nodes: two relationships whose different selectors match a common
  pair of nodes can link it twice (`ConcurrentLinkLimits.TwoRelWritersExactly`,
  `PipelineConcurrency.PlannedRelationshipsSafeExactly`). Configurations that meet the condition
  everywhere are safe for any number of datapoints (`PipelineConcurrency.ConfiguredNodesSafe`,
  `PipelineConcurrency.ConfiguredLinksSafe`).
* Reapplying a plan is quiet for `create` and, on values without null and NaN, for
  `merge_at_change`; `merge` writes again every time (`IdempotenceLimits.OneNodeIdempotentExactly`,
  `RelationshipLimits.OneRelationshipIdempotentExactly`). Of two nodes with one name the second must
  not strictly extend the labels of the first, which makes the second run ambiguous, and if both are
  compared they must agree on shared keys (`IdempotenceLimits.TwoNodesIdempotentExactly`).
* Generated query filters mean the selector exactly if attribute names that collapse to one
  parameter name carry equal values and every sanitized name consists of parameter name characters
  (`Filters.FilterExactly`). Only dots, dashes and spaces are sanitized, so an attribute such as
  "a/b" makes the query invalid (`Filters.ForeignCharacterIsNotRead`, `Filters.SlashIsNotRead`).
* Change detection compares numbers as float64, the database compares integers exactly. The two agree
  on values without null whose integers have at most 53 bits (`Comparisons.ComparisonsAgree`,
  `Comparisons.ComparisonsDiffer`, `Values.LargeIntegersCollide`).
* The hashed text of a node forgets which "|" are separators and which belong to a type or hash
  (`Identity.NodeTextsAgree`, `Identity.BarCollides`); that of a relationship can be cut again at an
  attribute named "selector" (`Identity.RelationshipTextsAgree`, `Identity.SelectorAttributeCollides`).
* An accepted regex output expands exactly if every reference fits an int; a larger reference passes
  validation and is dropped (`RegexOutput.ExpansionExactly`, `RegexOutput.HugeReferenceIsDropped`).
* Normalization trims the property name of a transform, but not the name of the property. A
  transform keeps its meaning exactly if its name was trimmed or it changes nothing
  (`Normalize.NormalizationKeepsTransformExactly`); a property whose name has outer white space is
  never transformed, and the rules that say so are valid (`Normalize.UntrimmedPropertyIsMissed`,
  `Normalize.MissedRulesAreValid`).
* Validated jobs still fail on four kinds of data (`Soundness.ValidatedJobsDoNotGoWrong` and the
  four `Occurs` lemmas of `Pipeline`).
* A sleep that is cut short counts its datapoint as an error and drops its statistics although the
  plan was applied (`Processor.ProcessDatapoint`).

## Assumptions

Transactions are atomic, see committed data and their own writes, and roll back on error. Functions
of Go's library that are not modelled (case mapping, `fmt.Sprint`, number parsing, time formatting,
regular expressions, JSON, the UUID of a digest) are fields of the parameters `Upsert.Env` and
`Config.Foreign`; the few laws about them, among them the case mapping of ASCII letters, are spelled
out in `Config.Lawful` and `Normalize.UpperSettles`, and only the lemmas that name them use them. Which
characters continue a Cypher parameter name is a parameter as well, `Filters.NamePart`; a space never
does. The clock is any sequence of readings, non-decreasing where `Upsert.Monotone` is required.

## Model

| member | source | states |
|---|---|---|
| Repository.Repository.ApplyPlan | internal/repository/neo4j/client.go:62-106 | whatever number of attempts was rolled back before, the new store and the result are those of one application of the plan in a single transaction; an error leaves the store as it was and yields no statistics; every mutex taken is released |
| Repository.RunCallback | internal/repository/neo4j/client.go:75-97 | the callback, starting from fresh statistics, computes nodes first, then relationships, and stops at the first error with that error |
| Repository.Transaction.ApplyNode | internal/repository/neo4j/nodes.go:13-58 | count, then create, update or skip by policy; ambiguous, unknown-policy and invalid-label errors, with no write before them |
| Repository.Transaction.CountNodesByIdentity | internal/repository/neo4j/nodes.go:60-79 | the number of nodes whose labels include the node's and whose name is equal, or the label error |
| Repository.Transaction.CreateNode | internal/repository/neo4j/nodes.go:81-102 | one new node with exactly the given labels, both time stamps and the expiry |
| Repository.Transaction.LoadNodeProperties | internal/repository/neo4j/nodes.go:104-148 | the properties of some matching node, or an error when there is none |
| Repository.Transaction.UpdateNode | internal/repository/neo4j/nodes.go:150-169 | merges the properties and a new update stamp into every matching node |
| Repository.Transaction.ApplyRelationship | internal/repository/neo4j/relationships.go:19-52 | one skip when either selector matches nothing, else one application for each source and target pair in order |
| Repository.Transaction.ApplyAllPairs | internal/repository/neo4j/relationships.go:39-50 | the nested loops visit the full product, source by source, and stop at the first error |
| Repository.Transaction.ApplyRelationshipMatch | internal/repository/neo4j/relationships.go:54-101 | ambiguity is checked before the policy; then create, update or skip |
| Repository.Transaction.FindSelectorMatches | internal/repository/neo4j/relationships.go:103-157 | exactly the nodes that carry the labels and satisfy the generated filter as its text reads, in key order, with their uid; a clause whose parameter names do not read as such is rejected, and a uid that is not text is an error |
| Matching.MatchesExactly | internal/repository/neo4j/relationships.go:103-157 | for attribute names that do not collide, the matched nodes are exactly those with the base label, the type and every attribute |
| Matching.MatchingFailsExactly | internal/repository/neo4j/relationships.go:103-157 | and matching fails exactly on an invalid type, an unreadable attribute name, or a wanted node whose uid is not text, each with its error |
| Repository.Transaction.CountRelationshipsByIdentity | internal/repository/neo4j/relationships.go:159-190 | the number of relationships between two nodes with equal type and template hash |
| Repository.Transaction.CreateRelationship | internal/repository/neo4j/relationships.go:192-225 | one new relationship with template hash, both time stamps and the expiry |
| Repository.Transaction.UpdateRelationship | internal/repository/neo4j/relationships.go:282-316 | merges the properties into the matching relationships of the pair |
| Repository.Transaction.RelationshipForMatch | internal/repository/neo4j/relationship_uid.go:11-32 | a copy whose uid property is derived from the planned uid and both matched nodes |
| Repository.JoinWithUnitSeparator | internal/repository/neo4j/relationship_uid.go:58-69 | the loop computes the separated join of all parts |
| Matching.MatchTextExactly | internal/repository/neo4j/relationship_uid.go:22-39 | the hashed texts of two matched pairs are equal if and only if the planned uids and the identities of both ends are |
| Matching.RowsCarryUids | internal/repository/neo4j/relationships.go:103-157 | every matched row carries the uid text stored on its node, and "" where there is none |
| Matching.StoredUidsDiffer | internal/repository/neo4j/relationship_uid.go:11-39 | two pairs of one relationship are stored under different uids if and only if a source or a target is told apart, by uid if both have one and by element id if neither has, for a digest that tells the texts apart |
| Matching.NewPairCarriesUid | internal/repository/neo4j/relationships.go:54-101 | a relationship that is new or different after a pair was applied carries the uid of that pair |
| Cypher.OrderRowsAnyOrder | internal/repository/neo4j/relationships.go:118 | the ordered selector rows do not depend on the order in which nodes are found |
| Cypher.RowsInKeyOrder | internal/repository/neo4j/relationships.go:118 | selector rows come in ascending order of uid, or element id where there is none |
| Cypher.RowsByUid | internal/repository/neo4j/relationships.go:118 | of two rows in a result, both with a uid text come in the order of the uids, both without in the order of the element ids, and otherwise uid against element id |
| Invariants.NodeStep | internal/repository/neo4j/nodes.go:13-58 | creating or updating a node keeps unique (labels, name) identities and time stamps, changes no label, name or creation time, leaves relationships alone, and grows the graph exactly when it reports a creation |
| Invariants.RelStep | internal/repository/neo4j/relationships.go:54-101 | the same for relationships and (source, target, type, template hash); no node is created or changed |
| Invariants.NoAmbiguousRelationship | internal/repository/neo4j/relationships.go:67-69 | with unique relationship identities the ambiguity error is unreachable |
| PlanInvariants.PlanAccounted | internal/repository/neo4j/client.go:75-97 | a whole plan keeps the invariants; node actions equal the number of plan nodes, relationship actions the sum of source times target counts (1 if either is empty), created counters the growth of both sets; without creations and updates nothing changed |
| PlanInvariants.RunsKeep | internal/repository/neo4j/client.go:62-106 | between any two points of any run of plans: creation times and identities never change, identities stay unique, and created <= updated <= now under a non-decreasing clock |
| PlanInvariants.PlanNeverAmbiguousRel | internal/repository/neo4j/relationships.go:67-69 | no plan run on such a graph ends in the ambiguous relationship error |
| PlanInvariants.MergeAtChangeNeverExpires | internal/repository/neo4j/expiration.go:9-29 | under merge_at_change neither creation nor update writes the expiry of a node |
| PlanInvariants.MergeAtChangeNeverExpiresRel | internal/repository/neo4j/expiration.go:9-29 | the same for relationships |
| Written.NodeWritten | internal/repository/neo4j/nodes.go:81-169 | every node that is new or different after an application carries the given properties, this moment as its update time and, under create and merge, an expiry counted from this moment; its other properties are kept; a new node has exactly the given labels and this moment as its creation time |
| Written.RelWritten | internal/repository/neo4j/relationships.go:192-316 | the same for relationships; a new one joins exactly the matched pair with the planned type |
| Written.RelationshipLinks | internal/repository/neo4j/relationships.go:19-52 | afterwards every node matched by the source selector is linked to every node matched by the target selector, and every new relationship leads from such a source to such a target |
| PostStates.NodeCarries | internal/repository/neo4j/nodes.go:13-58 | after merge and merge_at_change every node with the labels and the name carries every user property of the plan whose value is neither null nor contains a NaN |
| PostStates.NodeOutcome | internal/repository/neo4j/nodes.go:21-57 | on an existing node create skips, merge writes, and merge_at_change writes if and only if some user property is missing or different; a skip leaves the graph alone |
| PostStates.NodeSucceedsExactly | internal/repository/neo4j/nodes.go:13-58 | a node is applied if and only if its labels and policy are known and at most one node has its labels and name; which error it is otherwise; it is created exactly when there is none |
| PostStates.RelCarries | internal/repository/neo4j/relationships.go:54-101 | after merge and merge_at_change every relationship of the pair, type and hash carries every such property |
| PostStates.RelOutcome | internal/repository/neo4j/relationships.go:72-101 | the outcome for an existing relationship, as for nodes |
| PostStates.RelSucceedsExactly | internal/repository/neo4j/relationships.go:54-101 | success, error and creation for a relationship, as for nodes; ambiguity comes before the policy |
| PostStates.NewRelHash | internal/repository/neo4j/relationships.go:318-324 | the template hash that a new relationship is stored under: the property, printed unless it is text, or the field where there is no property |
| PlanIdempotence.PlanIdempotent | internal/repository/neo4j/client.go:75-97 | once a plan of create and merge_at_change elements that do not contradict each other has succeeded, applying it again at any time succeeds, changes nothing and reports only skips |
| IdempotenceLimits.OneNodeIdempotentExactly | internal/repository/neo4j/nodes.go:21-57 | a one-node plan is idempotent if and only if its policy is create, or merge_at_change with no null or NaN among the compared values |
| IdempotenceLimits.TwoNodesIdempotentExactly | internal/repository/neo4j/nodes.go:21-69 | two non-merge nodes form an idempotent plan if and only if, when names are equal, the second does not strictly extend the labels of the first and, if both are compared, they agree on shared keys |
| IdempotenceLimits.DisagreeingNodesNeverSettle | internal/repository/neo4j/nodes.go:41-57 | the failing case of values: each run writes both nodes again |
| RelationshipLimits.OneRelationshipIdempotentExactly | internal/repository/neo4j/relationships.go:72-101 | a one-relationship plan is idempotent if and only if its policy is create, or merge_at_change with no null or NaN among the compared values, or its selectors match nothing in any graph |
| IdempotenceLimits.GrowingLabelsBecomeAmbiguous | internal/repository/neo4j/nodes.go:66-69 | the failing case: the first run creates both nodes, the second is ambiguous |
| Values.NormalizeComparableValue | internal/repository/neo4j/property_compare.go:65-141 | the recursive loops compute the normal form of nested values |
| Values.NormalizeIdempotent | internal/repository/neo4j/property_compare.go:65-141 | normalizing twice is normalizing once |
| Values.EqualIsEquivalence | internal/repository/neo4j/property_compare.go:61-63 | the comparison is an equivalence relation on NaN-free values, and nothing else equals itself |
| Values.IntegersCompareExactly | internal/repository/neo4j/property_compare.go:71-90 | integers of at most 53 bits are told apart after conversion to float64 |
| Values.LargeIntegersCollide | internal/repository/neo4j/property_compare.go:71-90 | the bound is tight: 2^53 and 2^53 + 1 compare equal |
| Comparisons.RoundsToNearest | internal/repository/neo4j/property_compare.go:71-90 | the conversion of an integer to float64 yields a number with a 53-bit significand, none of which is nearer; of two nearest ones it is the one with the even significand |
| Comparisons.EqualMeans | internal/repository/neo4j/property_compare.go:61-141 | numbers are compared as float64 and NaN equals nothing; lists are compared item by item, maps key by key; all other values only equal themselves |
| Comparisons.ComparisonsAgree | internal/repository/neo4j/property_compare.go:61-63 | for values without null and with integers of at most 53 bits, the generated selector test and change detection agree |
| Comparisons.ComparisonsDiffer | internal/repository/neo4j/property_compare.go:61-63 | where they do not: large integers and nulls |
| Values.ShouldUpdateProperties | internal/repository/neo4j/property_compare.go:46-59 | the early-return loop reports whether some desired key is missing or differs |
| Values.ChangeDetectionExact | internal/repository/neo4j/property_compare.go:46-59 | for values without null and NaN no change is reported if and only if merging the desired properties changes nothing up to normalization |
| Values.ChangeDetectionSettlesExactly | internal/repository/neo4j/property_compare.go:46-59 | after writing, change detection is quiet if and only if no desired value is null or contains NaN |
| Values.FilterManagedProperties | internal/repository/neo4j/property_compare.go:35-44 | exactly the properties outside the excluded keys |
| Filters.LabelsFragment | internal/repository/neo4j/tx.go:25-44 | fails exactly on an invalid identifier; otherwise lists the base label and the labels once each, and splitting the fragment gives them back |
| Filters.IdentifierGrammar | internal/repository/neo4j/tx.go:13-23 | an identifier is a letter or underscore, followed by letters, underscores and digits |
| Filters.QuotingRoundTrip | internal/repository/neo4j/tx.go:69-71 | a quoted property name is read back by un-doubling, whatever follows it |
| Filters.BuildPropertyFilters | internal/repository/neo4j/tx.go:46-67 | one test per key in sorted order, and parameters where a later key wins a name collision |
| Filters.GreatestNameWins | internal/repository/neo4j/tx.go:60-64 | of the attributes that share a parameter name the last one in string order gives its value |
| Filters.ClauseReadsExactly | internal/repository/neo4j/tx.go:46-67 | the rendered text reads as a conjunction of parameter tests if and only if every sanitized name consists of parameter name characters, and then it is the conjunction that was meant |
| Filters.FilterExactly | internal/repository/neo4j/tx.go:46-76 | for values that equal themselves the generated text means attribute-wise equality on every node if and only if colliding names carry equal values and every sanitized name is one parameter name |
| Filters.FilterExactWithoutCollisions | internal/repository/neo4j/tx.go:46-76 | without colliding names, and for any values, it does if and only if every sanitized name is one parameter name |
| Filters.CollidingNamesMissTheirNode | internal/repository/neo4j/tx.go:73-76 | two attribute names that sanitize alike make a selector miss its own node |
| Filters.ForeignCharacterIsNotRead | internal/repository/neo4j/tx.go:73-76 | an attribute name with a character that is neither sanitized nor part of a parameter name makes the whole clause unreadable |
| Filters.SlashIsNotRead | internal/repository/neo4j/tx.go:73-76 | the case of the attribute a/b |
| Filters.CommonNamesAreReadable | internal/repository/neo4j/tx.go:73-76 | an attribute name of letters, digits, underscores, dots, dashes and spaces is always readable where letters, digits and underscores are parameter name characters; dots, dashes and spaces read as underscores |
| Domain.ApplyStats.AddNode | internal/domain/graph.go:51-60 | increments the counter of the action and no other |
| Domain.ApplyStats.AddRelationship | internal/domain/graph.go:62-71 | increments the counter of the action and no other |
| Domain.ApplyStats.MergeWith | internal/domain/graph.go:73-80 | adds all six counters |
| Locks.UniqueSortedNodeLockKeys | internal/repository/neo4j/locks.go:73-83 | each lock key of the nodes once, in increasing order |
| Locks.UniqueSortedRelationshipLockKeys | internal/repository/neo4j/locks.go:85-95 | each lock key of the relationships once, in increasing order |
| Locks.LockListIncreasing | internal/repository/neo4j/locks.go:11-21 | node keys come before relationship keys and the whole list is strictly increasing, so no call asks twice for a key |
| Locks.LockListKeys | internal/repository/neo4j/locks.go:11-21 | a key is taken if and only if it is the key of some element of the plan |
| Locks.NodesShareKeyExactly | internal/repository/neo4j/locks.go:45-57 | two nodes have one lock key if and only if they have one uid, the own one before the property, or neither has any and their names are equal |
| Locks.RelationshipsShareKeyExactly | internal/repository/neo4j/locks.go:59-71 | two relationships have one lock key if and only if they have one uid, the property before the own one, or neither has any and their types are equal |
| Locks.LockTable.LockPlan | internal/repository/neo4j/locks.go:11-28 | takes exactly the keys of the list, in its order |
| Locks.LockTable.UnlockAll | internal/repository/neo4j/locks.go:23-27 | releases exactly the keys taken |
| ConcurrentLocks.MutualExclusion | internal/repository/neo4j/locks.go:30-43 | two calls that share a key are never in their transactions at the same time |
| ConcurrentLocks.OwnedStep | internal/repository/neo4j/locks.go:11-43 | in every step each call owns exactly a prefix of its list |
| ConcurrentSequential.ItemIsUpsert | internal/repository/neo4j/nodes.go:13-58 | the transition system accepts an element exactly when Upsert.ApplyNode or Upsert.UpsertRel succeeds, and its writes then make the same graph |
| ConcurrentSequential.ItemRejects | internal/repository/neo4j/nodes.go:19-57 | where they fail, the call rolls back, at once or after its count |
| ConcurrentSequential.PlanRunsAlone | internal/repository/neo4j/client.go:62-106 | a call that runs while the others hold nothing uncommitted commits exactly the graph of Upsert.ApplyPlan |
| ConcurrentWrites.GroundedStep | internal/repository/neo4j/client.go:75-97 | in every step open writes of different calls stay apart, change no identity, and nothing committed disappears or changes its identity |
| ConcurrentNodes.NodesStep | internal/repository/neo4j/nodes.go:15-58 | the invariant behind node uniqueness, which covers writes not yet committed and nodes counted as missing, is kept by every step |
| ConcurrentLinks.LinksStep | internal/repository/neo4j/relationships.go:54-101 | the same for relationships, with the pairs that the selectors really matched |
| ConcurrentRuns.NoDuplicateNodes | internal/repository/neo4j/client.go:67-97 | in every interleaving of any number of calls no node identity is committed twice, if calls that may create one node share a lock key; nothing is asked of relationships |
| ConcurrentRuns.NoDuplicateRelationships | internal/repository/neo4j/client.go:67-97 | in every interleaving no source, target, type and template hash is committed twice, if open calls that have selected a common pair for one type and hash share a lock key |
| ConcurrentRuns.FixedKeysGuard | internal/repository/neo4j/locks.go:45-57 | equal node identities with equal lock keys are enough for the hypothesis on nodes |
| ConcurrentRuns.Progress | internal/repository/neo4j/locks.go:11-43 | deadlock freedom: while some call is unfinished, some call has a step |
| ConcurrentRuns.NoEndlessRun | internal/repository/neo4j/client.go:62-106 | there is no infinite run |
| ConcurrentRuns.CompleteRun | internal/repository/neo4j/client.go:62-106 | a run that cannot go on has finished every call and released every mutex, whatever the plans are |
| ConcurrencyLimits.TwoNodeWritersExactly | internal/repository/neo4j/locks.go:45-57 | two concurrent one-node plans, on any graph without duplicate nodes, are safe in all interleavings if and only if they do not collide: both creatable, one identity, not in the graph, different lock keys |
| ConcurrentLinkLimits.TwoRelWritersExactly | internal/repository/neo4j/locks.go:59-71 | two concurrent one-relationship plans, on any graph without duplicate links, are safe if and only if they have one lock key or share no new link: a pair that the selectors of both match in the graph, with equal type and hash, not linked yet and rejected by neither |
| ConcurrentLinkLimits.NodeFreeLinksSafe | internal/repository/neo4j/relationships.go:19-52 | any number of plans without nodes are safe if plans with a common new link share a lock key |
| ConcurrentNamedEnds.NamedEndsSafe | internal/repository/neo4j/relationships.go:19-52 | any number of plans, whatever nodes they write, are safe if ends are selected by name only and the lock key is fixed by type, hash and names |
| WorkerPool.InvStep | internal/scheduler/worker_pool.go:41-75 | every dispatched index is held by one worker or has been processed once, and every error of a finished call is pending or sent |
| WorkerPool.SendNeverBlocks | internal/scheduler/worker_pool.go:42-56 | a worker with an error can always send it |
| WorkerPool.Progress | internal/scheduler/worker_pool.go:47-82 | until the pool returns, some step other than an outside cancellation is possible |
| WorkerPool.MeasureDecreases | internal/scheduler/worker_pool.go:47-82 | every step decreases a measure of undispatched indices, busy and live workers |
| WorkerPool.NoEndlessRun | internal/scheduler/worker_pool.go:36-82 | no run is longer than 3 * total + workers + 3 steps |
| WorkerPool.ErrorsAnyOrder | internal/scheduler/worker_pool.go:26-34 | the errors of a set of calls do not depend on the order of the calls |
| WorkerPool.RefinesSequentialLoop | internal/scheduler/worker_pool.go:41-82 | every run that has returned processed a prefix of the indices, each once, with the errors of the sequential loop over that prefix; the prefix is proper if and only if the run was aborted |
| WorkerPool.UncancelledRun | internal/scheduler/worker_pool.go:41-82 | an uncancelled run processes every index once and joins exactly the sequential errors |
| WorkerPool.ErrorsAreFailures | internal/scheduler/worker_pool.go:26-34 | an error occurs among the joined ones as often as an index fails with it |
| WorkerPool.SomeFailure | internal/scheduler/worker_pool.go:26-34 | which is at least once if and only if some processed index failed with it |
| WorkerPool.ErrorsInOrder | internal/scheduler/worker_pool.go:26-34 | in the sequential branch the error of an index stands right after those of the failing indices before it |
| WorkerPool.PoolRunner.Run | internal/scheduler/worker_pool.go:21-83 | all branches, under any scheduler: terminates; each index of a prefix is processed once; the joined errors are those of the failing indices, each as often as it occurs, and the context error if and only if some index was not processed, which needs a cancellation; no more callbacks run at once than there are workers |
| WorkerPool.PoolRunner.RunSequential | internal/scheduler/worker_pool.go:26-34 | the sequential branch: indices in order, errors in order |
| Processor.ProcessDatapoint | internal/engine/processor.go:113-149 | which inputs are errors, which error is reported, when the repository is called, and the statistics otherwise; a failed sleep is an error after the plan has been applied |
| Processor.AccountAnyOrder | internal/engine/processor.go:75-89 | errors, successes, merged statistics and reported errors do not depend on the order of completion |
| Processor.EveryDatapointCounted | internal/engine/processor.go:81-86 | every finished datapoint is exactly one error or one success |
| Processor.AccountSumsUp | internal/engine/processor.go:81-86 | the account of a job sums each counter over the datapoints that were applied |
| Processor.AccountReportsErrors | internal/engine/processor.go:81-84 | in whatever order errors are joined, every failed datapoint is counted and its error reported |
| Processor.JobAccount.Record | internal/engine/processor.go:78-88 | the critical section adds an error or merges statistics, never both |
| Processor.ProcessJob | internal/engine/processor.go:52-111 | each of the six counters of the report is the sum of that counter over the applied datapoints; the error count and the joined errors are those of the failed ones, each as often as it occurs; all datapoints are processed, without a context error, unless the context is cancelled |
| Scheduler.RunsAreSafe | internal/scheduler/scheduler.go:48-125 | in every run no job executes twice at the same time; jobs started equal completed plus failed plus running; with one goroutine per job nothing is ever skipped |
| Scheduler.NeverSkips | internal/scheduler/scheduler.go:83-90 | with one goroutine per job the overlap branch is not taken and every swap succeeds |
| Scheduler.OverlapExactly | internal/scheduler/scheduler.go:82-101 | a tick is skipped and counted exactly while some goroutine executes its job, and a swap succeeds exactly while none does |
| Scheduler.CountersAccount | internal/scheduler/scheduler.go:72-106 | in every run the counters are the numbers of starts, of ends by result and of skips, and every round has tried to execute its job or was skipped |
| Scheduler.StartedRunsNeverSkip | internal/scheduler/scheduler.go:57-70 | with the loops that Run starts, one per job, no run ever skips, executes a job twice at a time or loses count |
| Scheduler.Execute | internal/scheduler/scheduler.go:97-125 | on a set flag nothing happens and nil is returned; otherwise the job is counted, run and counted again, its error returned and the flag left clear |
| Scheduler.RunOnce | internal/scheduler/scheduler.go:49-55 | every job is executed exactly once in order, the joined error lists their errors in order and is nil if and only if all succeeded, the counters agree and no flag stays set |
| Scheduler.FailuresInOrder | internal/scheduler/scheduler.go:49-55 | the errors come in the order of the jobs, one for each that fails |
| Strings.SortIsCanonical | internal/engine/identity.go:62-66 | sorting forgets exactly the order of the list |
| Strings.LessMeans | internal/engine/identity.go:62-66 | the order is that of the first differing character, and a proper prefix comes first |
| Strings.TrimSpaceDrops | internal/config/model.go:162-172 | trimming drops white space at both ends and nothing else |
| Identity.NodeTextsAgree | internal/engine/identity.go:14-18 | without unit separators, the hashed texts of two nodes are equal if and only if names are equal and the sorted types, and the sorted hashes, fall into the same pieces at every bar |
| Identity.NodeTextExactly | internal/engine/identity.go:14-18 | for lists without bars, that is: names are equal and types and hashes are permutations of each other |
| Identity.BarCollides | internal/engine/identity.go:14-18 | with bars two different hash lists can share one identity |
| Identity.SelectorIdentity | internal/engine/identity.go:30-43 | the loop joins the type and each key with its canonical text in sorted key order |
| Identity.DecodeRelationship | internal/engine/identity.go:20-43 | a decoder recovers type, hash and both selectors from the hashed text |
| Identity.RelationshipTextsAgree | internal/engine/identity.go:20-43 | without unit separators, the hashed texts of two relationships are equal if and only if type and hash agree and both selectors do, up to canonical value text, or one relationship is the other cut at another attribute named selector |
| Identity.RelationshipTextExactly | internal/engine/identity.go:20-43 | without source attributes of that name, that is: type, hash and both selectors agree |
| Identity.SameView | internal/engine/identity.go:68-81 | selectors agree exactly when types, attribute names and canonical texts do |
| Identity.SelectorAttributeCollides | internal/engine/identity.go:37-42 | one source attribute named selector lets two different relationships share a text |
| Uuid.StableUuid | internal/engine/identity.go:45-60 | the in-place edits and grouping produce the UUID of the first sixteen bytes |
| Uuid.UuidShape | internal/engine/identity.go:49-59 | 36 characters, four dashes, version digit 5 and variant bits 10 (sections 4.1 and 4.2 of RFC 9562) |
| Uuid.UuidReads | internal/engine/identity.go:49-59 | each of the sixteen bytes can be read back from its two digits, except for the six overwritten bits |
| Uuid.UuidDistinguishesExactly | internal/engine/identity.go:45-60 | two digests give one UUID if and only if they agree outside the six overwritten bits |
| RegexOutput.PrintScan | internal/engine/property_transforms.go:92-100 | the scanned pieces print back to the same text |
| RegexOutput.ScanPrint | internal/engine/property_transforms.go:92-100 | the scan is the only reading into literals and maximal references |
| RegexOutput.ScanMaximal | internal/engine/property_transforms.go:92-100 | every scan is such a reading |
| RegexOutput.RegexOutputGroupReferences | internal/config/validate.go:345-355 | the loop lists the references that fit an int, in order |
| RegexOutput.ValidateOutput | internal/config/validate.go:329-340 | accepts if and only if there is a reference and all listed ones name a group |
| RegexOutput.ExpansionExactly | internal/engine/property_transforms.go:92-100 | for an accepted output every reference is replaced by the group it names if and only if every reference fits an int |
| RegexOutput.ExpansionLength | internal/engine/property_transforms.go:92-100 | then the expansion has the predicted length |
| RegexOutput.ExpansionPlaces | internal/engine/property_transforms.go:92-100 | every literal and every named group stands intact where the pieces before it end |
| RegexOutput.HugeReferenceIsDropped | internal/config/validate.go:345-355 | an accepted output whose second reference is dropped |
| Rules.ConditionsDecidedByFirst | internal/engine/conditions.go:12-24 | conditions are a conjunction decided, result or error, by the first that does not hold |
| Rules.ValueOperatorsMean | internal/engine/conditions.go:46-71 | not_equals negates equals; on numbers the operators are the usual order and exactly one of equals, greater and less holds; NaN satisfies only not_equals |
| Rules.LabelOperatorsMean | internal/engine/conditions.go:28-45 | on a present label equals holds exactly for the printed operand and not_equals negates it; on a missing label neither holds; label_exists tells the cases apart |
| RuleLaws.ValueEqualsMeans | internal/engine/conditions.go:46-61 | for every spelling of the type, equals holds exactly if the datapoint has the number that the operand denotes: itself, an integer, or the text as it is parsed |
| RuleLaws.ValueOrderMeans | internal/engine/conditions.go:63-69 | greater and less are strict on finite numbers, false for NaN, and right for the infinities |
| RuleLaws.LabelMeans | internal/engine/conditions.go:28-40 | the label operators compare the label with the printed operand and are false without the label |
| RuleLaws.LabelExistsMeans | internal/engine/conditions.go:43-45 | label_exists holds exactly if the label is there |
| Rules.OnlyTextIsTransformed | internal/engine/property_transforms.go:59-90 | values that are not text pass through every chain unchanged, and text stays text |
| Rules.TransformsPerProperty | internal/engine/property_transforms.go:28-57 | each existing property becomes the left fold of all processors naming it; no property appears or disappears; the whole fails if and only if one fold fails |
| Rules.ApplyPropertyTransforms | internal/engine/property_transforms.go:28-57 | the nested loops over a map updated in place compute exactly that |
| RuleLaws.ProcessMeans | internal/engine/property_transforms.go:22-99 | TO_UPPER and TO_LOWER keep the letters of an ASCII text and leave none of the other case; a pattern that matches puts the literals and groups of its output in their places, one that does not changes nothing |
| RuleLaws.OneMoreProcessor | internal/engine/property_transforms.go:28-57 | a processor appended to the last transform acts on its property, from the value the chain so far gave it, and on no other |
| RuleLaws.IdleTransform | internal/engine/property_transforms.go:28-57 | a transform of a missing property, or without processors, changes nothing |
| Rules.PropertyMeans | internal/engine/properties.go:12-63 | a property is present exactly when a static value, a found label or a matching conditional gives it one, later layers winning, and is the fold of its processors over that value |
| RuleLaws.TokensMean | internal/engine/properties.go:91-104 | a token is the value, the time stamp or the label of that name, if there is one |
| RuleLaws.BaseMeans | internal/engine/properties.go:19-30 | a label property has the value of its source; where that is missing the static value remains |
| RuleLaws.OneMoreConditional | internal/engine/properties.go:32-56 | a conditional property appended to the list sets its name, to its value or its source, exactly if all its conditions hold and the source is found |
| RuleLaws.TransformsComeLast | internal/engine/properties.go:58-62 | transforms run on the properties that the other layers have given |
| Rules.ResolveProperties | internal/engine/properties.go:12-63 | the loops compute the resolved properties in whatever order the map yields its keys |
| Planner.SelectorMeans | internal/engine/properties.go:65-89 | a label attribute is the fold of the processors naming its token; static attributes are never transformed |
| RuleLaws.SelectorAttributeMeans | internal/engine/properties.go:65-115 | a label attribute is its source run through the prior transforms alone, any other is the static one; the type is the endpoint's; a missing source is an error |
| Planner.ResolveSelector | internal/engine/properties.go:65-89 | the loops compute that selector in any map order, or report a missing label |
| Planner.MakeRelationshipUID | internal/engine/identity.go:20-28 | the uid is that of the canonical relationship text |
| Planner.NodeUidReads | internal/engine/identity.go:14-18 | the digest input behind a node's uid can be read back as its sorted types, its name and its sorted hashes |
| Planner.RelationshipUidReads | internal/engine/identity.go:20-43 | the one behind a relationship's uid as its type, its hash and both selectors in their places, text attributes as they are |
| Planner.PlanBuilder.AddNode | internal/engine/planner.go:24-72 | one template: skipped, appended with its automatic properties, or the first error |
| Planner.PlanBuilder.AddRelationship | internal/engine/planner.go:74-121 | the same for a relationship template |
| Planner.Plan | internal/engine/planner.go:18-124 | the plan is the list of planned nodes and relationships in template order, or the first error |
| PlanShape.PlanIsTemplatewise | internal/engine/planner.go:18-124 | the plan of a validated job has one node for each template all of whose conditions hold, in template order, with the trimmed printed name and the resolved properties, and likewise for relationships |
| PlanShape.PlansExactly | internal/engine/planner.go:18-124 | there is a plan if and only if for every template the conditions are decided without an error and, if they all hold, the properties, the name and the selectors can be resolved |
| Config.CollectNormalizedTypes | internal/config/model.go:162-172 | the trimmed, non-blank types in order |
| Config.TypesAreTrimmed | internal/config/model.go:162-172 | a type that is not blank is kept as often as it occurs, trimmed; blank ones are dropped |
| Normalize.NormalizeFileConfig | internal/config/model.go:31-121 | the loops over targets, jobs and templates set the defaults and normalize policies and transforms; afterwards every timeout and interval is positive, and configured ones are kept |
| Normalize.TargetIsNormal | internal/config/model.go:31-121 | in every template of every job, and at both ends of a relationship, types of processors are upper-case, patterns and property names trimmed and blank policies create; nothing else changes but times |
| Normalize.NormalizedPolicyMeansTheSame | internal/config/model.go:145-147 | the default policy changes neither validity nor meaning |
| Normalize.PolicyNamesMean | internal/domain/policy.go:13-22 | in any mixture of cases and with outer white space: merge selects merge, three spellings select merge_at_change, and a valid text otherwise is blank or create |
| Normalize.SlashesAreOptional | internal/config/model.go:329-335 | a pattern between slashes is the pattern itself |
| Normalize.NormalizedProcessMeansTheSame | internal/config/model.go:305-335 | a normalized processor acts on every value as the original does, is valid if and only if the original is, and normalizing again changes nothing |
| Normalize.NormalizedTransformMeans | internal/config/model.go:291-297 | a normalized transform does to the trimmed property name what the original does to the name as written |
| Normalize.NormalizationKeepsTransformExactly | internal/config/model.go:291-297 | normalization keeps what a transform does to every map if and only if its name was trimmed or its processors change nothing |
| Normalize.UntrimmedPropertyIsMissed | internal/config/model.go:291-297 | no list of normalized transforms ever changes a property whose name has outer white space |
| Normalize.MissedRulesAreValid | internal/config/validate.go:266-298 | rules that fail in this way pass validation, for every such name, value and valid transform |
| Normalize.NormalizedJobPlansTheSame | internal/config/model.go:109-121 | a normalized job plans every datapoint as the original does, errors included, if the transforms name trimmed properties |
| Normalize.EndpointConfig.Normalize | internal/config/model.go:235-261 | prior transforms are normalized and legacy attributes override current ones, in whatever order the maps yield them |
| Normalize.LegacyAttributesMean | internal/config/model.go:235-261 | key by key: a static value nested among the legacy labels wins over a legacy static value and that over a current one; a legacy label that is not null wins over a current one |
| Normalize.LegacyMergeIsIdempotent | internal/config/model.go:235-261 | normalizing an endpoint twice is normalizing it once |
| Validate.ValidateCondition | internal/config/validate.go:368-431 | counting operators decides that a condition has a known type, its label and exactly its admissible operators |
| Validate.ValidateStaticProperties | internal/config/validate.go:198-206 | accepts if and only if every name is non-blank and outside the reserved prefix |
| Validate.ValidateDynamicProperties | internal/config/validate.go:208-220 | the same, and every source token is non-blank |
| Validate.ValidateConditionalProperties | internal/config/validate.go:222-256 | accepts if and only if every conditional property is well formed |
| Validate.ValidateTransformList | internal/config/validate.go:266-298 | accepts if and only if every transform names a property and only known, valid processors |
| Validate.ValidateProcess | internal/config/validate.go:285-343 | a processor has a known type, and a REGEX one a pattern that compiles with groups and an accepted output |
| Validate.ValidateSelector | internal/config/validate.go:170-196 | at least one attribute, no blank names or tokens, valid prior transforms |
| Validate.ValidateNodeTemplate | internal/config/validate.go:86-124 | decides validity of a node template |
| Validate.ValidateRelationshipTemplate | internal/config/validate.go:126-168 | decides validity of a relationship template |
| Validate.ValidateFileConfig | internal/config/validate.go:13-84 | accepts if and only if there is a target and every target and job is valid |
| Defects.ConditionExactly | internal/config/validate.go:368-431 | a condition is accepted if and only if it has none of the documented defects |
| Defects.ProcessExactly | internal/config/validate.go:285-343 | the same for a processor |
| Defects.NodeExactly | internal/config/validate.go:86-124 | the same for a node template, among them an expiration that is not positive and an unknown policy |
| Defects.RelationshipExactly | internal/config/validate.go:126-168 | the same for a relationship template |
| Defects.TargetExactly | internal/config/validate.go:13-84 | the same for a target with all its jobs |
| Soundness.ConditionFailsExactly | internal/engine/conditions.go:26-75 | a validated condition fails if and only if it is a value condition with an operand that is not numeric |
| Soundness.TransformsNeverFail | internal/engine/property_transforms.go:28-57 | validated transforms never fail: no unknown processor, no invalid pattern |
| Soundness.SelectorFailsExactly | internal/engine/properties.go:65-115 | a validated selector fails if and only if the datapoint lacks one of its labels |
| Soundness.ValidatedJobsDoNotGoWrong | internal/engine/planner.go:18-124 | for every validated job and datapoint planning fails only for a non-numeric operand, a missing selector label, or an absent or blank node name, each with its culprit |
| Soundness.ResolvedKeysAreUserNames | internal/config/validate.go:454-463 | the reserved prefix survives validation, trimming and resolution: no resolved property carries it |
| Soundness.NodePlanned | internal/engine/planner.go:24-71 | a planned node carries its four automatic properties, the template's hashes, policy and expiry, and otherwise exactly the resolved properties |
| Soundness.RelationshipPlanned | internal/engine/planner.go:83-120 | a planned relationship carries its automatic properties, the resolved source and target selectors in their places, and otherwise exactly the resolved properties |
| Soundness.ValidatedJobsMakePlannedPlans | internal/engine/planner.go:44-71 | every planned node has sorted non-empty types, a trimmed non-empty name, the uid of its identity, a known policy and no time stamps of its own |
| Pipeline.NonNumericOperandOccurs | internal/engine/conditions.go:77-98 | this error is still reachable after validation |
| Pipeline.MissingLabelOccurs | internal/engine/properties.go:106-115 | this error is still reachable after validation |
| Pipeline.NameAbsentOccurs | internal/engine/planner.go:44-47 | this error is still reachable after validation |
| Pipeline.NameEmptyOccurs | internal/engine/planner.go:49-52 | this error is still reachable after validation |
| Pipeline.ValidatedRunsKeep | internal/repository/neo4j/client.go:62-106 | the time stamp and identity history holds for every run of plans from validated configurations |
| Pipeline.ValidatedRunsExcludeErrors | internal/repository/neo4j/relationships.go:67-100 | in such runs, from a graph without duplicate links, no plan fails for an unknown policy or an ambiguous relationship |
| PipelineConcurrency.PlannedNodesSafeExactly | internal/repository/neo4j/locks.go:45-57 | two planned nodes are safe to write concurrently if and only if, whenever both are created under equal labels and name, their types are equal and their template hashes make one text, up to order |
| PipelineConcurrency.PlannedRelationshipsSafeExactly | internal/repository/neo4j/locks.go:59-71 | two planned relationships are safe if and only if, whenever they share a new link, their selectors make one identity |
| PipelineConcurrency.ConfiguredNodesSafe | internal/engine/processor.go:52-111 | any number of concurrent datapoints of validated jobs never duplicate a node, if node templates with equal labels carry equal types and hashes, up to order |
| PipelineConcurrency.ConfiguredLinksSafe | internal/engine/processor.go:52-111 | and never duplicate a relationship, if ends are selected by name alone and templates of one type and hash connect nodes of the same types |

## Left out

- Cypher text and the Neo4j driver: each fixed query is given its effect on the abstract graph; result decoding errors other than a uid that is not text are not modelled.
- Rows with equal keys: the database may return them in any order; the model fixes one by element id.
- Server-side locks and several collector processes: the mutexes live in one repository object.
- Concurrency: a selector query is one step, and so is a count, a load or a write; the interleaving inside one query is the database's.
- ConcurrentRuns.NoDuplicateRelationships: the hypothesis is about the pairs that open calls have selected, because selections change while other plans write; ConcurrentLinkLimits and ConcurrentNamedEnds derive it from the plans alone for plans without nodes and for ends selected by name.
- PipelineConcurrency.PlannedNodesSafeExactly: for names and hashes without unit separators and a digest that tells the two texts apart; collisions of digests are not modelled. The configuration theorems need neither.
- PipelineConcurrency.PlannedRelationshipsSafeExactly: the same, for types, hashes, attribute names and canonical values without unit separators.
- PipelineConcurrency.ConfiguredLinksSafe: ends that are selected by other attributes are covered by the pairwise theorem only, since such attributes can change between two selections.
- Filters.ClauseReadsExactly: a text outside the conjunctions of parameter tests counts as rejected, although a longer Cypher expression could be valid when its variables happen to exist.
- Repository.Repository.ApplyPlan: a rolled-back attempt runs the whole callback before it is dropped; attempts cut short have the same effect.
- PlanInvariants.RunsKeep: clock readings of failed plans are not part of a run; they only advance the clock.
- Time stamps: formatted times written by the repository are kept as seconds, so ordering them is ordering times.
- Values.ChangeDetectionExact: Go values outside the property types (structs, channels, maps with other key types) are not modelled.
- Rules.ResolveProperties: error texts and wrapping are dropped, here and everywhere else.
- Planner.ResolveSelector: which of several missing labels is reported depends on map order and is not kept.
- Normalize.NormalizeFileConfig: the Go structs are updated in place through slices; here the loops build new values, and endpoints are taken after the merge of their legacy attributes, which EndpointConfig.Normalize does in place.
- The defaults that move `type` into `types` and a single template hash into `template_hash`, YAML and environment decoding: the soundness theorem holds for every value of these fields.
- SHA-1, the regular expression engine, JSON encoding, case mapping and time formatting: uninterpreted functions.
- The collector for Prometheus, tokens, TLS, logging, real tickers and sleeping: I/O and plumbing.
- Defects.TargetExactly: for configurations whose words (types, operators, policies, processors) are ASCII; upper and lower case of other letters is not modelled.
- Planner.NodeUidReads: for types and hashes without "|" and parts without unit separators, where the text can be cut again.
- Planner.RelationshipUidReads: the same, for selectors without an attribute named "selector" in the source.
- Metrics totals across jobs: plain sums of the reports proved here.
