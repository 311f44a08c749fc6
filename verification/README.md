# Baseline: a verified model of the governance core

Baseline is a service in which facts about a codebase or an organisation are proposed, reviewed,
activated, superseded, revoked and expired, and from which agents read the facts in force. This
project models its core in Dafny and proves what holds over every run.

## What is modelled

- **The governance database.** `Schema` has the tables, the two partial unique indexes and the
  foreign keys. `Store` has the database and its transactions: a transaction works on a snapshot,
  any constraint violation marks it aborted, and the commit of an aborted transaction changes
  nothing. `Workflow` says outright what each operation does to the tables; `Promotions` and
  `Maintenance` are the operations as the code runs them, statement by statement in a transaction,
  proved to compute exactly those functions. `Outcomes` and `Columns` say the same of them column by
  column and event by event, `RuleMeaning` and `KeyMeaning` spell out rules and keys. `Registries` has the writes to namespaces and memberships.
- **Every run.** A run is a sequence of committed transactions from the empty database
  (`Workflow.Next`, `Runs.Exec`). `Invariants`, `Ledger` and `Approvals` hold one large inductive
  invariant, `Runs.Sound`: the constraints, the pairing of facts and promotions, lineage, replay of
  the audit log, version accounting and the exact threshold. `History` has what a single step may do
  and what stays true for the rest of any run. `Deviations` says exactly where the code leaves its
  documented rules, `Accounting` where events and transitions part, and `Counterexamples` reaches
  those states. `Slots` ties the slots to subjects, `Authority` the approvals to roles,
  `Attribution` the events to principals. `Idempotency` lets many clients interleave.
- **The `/context` resolver** (`Resolver`), entitlements (`Entitlement`) and both composed
  (`Context`).
- **Canonical keys** (`Subjects`) and **the auto-promotion engine** with its registry
  (`Autopromote`).

## Assumptions

- Committed transactions are serial: each is one step. The lookup that precedes the propose
  transaction is a separate step, and other steps may come between.
- Ids are fresh and increasing; a rolled-back transaction leaves no trace, id counter included.
- The log is in insertion order. `now` is an integer, constant within a transaction.
- `SetEmbedding` succeeds whenever `Embed` does; whether `Embed` does is an input. The memory
  backend's list is an input.
- Roles and platform admins are those at the step; a role that changes between the handler's check and
  its transaction is not modelled.
- Tags are sets. Metadata values are the strings the engine compares. Case folding and trimming are
  those of ASCII.
- No code path writes `valid_to`; an operator may, by SQL, so runs contain a step that sets it
  (`Workflow.SetValidToTx`).

## Where the code and its documentation differ

The model follows the code.

- "Terminal states have no outgoing transitions" (`internal/facts/statemachine.go:29`) is false:
  `Supersede` does not check that the old fact is still active. `History.TerminalChanges` says exactly
  when a terminal fact changes, `Counterexamples.RevokedFactSuperseded` is a reachable witness.
- "Two-way lineage" (`internal/promotions/service.go:290-292`) holds when a fact is superseded but not
  for ever: `History.SuccessorNamesBack` is the half that always holds, `History.TwoWayBroken` says
  exactly which step breaks the other half, `Counterexamples.LineageLost` reaches a state without it.
- "A fact is active if and only if it has enough approvals", the first conformance criterion, fails of
  engine approvals, which have no reviews (`Counterexamples.ActiveNotEnough`), and of facts that were
  active once (`Counterexamples.EnoughNotActive`). `Deviations.ActiveIffEnough` says exactly when it
  holds, `Approvals.ExactThreshold` what always does.
- A pending promotion can be approved, so a fact goes from proposed to active without review, and late
  approvals supersede retired facts; the service never consults `CanTransition`. `Deviations.OffTable`
  says exactly when a step leaves the table, `Counterexamples.EdgesExact` which changes occur.
- The comment on `ActivateAuto` says that `approved_by` holds the engine; the statement leaves the
  column empty (`Counterexamples.ActiveNotEnough`).
- The `fact.superseded` event always records "active" as the state left, also for a fact that had been
  revoked or had expired: `Deviations.EventLabels`, `Counterexamples.RevokedFactSuperseded`.
- "Every state transition produces exactly one event", the fifth conformance criterion, fails: a repeated
  approval logs an event and changes nothing (`Counterexamples.RepeatedApproval`), an engine's approval
  logs none on the promotion, and a submission none on the fact. `Accounting.EventsBalance` is the exact
  account.
- "Absent values simply won't match engine rules" (`internal/promotions/service.go:114-115`) is false: a
  condition on null or the empty string matches an absent origin type, source kind or actor type
  (`Autopromote.NullPromotes`), and `Autopromote.AbsentMatches` says exactly when.
- `Validate` accepts a rules document followed by more input, which `Evaluate` then refuses
  (`Autopromote.ValidatedButRefused`). Only a direct call of the exported functions can pass such
  bytes; a stored policy is one JSON value (`Registries.RunRegistry`).
- A `:` inside a part of a subject can merge two different subjects (`Subjects.KeyCollision`,
  `Subjects.ColonCollision`).

## Model

| member | source | states |
|---|---|---|
| Subjects.CanonicalKey | internal/facts/subject.go:35-56 | whatever order the qualifier map is ranged in, the key is the one value the subject determines, spelled out by KeyMeaning.KeyShape |
| KeyMeaning.KeyShape | internal/facts/subject.go:35-56 | the key is the type in lower case without blanks around it, the scope likewise or "global" for a blank one, and the k=v texts of the qualifiers in byte order, keys in lower case and values as they are |
| KeyMeaning.NormalizeMeans | internal/facts/subject.go:36-37 | two parts normalise alike if and only if they differ only in the case of ASCII letters and in the blanks around them |
| KeyMeaning.CaseAndBlanksIgnored | internal/facts/subject.go:35-56 | subjects whose type, scope and qualifier keys differ only so, and whose values differ only in blanks, share a key |
| KeyMeaning.ValuesStayApart | internal/facts/subject.go:46-50 | qualifier values that differ in more than blanks, their case included, give different keys |
| KeyMeaning.BlankScope | internal/facts/subject.go:37-40 | a blank scope gives exactly "global" |
| Subjects.NormalizeIdempotent | internal/facts/subject.go:36-40 | normalising a normalised part changes nothing |
| Subjects.PairsCount | internal/facts/subject.go:45-52 | a string is printed into the key as often as qualifiers print as it, independent of order |
| Subjects.KeyCollision | internal/facts/subject.go:35-56 | two subjects share a key if and only if their parts print the same colon-separated segments |
| Subjects.KeyFaithful | internal/facts/subject.go:35-56 | without ':' in the parts, equal keys if and only if equal normalised type, scope and multiset of k=v strings |
| Subjects.KeyOfNormalForm | internal/facts/subject.go:36-43 | normalising type or scope beforehand, or writing out the default scope, leaves the key alone |
| Subjects.ColonCollision | internal/facts/subject.go:35-56 | two subjects with different types and one key |
| Reviews.DistinctApprovers | internal/promotions/promotion.go:61-73 | the loop collects exactly the reviewers with an approval, without the proposer |
| Reviews.ApproverList | internal/promotions/service.go:346-355 | the approver list has each distinct approver once, never the proposer, and as many names as there are approvers |
| Reviews.CollectApprovers | internal/promotions/service.go:346-355 | the loop with its `seen` set computes that list |
| Reviews.ApprovalCounts | internal/promotions/promotion.go:76-92 | an approval adds its reviewer and counts once, however often it is repeated |
| Reviews.OtherVerdicts | internal/promotions/service.go:431-455 | a rejection or a request for changes never moves the count |
| Store.Db.Commit | internal/promotions/service.go:484-494 | commit publishes the transaction's tables, or nothing at all once it is aborted |
| Store.Tx.InsertFact | internal/facts/repo.go:42-63 | the row goes in under a fresh id, or a constraint violation aborts the transaction |
| Store.Tx.PutFact | internal/store/migrations/00001_init.sql:44-48 | a row write succeeds exactly when the active-slot index and the foreign keys allow it, and otherwise aborts |
| Store.Tx.InsertPromotion | internal/promotions/repo.go:31-48 | as for facts, under the idempotency index and the foreign keys |
| Store.Tx.FindActiveByKey | internal/facts/repo.go:192-195 | the one active fact of the slot, if any |
| Store.Tx.UpdateStateAndReviews | internal/promotions/repo.go:102-115 | only state and reviews of the one row change; missing rows and aborted transactions are errors |
| Store.Tx.SetStatus | internal/facts/repo.go:201-211 | status and version of the one row change; a missing row is not found, a violated constraint aborts |
| Store.Tx.SetEmbedding | internal/facts/repo.go:71-78 | only the embedding changes, not the version; a missing row is no error |
| Store.Tx.Activate | internal/facts/repo.go:215-228 | the row becomes active with its approvers unless the index refuses it, which aborts |
| Store.Tx.ActivateAuto | internal/facts/repo.go:260-274 | the row becomes active with the auto:true tag and approved_by untouched, unless the index refuses it |
| Store.Tx.Supersede | internal/facts/repo.go:278-290 | both lineage pointers are set and the old fact becomes superseded from whatever status it had; a pointer to a missing row aborts |
| Store.Tx.WriteAudit | internal/audit/audit.go:32-52 | one event is appended, durable only with the transaction |
| Promotions.Service.LookUp | internal/promotions/service.go:128-149 | a blank type is refused, then an earlier promotion of the same proposer and key answers, then a missing namespace is refused, then the terms are the policy's |
| Promotions.Service.Propose | internal/promotions/service.go:127-218 | without interference a propose is refused, or answered with the earlier promotion and no change, or its transaction always succeeds |
| Promotions.Service.ProposeCommit | internal/promotions/service.go:154-216 | for any terms read earlier the transaction has the outcome of Outcomes.ProposeMeans, or rolls back |
| Outcomes.ProposeMeans | internal/promotions/service.go:154-274 | column by column and event by event: what is new for review, or what an engine activates at once when its verdict on the proposal's own fields is to promote; the conflict is the slot's holder |
| Outcomes.AutoPromotionMeans | internal/promotions/service.go:226-274 | with simple/v1 pinned a committed propose is active at once if and only if the rules are acceptable and some rule has all conditions true of the proposal's origin type, source kind, actor type, tags and metadata |
| RuleMeaning.SimpleMeans | internal/autopromote/simple/simple.go:62-175 | the engine promotes a proposal exactly then, in terms of the JSON values and the proposal's fields |
| RuleMeaning.PromotionNamesRule | internal/autopromote/simple/simple.go:62-116 | every promotion names a rule of the document that is not empty, names allowed fields only and is true of the proposal |
| Promotions.Service.InsertProposal | internal/promotions/service.go:156-211 | fact, promotion and event go in together, with the slot's holder as the recorded conflict, or the transaction aborts |
| Promotions.Service.MaybeAutoPromote | internal/promotions/service.go:226-274 | an engine's promotion activates the fact, and a swallowed error aborts the transaction; the only cause is a slot held by another fact than the recorded conflict |
| Promotions.Service.EmbedActivated | internal/promotions/service.go:89-100 | embedding never stops an activation and changes nothing else |
| Promotions.Service.Approve | internal/promotions/service.go:293-341 | in every state with paired rows the transaction has the outcome of Outcomes.ApproveMeans, errors and rollback included |
| Outcomes.ApproveMeans | internal/promotions/service.go:293-384 | column by column and event by event: the errors in order; below the threshold one review and one event; at it, and with the slot free, the fact active from now on, one version up, its tags and validity as they were, approved by the distinct voters in order of their approvals, and the conflict superseded |
| Columns.StepColumns | internal/facts/repo.go:201-290 | over every step a fact's identity and tags stay, only an operator changes its validity, and only the approval that activates it stamps its start and its approvers |
| Columns.TagsStay | internal/facts/repo.go:201-290 | over any run an existing fact keeps its tags |
| Promotions.Service.Activate | internal/promotions/service.go:345-384 | superseding and then activating succeeds exactly when the slot is open, and aborts otherwise |
| Promotions.Service.Submit | internal/promotions/service.go:277-288 | only its own proposer submits a promotion, pending or returned; state errors before proposer errors; both rows and one event |
| Promotions.Service.Withdraw | internal/promotions/service.go:404-415 | only its own proposer withdraws a promotion; proposer errors before state errors; both rows and one event |
| Outcomes.ProposerMeans | internal/promotions/service.go:277-288 | the same of the two transactions, column by column |
| Promotions.Service.RecordReview | internal/promotions/service.go:431-455 | equals its specification for any decision |
| Promotions.Service.Reject | internal/promotions/service.go:387-389 | exactly the reviewer's rejection is appended, both rows are rejected, and the event names the reviewer |
| Promotions.Service.RequestChanges | internal/promotions/service.go:392-401 | exactly the reviewer's request is appended, the promotion is returned and its fact proposed again, and the event names the reviewer |
| Outcomes.ReviewMeans | internal/promotions/service.go:431-455 | the same of the two transactions, column by column |
| Attribution.RunAttributed | internal/audit/audit.go:32-52 | over every run: submissions and withdrawals are logged by the proposer, decisions by a reviewer whose review stands in the promotion, approvals never by the proposer, expiries by the reaper, engine promotions by an engine |
| Promotions.Service.Finish | internal/promotions/service.go:459-481 | promotion row, fact row and event change together |
| Promotions.ActivationAdmissible | internal/promotions/service.go:357-381 | after the conflict is cleared the index accepts the activation if and only if no other active fact holds the slot |
| Promotions.NewProposalAdmissible | internal/store/migrations/00001_init.sql:78-82 | a proposal is accepted if and only if its namespace exists and its idempotency key is unused |
| Maintenance.Revoke | internal/facts/service.go:24-41 | succeeds exactly on an existing, active fact at the given version, and then changes its status and version and logs one event by the principal; otherwise no change and NotFound, NotActive or VersionConflict exactly as the fact is missing, inactive or at another version |
| Columns.RevokeSinceRead | internal/facts/repo.go:232-255 | over any run, a revoke with a version read earlier succeeds if and only if the fact was active then and no column but its embedding and validity has changed since |
| Maintenance.SelectDue | internal/reaper/reaper.go:38-56 | exactly the active facts past valid_to, each once, in any order |
| Maintenance.Reap | internal/reaper/reaper.go:35-82 | exactly the active facts with valid_to at or before now expire, one version up and one event by the reaper each, and none such is left; the counts are theirs and that of facts lapsing within a day |
| Maintenance.ExpireRows | internal/reaper/reaper.go:58-69 | the loop of updates and events equals the specification for the order of the ids |
| Maintenance.ExpireAllFacts | internal/reaper/reaper.go:58-69 | the listed facts are expired one version up, every other row is untouched, one event each |
| Maintenance.StoreEmbedding | internal/facts/backfill.go:60-71 | one row of the pass sets one embedding, whatever has become of the fact meanwhile |
| Maintenance.Backfill | internal/facts/backfill.go:33-73 | without interference exactly the active facts that can be embedded gain an embedding; scanned is embedded plus failed, and failed is what remains |
| Runs.BackfillIsRun | internal/facts/backfill.go:60-71 | the pass is the run of its own statements in any order |
| Registries.CreateNamespace | internal/namespaces/repo.go:26-44 | refused exactly for a taken name, a missing parent or rules that are no JSON value; otherwise the given policy or the kind's default, no other namespace changed, and nobody's access changed |
| Registries.UpdatePolicy | internal/namespaces/repo.go:74-87 | a policy governs exactly the later proposals of its namespace; no promotion made before changes, its required approvals included, and no access changes |
| Registries.Grant | internal/rbac/repo.go:24-36 | a grant adds exactly one ancestor chain of reads and its role's permissions in one namespace, to its principal; unknown roles and namespaces are refused |
| Registries.RevokeGrant | internal/rbac/repo.go:39-45 | everyone keeps exactly what their other memberships give them |
| Registries.RunRegistry | internal/namespaces/repo.go:131-144 | in every run names are unique and stored rules that simple/v1 validates are never refused |
| Invariants.AddKeepsConstraints | internal/store/migrations/00001_init.sql:44-82 | an unblocked proposal keeps both unique indexes and every foreign key |
| Invariants.ActivateRows | internal/promotions/service.go:345-384 | an activation changes the promoted fact and the recorded conflict and no other fact |
| Invariants.ActivateKeeps | internal/promotions/service.go:345-384 | an activation into an open slot keeps slot uniqueness, pairing and lineage |
| Invariants.MoveKeeps | internal/promotions/service.go:431-481 | submit, withdraw, reject and request-changes keep them |
| Invariants.LeaveKeeps | internal/facts/repo.go:236-255 | revoking and expiring keep them |
| Invariants.OneToOne | internal/promotions/service.go:163-200 | distinct promotions have distinct facts |
| Ledger.ReplayConcat | internal/audit/audit.go:32-52 | replaying the log in two parts is replaying it whole |
| Ledger.ActivateReplays | internal/promotions/service.go:345-384 | replaying the events of an activation gives exactly its new statuses and states, for reviewers and engines |
| Ledger.MoveReplays | internal/promotions/service.go:459-481 | the one event of a move gives the new state and the fact's new status |
| Ledger.ActivateVersions | internal/facts/repo.go:213-290 | versions grow by the events that touch the fact, through an activation |
| Ledger.MoveVersions | internal/facts/repo.go:201-211 | likewise through submit, withdraw, reject and request-changes |
| Approvals.ExactThreshold | internal/promotions/promotion.go:76-81 | in every reachable state enough approvals if and only if reviewers activated the fact, and then the count equals the requirement and approved_by lists exactly those distinct reviewers, never the proposer |
| Approvals.ReviewedThresholds | internal/promotions/service.go:304-321 | the approval that reaches the threshold keeps the exact threshold everywhere |
| Approvals.AutomaticThresholds | internal/promotions/service.go:242-273 | an engine approval keeps it, with no reviews and no approvers |
| Runs.StepSound | internal/promotions/service.go:127-481 | every operation keeps every invariant |
| Runs.Exec | internal/store/migrations/00001_init.sql:44-82 | every state of every run from the empty database satisfies all invariants |
| Runs.VersionConserved | internal/facts/repo.go:201-289 | version is one plus the events on the fact plus the submit, reject, request-changes and withdraw events of its promotion |
| Runs.LogDetermines | internal/audit/audit.go:32-52 | two reachable states with the same log agree on every status, promotion state, version and lineage pointer |
| Runs.VersionIsolation | internal/autopromote/autopromote.go:78-112 | registering or replacing an engine changes no run in which no proposal is pinned to it |
| Lifecycle.TableEdges | internal/facts/statemachine.go:18-49 | the edges of the reference table, both ways; none leaves a terminal status |
| History.StepEdges | internal/promotions/service.go:127-481 | a step changes a fact by one version and along a table edge or an extra edge, or sets a proposed or superseded fact so again, or leaves the governed row alone |
| Counterexamples.EdgesExact | internal/promotions/service.go:127-481 | some reachable step takes a fact from one status to another if and only if that is a table edge, proposed to active, revoked or expired to superseded, or proposed or superseded to itself |
| Deviations.OffTable | internal/promotions/service.go:293-384 | a step takes a fact off the table if and only if an approval activates a fact still proposed or supersedes one revoked or expired |
| Deviations.EventLabels | internal/promotions/service.go:361-383 | every event names the status its fact then has, and the status it had except, exactly, when the step supersedes a fact no longer active |
| Deviations.ActiveIffEnough | internal/promotions/promotion.go:76-81 | active if and only if enough approvals, exactly unless an engine activated the fact and it is active, or reviewers did and it no longer is |
| Counterexamples.EnoughNotActive | internal/promotions/service.go:314-318 | a reachable promotion with enough approvals whose fact is revoked |
| Counterexamples.ActiveNotEnough | internal/facts/repo.go:257-274 | a reachable active fact promoted by simple/v1 with no approval and an empty approved_by |
| Counterexamples.RevokedFactSuperseded | internal/facts/repo.go:278-290 | a reachable state in which an approval turns a revoked fact into a superseded one, takes a proposed fact straight to active, and logs the revoked fact as having been active |
| Accounting.EventsBalance | internal/promotions/service.go:127-481 | per step, the events on a promotion are its transitions, plus one for an approval that leaves it under review, less one for an engine's approval; the events on a fact are its transitions, less its creation and the moves logged on its promotion, plus one for a second supersession |
| Counterexamples.RepeatedApproval | internal/promotions/service.go:308-334 | a reachable state in which an approval is repeated: one more event, and no row changes |
| Slots.RunKeysMatch | internal/facts/repo.go:42-63 | over all runs the key column is the key of the subject column |
| Slots.OneActivePerIdentity | internal/store/migrations/00001_init.sql:44-48 | in every run two active facts of a namespace never have the same normalised type, scope and k=v strings, whatever characters they hold |
| Slots.RecordedConflict | internal/promotions/service.go:156-162 | in every run and without ':' in the subjects, a propose records a fact as its conflict if and only if it is active in the target with the same normalised subject |
| Authority.ReviewsByReviewers | internal/promotions/service.go:308-312 | a review enters a promotion only by its own reviewer's step on that promotion |
| Authority.FourEyes | internal/server/handlers_promotions.go:158-181 | over every authorised run a fact that reviewers activated has exactly the required number of distinct approvers, none the proposer, each of whom approved that promotion while a reviewer there or an admin; the proposer proposed in role |
| History.TerminalChanges | internal/facts/repo.go:276-290 | a terminal fact changes if and only if a promotion that recorded it as conflict is activated by an approval |
| History.SuccessorNamesBack | internal/facts/repo.go:276-290 | superseded if and only if superseded_by is set; the successor is newer, in the same slot, and names the fact back |
| History.ChainsNeverMerge | internal/facts/repo.go:276-290 | no fact is the successor of two facts |
| History.ChainEnd | internal/facts/repo.go:276-290 | every superseded_by walk ends, at an active, revoked or expired fact of the slot |
| History.TwoWayBroken | internal/facts/repo.go:276-290 | two-way lineage survives a step if and only if the step does not supersede the old fact again |
| History.ApproveSwaps | internal/promotions/service.go:314-384 | an approval at the threshold commits if and only if the slot is empty or holds the recorded conflict, and then the slot holds the promoted fact; otherwise nothing at all changes |
| History.AutoPromotionAllOrNothing | internal/promotions/service.go:154-274 | a committed propose adds one fact and one promotion; either both wait and no other fact is touched, or the fact is active with its tag, exactly the conflict superseded with two-way lineage, and one engine event logged |
| History.LogGrows | internal/audit/audit.go:32-52 | every step only extends the log |
| History.PromotionStep | internal/promotions/repo.go:102-115 | reviews are only appended, and approved and rejected promotions never change |
| History.RunLater | internal/promotions/service.go:127-481 | over any continuation of any run rows are never lost, identities never change, versions never fall, phases never go back, decided promotions never change |
| History.NeverReactivated | internal/facts/repo.go:213-228 | a fact that left active is never active again, and a rejected fact never changes |
| Counterexamples.LineageLost | internal/facts/repo.go:278-290 | a reachable state in which a fact names a predecessor that names another successor |
| Idempotency.PerformConsistent | internal/promotions/service.go:132-216 | lookups and transactions of many clients, interleaved with everything else, keep all invariants and the truth of earlier answers |
| Idempotency.OnePerKey | internal/store/migrations/00001_init.sql:78-82 | one promotion per proposer and key |
| Idempotency.SameAnswer | internal/promotions/service.go:132-140 | in every interleaving all proposes of one proposer and key are answered with the same promotion |
| Idempotency.RetryReturnsFirst | internal/promotions/service.go:132-140 | any later retry returns the first promotion and changes nothing |
| Resolver.BestIsFirstMaximum | internal/contextsvc/contextsvc.go:126-154 | the pass keeps, for exactly the keys that occur, the first row of highest precedence |
| Resolver.BestConcat | internal/contextsvc/contextsvc.go:126-154 | the best map of two concatenated row sequences is the left-biased merge of their best maps |
| Resolver.OrderIrrelevantWithoutTies | internal/contextsvc/contextsvc.go:149-153 | with unique maxima the row order does not matter |
| Resolver.AnswerDetermined | internal/contextsvc/contextsvc.go:126-167 | with unique maxima there is exactly one answer, whatever order rows and map entries come in |
| Resolver.ListingUnique | internal/contextsvc/contextsvc.go:159-164 | the sorted list is the same whatever order the map is ranged in |
| Resolver.ListBest | internal/contextsvc/contextsvc.go:159-164 | ranging and sorting list exactly the winners, by key |
| Resolver.MergeMemories | internal/contextsvc/contextsvc.go:181-213 | facts, then the uncovered memories in order, cut at the limit; an outage leaves the facts |
| Resolver.Resolve | internal/contextsvc/contextsvc.go:82-167 | the answer is, for some row order, the list of winners in key order with the uncovered memories below, cut at the limit; every fact in it is eligible and no row of its key goes before it: authoritative first, then user, project, team, org |
| Resolver.ResolveMeaning | internal/contextsvc/contextsvc.go:82-167 | for each key among the eligible rows exactly one fact, of maximal precedence, strictly sorted by key, and no other key |
| Resolver.AuthoritativeSurvives | internal/contextsvc/contextsvc.go:101-112 | an authoritative winner's key survives every tag filter at the same precedence, with the same fact when maxima are unique |
| Resolver.ScopeMonotone | internal/contextsvc/contextsvc.go:82-154 | a larger scope keeps every key and never lowers the winner |
| Resolver.MemoriesBelowFacts | internal/contextsvc/contextsvc.go:178-213 | no memory precedes a fact or carries a fact's key, and one appears only if every fact does |
| Resolver.LimitedAnswer | internal/contextsvc/contextsvc.go:181-220 | with unique maxima the limited answer is a prefix of the unlimited one, for a backend whose limited list is a prefix of its full one |
| Resolver.AnswerComplete | internal/contextsvc/contextsvc.go:82-167 | every eligible row is represented by a fact of its key that ranks no lower, if and only if the limit has room for one fact per eligible key |
| Resolver.WiderAnswer | internal/contextsvc/contextsvc.go:82-167 | every fact of an answer keeps its key in each answer over a larger scope that fits its limit, at no lower rank |
| Resolver.AuthoritativeAnswer | internal/contextsvc/contextsvc.go:101-112 | an authoritative fact of an unfiltered answer keeps its key in each filtered answer that fits, at exactly its rank |
| Resolver.ReaperInvisible | internal/contextsvc/contextsvc.go:91-98 | resolving later selects the same rows whether or not the reaper ran before |
| Resolver.EagerIsLazy | internal/contextsvc/contextsvc.go:91-98 | for every later time the possible answers are the same with and without the earlier reap |
| Resolver.ReapIdempotent | internal/reaper/reaper.go:31-35 | after a reap nothing is due, and a second one at the same time changes nothing |
| Entitlement.ReadableSet | internal/rbac/repo.go:100-125 | the recursive walk ends on any parent graph and yields exactly the reflexive-transitive ancestors of the granted namespaces |
| Entitlement.ResolvePrincipal | internal/rbac/repo.go:76-126 | direct roles are exactly the memberships, readable namespaces exactly the closure |
| Entitlement.RoleMatrix | internal/rbac/rbac.go:45-75 | the capability matrix, both ways |
| Entitlement.CanMeaning | internal/rbac/principal.go:38-53 | writing needs a direct role there, reading any role below, or an admin |
| Entitlement.AncestorsAreChain | internal/store/migrations/00001_init.sql:11 | the ancestors of a namespace form one chain |
| Entitlement.RunParents | internal/namespaces/repo.go:26-44 | over all runs a parent is older than its children |
| Entitlement.ForestAcyclic | internal/namespaces/repo.go:26-44 | over all runs no namespace is its own ancestor |
| Context.GetContext | internal/server/handlers_context.go:16-72 | resolves over exactly the readable namespaces the override admits; exactly a malformed override is refused |
| Context.ScopedContext | internal/server/handlers_context.go:25-72 | exactly a malformed override is refused; facts show their columns, are active, unexpired, in scope and pass the tags, yield to no visible fact of their key by authority or kind, and come first in key order; a fact for every visible key if and only if the limit has room; memories only for other keys, and all of those without a limit |
| Context.FactsMean | internal/contextsvc/contextsvc.go:71-154 | the same of the facts in any answer |
| Context.CompleteMeans | internal/contextsvc/contextsvc.go:91-154 | the same of completeness |
| Context.MemoriesMean | internal/contextsvc/contextsvc.go:178-213 | the same of the memories |
| Context.OverrideNarrows | internal/server/handlers_context.go:27-45 | each fact of a narrowed answer keeps its key in the full answer that fits its limit, at no lower rank |
| Context.OneAnswer | internal/contextsvc/contextsvc.go:126-167 | in every reachable state a scope of namespaces of different kinds has exactly one answer |
| Autopromote.VerdictMeaning | internal/autopromote/simple/simple.go:96-116 | for valid rules the verdict is that some rule has all conditions true, and the matched rule is the first such |
| Autopromote.OrderIrrelevant | internal/autopromote/simple/simple.go:96-125 | the verdict is independent of rule and condition order |
| Autopromote.MatchedRuleAlone | internal/autopromote/simple/simple.go:104-112 | the matched rule promotes the candidate again on its own |
| Autopromote.NewRegistry | internal/autopromote/autopromote.go:62-68 | exactly the given ids, the last engine of an id winning |
| Autopromote.FailClosed | internal/autopromote/autopromote.go:101-112 | unknown engines never promote; simple/v1 promotes if and only if the rules are valid, nothing follows them and some rule holds |
| Autopromote.AbsentMatches | internal/autopromote/simple/simple.go:127-175 | a valid condition matches an absent value if and only if it asks one of the three scalar fields for the empty string, as null does |
| Autopromote.NullPromotes | internal/autopromote/simple/simple.go:127-133 | a valid, storable rule that promotes every candidate without an actor type |
| Autopromote.TrailingRefused | internal/autopromote/simple/simple.go:66-102 | such rules |

## Left out

- HTTP routing, JSON codecs, authentication, the MCP bridge, the command line, the frontend and the
  plugin: plumbing around the modelled calls.
- Interleavings inside one READ COMMITTED transaction: transactions are serial, as assumed above.
- Subjects.CanonicalKey: ASCII instead of Unicode folding and trimming.
- Subjects.NormalizeIdempotent: ASCII instead of Unicode folding and trimming.
- KeyMeaning.NormalizeMeans: likewise.
- Promotions.Service.RequestChanges: without the statement edit a request may carry
  (`internal/promotions/service.go:397-399`), a separate best-effort write.
- Promotions.Service.EmbedActivated: an error of the statement that stores the embedding would abort the
  transaction, although the code goes on; the model assumes, as above, that it does not fail.
- Maintenance.Backfill: without interference; in runs each row's statement is a step of its own, so other
  steps may come between. Which facts can be embedded is an input.
- Resolver.ListBest: the library's sort is modelled as an insertion sort; on distinct keys the result
  is the same.
- Autopromote.VerdictMeaning: JSON values are kept only as far as conditions can tell them apart.
- Comments and times of reviews, provenance, confidence, source memory ids and
  created and updated times: no modelled decision reads them.
- The 32-bit width of the version column.
- Read-only listings: facts, promotions, members and history.
- Embedding text, vectors and semantic search.
- The approval latency metric and the metrics gauges, but for the reaper's own counts.
- A claim that every stored policy is valid: creating a namespace does not validate its policy.
