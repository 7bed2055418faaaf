# Accretion: verified models of the control plane

Accretion is a control plane for AI coding agents: it validates workflow templates, admits and runs
work, governs every capability call, brokers credentials, records an event log and shows it to an
operator. This project models the parts of it where correctness is not visible from one function
body, and proves what those parts are for. It is Dafny 4.11; `dafny verify dfyconfig.toml` checks
all of it.

| file | models | main results |
|---|---|---|
| `Layering.dfy`, `GraphLayout.dfy` | `apps/ui/src/graphLayout.ts` | bounded in-place relaxation computes longest-path layers exactly on acyclic input and is bounded on any input; boxes never overlap |
| `Admission.dfy` | `src/accretion/concurrency.py` | permit conservation, deadlock freedom exactly for limits of at least one, completion of every request, no overtaking whatever arrives |
| `Reachability.dfy`, `Templates.dfy`, `TemplateValidator.dfy` | `src/accretion/templates.py` | the validator accepts exactly the well-formed templates and reports exactly what is wrong with the others |
| `AcceptedTemplates.dfy`, `CoverageTable.dfy` | the same | what acceptance means on the nodes and edges alone |
| `Scheduler.dfy`, `Retries.dfy`, `Walks.dfy`, `RunStates.dfy`, `RunGraph.dfy` | graph walking in `src/accretion/services/run_manager.py` | which edge is taken, how often retries are, exactly when runs are left without an edge and exactly when they can still finish, as reachability in a finite graph; the same on the graph materialized from the template |
| `StrandedTemplates.dfy`, `CaptiveRuns.dfy`, `RepairRuns.dfy` | templates of both | accepted templates that strand runs, never let them finish, or misplace their stamps; accepted templates that repair and then give up |
| `Trace.dfy`, `TraceLog.dfy`, `Projection.dfy`, `EdgeCounts.dfy`, `Stamps.dfy` | `src/accretion/tracing.py`, `src/accretion/projections.py` | what the trace says of each event of the log; two folds over one log agree, are stable under append and conserve counts |
| `SideEffects.dfy`, `Gateway.dfy`, `GatewayRules.dfy`, `Audit.dfy` | `src/accretion/governance.py`, `src/accretion/persistence/side_effects.py`, `scripts/release_gate.py` | what the policy decides and what calls report; at most one execution per idempotency key over all interleavings and crashes; the independent audit is clean |
| `Repeats.dfy`, `LostSuccess.dfy`, `RepeatWitness.dfy` | the repeat path of `src/accretion/governance.py` | repeats return the record; exactly how a recorded success is lost |
| `Enterprise.dfy`, `EnterpriseRuns.dfy`, `AcquisitionGates.dfy`, `AccessMaterial.dfy`, `CredentialRules.dfy` | `src/accretion/enterprise_auth.py`, `src/accretion/token_broker.py`, `src/accretion/connections.py` | one live handle per owner, final revocation, which material is handed out, order of local checks and outside contacts, for calls one after another |
| `Overlaps.dfy`, `OrderlyCalls.dfy`, `CredentialWitness.dfy` | the same calls, interleaved | exactly which calls in flight undo a revocation; everything above holds while calls of one owner do not overlap |
| `EventClient.dfy` | `apps/ui/src/EventStream.tsx` | the operator always sees a prefix of the log, and everything the stream delivers in order |
| `Budget.dfy` | `apps/ui/budget/evaluate.ts` | the initial set is exact reachability; no build is repaired by one more static import |
| `Resolver.dfy` | `src/accretion/resolver.py` | resolution is a least element, blind to other principals' connections |
| `Ids.dfy` | `src/accretion/ids.py` | base-32 round trip, lexicographic order is time order |
| `Sequences.dfy`, `Strings.dfy` | | shared list and string facts |

## Where the code does less than it is meant to

Each of these is proved: inputs that fail, reached from the initial state where they are runs, and
the exact condition under which the intended property holds.

- A template the validator accepts can still strand a run. The scheduler selects edges by other
  rules than the coverage check, dispatches loop owners inside their own region, which the check
  skips, gets INCONCLUSIVE from AGENT and TOOL nodes, which the check's table leaves out, and cannot
  run JOIN nodes at all (`StrandedTemplates.TwoNodesStrandExactly`,
  `StrandedTemplates.InLineStrands`). Some run is stranded exactly when a stuck state is reachable
  among the run states, which are finite because a retry counts only up to its limit
  (`RunStates.StrandsExactly`); a sufficient condition on the edges alone is
  `Walks.WalksNeverStop`.
- A template the validator accepts can keep every run from finishing. For the validator a region
  member reaches what its owner reaches and its own edges count; the scheduler routes members to
  their owner and takes the owner's edges alone, so an owner whose edges lead into its own region is
  never left (`CaptiveRuns.CaptiveIsAccepted`, `CaptiveRuns.CaptiveNeverFinishes`). Every run can
  still finish exactly when a terminal is reachable from every reachable run state
  (`RunStates.FinishesExactly`).
- The validator raises a lookup error, instead of reporting an unknown region key, exactly when one
  of its searches comes to the key's owner (`TemplateValidator.Validate`,
  `StrandedTemplates.LostRegionKeyRaises`).
- A second exit of a node makes the projected status differ from the trace
  (`Projection.StatusesAgree`, `Projection.StrayExitDisagrees`), and an exit that says PENDING makes
  an entered node look untouched (`Projection.PendingMeansNeverEntered`,
  `Projection.PendingExitLooksUntouched`).
- A stamp on an entry names the selected edge, which is no in-edge of the entered node when the edge
  leads into a loop region (`Stamps.WellStampedExactly`). Such a stamp counts as a traversal into a
  node that was not entered (`Stamps.MisplacedStampCounts`, `CaptiveRuns.CaptiveMisstamps`).
- A gateway success whose report cannot be saved is overwritten as a failure in the ledger, although
  the effect took place, and a repeat reports that failure
  (`RepeatWitness.LostReportIsRepeatedAsFailure`); a read-only call carrying the key overwrites the
  row, and a repeat reports its output (`RepeatWitness.ReadOnlyOutputIsRepeated`). On keys only
  side-effecting calls carry, the first is the only way (`LostSuccess.LostExactlyByFailedReport`).
- A revocation of a connection and its handle is undone by an acquisition that has read the
  connection, or a renewal of the handle, in flight when it happens, and by nothing else
  (`Overlaps.RevocationUndoneExactly`, `CredentialWitness.AcquisitionRevives`,
  `CredentialWitness.RenewalReopens`). It holds for all its owner has exactly up to the owner's calls
  in flight where the connection is the owner's first (`Overlaps.OwnerReopenedExactly`). Two
  overlapping first acquisitions leave two live handles (`CredentialWitness.OverlapLeavesTwoLive`),
  and revoking the second connection then holds nothing else back: with nothing in flight, a new
  acquisition opens a handle for the same owner (`CredentialWitness.SecondConnectionHoldsNothingBack`).
- Renewing a credential seals under a new key and leaves the superseded secret in the store, so
  revoking destroys all of a handle's material exactly when it was never renewed
  (`EnterpriseRuns.MaterialDestroyedExactly`, `CredentialWitness.RenewedSecretSurvives`). Scopes are
  checked before a renewal and not after it, so the material handed out covers them exactly when the
  renewal was not narrower (`AccessMaterial.MaterialCoversExactly`,
  `CredentialWitness.NarrowedMaterialIsHandedOut`).
- A snapshot that shrinks can leave a gap in the displayed events
  (`EventClient.SnapshotKeepsPrefixExactly`, `EventClient.ShrunkSnapshotShowsAGap`).

## Model

| member | source | states |
|---|---|---|
| `Layering.Relax` | apps/ui/src/graphLayout.ts:73-85 | the bounded in-place relaxation: every layer is the length of some forward walk and at most the product of node and edge counts; all edges go strictly rightward if and only if the forward edges are acyclic, and then every layer is the length of the longest walk into its node |
| `Layering.RelaxPass` | apps/ui/src/graphLayout.ts:76-84 | one pass keeps every layer the length of some walk, lowers none, lifts each target above its source's earlier layer, adds at most one per edge, and reports no change only when every edge is rightward |
| `Layering.Settled` | apps/ui/src/graphLayout.ts:74-85 | after as many passes as there are nodes, or a pass without change, layers are longest walks on acyclic input and rightward exactly on acyclic input |
| `Layering.AcyclicWalksAreShort` | apps/ui/src/graphLayout.ts:74-75 | why the pass bound suffices: on acyclic edges no walk repeats a node, so none is longer than the node count |
| `GraphLayout.IndexParents` | apps/ui/src/graphLayout.ts:31-40 | the two indexes hold exactly the parent of each nested node and the children of each parent in node order |
| `GraphLayout.ForwardEdges` | apps/ui/src/graphLayout.ts:59-72 | the forward edges are exactly the non-return edges whose resolved endpoints are distinct top-level nodes |
| `GraphLayout.ColumnOffsets` | apps/ui/src/graphLayout.ts:95-103 | the first column starts at 0 and each next one exactly a gap beyond the widest box of the one before, so every column clears each box of each column to its left |
| `GraphLayout.PlaceRows` | apps/ui/src/graphLayout.ts:104-111 | every top-level box sits at its column and below all earlier boxes of its row |
| `GraphLayout.PlaceChildren` | apps/ui/src/graphLayout.ts:113-127 | every child gets its slot in its parent's row and no top-level box is disturbed |
| `GraphLayout.LayoutProjection` | apps/ui/src/graphLayout.ts:28-129 | for every projection with unique ids, cyclic or not: every node is placed; every top-level box is exactly at the column of its layer, below the boxes before it, with its measured size, and every child exactly in its slot; layers are lengths of walks, the longest ones on acyclic input; so boxes keep the gaps, children stay inside a top-level parent's padding, and on acyclic input every forward edge points a full gap to the right |
| `Admission.StepKeepsInv` | src/accretion/concurrency.py:24-31 | every step of every request, cancellation included, keeps permits balanced and each queue equal to its waiters |
| `Admission.AdmissionIsSafe` | src/accretion/concurrency.py:11-31 | after every interleaving, free permits plus holders equal the limit at all three levels and no more bodies run than the limit |
| `Admission.BodiesStayWithinLimits` | src/accretion/concurrency.py:11-31 | no more bodies run at once than the global limit, for one provider than the provider limit, and for one project than the project limit |
| `Admission.PermitsComeInOrder` | src/accretion/concurrency.py:24-31 | a request waits for the global permit holding none, for its provider's holding that, for its project's holding both |
| `Admission.DeadlockFreedom` | src/accretion/concurrency.py:11-31 | no reachable state is stuck if and only if all three limits are at least one |
| `Admission.ZeroLimitBlocks` | src/accretion/concurrency.py:12-22 | a zero limit lets a run reach a stuck state |
| `Admission.RunsAreFinite` | src/accretion/concurrency.py:24-31 | every run without arrivals is no longer than the work left in its start state |
| `Admission.EveryRequestCompletes` | src/accretion/concurrency.py:24-31 | from every reachable state, every run without arrivals is bounded, and one that cannot go on has finished every request and returned every permit |
| `Admission.CompletingRun` | src/accretion/concurrency.py:24-31 | with limits of at least one, from every consistent state some run of the requests' own steps finishes all of them |
| `Admission.NeverOvertaken` | src/accretion/concurrency.py:24-31 | whatever arrives later, while a request waits for a semaphore only requests that were ahead of it come to hold it, and its permits are freed at most as often as there are such requests |
| `Reachability.Search` | src/accretion/templates.py:130-168 | the worklist search returns exactly the reachable keys, and fails exactly when a key without a successor entry is reachable |
| `Reachability.ClosedHoldsReachable` | src/accretion/templates.py:130-168 | the reachable keys are contained in every closed set around the sources: the search computes the least closure |
| `TemplateValidator.CheckReferences` | src/accretion/templates.py:91-106 | reports nothing exactly when keys are unique, edges join known nodes and guards fit their kinds |
| `TemplateValidator.CheckForward` | src/accretion/templates.py:130-148 | reports nothing exactly when the sole entry reaches every node by edges and owner-to-member steps |
| `TemplateValidator.CheckBackward` | src/accretion/templates.py:150-168 | reports nothing exactly when every node reaches a terminal without loop-back edges |
| `TemplateValidator.CheckLoops` | src/accretion/templates.py:170-198 | reports nothing exactly when loop policies are sound and regions are disjoint |
| `TemplateValidator.CheckCoverage` | src/accretion/templates.py:248-298 | reports exactly the uncovered and ambiguous outcomes and shared retry guards of the scheduled nodes, and nothing exactly when every scheduled node has exactly one covering edge per outcome of its kind and at most one retry per guard |
| `CoverageTable.CoverageIsTheTable` | src/accretion/templates.py:248-298 | on the edges: coverage holds if and only if every node outside regions that is no terminal has exactly one edge per entry of the table for its kind, where only edges that are no RETRY answer FAIL, and retries with distinct guards |
| `CoverageTable.AcceptedIsEquipped` | src/accretion/templates.py:248-298 | so has every such node of an accepted template |
| `CoverageTable.RetryChangesNoCoverage` | src/accretion/templates.py:275-281 | one more RETRY on a failure or a replan, with a guard no other RETRY of its node has, covers nothing and uncovers nothing |
| `TemplateValidator.Validate` | src/accretion/templates.py:88-245 | the problem list is empty if and only if the template is well formed; a problem is in it if and only if it is one of the template's, with the right key, outcome or set of nodes; the lookup error is raised if and only if references are sound and an owner with an unknown region key is reached from the first entry or reaches a terminal |
| `AcceptedTemplates.AcceptedExactly` | src/accretion/templates.py:88-298 | well formed means, on the nodes and edges alone: unique keys, known endpoints and guards by kind, one task entry, terminals that nothing leaves, steps from the entry to every node and from every node to a terminal, sound loop policies and parents, one owner per region key, gates and replans that match, and the coverage table |
| `Scheduler.SelectedAnswersOutcome` | src/accretion/services/run_manager.py:2875-2925 | a selected edge leaves the node, is no loop-back and answers the outcome |
| `Scheduler.SelectsExactly` | src/accretion/services/run_manager.py:2875-2925 | under one retry history an edge is selected if and only if a retry of the outcome is open or there is one branch or plain edge to fall back on |
| `Retries.SelectsTheChosen` | src/accretion/services/run_manager.py:2875-2925 | for any edges, outcome and history the selected edge is exactly this: the first RETRY in order whose guard fits and that was taken fewer times than its limit, the replan budget for ON_REPLAN_AVAILABLE and the retry budget for any other guard; without one the sole fitting CONDITION or APPROVAL edge; without any the sole unguarded NORMAL edge on SUCCESS; else none |
| `Retries.RetryTakenExactly` | src/accretion/services/run_manager.py:2885-2896 | over every walk, a retry that comes first for its outcome is taken exactly as often as its node produces that outcome, until its limit is reached, and never again |
| `Retries.RetriesStayWithinLimits` | src/accretion/services/run_manager.py:2885-2896 | over every walk, no retry is taken more often than its limit |
| `Retries.WalkCountsItsPath` | src/accretion/services/run_manager.py:1252-1258 | the counts a walk ends with are those of the edges it has selected |
| `Scheduler.AlwaysSelectsMeansFalls` | src/accretion/services/run_manager.py:2875-2925 | for any edges and outcome, an edge is selected under every retry history if and only if there is one to fall back on |
| `Scheduler.CoverageDecides` | src/accretion/templates.py:248-298 | at the nodes and outcomes the coverage rule looks at, an accepted template always has an edge if and only if the covering edge is of a dispatchable kind |
| `StrandedTemplates.TwoNodesAreAccepted` | src/accretion/templates.py:88-298 | every two-node template whose one edge covers SUCCESS, of any kind but LOOP_BACK, is well formed |
| `StrandedTemplates.TwoNodesStrandExactly` | src/accretion/services/run_manager.py:2875-2925 | some run of such a template is stranded if and only if the edge is MERGE, FANOUT or ERROR, or RETRY without budget |
| `StrandedTemplates.InLineIsAccepted` | src/accretion/templates.py:88-298 | a TOOL, a JOIN or a LOOP inside its own region between a task and a terminal, joined by NORMAL edges, is well formed, with every outcome the coverage rule looks at dispatchable |
| `StrandedTemplates.InLineStrands` | src/accretion/services/run_manager.py:1193-1251 | a run of such a template from its entry ends without an edge on the TOOL's INCONCLUSIVE and on the LOOP's FAIL, and raises at the JOIN |
| `StrandedTemplates.LostRegionKeyRaises` | src/accretion/templates.py:130-148 | with an unknown key in the region of a reached loop the validator raises |
| `RepairRuns.RepairIsAccepted` | src/accretion/templates.py:88-298 | every template with a RETRY back to a tool and a CONDITION to the terminal on the same FAIL of a verifier is well formed, whatever its retry budget |
| `RepairRuns.FailureTurn` | src/accretion/services/run_manager.py:2885-2906 | under every history that verifier's FAIL takes the RETRY while it is open and the CONDITION once it is spent |
| `RepairRuns.RepairsThenFails` | src/accretion/services/run_manager.py:1193-1267 | from the verifier, as many failures as there are retries left are each followed by another attempt of the tool, and the next one takes the run to the terminal |
| `Walks.ProducedExactly` | src/accretion/services/run_manager.py:1398-1510 | which outcomes the runner hands to edge selection, kind by kind |
| `Walks.RoutedToOwner` | src/accretion/services/run_manager.py:1182-1187 | a target is routed to the last node whose loop lists it in its region under another key |
| `Walks.NotRouted` | src/accretion/services/run_manager.py:1252-1253 | a target no loop lists is not routed |
| `Walks.WalksNeverStop` | src/accretion/services/run_manager.py:1193-1267 | where every node the cursor can rest on is supported and answers every outcome the runner can produce there, no walk over any outcomes and retry history stops or raises |
| `Walks.StopsExactly` | src/accretion/services/run_manager.py:1231-1251 | a run from the entry stops at a node if and only if the node produces an outcome with no retry of it open and nothing to fall back on |
| `RunStates.TurnAgrees` | src/accretion/services/run_manager.py:2875-2925 | the scheduler's turn depends on the history only through the counts of retry edges, capped at the larger limit, and keeps to them |
| `RunStates.StrandsExactly` | src/accretion/services/run_manager.py:1193-1267 | on every template, with or without retries, some run from the entry is stranded if and only if a state is reachable, in the finite graph of node and capped retry counts, whose node cannot be run or produces an outcome with no retry of it open and nothing to fall back on |
| `RunStates.DecideStranding` | src/accretion/services/run_manager.py:1193-1267 | a search of that graph, which never fails, decides before any run whether some run can be stranded |
| `RunStates.FinishesExactly` | src/accretion/services/run_manager.py:1193-1211 | every run from the entry that is still going can still come to a terminal if and only if from every reachable state under a node that can be run a terminal is reachable |
| `CaptiveRuns.CapturedStays` | src/accretion/services/run_manager.py:1252-1268 | on every template, a run at a node whose edges all lead back to it, by routing members to their owner, never comes to another node |
| `CaptiveRuns.CaptiveIsAccepted` | src/accretion/templates.py:88-298 | every template in which a task and a loop owner lead to a region member and only the member leads to the terminal is well formed |
| `CaptiveRuns.CaptiveNeverFinishes` | src/accretion/services/run_manager.py:1252-1268 | no run of such a template comes to a terminal, whatever happens at its nodes |
| `CaptiveRuns.CaptiveCannotFinish` | src/accretion/services/run_manager.py:1193-1211 | so its runs do not all keep a way to finish; the first has none from the start |
| `RunGraph.Instantiate` | src/accretion/templates.py:845-907 | refuses exactly the templates that are not validated or whose checksum drifted; otherwise node for node and edge for edge the graph carries the template under the run's ids |
| `RunGraph.EdgesReadBack` | src/accretion/services/run_manager.py:1010-1012 | the scheduler reads the template's own edges back from the graph if and only if no endpoint contains a colon |
| `RunGraph.FittingEdgesReadBack` | src/accretion/contracts/__init__.py:1614-1637 | so they are always read back where node keys match the pattern of the contract and edges join known nodes |
| `RunGraph.IdsAreDistinct` | src/accretion/templates.py:862-884 | node ids are distinct if and only if the template's keys are |
| `RunGraph.EntryAgrees` | src/accretion/services/run_manager.py:1177-1189 | the scheduler starts at the first node of the template nothing leads to, which is the entry the validator found, and finds none exactly when there is none |
| `RunGraph.WalksAgree` | src/accretion/services/run_manager.py:1193-1267 | walking the run's graph over any outcomes and retry history is walking the template |
| `RunGraph.RunsAreNeverStranded` | src/accretion/services/run_manager.py:1193-1267 | where every node the cursor can rest on answers all it can produce, every run of the graph starts at the template's entry and never stops or raises |
| `RunGraph.RunsStrandExactly` | src/accretion/services/run_manager.py:1193-1267 | some run of the graph is stranded if and only if a stuck state is reachable among the template's run states |
| `Trace.BuildExecutionTrace` | src/accretion/tracing.py:87-157 | the loop computes the replayed traversals and iterations of the log, consistently, and its lookups never fail |
| `Trace.TraceConsistent` | src/accretion/tracing.py:93-157 | on every log the open map points at each node's latest, unexited traversal, a node that is not open has its latest traversal exited, and the open iteration is a known one |
| `Trace.AppendExtends` | src/accretion/tracing.py:105-132 | appending any events changes no closed traversal and no traversal's entry data |
| `Trace.ExitsAreLater` | src/accretion/tracing.py:105-132 | with increasing sequences every exit follows its entry |
| `TraceLog.TraceIsTheLog` | src/accretion/tracing.py:110-132 | on every log the trace has one traversal per entry, in order, with the entry's data; it is closed by the next event of its node if that is an exit, with its time, sequence and status, and is RUNNING otherwise |
| `TraceLog.ReadsExactly` | src/accretion/tracing.py:73-77 | only the text SUCCEEDED reads as success, and a text that is no status reads as FAILED |
| `TraceLog.IterationOfEntry` | src/accretion/tracing.py:110-122 | a traversal carries the number of the last iteration started before it and not completed since, if there is one |
| `TraceLog.IterationIsKept` | src/accretion/tracing.py:133-157 | an iteration has the number and start of its last start and the last completion since |
| `TraceLog.LastIsGreatest` | src/accretion/tracing.py:106 | the last sequence of the trace is the greatest of the log |
| `Projection.KeyRecovered` | src/accretion/projections.py:29-30 | the key of a node id is recovered if and only if it contains no colon |
| `Projection.FittingKeyRecovered` | src/accretion/contracts/__init__.py:1614 | every key that matches the contract's pattern is recovered |
| `Projection.FoldNodeEvents` | src/accretion/projections.py:49-102 | the loop computes the statuses, entry counts and stamps folded from the log |
| `Projection.EntriesAreTraversals` | src/accretion/projections.py:75-81 | on every log the projection's entry count equals the number of trace traversals |
| `Projection.StatusesAgree` | src/accretion/projections.py:59-87 | on every log the folded status is the status of the last traversal, except for exactly the stray exit the log ends with |
| `Projection.PendingMeansNeverEntered` | src/accretion/projections.py:59-87 | where exits occur only for open nodes, the statuses agree, and PENDING means exactly never entered or last exited with PENDING |
| `Projection.PendingExitLooksUntouched` | src/accretion/projections.py:33-37 | a node entered and exited with PENDING is projected as PENDING |
| `Projection.StrayExitDisagrees` | src/accretion/projections.py:82-87 | a second exit makes the two folds disagree |
| `EdgeCounts.EdgeTraversals` | src/accretion/projections.py:297-332 | every edge is counted by its stamps where its target has any, else by its share of the target's entries |
| `EdgeCounts.CountsExactly` | src/accretion/projections.py:297-332 | where an edge into the target has a stamp every edge counts its stamps; otherwise, beside loop-backs and retries, one plain edge counts the first entry and the first of the others all later ones, and in any other case the first edge counts all |
| `EdgeCounts.StampsAreCounted` | src/accretion/projections.py:75-81 | the fold counts exactly the entries of known nodes in the log with each stamp |
| `EdgeCounts.SharesAddUp` | src/accretion/projections.py:313-331 | however the fallback shares a target's entries among its in-edges, they add up to the entries |
| `EdgeCounts.StampsAddUp` | src/accretion/projections.py:75-81 | stamps that name in-edges of the entered node add up to the stamped entries |
| `Stamps.WellStampedExactly` | src/accretion/services/run_manager.py:1252-1258 | whichever of a walk's entries reach the log, they are stamped with in-edges of the entered nodes if and only if each of them was selected by an edge that leads to the node that is entered |
| `Stamps.MisplacedStampCounts` | src/accretion/projections.py:297-332 | on every template, the logged entry of an edge into another node's region makes the edges into its target count one traversal while the target has no entry |
| `CaptiveRuns.CaptiveMisstamps` | src/accretion/services/run_manager.py:1252-1258 | the first turn of a run of the accepted template is not well stamped, and the edges into the member then count one traversal while the member has no entry |
| `Stamps.AllWalksWellStamped` | src/accretion/services/run_manager.py:1182-1187 | every walk of a template is well stamped where no edge but a loop-back leads to a region member |
| `EdgeCounts.CountsNeverExceedEntries` | src/accretion/projections.py:297-332 | the counts over a node's in-edges never exceed its entries, with equality exactly when no entry is stamped or all are |
| `SideEffects.SideEffectLedger.RecordIntent` | src/accretion/persistence/side_effects.py:55-76 | at most one row per key; the first writer alone is told it created it |
| `SideEffects.SideEffectLedger.Finish` | src/accretion/persistence/side_effects.py:78-89 | overwrites status and result of an existing row, fails without effect on a missing one |
| `SideEffects.SideEffectLedger.ReconcileUncertain` | src/accretion/persistence/side_effects.py:91-98 | exactly the rows still in flight become UNKNOWN and are returned |
| `Gateway.Authorize` | src/accretion/governance.py:118-174 | ALLOW if and only if the call is eligible and, when protected, approved; REQUIRE_APPROVAL if and only if eligible, protected and undecided |
| `GatewayRules.DecidesExactly` | src/accretion/governance.py:118-174 | on the records, with risks ordered LOW, MEDIUM, HIGH, CRITICAL: a permitted call without side effects and with capability and task risk below the policy's level is allowed without asking; any other permitted call is allowed on an APPROVED record, waits without one or on a PENDING one, and is denied on any other; everything else is denied |
| `GatewayRules.ArrivalFollowsTheDecision` | src/accretion/governance.py:378-485 | a call sets out refused, waiting to ask or let through by that decision on the record its request finds |
| `GatewayRules.RefusalIsReported` | src/accretion/governance.py:444-485 | a refused call reports DENIED and leaves nothing else |
| `GatewayRules.AskingIsReported` | src/accretion/governance.py:444-485 | a call that needs approval finds the record of its request or opens a PENDING one, and reports its id |
| `GatewayRules.DecisionsAreFinal` | src/accretion/governance.py:444-485 | over every run a decision on an approval is never changed or withdrawn |
| `Gateway.SameSlotSameBound` | src/accretion/governance.py:267-280 | with an injective digest two requests share an approval exactly when they agree on every bound field |
| `Gateway.StepKeepsInv` | src/accretion/governance.py:378-622 | every step of every interleaved call, crash or store failure keeps: cleared calls were let through, side-effecting calls past their intent own their ledger row, executed calls never run again |
| `Gateway.BackendRunsAtMostOnce` | src/accretion/governance.py:512-622 | over every run the backend runs at most once per call, and at most once per idempotency key among side-effecting calls |
| `Gateway.ExecutionsAreApproved` | src/accretion/governance.py:444-541 | every execution was let through by the policy, and a protected one holds an APPROVED record that fits exactly the requests with the same bound fields |
| `GatewayRules.RiskyExecutionsAreApproved` | src/accretion/governance.py:444-541 | over every run each execution was permitted, and each one with side effects or with a capability or task risk at or above the policy's level has an APPROVED record that exactly the requests agreeing on run, node, capability, version, arguments and key find |
| `GatewayRules.FirstCallExecutes` | src/accretion/governance.py:512-541 | the first call under a key records its intent and an EXECUTING row before its backend runs |
| `GatewayRules.FirstCallReports` | src/accretion/governance.py:541-622 | what its backend answered is in the ledger, as success or failure, before it is reported, redacted |
| `GatewayRules.RepeatReportsTheRow` | src/accretion/governance.py:750-799 | a call under a key with a row executes nothing and reports SUCCEEDED with the recorded output, FAILED, or UNKNOWN while the row is in flight or uncertain |
| `GatewayRules.ReconciledRows` | src/accretion/persistence/side_effects.py:91-98 | a restart turns exactly the rows in flight UNKNOWN |
| `Repeats.StepAgrees` | src/accretion/governance.py:512-622 | on an undisturbed key every step keeps reported, recorded and duplicated outputs equal to the ledger's |
| `Repeats.RepeatReturnsTheRecord` | src/accretion/governance.py:750-799 | after a reported success, a later call under the key is refused by policy, dies, or reports the same output, and its backend is not run |
| `Repeats.SuccessChangesExactly` | src/accretion/governance.py:584-611 | in every reachable state a step changes a recorded success if and only if it finishes, with another result, a read-only call carrying the key or the call that owns the row |
| `Repeats.SuccessLostExactly` | src/accretion/governance.py:584-611 | over every run a recorded success is later lost if and only if some step overwrites it in one of these two ways |
| `LostSuccess.LostExactlyByFailedReport` | src/accretion/governance.py:584-622 | over every run in which only side-effecting calls carry the key, a recorded success is lost if and only if a call whose report of it failed finishes again |
| `LostSuccess.LossHasACause` | src/accretion/governance.py:584-611 | over every such run, a call about to record a failure over a success has had its report of that success fail |
| `RepeatWitness.LostReportIsRepeatedAsFailure` | src/accretion/governance.py:750-799 | a run from the initial state: one execution, recorded as a success, its report fails, and a repeat reports FAILED |
| `RepeatWitness.ReadOnlyOutputIsRepeated` | src/accretion/governance.py:584-587 | a run from the initial state: a success is reported, a read-only call carries the key, and a repeat reports the read-only call's output |
| `Audit.CapabilityPolicyBypasses` | scripts/release_gate.py:69-100 | the loop reports exactly the findings of each row, and none if and only if no row is refuted by its own authorization |
| `Audit.GatewayLogsAreClean` | scripts/release_gate.py:54-100 | on any rows any gateway run saved the audit is clean if and only if the policy id is non-empty or no row reached the backend |
| `Enterprise.CheckClaims` | src/accretion/enterprise_auth.py:642-699 | a token passes if and only if issuer and audience match and its expiry lies ahead |
| `Enterprise.Services.ConnectionFor` | src/accretion/enterprise_auth.py:725-741 | finds the first of the principal's own USER connections, none exactly when there is none |
| `Enterprise.Services.StoreAuthorization` | src/accretion/token_broker.py:125-152 | seals under a new key and adds one ACTIVE handle |
| `Enterprise.Services.Reseal` | src/accretion/token_broker.py:230-251 | repoints the handle to a newly sealed secret and deletes nothing |
| `Enterprise.Services.RevokeHandle` | src/accretion/token_broker.py:253-267 | deletes the handle's current secret and marks it REVOKED |
| `Enterprise.Services.Acquire` | src/accretion/enterprise_auth.py:468-620 | the in-place acquisition refines its specification on values, row for row and contact for contact |
| `Enterprise.Services.EnsureAccess` | src/accretion/enterprise_auth.py:333-398 | the in-place operation refines its specification: refusal, acquisition, new handle, superseded handle revoked, connection repointed |
| `Enterprise.Services.Reacquire` | src/accretion/enterprise_auth.py:400-464 | refines its specification: only a managed connector's own, unrevoked connection that points at the handle is renewed |
| `Enterprise.Services.Refresh` | src/accretion/token_broker.py:195-228 | refines its specification: by refresh token, by re-acquisition, or expired |
| `Enterprise.Services.Revoke` | src/accretion/connections.py:144-157 | refines its specification: no effect for anyone but the owner |
| `EnterpriseRuns.StepKeepsInv` | src/accretion/enterprise_auth.py:333-464 | every whole acquire, renew, revoke and assertion call keeps the invariant on connections, handles and secrets |
| `EnterpriseRuns.OneLiveHandle` | src/accretion/enterprise_auth.py:366-389 | in every state that calls one after another reach, an owner has at most one unrevoked handle, and its connection points to it |
| `EnterpriseRuns.RevokedHandlesHoldNothing` | src/accretion/token_broker.py:253-281 | in every such state a handle references a stored secret, and can be opened, exactly while it is not REVOKED |
| `EnterpriseRuns.RevocationIsFinal` | src/accretion/enterprise_auth.py:701-750 | after a revocation, whatever whole calls follow, the connection stays REVOKED and no handle of its owner can be opened |
| `Overlaps.RevocationUndoneExactly` | src/accretion/enterprise_auth.py:350-387 | from any state of any interleaving, for every REVOKED connection: it leaves REVOKED, or the handle it points to yields material that did not, if and only if an acquisition that has read this connection or a renewal of this handle already in flight commits with success |
| `Overlaps.OwnerReopenedExactly` | src/accretion/enterprise_auth.py:350-387 | for a REVOKED connection that is the first of its owner: it leaves REVOKED, or any handle of the owner yields material that did not, if and only if an acquisition for the owner or a renewal of such a handle already in flight commits with success |
| `Overlaps.FinalUnlessDangling` | src/accretion/token_broker.py:195-251 | with no such call in flight, in either sense, the revocation is final in that sense, whatever follows |
| `Overlaps.RevocationWritesItsCopy` | src/accretion/connections.py:144-157 | a revocation's commit writes back the connection and handle it read, revoked, and deletes the secret that handle pointed to, whatever happened to them in between |
| `Overlaps.RenewalWritesItsCopy` | src/accretion/token_broker.py:208-251 | a renewal's commit writes back the handle it read, with the answer sealed under a new key, or with the reason it failed |
| `Overlaps.AcquisitionWritesItsCopy` | src/accretion/enterprise_auth.py:366-389 | an acquisition's commit repoints the connection as it read it to a handle sealed with the answer, and revokes the handle that copy pointed to |
| `Overlaps.WholeEnsure` | src/accretion/enterprise_auth.py:333-398 | an acquisition's begin step followed at once by its commit step is the whole call |
| `Overlaps.WholeRenew` | src/accretion/token_broker.py:195-251 | a renewal's begin step followed at once by its commit step is the whole call |
| `Overlaps.WholeRevoke` | src/accretion/connections.py:144-157 | a revocation's begin step followed at once by its commit step is the whole call |
| `OrderlyCalls.OneLiveHandleWhenOrderly` | src/accretion/enterprise_auth.py:366-389 | in every interleaving in which no two calls of one owner overlap, an owner has at most one unrevoked handle, the one its connection points to |
| `OrderlyCalls.RevocationFinalWhenOrderly` | src/accretion/connections.py:144-157 | where no two calls of one owner have overlapped up to a revocation, it is final, whatever follows and however it is interleaved |
| `CredentialWitness.AcquisitionRevives` | src/accretion/enterprise_auth.py:350-387 | a run from the empty store: an acquisition begun before a revocation and committed after it makes the connection ACTIVE and opens a new handle |
| `CredentialWitness.RenewalReopens` | src/accretion/token_broker.py:208-251 | a run from the empty store: a renewal begun before a revocation and committed after it makes the revoked handle usable |
| `EnterpriseRuns.MaterialDestroyedExactly` | src/accretion/token_broker.py:230-267 | revoking a connection leaves no stored secret of its handle if and only if the handle was never renewed |
| `CredentialWitness.RenewedSecretSurvives` | src/accretion/token_broker.py:230-267 | a run from the empty store: a handle is renewed and its connection revoked, and its first secret is still stored |
| `CredentialWitness.SecondConnectionHoldsNothingBack` | src/accretion/enterprise_auth.py:725-741 | a run from the empty store: of two connections of one owner the second is revoked and nothing is in flight; a new acquisition opens a handle for the owner, while the connection and its own handle stay shut |
| `CredentialWitness.OverlapLeavesTwoLive` | src/accretion/enterprise_auth.py:352-389 | a run from the empty store: two overlapping first acquisitions leave their owner two connections and two usable handles |
| `AcquisitionGates.AcquisitionFollowsTheGates` | src/accretion/enterprise_auth.py:346-620 | every call ends at the first closed gate in order or is granted; it records exactly one row, the refusal or GRANTED, unless a token does not parse, and then none; each party is contacted only once every gate before it is open |
| `AcquisitionGates.RowsAndContacts` | src/accretion/enterprise_auth.py:346-620 | on the store: every call adds exactly one row, for its owner, GRANTED exactly when it grants access, unless a token it has to look at does not parse, and then none; a new contact with the identity provider means every local gate was open, with the authorization server every gate |
| `Enterprise.Services.GetAccessMaterial` | src/accretion/token_broker.py:156-186 | the in-place operation refines its specification: status, issuer, audience and scopes checked first, then a stale handle renewed, then its secret opened; what that hands out is stated by the next rows |
| `AccessMaterial.RunFaithful` | src/accretion/token_broker.py:125-251 | in every state that calls one after another reach, the secret a live handle points to holds the scopes and expiry the handle records and is the last one sealed for it |
| `AccessMaterial.HandsOutTheLast` | src/accretion/token_broker.py:156-186 | a handle that does not expire within two minutes yields material exactly when it is ACTIVE, of the expected issuer and lists every audience and scope asked for, and then the response sealed last for it; nothing changes |
| `AccessMaterial.HandsOutTheAnswer` | src/accretion/token_broker.py:178-251 | a handle about to expire yields material exactly when the remote party grants its renewal in this very call, and then that answer, with the handle's scopes and refresh token where it has none, sealed under a new key |
| `CredentialRules.GrantIsSealed` | src/accretion/enterprise_auth.py:366-398 | a granted acquisition seals the authorization server's answer under a new handle of the owner, points the owner's first connection or a new one to it, revokes the handle that held before, and touches nothing else |
| `CredentialRules.RefusedRenewal` | src/accretion/token_broker.py:195-228 | a renewal that is not granted leaves every secret, and marks the handle EXPIRED without refresh token, ERROR when the client refused, and not at all without a client |
| `CredentialRules.ReacquiringRecords` | src/accretion/enterprise_auth.py:400-464 | re-acquiring records nothing without a definition, a refusal for one that is not managed, and otherwise what the gates say with REFRESHED for GRANTED |
| `CredentialRules.ExpiredAssertionIsDropped` | src/accretion/enterprise_auth.py:468-540 | an acquisition drops the retained assertion exactly when it is configured and finds it expired |
| `CredentialRules.RevokesExactly` | src/accretion/connections.py:144-157 | only the principal a connection belongs to revokes it, and only it, its handle and that handle's secret are touched |
| `AccessMaterial.MaterialCoversExactly` | src/accretion/token_broker.py:156-186 | in every state that calls one after another reach, material comes only from a live ACTIVE handle that covered the request, and the handle still covers the requested scopes if and only if the call did not renew it to a narrower grant |
| `CredentialWitness.NarrowedMaterialIsHandedOut` | src/accretion/token_broker.py:156-186 | from the empty store: a stale handle granted one scope is asked for it, renewed to another, and handed out |
| `AccessMaterial.NothingAfterRevocation` | src/accretion/connections.py:144-157 | after a revocation, in every state later whole calls reach, no handle of the owner yields material, whatever is asked |
| `EventClient.Panel.OnAgentEvent` | apps/ui/src/EventStream.tsx:46-71 | the handler refines its specification: drop, close on a gap, or accept |
| `EventClient.Panel.OnEffect` | apps/ui/src/EventStream.tsx:40-44 | the effect opens a source that expects the event after the snapshot |
| `EventClient.StepKeepsInv` | apps/ui/src/EventStream.tsx:40-81 | every append, fetch, selection, reconnect, close and message keeps live events gapless over the snapshot |
| `EventClient.SortedPrefix` | apps/ui/src/EventStream.tsx:27-33 | the only ascending duplicate-free list of the first events of a log is its prefix |
| `EventClient.DisplayIsAPrefix` | apps/ui/src/EventStream.tsx:27-33 | in every reachable state the display is a prefix of the log, at least the snapshot and everything the open source has moved past |
| `EventClient.RecoveryCatchesUp` | apps/ui/src/EventStream.tsx:49-60 | from every reachable state a current snapshot and a reconnect show the whole log |
| `EventClient.DeliveryIsShown` | apps/ui/src/EventStream.tsx:46-71 | from every reachable state with an open source on the selected run, events delivered in order are all shown and the source stays open behind them |
| `EventClient.OthersAreNotTaken` | apps/ui/src/EventStream.tsx:46-60 | an event the source has moved past changes nothing, and one it does not expect yet closes it and changes nothing else |
| `EventClient.SourceStartsAfterSnapshot` | apps/ui/src/EventStream.tsx:40-44 | a new source expects the event after the last one the snapshot is known to have |
| `EventClient.LiveHoldsEachOnce` | apps/ui/src/EventStream.tsx:62-70 | in every reachable state the live list has no event twice |
| `EventClient.SnapshotKeepsPrefixExactly` | apps/ui/src/EventStream.tsx:27-33 | a snapshot of any size keeps the display a prefix if and only if every live event beyond it has its predecessor live |
| `EventClient.ShrunkSnapshotShowsAGap` | apps/ui/src/EventStream.tsx:27-33 | a run from the start: a snapshot that shrinks shows the first and third event without the second |
| `Budget.InitialClosure` | apps/ui/budget/evaluate.ts:164-182 | the breadth-first loop returns exactly the chunks reachable from entries by static imports, each once |
| `Budget.SumIsWeight` | apps/ui/budget/evaluate.ts:215-235 | adding up a duplicate-free selection in any order gives the weight of its names, each counted once |
| `Budget.Stylesheets` | apps/ui/budget/evaluate.ts:222-229 | the sheets collected are the first of every name over the closure |
| `Budget.GroupingRule` | apps/ui/budget/evaluate.ts:245-278 | passes if and only if some chunk owns a matching script module and all owners carry the expected name |
| `Budget.LazyOnlyRule` | apps/ui/budget/evaluate.ts:280-325 | passes if and only if every owner of a lazy-only module is unreachable, correctly named and a dynamic entry |
| `Budget.EvaluateBudget` | apps/ui/budget/evaluate.ts:203-334 | initial set, script totals and every rule are as their definitions over the import graph say; every sheet name of the initial chunks counts once, and where chunks agree on sheet sizes the sheet totals are weights of names; the build passes if and only if every rule holds, and if and only if it meets every limit and expectation |
| `Budget.RulesAreComplete` | apps/ui/budget/evaluate.ts:203-334 | the rules hold together if and only if every chunk is within its cap, the four totals are, every grouping pattern is found and only in chunks of the expected name, and every chunk with a lazy-only script module has its name, is a dynamic entry and is not loaded initially; stylesheet modules never count |
| `Budget.ImportsOnlyBreakRules` | apps/ui/budget/evaluate.ts:203-334 | with sheet totals as weights of names, any rule that holds with longer import lists held without them |
| `Budget.StaticImportNeverHelps` | apps/ui/budget/evaluate.ts:203-334 | with sheet totals as weights of names, adding one static import never turns a failing build into a passing one |
| `Budget.ReportsNeverImprove` | apps/ui/budget/evaluate.ts:203-334 | of the reports before and after one more static import, where chunks agree on sheet sizes, the initial set only grows and the second passes only if the first does |
| `Budget.EvaluateWithImport` | apps/ui/budget/evaluate.ts:203-334 | the same of the two reports the evaluation itself returns |
| `Resolver.SelectsTheLeast` | src/accretion/resolver.py:283-329 | the selected connection is the least one the caller may use by tier, own before shareable workspace before unowned, then by status and id; none is selected exactly when there is none |
| `Resolver.ResolvesExactly` | src/accretion/resolver.py:64-105 | on the records, with unique ids: OK if and only if the capability is enabled and some enabled binding is served, that is, it passes the plugin gate, is not MCP or has a registered, enabled, READY or DEGRADED server with a closed circuit, has a registered connector, and the caller's least eligible connection is ACTIVE or DEGRADED and grants every default scope |
| `Resolver.OkByTheFirst` | src/accretion/resolver.py:93-105 | then by the first such binding, with the connection that serves it |
| `Resolver.RefusedByTheFirst` | src/accretion/resolver.py:185-267 | when none is served the first enabled binding says why: DISABLED or NO_CONNECTION by the plugin gate, REQUIRE_REAUTH or DISABLED by its server, NO_CONNECTION without connector or eligible connection, REQUIRE_REAUTH otherwise |
| `Resolver.RefusedWithoutBinding` | src/accretion/resolver.py:71-92 | a disabled capability and one whose bindings are all disabled are DISABLED, one without bindings needs no connector |
| `Resolver.ResolutionIgnoresForeigners` | src/accretion/resolver.py:185-323 | with unique ids, resolution depends only on the set of connections that are not other principals' USER connections |
| `Ids.EncodeBase32` | src/accretion/ids.py:121-126 | the loop over the buffer computes the last digits, most significant first |
| `Ids.AlphabetIsCrockfords` | src/accretion/ids.py:7 | the alphabet is the digits and capital letters but I, L, O and U |
| `Ids.DecodeEncoded` | src/accretion/ids.py:121-126 | decoding gives the value modulo 32 to the length, and the value itself where it fits |
| `Ids.EncodedOrder` | src/accretion/ids.py:121-126 | below 32 to the length, lexicographic order is numeric order |
| `Ids.IdsSortByTime` | src/accretion/ids.py:129-134 | ids of one kind sort by 48-bit timestamp, then randomness, and the timestamp can be read back |
| `Ids.PrefixIdentifiesKind` | src/accretion/ids.py:137-170 | an id, new or derived, passes the prefix check for a prefix if and only if it is its own |
| `Ids.DerivedReadsBack` | src/accretion/ids.py:137-166 | a derived id keeps the last 130 bits of its digest |

## Left out

- GraphLayout.LayoutProjection: assumes unique node ids, and containment is claimed only for top-level parents, because the code resolves one level of nesting.
- TemplateValidator.Validate: the wording, order and repetition of problem messages are not modelled, only which problems there are.
- Retries.RetryTakenExactly: about the retry that comes first for its outcome; a later one of the same node is taken only once that one is spent.
- Walks.WalksNeverStop: node outcomes are inputs of the walk; pauses, cancellations, exhausted budgets and restarts from a checkpoint are not modelled; that a walk ends is not claimed, because NORMAL cycles are legal.
- RunStates.FinishesExactly: that a run does finish is not claimed, because what happens at its nodes is an input.
- CaptiveRuns.CaptiveNeverFinishes: the shipped `feedback-loop-v1` has this shape with more members; it is meant for the loop executor, which is not part of this model.
- RunGraph.Instantiate: labels and the computation of the checksum are not modelled.
- Template builders and seeding in `templates.py`: constants.
- Trace.BuildExecutionTrace: runtime, tool, approval and verification references are not modelled; they are lists appended to beside this state.
- Projection.FoldNodeEvents: aggregate verification and unresolved approvals are not modelled, for the same reason.
- Gateway.BackendRunsAtMostOnce: read-only calls are bounded per call only, because the code records no intent for them.
- Gateway.Authorize: the text of the reason is not modelled.
- Gateway calls that raise before the policy decision (missing run, disabled owner, arguments failing the schema) and credential failures after it leave no state behind and appear as a call that never arrives or is abandoned; events, evidence records, transforms, redaction and schema validation are arbitrary outcomes.
- Repeats.RepeatReturnsTheRecord: assumes redaction is idempotent and the key is undisturbed; how a success is lost otherwise is characterised by `Repeats.SuccessLostExactly`.
- EnterpriseRuns.OneLiveHandle: about whole calls one after another; `OrderlyCalls.OneLiveHandleWhenOrderly` extends it to interleavings without overlap per owner, and `CredentialWitness.OverlapLeavesTwoLive` shows the claim needs that.
- EnterpriseRuns.RevocationIsFinal: about whole calls one after another; `Overlaps.RevocationUndoneExactly` covers every interleaving.
- AccessMaterial.NothingAfterRevocation: about whole calls one after another; a renewal in flight during the revocation is covered by `Overlaps.RevocationUndoneExactly`.
- Overlaps.RevocationUndoneExactly: a call is two steps, before and after it waits for a remote party, and dies only between them; storage calls within a step are atomic and succeed. The retained assertion and the clock are read at the commit step, while the code reads them before it contacts the identity provider, so that an assertion forgotten in between does not stop it; revoking a handle, also a superseded one, may itself wait for a client (`src/accretion/token_broker.py:253-265`), which is not a step of its own.
- Sealing, signing, HTTP and clock behaviour of the credential services: sealed material is openable exactly under its own handle, remote answers and the time are inputs. Assertion rows are kept only while ACTIVE, and clients without an endpoint are an answer of the exchange.
- `ConnectionService.begin` and `complete`: the interactive OAuth flow.
- EventClient.DisplayIsAPrefix: assumes unique event ids, a log numbered from one, and cached snapshots that never shrink (`EventClient.SnapshotKeepsPrefixExactly` has the condition); connection labels and the query library are not modelled.
- Budget.EvaluateBudget: assumes unique file names, as a bundle keyed by them has; rule order by file name and rule details are not modelled, and module patterns are arbitrary predicates.
- Budget.StaticImportNeverHelps: about one size per sheet name, as the bundle adapter produces them; otherwise an import can change which size of a sheet comes first.
- Resolver.ResolvesExactly: assumes unique connection ids, as a store keyed by them has.
- Resolver.ResolutionIgnoresForeigners: the plugin gate is an arbitrary verdict per binding; reasons are not modelled.
- Ids.PrefixIdentifiesKind: SHA-256, the clock and the random bytes are parameters, and the prefix table is any assignment of prefixes.
- Connection pooling, benchmarks, routing, checkpoints, acceptance evaluation, migrations and the rest of the user interface.
