# Analemma workflow OS: verified models

This project models the parts of the Analemma backend in which an algorithm or a protocol decides
something, and proves what those parts promise. Each module follows one piece of the backend:
classes with the fields the code updates, methods with its loops, and beside them functions and
lemmas that say what the methods compute and what holds over all inputs, histories and
interleavings. `dafny verify dfyconfig.toml` checks everything.

| module | subject |
|---|---|
| `WorkflowGraph` | cycle detection with clears after each report, and the filing of cycles by intent |
| `StateDiff` | the difference of two checkpoints and its inverse |
| `StateView` | lazy ring views against eager redaction, write caches and their merge |
| `BranchMerge` | the fork-join merge of branch states and its regrouping |
| `StateBag` | change tracking, lazy pointers and the replay of deltas |
| `Rehydration` | depth- and cycle-safe serialization of object heaps |
| `CircuitBreaker` | the in-memory breaker over all histories, and the retry wrapper |
| `RedisBreaker` | the shared breaker under all interleavings of its workers |
| `React` | the governed agent loop: transcript, governance, budgets, counters |
| `HashRegistry` | incremental block hashing against a new registry |
| `ReorderBuffer` | admission order of proposals under all interleavings |
| `SemVer` | version parsing, printing and constraints |
| `Instructions` | signature conflicts and their resolution over runs |
| `Router` | latency averages, token headroom, budget constraints |
| `Common` | shared value types |

Three conventions run through all modules. Dictionaries and sets are iterated in an arbitrary order
(`:|`), so every result holds for every order. What the code calls and cannot control (the model,
the bridge, tool handlers, S3, SHA-256, canonical JSON, the clock, fresh identifiers) is a
parameter, so every result holds for every behaviour of it. Where a promise fails, the code is
modelled as it is and the condition under which the promise holds is proved to be exact.

Where the code and its documentation differ, the code is modelled:

- Cycle detection reports one cycle per node that can reach a cycle, not one per cycle: the loop
  reached by always following the first neighbour that can reach a cycle. Two cycles that share a
  node may hide an accidental one.
- Unclassified fields are documented as treated like warm ones; they are also hashed as a block of
  their own, which no dirty key ever marks.
- The delta of a bag deletes after it sets, so a key that is deleted and then set again is lost;
  nested bags do not report their writes to the outer one.
- Ring views stop at depth 10 and hand out deeper values raw. A policy that does not mention a ring
  leaves the key readable but unlisted.
- The in-memory breaker needs success_threshold reports of probes, and `with_resilience` reports
  only the declared exceptions.
- The Redis breaker reopens only on the windowed failure count and keeps its success count over a
  reopening.
- A reset of the reordering buffer makes the next poll of each waiter of that workflow raise.
- The "override" resolution stores no signature; RANGE constraints admit no version; a version may
  end in a newline; a budget switch divides by the recommended model's tokens and price.

## Model

| member | source | states |
|---|---|---|
| WorkflowGraph.BuildGraph | analemma-workflow-os/backend/src/common/graph_dsl.py:893-907 | three loops give the type map and graph of the declarations, every edge leading to a declared node, with the nodes in any order |
| WorkflowGraph.GraphExact | analemma-workflow-os/backend/src/common/graph_dsl.py:893-907 | the nodes are exactly the declared ids, and there is an edge exactly where some declaration connects two declared nodes |
| WorkflowGraph.NeighboursInOrder | analemma-workflow-os/backend/src/common/graph_dsl.py:903-907 | the neighbours of a node are the declared targets of its edge declarations, one for each declaration and in the order of the declarations |
| WorkflowGraph.ControlIsDeclaredType | analemma-workflow-os/backend/src/common/graph_dsl.py:894-943 | a node counts as a control node exactly if its last declaration has a type of the given set |
| WorkflowGraph.LastTypeWins | analemma-workflow-os/backend/src/common/graph_dsl.py:894 | a node has the type of the last declaration with its id, "operator" without one |
| WorkflowGraph.CycleDetector.Dfs | analemma-workflow-os/backend/src/common/graph_dsl.py:915-933 | result and all three shared collections after any call, nested calls and early returns included, are those of the search Visit; terminates |
| WorkflowGraph.VisitCorrect | analemma-workflow-os/backend/src/common/graph_dsl.py:915-933 | from a consistent search, `dfs(node)` returns None only if no cycle is reachable from node, and then every finished node still reaches none; otherwise the path it leaves contains the closed cycle it returned |
| WorkflowGraph.ScanCorrect | analemma-workflow-os/backend/src/common/graph_dsl.py:920-933 | the same for the loop over the remaining neighbours followed by the pop |
| WorkflowGraph.VisitChases | analemma-workflow-os/backend/src/common/graph_dsl.py:915-933 | the cycle a search returns is the loop reached by always following the first neighbour that can reach a cycle |
| WorkflowGraph.ScanChases | analemma-workflow-os/backend/src/common/graph_dsl.py:920-933 | the same for the loop over the remaining neighbours, whatever was searched before |
| WorkflowGraph.ClosedPathIsSimpleCycle | analemma-workflow-os/backend/src/common/graph_dsl.py:924-928 | the slice of the path from the repeated node on is a simple cycle of real edges, and the root reaches it |
| WorkflowGraph.VisitFromRoot | analemma-workflow-os/backend/src/common/graph_dsl.py:935-938 | a search started with an empty path reports a cycle if and only if its root can reach one, and then the loop of first neighbours from the root, whatever was visited before |
| WorkflowGraph.SweepExact | analemma-workflow-os/backend/src/common/graph_dsl.py:935-958 | with the three clears after each report, the roots that report are exactly the nodes that can reach a cycle; each reports one simple reachable cycle, its loop of first neighbours |
| WorkflowGraph.ReportsExact | analemma-workflow-os/backend/src/common/graph_dsl.py:935-958 | the reports are determined by the graph alone: every enumeration of the nodes gives the same ones |
| WorkflowGraph.ReportCount | analemma-workflow-os/backend/src/common/graph_dsl.py:873-960 | intentional plus accidental reports are as many as the nodes that can reach a cycle, whatever order the set yields the nodes in |
| WorkflowGraph.NoReportIffAcyclic | analemma-workflow-os/backend/src/common/graph_dsl.py:873-960 | no report at all if and only if the graph has no cycle |
| WorkflowGraph.FilingIsByControlNode | analemma-workflow-os/backend/src/common/graph_dsl.py:939-953 | an intentional entry is a reported cycle together with one of its control-type nodes; the accidental list is exactly the reported cycles without any |
| WorkflowGraph.FilingInOrder | analemma-workflow-os/backend/src/common/graph_dsl.py:939-953 | each report is filed exactly once and both lists keep the order of the reports |
| WorkflowGraph.LoopsNameFirstControl | analemma-workflow-os/backend/src/common/graph_dsl.py:940-950 | an intentional entry names the first control node on its cycle |
| WorkflowGraph.AccidentalErrors | analemma-workflow-os/backend/src/common/graph_dsl.py:737-757 | no accidental-cycle error is raised if and only if the loop of first neighbours of every node that reaches a cycle has a control node, for every order of the nodes |
| WorkflowGraph.AccidentalCycleIsReportedIff | analemma-workflow-os/backend/src/common/graph_dsl.py:737-757 | an error means an uncontrolled cycle; an uncontrolled cycle raises the error if and only if some loop of first neighbours is uncontrolled; where no node reaches both kinds of cycle the error is raised exactly for an uncontrolled one |
| WorkflowGraph.ValidateCycles | analemma-workflow-os/backend/src/common/graph_dsl.py:737-757 | with the declared loop types: no error if and only if every loop of first neighbours has a node of such a type; neither info nor error if and only if the graph is acyclic |
| WorkflowGraph.SharedNodeHidesAccidentalCycle | analemma-workflow-os/backend/src/common/graph_dsl.py:935-958 | two cycles that share a node: the uncontrolled one is reported in no order of the nodes, for any three node names and any choice of control types |
| WorkflowGraph.SweepNodes | analemma-workflow-os/backend/src/common/graph_dsl.py:935-960 | the loop files exactly the reports of the whole sweep and clears the collections after each |
| WorkflowGraph.DetectCyclesWithIntent | analemma-workflow-os/backend/src/common/graph_dsl.py:873-960 | the whole detection: both lists hold simple cycles filed by control node, and their lengths add up to the number of nodes that reach a cycle |
| StateDiff.ComputeDeepDiff | analemma-workflow-os/backend/src/services/checkpoint_service.py:506-564 | for any two states, keys visited in any order: the three dictionaries hold exactly the edits, each under the rendered path of its place |
| StateDiff.EntrySays | analemma-workflow-os/backend/src/services/checkpoint_service.py:530-558 | every entry tells what both states hold at some place of its path: the added or removed value and its absence on the other side, or the differing values before and after, and whether their types differ |
| StateDiff.NestedStep | analemma-workflow-os/backend/src/services/checkpoint_service.py:548-552 | merging the difference of two nested dictionaries extends a correct difference by exactly their edits |
| StateDiff.OneEditAPlace | analemma-workflow-os/backend/src/services/checkpoint_service.py:527-558 | no place carries two edits and no edit lies below another, for any keys |
| StateDiff.RenderInjective | analemma-workflow-os/backend/src/services/checkpoint_service.py:531-542 | dot-free non-empty keys: different places have different dotted paths |
| StateDiff.EntriesAreEdits | analemma-workflow-os/backend/src/services/checkpoint_service.py:527-558 | with clean keys, an entry stands under a path if and only if that edit is at that place |
| StateDiff.PatchRestores | analemma-workflow-os/backend/src/services/checkpoint_service.py:506-564 | with clean keys, applying the difference to the first state gives the second, at any depth |
| StateDiff.RoundTripIffCleanKeys | analemma-workflow-os/backend/src/services/checkpoint_service.py:527-558 | reading dotted paths back by Patch: over a set of keys every pair of states round-trips if and only if all keys are non-empty and free of dots |
| StateDiff.UncleanKeyBreaksRoundTrip | analemma-workflow-os/backend/src/services/checkpoint_service.py:531-538 | for every unclean key, two states and their difference from which Patch does not restore the second |
| StateDiff.DisjointAndPrefixFree | analemma-workflow-os/backend/src/services/checkpoint_service.py:506-564 | no path is both added, removed or modified, and no reported path lies below another reported one |
| StateDiff.SwapIsDiff | analemma-workflow-os/backend/src/services/checkpoint_service.py:506-564 | comparing the other way round swaps added with removed and from with to, type_changed unchanged, for any keys |
| StateDiff.DiffIsUnique | analemma-workflow-os/backend/src/services/checkpoint_service.py:527-558 | with clean keys the result does not depend on the iteration order of the key sets |
| StateDiff.EditsDetermine | analemma-workflow-os/backend/src/services/checkpoint_service.py:527-558 | two second states with the same edits from one first state are equal, for any keys |
| StateDiff.DeterminesIffNoClash | analemma-workflow-os/backend/src/services/checkpoint_service.py:527-558 | over a set of keys the first state and the difference determine the second state if and only if no two places, neither on the way to the other, have one dotted path; clean keys never clash |
| StateDiff.ClashIsAmbiguous | analemma-workflow-os/backend/src/services/checkpoint_service.py:531-533 | for any two clashing places, one first state and one difference with two different second states |
| StateDiff.DottedKeyClashes | analemma-workflow-os/backend/src/services/checkpoint_service.py:531-544 | a key with a dot clashes with the nested keys it spells |
| StateView.RecursiveWrap | analemma-workflow-os/backend/src/common/state_view_context.py:88-123 | a dictionary becomes a proxy with no writes and a list a protected list, one level deep; beyond depth 10 the raw value |
| StateView.StateViewProxy.GetItem | analemma-workflow-os/backend/src/common/state_view_context.py:167-190 | writes win over the core; a hidden or absent key raises; otherwise the transformed value wrapped one level deeper, and only that access is logged |
| StateView.StateViewProxy.SetItem | analemma-workflow-os/backend/src/common/state_view_context.py:192-202 | writes to reserved keys (and kernel keys from ring 3) leave the cache unchanged |
| StateView.StateViewProxy.DelItem | analemma-workflow-os/backend/src/common/state_view_context.py:204-211 | deletes forget a write and never touch the core |
| StateView.StateViewProxy.ToDict | analemma-workflow-os/backend/src/common/state_view_context.py:297-316 | the lazy view refines eager redaction: reading key by key through nested proxies gives the one-pass redaction overlaid with the writes, and logs exactly the visible core keys |
| StateView.MaterializeList | analemma-workflow-os/backend/src/common/state_view_context.py:126-136 | materialising a protected list gives the redaction of its items |
| StateView.ReadableIffVisible | analemma-workflow-os/backend/src/common/state_view_context.py:228-279 | a read succeeds exactly for the keys iteration lists, except where a policy does not mention the ring |
| StateView.PolicyIsGoverning | analemma-workflow-os/backend/src/common/state_view_context.py:248-268 | the policy of a key is that of the first entry of just its name, else of the first wildcard entry whose stem without stars begins the key, else all rings may read; below the root rings 2 and 3 are denied the three kernel prefixes |
| StateView.ViewByPolicy | analemma-workflow-os/backend/src/common/state_view_context.py:167-190 | what a view holds under a key of the core: the redaction of what the governing transformer makes of the value, or nothing where the rule is None or missing |
| StateView.EqualViewsIffAgree | analemma-workflow-os/backend/src/common/state_view_context.py:88-136 | two values look the same from a ring if and only if they differ only in hidden entries and in what transformers drop |
| StateView.EqualFieldsIffAgree | analemma-workflow-os/backend/src/common/state_view_context.py:297-316 | the same for the `to_dict` of two core states |
| StateView.HiddenValueIsInvisible | analemma-workflow-os/backend/src/common/state_view_context.py:213-219 | the value, and even the presence, of a hidden key never changes the view, at any depth within the limit |
| StateView.LimitHarmlessIff | analemma-workflow-os/backend/src/common/state_view_context.py:99-100 | for transformers that return their input or a plain value: redaction with the depth limit equals redaction without one if and only if no visible subtree below the limit would be redacted |
| StateView.ShallowViewIsProjection | analemma-workflow-os/backend/src/common/state_view_context.py:88-136 | for the same transformers, on states nested at most one deeper than the limit the view is the unlimited recursive redaction |
| StateView.DefaultViewIsProjection | analemma-workflow-os/backend/src/common/state_view_context.py:338-370 | with the default policies, every state nested at most 11 deep is viewed as its full recursive redaction |
| StateView.DefaultView | analemma-workflow-os/backend/src/common/state_view_context.py:338-370 | what each ring sees of each key of the root with the default policies: e-mail digests for ring 3, masked and removed social security numbers, no passwords above ring 0, no kernel keys above ring 1, everything else |
| StateView.PersonalDataIsRedacted | analemma-workflow-os/backend/src/common/state_view_context.py:338-352 | views of rings 2 and 3 do not depend on the social security number, those of ring 3 on an e-mail address only through its digest; lower rings see plain ones untouched |
| StateView.MaskSsnIs | analemma-workflow-os/backend/src/common/state_view_context.py:346-351 | ring 1 sees what follows the last dash, and REDACTED without a dash |
| StateView.HigherLimitIff | analemma-workflow-os/backend/src/common/state_view_context.py:99-100 | for any transformers: a higher depth limit would leave the view as it is if and only if the raw parts it shows are unchanged by redaction |
| StateView.DeepValueIsRaw | analemma-workflow-os/backend/src/common/state_view_context.py:99-100 | past the limit a value is shown raw, hidden keys included |
| StateView.HigherRingsSeeLess | analemma-workflow-os/backend/src/common/state_view_context.py:338-370 | with the default policies a higher ring sees no key that a lower ring does not |
| StateView.MergedWritesRespectReserved | analemma-workflow-os/backend/src/common/state_view_context.py:192-202 | after any run of writes the merge changes no blocked key and loses no accepted write |
| StateView.NodeWrites | analemma-workflow-os/backend/src/common/state_view_context.py:192-211 | after a run of writes and deletes and the merge, the core holds under each key the last accepted write, else what it held; reserved keys always, and kernel keys from ring 3, what they held |
| StateView.StateViewContext.MergeWriteCache | analemma-workflow-os/backend/src/common/state_view_context.py:395-407 | the core becomes the core overlaid with the unreserved part of the cache |
| StateView.StateViewContext.RunNode | analemma-workflow-os/backend/src/common/state_view_context.py:385-407 | a view, any run of writes and deletes, and the merge: the core gains exactly the surviving accepted writes |
| StateView.MergeKeepsViewIff | analemma-workflow-os/backend/src/common/state_view_context.py:395-407 | after a merge a fresh view shows what the writer saw if and only if each written value is visible and unredacted to its ring |
| BranchMerge.DeepMergeInto | analemma-workflow-os/backend/src/common/state_hydrator.py:1023-1033 | copying and overwriting key by key, recursively, computes the pure merge |
| BranchMerge.AggregateDeep | analemma-workflow-os/backend/src/common/state_hydrator.py:981-1049 | the loop over branches is the fold of the merge in order, with counts, ids and total time under the metadata key; no branches give the empty state |
| BranchMerge.StatesExact | analemma-workflow-os/backend/src/common/state_hydrator.py:1036-1037 | state i of the fold is the final state of branch i, empty where it is missing |
| BranchMerge.MetadataSays | analemma-workflow-os/backend/src/common/state_hydrator.py:1041-1047 | the metadata give the number of branches, of completed and of failed ones, the ids in order and the total time |
| BranchMerge.TotalTimeJoins | analemma-workflow-os/backend/src/common/state_hydrator.py:1046 | the total time of branches is the sum of theirs |
| BranchMerge.EmptyIsUnit | analemma-workflow-os/backend/src/common/state_hydrator.py:1023-1033 | the empty state is a unit on both sides |
| BranchMerge.AbsorbedIff | analemma-workflow-os/backend/src/common/state_hydrator.py:1023-1033 | an earlier value leaves no trace in a merge if and only if it adds no key and no list item, at any depth |
| BranchMerge.AssociativeIff | analemma-workflow-os/backend/src/common/state_hydrator.py:1023-1033 | three values may be regrouped if and only if no value of another kind in the middle hides the first from the third |
| BranchMerge.AssociativeStatesIff | analemma-workflow-os/backend/src/common/state_hydrator.py:1023-1033 | the same for three branch states, key by key |
| BranchMerge.RegroupFirst | analemma-workflow-os/backend/src/common/state_hydrator.py:1023-1033 | of four values any three of which may be regrouped, the first two may be merged first |
| BranchMerge.RegroupMiddle | analemma-workflow-os/backend/src/common/state_hydrator.py:1023-1033 | and so may the middle two |
| BranchMerge.KindsAgreeMerge | analemma-workflow-os/backend/src/common/state_hydrator.py:1023-1033 | agreement of value kinds survives merging |
| BranchMerge.MergeAllSplits | analemma-workflow-os/backend/src/common/state_hydrator.py:1035-1038 | branches any three of which may be regrouped: merging two halves separately and then together is the fold over all |
| BranchMerge.AnyGroupingIsTheFold | analemma-workflow-os/backend/src/common/state_hydrator.py:1035-1038 | branches any three of which, in their order, may be regrouped may be bracketed in any way |
| BranchMerge.GroupFreelyIff | analemma-workflow-os/backend/src/common/state_hydrator.py:1035-1038 | every bracketing of every selection of the branches is its sequential fold if and only if any three branches, in their order, may be regrouped |
| BranchMerge.AgreeingBranchesRegroup | analemma-workflow-os/backend/src/common/state_hydrator.py:1023-1033 | branches whose value kinds agree at every path may be grouped freely |
| BranchMerge.MergeAtPath | analemma-workflow-os/backend/src/common/state_hydrator.py:1023-1033 | what a merge holds at a path is the merge of what the two states hold there |
| BranchMerge.MergedValueAt | analemma-workflow-os/backend/src/common/state_hydrator.py:1035-1038 | at every path of the merged state: lists are the in-order concatenation over the branches that hold one, any other leaf comes from the last branch that has it |
| StateBag.SmartStateBag.constructor | analemma-workflow-os/backend/src/common/state_hydrator.py:319-342 | pointers are kept aside, everything else is stored wrapped, nothing is recorded as changed |
| StateBag.SmartStateBag.SetItem | analemma-workflow-os/backend/src/common/state_hydrator.py:355-371 | the key is recorded as changed, is no longer lazy, and holds the wrapped value |
| StateBag.SmartStateBag.GetItem | analemma-workflow-os/backend/src/common/state_hydrator.py:373-390 | a lazy key is loaded once if there is a hydrator, otherwise its pointer is returned; no bookkeeping changes |
| StateBag.SmartStateBag.DelItem | analemma-workflow-os/backend/src/common/state_hydrator.py:403-409 | the deletion is recorded even when the key is absent and the call raises |
| StateBag.SmartStateBag.GetDeltaUpdate | analemma-workflow-os/backend/src/common/state_hydrator.py:411-421 | the delta is the present changed fields and the deleted names, and reading it changes nothing |
| StateBag.MergeDeltaIntoState | analemma-workflow-os/backend/src/common/state_hydrator.py:902-937 | changed fields first, deletions last |
| StateBag.WrapIdempotent | analemma-workflow-os/backend/src/common/state_hydrator.py:344-353 | wrapping a wrapped value changes nothing and None is the only value wrapped to None |
| StateBag.WrapIs | analemma-workflow-os/backend/src/common/state_hydrator.py:344-353 | wrapping a list keeps exactly its items other than None, wrapped and in order; a dictionary keeps its keys with wrapped values; pointers and atoms stay |
| StateBag.StoredIsWrapped | analemma-workflow-os/backend/src/common/state_hydrator.py:344-371 | after any run whatever the bag holds is wrapped |
| StateBag.RunIsValid | analemma-workflow-os/backend/src/common/state_hydrator.py:319-409 | after any run stored, lazy and changed keys stay apart and every lazy key is an original pointer |
| StateBag.RunTracks | analemma-workflow-os/backend/src/common/state_hydrator.py:355-409 | after any run a key is recorded as changed or deleted if and only if the run set or deleted it, and is present if and only if its last set or delete was a set |
| StateBag.SetKeysHold | analemma-workflow-os/backend/src/common/state_hydrator.py:355-371 | a key holds the wrapped value of its last set, with the nested writes made since laid over it |
| StateBag.SetReachesMaster | analemma-workflow-os/backend/src/common/state_hydrator.py:355-421 | the delta, and the merged state unless the key was ever deleted, hold that same value |
| StateBag.DeltaIs | analemma-workflow-os/backend/src/common/state_hydrator.py:411-421 | the delta holds exactly the live keys that were set, with what the bag holds, and exactly the keys that were deleted |
| StateBag.UntouchedKeysPresent | analemma-workflow-os/backend/src/common/state_hydrator.py:373-409 | without nested writes, a present key that was never set still stands for its original value |
| StateBag.UnsetKeysHold | analemma-workflow-os/backend/src/common/state_hydrator.py:373-409 | a live key that was never set holds its original value, read or not, with the last nested writes laid over it |
| StateBag.UntouchedIff | analemma-workflow-os/backend/src/common/state_hydrator.py:344-371 | it stands for its original value if and only if these writes repeat what was there |
| StateBag.ReadIsInvisible | analemma-workflow-os/backend/src/common/state_hydrator.py:373-390 | a lazy read leaves the delta alone and every key stands for what it stood for |
| StateBag.DeltaReplaysIff | analemma-workflow-os/backend/src/common/state_hydrator.py:902-937 | for every run: merging the delta into the original gives the bag back if and only if no deleted key is live at the end and, at live keys that were never set, the last write at each inner key of a nested bag repeats what the original dictionary holds there |
| StateBag.ReplayIffNoRevival | analemma-workflow-os/backend/src/common/state_hydrator.py:902-937 | without nested writes only a key set again after its deletion breaks the replay |
| StateBag.RevivedKeyIsLost | analemma-workflow-os/backend/src/common/state_hydrator.py:922-930 | delete then set: the replay drops the key |
| StateBag.NestedWriteIsLost | analemma-workflow-os/backend/src/common/state_hydrator.py:344-350 | a write through a nested bag is missing from the outer delta |
| Rehydration.SafeSerialize | analemma-workflow-os/backend/src/bridge/rehydration.py:40-110 | on any heap, cyclic ones included, it terminates, leaves `seen` as it was and gives the pure depth-bounded serialization |
| Rehydration.SerializeElements | analemma-workflow-os/backend/src/bridge/rehydration.py:91-98 | lists and tuples: elements in order, `seen` restored |
| Rehydration.ExtractSnapshot | analemma-workflow-os/backend/src/bridge/rehydration.py:134-154 | each field is serialized with its own empty `seen`; missing attributes count as None |
| Rehydration.NestingIsBounded | analemma-workflow-os/backend/src/bridge/rehydration.py:58-98 | the output is nested at most max_depth + 1 levels, leaves and placeholders included |
| Rehydration.OutputPlaces | analemma-workflow-os/backend/src/bridge/rehydration.py:80-98 | at each place of the output stands the serialization of the value reached there with exactly its ancestors marked as seen; beyond the budget there is nothing |
| Rehydration.PlaceholderPlaces | analemma-workflow-os/backend/src/bridge/rehydration.py:58-78 | a circular placeholder stands exactly where an object is its own ancestor within the budget, a depth placeholder exactly on the budget's edge |
| Rehydration.PlaceHolds | analemma-workflow-os/backend/src/bridge/rehydration.py:58-110 | what stands at every place within the budget, placeholders naming their path and type, atoms and dumpable objects themselves, containers of the same kind and size |
| Rehydration.FollowSpellsPath | analemma-workflow-os/backend/src/bridge/rehydration.py:84-95 | the path of a place is the field name, a dot before every key and brackets around every index |
| Rehydration.FaithfulIsUnfolding | analemma-workflow-os/backend/src/bridge/rehydration.py:58-110 | a placeholder-free output is the full unfolding of the value and fits the budget |
| Rehydration.UnfoldingIsUnique | analemma-workflow-os/backend/src/bridge/rehydration.py:80-98 | a value has at most one finite unfolding |
| Rehydration.UnfoldingIsSerialized | analemma-workflow-os/backend/src/bridge/rehydration.py:58-110 | sharing is no cycle: wherever the unfolding fits the budget it is computed, on shared heaps too |
| Rehydration.FaithfulIffFiniteTree | analemma-workflow-os/backend/src/bridge/rehydration.py:58-110 | a field is snapshot without placeholders if and only if its value unfolds to a finite tree of serializable leaves within the budget |
| CircuitBreaker.CircuitBreaker.AllowRequest | analemma-workflow-os/backend/src/common/retry_utils.py:634-651 | admission and new state, the automatic transition included, for every prior state |
| CircuitBreaker.CircuitBreaker.RecordSuccess | analemma-workflow-os/backend/src/common/retry_utils.py:653-663 | half-open successes count towards closing, closed ones clear the failures, open ones change nothing |
| CircuitBreaker.CircuitBreaker.RecordFailure | analemma-workflow-os/backend/src/common/retry_utils.py:665-677 | every failure counts and is timed; half-open reopens at once |
| CircuitBreaker.CircuitBreaker.Reset | analemma-workflow-os/backend/src/common/retry_utils.py:868-878 | a forced reset gives the initial breaker |
| CircuitBreaker.CountersMean | analemma-workflow-os/backend/src/common/retry_utils.py:611-677 | after every history the counters are the failures since the last success, the admissions and successes of the half-open episode, and the time of the last failure |
| CircuitBreaker.AdmissionExact | analemma-workflow-os/backend/src/common/retry_utils.py:634-651 | after every history: closed admits every request, half-open exactly while the episode has probes left, open exactly after the timeout with room for a probe |
| CircuitBreaker.TransitionsExact | analemma-workflow-os/backend/src/common/retry_utils.py:611-677 | after every history and for every event, the next state, from the failures since a success, the successes of the episode and the time of the last failure alone |
| CircuitBreaker.OpensExactlyAtThreshold | analemma-workflow-os/backend/src/common/retry_utils.py:665-677 | from closed the breaker opens exactly at the failure that completes failure_threshold failures with no success between |
| CircuitBreaker.EpisodeIsBounded | analemma-workflow-os/backend/src/common/retry_utils.py:645-649 | a half-open episode admits at most half_open_max_calls requests |
| CircuitBreaker.ExhaustedRefuses | analemma-workflow-os/backend/src/common/retry_utils.py:634-651 | without a report an exhausted half-open breaker refuses through any sequence of requests and queries |
| CircuitBreaker.OpenAdmitsAfterTimeout | analemma-workflow-os/backend/src/common/retry_utils.py:611-618 | while open, a request is admitted if and only if recovery_timeout has passed since the last failure and a probe is allowed at all |
| CircuitBreaker.StuckStaysStuck | analemma-workflow-os/backend/src/common/retry_utils.py:634-651 | an exhausted half-open breaker with every probe reported is unchanged by, and refuses after, any number of requests and queries at any times |
| CircuitBreaker.GetStuck | analemma-workflow-os/backend/src/common/retry_utils.py:634-663 | a history that gets stuck, for every configuration that needs more successes than it admits probes |
| CircuitBreaker.CanGetStuckIff | analemma-workflow-os/backend/src/common/retry_utils.py:634-677 | some history gets stuck if and only if success_threshold (at least 1) exceeds half_open_max_calls; otherwise an exhausted half-open breaker awaits a report |
| CircuitBreaker.WithResilience | analemma-workflow-os/backend/src/common/retry_utils.py:724-784 | one admission, always given by a closed breaker; a call that returns or fails reports exactly once, at its end, however many retries; an exception outside the declared ones escapes unreported |
| CircuitBreaker.AttemptsExact | analemma-workflow-os/backend/src/common/retry_utils.py:757-778 | attempts go on exactly while a declared, retryable exception is raised and retries are left |
| CircuitBreaker.EscapedProbesBlock | analemma-workflow-os/backend/src/common/retry_utils.py:748-772 | half-open probes that escape unreported use up the episode: nothing is admitted through any further requests and queries |
| RedisBreaker.RedisStore.RunFailureScript | analemma-workflow-os/backend/src/common/retry_utils.py:913-925 | the script opens on the windowed count unless the state is already OPEN, and keeps the first opening time |
| RedisBreaker.RedisStore.RunSuccessScript | analemma-workflow-os/backend/src/common/retry_utils.py:928-942 | only HALF_OPEN counts; closing deletes the three other keys |
| RedisBreaker.OpensAfter | analemma-workflow-os/backend/src/common/retry_utils.py:913-925 | a circuit that is not open stays as it is for fewer failures than are missing to the threshold in the window; the one that completes it is the opening time, later ones only count |
| RedisBreaker.OpensAtOnce | analemma-workflow-os/backend/src/common/retry_utils.py:913-925 | a failure that brings the count to the threshold leaves the circuit open, an open one with its opening time |
| RedisBreaker.ClosesAfter | analemma-workflow-os/backend/src/common/retry_utils.py:928-942 | a half-open circuit closes exactly at the success that completes the threshold, and then the three other keys are gone |
| RedisBreaker.SuccessesElsewhere | analemma-workflow-os/backend/src/common/retry_utils.py:929-931 | outside half-open successes change nothing |
| RedisBreaker.RedisCircuitBreaker.AllowRequest | analemma-workflow-os/backend/src/common/retry_utils.py:1057-1078 | undisturbed: admits unless OPEN within the timeout, and then half-opens |
| RedisBreaker.UndisturbedAllowRequest | analemma-workflow-os/backend/src/common/retry_utils.py:1057-1078 | the separate commands of the interleavings, undisturbed, do what the method does |
| RedisBreaker.SafeAlong | analemma-workflow-os/backend/src/common/retry_utils.py:913-942 | any interleaving of any number of workers, with keys expiring at any time and clocks that may disagree, keeps the invariants |
| RedisBreaker.SafeIffPositiveThreshold | analemma-workflow-os/backend/src/common/retry_utils.py:913-942 | in every reachable system CLOSED has fewer failures than the threshold and OPEN has an opening time, if and only if the threshold is positive |
| RedisBreaker.OpenedAfterZeroAlong | analemma-workflow-os/backend/src/common/retry_utils.py:913-942 | an OPEN circuit keeps a positive opening time along every run, for every configuration |
| RedisBreaker.CanAlwaysClose | analemma-workflow-os/backend/src/common/retry_utils.py:1057-1115 | from every reachable system, whatever each worker was in the middle of and whatever the clock shows, some continuation in which the clock never runs backwards closes the circuit, for every configuration |
| RedisBreaker.OnlyStaleWritesLeaveDiagram | analemma-workflow-os/backend/src/common/retry_utils.py:1067-1073 | a step leaves the CLOSED-OPEN-HALF_OPEN diagram if and only if it is a HALF_OPEN write over CLOSED |
| RedisBreaker.StaleWriteHappens | analemma-workflow-os/backend/src/common/retry_utils.py:1067-1073 | two workers: an interleaving in time, from any clock reading, that ends with such a write pending over a closed circuit |
| RedisBreaker.DiagramIffOneWorker | analemma-workflow-os/backend/src/common/retry_utils.py:1057-1078 | the diagram is respected by every interleaving if and only if there is at most one worker, both for all runs and for those in which the clock never runs backwards |
| RedisBreaker.OkCountSurvivesReopening | analemma-workflow-os/backend/src/common/retry_utils.py:928-942 | successes counted before a reopening count towards the next closing: how many more close the circuit is stated exactly |
| React.ReactExecutor.ProbeAll | analemma-workflow-os/backend/src/bridge/react_executor.py:558-572 | one decision per call and one probe per registered tool, in order, before anything else |
| React.DecisionsAreVerdicts | analemma-workflow-os/backend/src/bridge/react_executor.py:641-769 | a decision is a kill, a rollback or an approval exactly as the bridge answered for a registered tool, an exception being a rollback, with the bridge's checkpoint and reason |
| React.ProbesInOrder | analemma-workflow-os/backend/src/bridge/react_executor.py:558-569 | the probes of a batch follow the order of its calls |
| React.CheckpointsPicked | analemma-workflow-os/backend/src/bridge/react_executor.py:571-573 | the segments of a batch are the checkpoints of its decisions that have one, in order |
| React.ReactExecutor.ExecuteApproved | analemma-workflow-os/backend/src/bridge/react_executor.py:599-637 | results in call order; counters go up on rollback and are dropped on execution |
| React.ReactExecutor.ProcessToolBatch | analemma-workflow-os/backend/src/bridge/react_executor.py:536-639 | all probes, then all aborted on any kill, with the first kill's reason, or the approved calls executed |
| React.ReactExecutor.Iterate | analemma-workflow-os/backend/src/bridge/react_executor.py:293-453 | one turn with its three budget gates, two clock gates and the rejection limit |
| React.ReactExecutor.RunTask | analemma-workflow-os/backend/src/bridge/react_executor.py:274-467 | the whole run is the pure loop of turns |
| React.KeptKeepsCalls | analemma-workflow-os/backend/src/bridge/react_executor.py:369-388 | dropping other blocks from the history keeps every tool call, in order |
| React.BlocksPicked | analemma-workflow-os/backend/src/bridge/react_executor.py:369-388 | the history keeps exactly the text and tool_use blocks, and the batch exactly the tool_use blocks, each once and in order |
| React.TextJoins | analemma-workflow-os/backend/src/bridge/react_executor.py:882-887 | the answer is the texts of the response, joined in order |
| React.ResultTextJoins | analemma-workflow-os/backend/src/bridge/react_executor.py:422-425 | the projected tokens are counted on the contents of all results, joined in order |
| React.BatchAnswers | analemma-workflow-os/backend/src/bridge/react_executor.py:536-639 | a batch is answered by exactly its tool_use ids, in order, killed or not |
| React.BatchByVerdict | analemma-workflow-os/backend/src/bridge/react_executor.py:599-637 | without a kill, a call the bridge approved is answered by its handler, any other with an error and the bridge's reason, and counts as executed, rejected or refused accordingly |
| React.HandlersExact | analemma-workflow-os/backend/src/bridge/react_executor.py:599-637 | exactly the approved calls are executed, each once, in batch order |
| React.HandlersByVerdict | analemma-workflow-os/backend/src/bridge/react_executor.py:575-639 | a handler runs exactly for each call of a registered tool that the bridge approved, in a batch of which it killed none |
| React.BatchIsGoverned | analemma-workflow-os/backend/src/bridge/react_executor.py:558-639 | a handler runs only for a call of a registered tool that the bridge approved, after every probe of its batch, in a batch of which the bridge killed no call |
| React.ExecuteCounts | analemma-workflow-os/backend/src/bridge/react_executor.py:599-627 | each rejection counter is the number of that tool's rollbacks since its last execution |
| React.CountersAreVerdicts | analemma-workflow-os/backend/src/bridge/react_executor.py:599-627 | in every run, whenever a turn begins, each tool's counter is the number of its rollbacks and failed probes since its last approval, by the bridge's verdicts of all turns before |
| React.TurnKeepsSound | analemma-workflow-os/backend/src/bridge/react_executor.py:293-453 | every turn keeps all the invariants of a run, whether it goes on, stops or crashes |
| React.LoopIsSound | analemma-workflow-os/backend/src/bridge/react_executor.py:293-467 | so does every sequence of turns |
| React.RunIsSound | analemma-workflow-os/backend/src/bridge/react_executor.py:274-467 | in every run: the transcript is well formed, handlers are governed, counters are exact, LLM calls and handlers start strictly under budget, the total exceeds the budget by less than the last response's usage, and iterations are the LLM calls made; a run ended by an exception of the LLM call keeps all of it up to that call |
| React.RunIsReplayed | analemma-workflow-os/backend/src/bridge/react_executor.py:274-453 | in every run, whenever a turn begins: the token totals are the sums of the usage so far, the messages are the request and what each turn kept and was answered, no batch was killed, and calls and handlers were logged with the right totals |
| React.TranscriptByPosition | analemma-workflow-os/backend/src/bridge/react_executor.py:284-397 | messages alternate user and assistant, odd in number, each assistant turn answered by its own results |
| React.TurnReports | analemma-workflow-os/backend/src/bridge/react_executor.py:293-453 | a turn goes on only without a kill and below the rejection limit; only end_turn carries an answer |
| React.TurnByGates | analemma-workflow-os/backend/src/bridge/react_executor.py:293-362 | which of the gates up to the final answer a turn ends at, in their order, with its reason, iterations, answer and segments |
| React.TurnAfterBatch | analemma-workflow-os/backend/src/bridge/react_executor.py:382-453 | which of the gates after a batch it ends at, in their order: a kill by the bridge, the clock, the projected tokens, three rejections of one tool in a row |
| React.PreLoopGateFiresIff | analemma-workflow-os/backend/src/bridge/react_executor.py:294-304 | in every run the gate before the loop body fires if and only if it is the first turn and the budget is not positive |
| React.TurnsBeginSound | analemma-workflow-os/backend/src/bridge/react_executor.py:293-453 | the invariants of a run hold at the beginning of every turn it reaches |
| React.IterationsAreCallsIff | analemma-workflow-os/backend/src/bridge/react_executor.py:455-467 | iterations equal the LLM calls made if and only if max_iterations is not negative |
| React.KillAbortsBatch | analemma-workflow-os/backend/src/bridge/react_executor.py:575-595 | the bridge kills a call of a registered tool anywhere in a batch, once the gates before it are passed: the run stops with sigkill, every call is answered with an error, no handler runs, counters stay |
| React.KilledBatch | analemma-workflow-os/backend/src/bridge/react_executor.py:575-595 | the reason given to every call of a killed batch is that of the first kill |
| HashRegistry.StreamingContentHash | analemma-workflow-os/backend/src/common/hash_utils.py:181-203 | feeding sorted keys one by one hashes the whole wire text |
| HashRegistry.WireSplits | analemma-workflow-os/backend/src/common/hash_utils.py:198-203 | the wire text is, key by key, the key, a colon, the canonical value and a comma |
| HashRegistry.ClassifyExact | analemma-workflow-os/backend/src/common/hash_utils.py:237-270 | which block each field belongs to, cold, warm and hot before the control plane |
| HashRegistry.FieldsInBlocks | analemma-workflow-os/backend/src/common/hash_utils.py:400-418 | every field of a state is in its own block with its value, unclassified ones also in the warm block, and no block holds anything else |
| HashRegistry.BlocksDetermineState | analemma-workflow-os/backend/src/common/hash_utils.py:400-418 | states with equal blocks are equal |
| HashRegistry.WireParses | analemma-workflow-os/backend/src/common/hash_utils.py:198-203 | colon-free keys: the wire text determines keys, order and values |
| HashRegistry.DigestsDistinguish | analemma-workflow-os/backend/src/common/hash_utils.py:181-203 | so different blocks have different digests, unless the hash collides on their two texts |
| HashRegistry.ColonKeysCollide | analemma-workflow-os/backend/src/common/hash_utils.py:198-203 | a key with a colon: two different blocks with the same digest, for any keys and values |
| HashRegistry.SubBlockHashRegistry.ComputeIncrementalRoot | analemma-workflow-os/backend/src/common/hash_utils.py:299-336 | digests and root after a call, whatever the order of the dirty blocks |
| HashRegistry.SubBlockHashRegistry.BlocksToHash | analemma-workflow-os/backend/src/common/hash_utils.py:355-365 | the blocks to hash, each once: those that are new, and dirty ones other than cold |
| HashRegistry.SubBlockHashRegistry.ComputeIncrementalRootParallel | analemma-workflow-os/backend/src/common/hash_utils.py:338-385 | collecting first and hashing independently ends in the same digests and root as the sequential version |
| HashRegistry.DigestsAreOfLastHashed | analemma-workflow-os/backend/src/common/hash_utils.py:299-336 | after any run of calls each digest is that of the block's contents when it was last hashed |
| HashRegistry.AgreesAtBlockIff | analemma-workflow-os/backend/src/common/hash_utils.py:299-336 | at a block the registry agrees with a new one if it is unchanged since it was hashed, for any hash and any keys; and only if, unless two texts of the run collide |
| HashRegistry.IncrementalRootIsFreshIff | analemma-workflow-os/backend/src/common/hash_utils.py:299-336 | the incremental root is the root of a new registry if every block is unchanged since it was last hashed, for any hash and any keys; and only if, unless two texts or roots of the run collide |
| HashRegistry.CoveredRunsAreUpToDate | analemma-workflow-os/backend/src/common/hash_utils.py:390-418 | dirty keys that cover all changes, fixed cold and unclassified fields and no emptied block keep every block up to date |
| HashRegistry.CoveredRunHasFreshRoot | analemma-workflow-os/backend/src/common/hash_utils.py:299-418 | such callers always get the digests and the root of a new registry, for any hash and any keys |
| HashRegistry.UnclassifiedChangeIsStale | analemma-workflow-os/backend/src/common/hash_utils.py:390-418 | a changed unclassified field leaves its block stale although it was named dirty, and so the root unless it collides |
| ReorderBuffer.ReorderingBuffer.TryTurn | analemma-workflow-os/backend/src/bridge/virtual_segment_manager.py:98-103 | a poll grants exactly the due numbers, and raises only for an unknown workflow |
| ReorderBuffer.ReorderingBuffer.FailOpen | analemma-workflow-os/backend/src/bridge/virtual_segment_manager.py:105-108 | a passed deadline moves the expected number past the waiter, never back |
| ReorderBuffer.ReorderingBuffer.Reset | analemma-workflow-os/backend/src/bridge/virtual_segment_manager.py:122-124 | a reset forgets one workflow |
| ReorderBuffer.ReorderingBuffer.WaitForTurn | analemma-workflow-os/backend/src/bridge/virtual_segment_manager.py:91-115 | an undisturbed waiter is in order if and only if its number is due at once; either way the expected number ends past it |
| ReorderBuffer.ExpectedIsMonotone | analemma-workflow-os/backend/src/bridge/virtual_segment_manager.py:91-120 | between resets the expected number never decreases, under any interleaving |
| ReorderBuffer.ConsistentGrows | analemma-workflow-os/backend/src/bridge/virtual_segment_manager.py:98-120 | each admission, timeout or mark extends a log that is consistent with the expected number |
| ReorderBuffer.TracksAlong | analemma-workflow-os/backend/src/bridge/virtual_segment_manager.py:91-123 | any interleaving of waiters, marks and resets keeps the log consistent |
| ReorderBuffer.OrderIffNoGap | analemma-workflow-os/backend/src/bridge/virtual_segment_manager.py:91-120 | without forward marks, n goes through only after n - 1 if and only if no deadline passed early; then every number from the first to the expected one went through |
| ReorderBuffer.StrandedWaiters | analemma-workflow-os/backend/src/bridge/virtual_segment_manager.py:98-124 | polls raise only for waiters whose workflow was reset, and a reset strands them all |
| SemVer.DecimalReadsBack | analemma-workflow-os/backend/src/models/skill_models.py:64-79 | a printed number is a non-empty run of digits that reads back |
| SemVer.PrintedParses | analemma-workflow-os/backend/src/models/skill_models.py:58-84 | `parse(str(v)) == v` for every version with absent or non-empty well-formed parts (Semantic Versioning 2.0.0, sections 2, 9 and 10) |
| SemVer.RoundTripIff | analemma-workflow-os/backend/src/models/skill_models.py:58-84 | the round trip holds for a version if and only if its optional parts are so formed |
| SemVer.PrintNormalises | analemma-workflow-os/backend/src/models/skill_models.py:58-84 | whatever spelling was parsed, the printed form names the same version |
| SemVer.ParsesIff | analemma-workflow-os/backend/src/models/skill_models.py:58-76 | a text parses to a version if and only if it spells it: any leading v's, three dotted runs of digits with these values, the optional parts, perhaps a final newline, and nothing else |
| SemVer.ConstraintsAreNested | analemma-workflow-os/backend/src/models/skill_models.py:86-125 | range implies exact implies tilde implies caret implies latest, for every constraint text |
| SemVer.ConstraintNamesVersion | analemma-workflow-os/backend/src/models/skill_models.py:98-101 | an optional mark and a printed version compare with that version |
| SemVer.ConstraintsAdmit | analemma-workflow-os/backend/src/models/skill_models.py:103-125 | exact admits the same three numbers, tilde the same major and minor with no lower patch, range nothing |
| SemVer.UnreadableConstraint | analemma-workflow-os/backend/src/models/skill_models.py:95-101 | a constraint that is no version admits nothing, except that latest admits everything |
| SemVer.CaretIsTransitive | analemma-workflow-os/backend/src/models/skill_models.py:108-117 | a caret upgrade of a caret upgrade is one |
| SemVer.CaretIsUpwardClosed | analemma-workflow-os/backend/src/models/skill_models.py:108-117 | a caret admits exactly the versions of the same major (same minor for 0.x) not below its target |
| SemVer.PrereleaseSatisfiesItsRelease | analemma-workflow-os/backend/src/models/skill_models.py:108-117 | a pre-release satisfies the caret of the release it precedes |
| Instructions.DistilledInstruction.HasConflictingSignature | analemma-workflow-os/backend/src/models/correction_log.py:248-264 | true if and only if some common key has different values |
| Instructions.DistilledInstruction.CreateOverrideVersion | analemma-workflow-os/backend/src/models/correction_log.py:284-306 | the new version is active with the next number and the old one is inactive and points to it |
| Instructions.DetectConflicts | analemma-workflow-os/backend/src/models/correction_log.py:398-415 | exactly the active conflicting instructions of the category and scope, in order |
| Instructions.ConflictsExact | analemma-workflow-os/backend/src/models/correction_log.py:398-415 | a position is listed exactly if its instruction is active, of the category and scope, and gives a common key another value; positions are in order, each once |
| Instructions.ResolveByMerge | analemma-workflow-os/backend/src/models/correction_log.py:398-465 | every conflicting instruction retires in favour of its merged version, all others keep every field |
| Instructions.OverridesComeFrom | analemma-workflow-os/backend/src/models/correction_log.py:432-465 | the new versions are exactly the merges of the conflicting instructions |
| Instructions.MergedSignatureIs | analemma-workflow-os/backend/src/models/correction_log.py:434 | the merged signature has the new values and, under all other keys, the old ones |
| Instructions.ResolutionOf | analemma-workflow-os/backend/src/models/correction_log.py:432-465 | a conflicting instruction is superseded by an active one of its category and scope with the next version and the merged signature; any other stays as it was |
| Instructions.MergingKeepsHarmony | analemma-workflow-os/backend/src/models/correction_log.py:432-465 | merging keeps each category and scope whose active instructions do not conflict so, whatever the rest of the store holds, and leaves none in conflict with the new signature |
| Instructions.MergingKeepsVersions | analemma-workflow-os/backend/src/models/correction_log.py:284-306 | merging keeps names distinct and every superseded instruction inactive with a successor of the next version |
| Instructions.RunsKeepHarmonyAndVersions | analemma-workflow-os/backend/src/models/correction_log.py:398-465 | both hold after any run of new signatures from an empty store |
| Instructions.OverrideResolutionForgets | analemma-workflow-os/backend/src/models/correction_log.py:426-460 | the "override" resolution creates a version without the new signature |
| Router.WeightedSums | analemma-workflow-os/backend/src/common/model_router.py:242-249 | summing with explicit powers of the decay gives the weighted sum and total |
| Router.WeightedSumSplits | analemma-workflow-os/backend/src/common/model_router.py:246-249 | older samples weigh less by one factor of the decay for every newer one, the newest fully; the total likewise |
| Router.SumsWithin | analemma-workflow-os/backend/src/common/model_router.py:242-249 | for a non-negative decay the weighted sum lies between the bounds of the samples times the total weight, which is at least one |
| Router.AverageWithin | analemma-workflow-os/backend/src/common/model_router.py:242-254 | so the weighted average lies between the samples' bounds |
| Router.AveragesIffDecayNotNegative | analemma-workflow-os/backend/src/common/model_router.py:242-254 | it does so for all samples if and only if the decay is not negative |
| Router.AdaptiveTTFTTracker.RecordTtft | analemma-workflow-os/backend/src/common/model_router.py:206-212 | the window holds the last window_size measurements of each model |
| Router.LastOfIs | analemma-workflow-os/backend/src/common/model_router.py:208-211 | the window is the end of the history |
| Router.AdaptiveTTFTTracker.GetEffectiveTtft | analemma-workflow-os/backend/src/common/model_router.py:223-260 | the clamped average of the last measurements, or the base value without any |
| Router.EffectiveIsBounded | analemma-workflow-os/backend/src/common/model_router.py:251-260 | the result lies between a third and three times the base if and only if the base is not negative, and between the samples wherever those respect the clamp |
| Router.EffectiveIs | analemma-workflow-os/backend/src/common/model_router.py:251-260 | the result is the truncated average, cut off at a third and at three times the base |
| Router.TruncateIs | analemma-workflow-os/backend/src/common/model_router.py:254 | averages are rounded towards zero |
| Router.OutputShareIff | analemma-workflow-os/backend/src/common/model_router.py:433-457 | at least two fifths of the tokens are left for output, for every thinking budget, if and only if max_tokens is at least 1707 |
| Router.OutputSpaceIff | analemma-workflow-os/backend/src/common/model_router.py:433-457 | output space is never negative if and only if max_tokens is at least 1024 |
| Router.HalfKeepsHeadroom | analemma-workflow-os/backend/src/common/model_router.py:525-540 | after a model switch the headroom rule never changes the scaled budget |
| Router.HeadroomCaps | analemma-workflow-os/backend/src/common/model_router.py:565-582 | for a kept model the headroom rule caps the scaled budget at three fifths |
| Router.ForcedIff | analemma-workflow-os/backend/src/common/model_router.py:484-487 | a constraint adjusts exactly the models of a dearer tier |
| Router.SwitchesIff | analemma-workflow-os/backend/src/common/model_router.py:499-505 | hard constraints always switch the model, soft ones never, adaptive ones for complexity below five |
| Router.SoftTokensAre | analemma-workflow-os/backend/src/common/model_router.py:558-567 | the tokens left to a kept model: three tenths for the economy tier, three fifths for the standard tier, at least 1024 |
| Router.SwitchModel | analemma-workflow-os/backend/src/common/model_router.py:506-523 | the first cheapest model of tier and provider, else of the tier, else the fallback |
| Router.SwitchHonoursConstraint | analemma-workflow-os/backend/src/common/model_router.py:506-523 | a switch stays within the constraint's tier whenever some model is, and then prefers the provider and the price |
| Router.ApplyBudgetConstraint | analemma-workflow-os/backend/src/common/model_router.py:460-615 | exactly when it adjusts, switches or divides by zero, and the adjusted model, tokens and thinking budget in each case |

## Left out

Weaker than the code, on purpose:

- Rehydration.SafeSerialize: dictionary keys are strings, so keys that `str()` makes equal do not arise; placeholder texts are constructors carrying their path and type name.
- StateDiff.ComputeDeepDiff: equality is structural, without Python's equalities across types such as `True == 1`; integers and floats are one kind of number, so `type_changed` does not tell them apart.
- StateView.StateViewProxy.ToDict: values are trees, so the cut at circular references never applies; written values are plain; transformers do not raise.
- StateView.StateViewProxy.GetItem: a write cache holds plain values only, not views of other proxies.
- StateBag.SmartStateBag.GetItem: pointers nested inside stored values are values and are not loaded through inner bags.
- StateBag.MergeDeltaIntoState: models deltas that a bag produced, which carry the marker and no S3 pointers of their own.
- BranchMerge.AggregateDeep: covers the default strategy; final states are dictionaries and times are integers.
- CircuitBreaker.CircuitBreaker.AllowRequest: the clock is read once an event and `last_state_change` is not kept.
- CircuitBreaker.WithResilience: back-off delays are not modelled, and no other call reaches the breaker between the admission and the report (histories of the breaker interleave freely).
- RedisBreaker.RedisCircuitBreaker.AllowRequest: Redis never fails, so the fallback breaker and the Pub/Sub cache are not modelled; windows are expiries that may happen at any step.
- React.ReactExecutor.ProcessToolBatch: fixed prefixes and default texts of error messages are not spelled out; action parameters rewritten by the bridge reach the handler through its oracle.
- React.ReactExecutor.Iterate: the retries inside one LLM call are part of the LLM oracle, and thoughts and inputs sent to the bridge are part of the bridge oracle.
- HashRegistry.IncrementalRootIsFreshIff: the direction from equal roots to unchanged blocks supposes that no texts of the run collide, that canonical values end where they end, and keys without colons; ColonKeysCollide shows why. The other direction supposes nothing.
- StateView.LimitHarmlessIff: transformers return their input or a value that is no dictionary or list, since redaction without a limit need not end otherwise; HigherLimitIff compares limits for all transformers.
- StateView.ShallowViewIsProjection: the same transformers, which the default ones are (DefaultViewIsProjection).
- ReorderBuffer.ReorderingBuffer.WaitForTurn: time is a number of polls; in the interleavings a deadline may pass at any moment.
- SemVer.RoundTripIff: digits are the ASCII digits.
- Instructions.ResolveByMerge: composes detection and the "merge" resolution for one new signature, as the resolver's callers are not part of this model; instruction texts, confidence and pattern descriptions are not kept.
- Router.AdaptiveTTFTTracker.GetEffectiveTtft: floats are reals, and the distributed storage backend is absent.
- Router.ApplyBudgetConstraint: floats are reals; the prompts, warnings and cost percentages of the result are not kept; the fallback model is a parameter.

Not modelled:

- The other checks of workflow validation (limits, orphans, subgraph depth, scores): single-pass counts.
- Slices, `index`, `count` and equality of protected lists, and policy builders.
- The "last_wins" and "collect" strategies of branch aggregation.
- Dirty-block tracking, control-plane extraction, hydration and dehydration of state bags: lookups and S3 traffic.
- `restore_from_snapshot` and `validate_snapshot`: attribute assignment and a name check.
- `with_retry` back-off and jitter, the error classification of `is_retryable`, breaker registries and status reports.
- The audit registry of the segment manager: insertion, eviction and lookup in one dictionary.
- Tool input validation, prompt assembly and the final segment's governance in the agent loop.
- Manifest creation, governance engine, cost ledgers, CRUD services, authentication and all network, AWS and Redis connection code.
