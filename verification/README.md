# Verified model of the network graph and its runtime

This Dafny project models how Arm NN represents a neural network and what the runtime builds from it, and proves that
the parts fit together for every graph and every run.

**Graph and slots.** Layers own input and output slots. An edge is stored twice, as a back pointer on the input slot and
as an entry of the output slot's connection list, beside a parallel list of edge strategies. `NetGraph`, `Edges`,
`Ordering` and `LayerEdits` describe a graph as a value (`Net`) and what each edit does to it; `GraphModel` holds the
class `Graph`, whose methods change the fields in place and are proved against those descriptions. Every graph operation
keeps `Valid()`: the two records of the edges agree, every layer is listed once, the binding ids match the listed Inputs and
Outputs.

**Meaning.** `Evaluation` gives a graph its meaning: each layer computes an unknown function of the values it receives,
except that MemCopy, MemImport and Debug layers pass their value on. An acyclic graph has exactly one assignment of values
to output slots. A rewrite is right when every remaining layer still receives the same value, whatever the functions are.

**Sorting.** `Priorities` and `Graph.TopologicalSort`: the memoised depth-first priorities, the stable sort that computes
them while it compares, and the detection of cycles.

**Rewrites.** `Compatibility` (copy and import layers between backends), `NetworkUtils` (debug layers), `Conversions` (a layer
that computes with 32 bits in a 16-bit network), `Substitution`, `SubstitutionOrder` and `Subgraphs` (replacing a subgraph),
`Optimizer` (the reverse walk that removes dead layers) and `Copying` (the copy constructor), each with the exact edges of the
result and the proof that it computes the same. `Optimizing` is the end of `Optimize` as one run.

**Buffer lifetimes.** `Lifetimes` and `Buffers` are the reference counting of `AllocateDynamicBuffers`, for handles carried by
any number of slots, and `Sharing` how slots come to share one. `MemoryProfile` computes the lifetime of every tensor of an
asynchronous network, `SharedMemory` proves that tensors may share bytes if these lifetimes do not overlap, and `ReadInputs`
what that takes of the inputs.

**Runtime bookkeeping.** `LoadedNetwork` (workload queue, index tables and the handles swapped by `EnqueueWorkload`),
`WorkingMemHandle` and `TensorMemory` (which index belongs to which layer and slot in an asynchronous network), `Connections`
and `BindingTables` (where the handle of an input or output is found), `AsyncExecution` (pre-imported tensors), `Loading`,
`Running` and `Execution` (the asynchronous execution over all of these), `Callbacks` (the queue of finished executions).

**Arithmetic.** `Concatenation` and `DataLayout`.

`dafny verify dfyconfig.toml` checks the project.

## Where the code does less than one would expect

- `SubstituteSubgraph` clears the flag of the list only when a layer joins the graph. With a substitute that is already part
  of an ordered graph the edges change but nothing is sorted. `SubstitutionOrder.SubstitutionKeepsOrderExactly` says when the
  list is in order afterwards, `SubstitutionOrder.SubstitutionBreaksOrder` gives a call after which it is not.
- Tensor memories and managed handles are matched by position although they are selected by different rules
  (`TensorMemory.SameSlotsExactly`); `TensorMemory.RulesMatchExactly` says for which options and readers they agree,
  `TensorMemory.SharedOutputDisagrees` gives a family for which they do not.
- The handle of an asynchronous Output is looked up by coordinates that belong to the slot it reads if and only if every Output
  reads a layer with a descriptor (`BindingTables.OutputsRightExactly`). An Output that reads an Input or a Constant gets the
  first output of another layer, or the lookup fails (`BindingTables.FoundForInput`, `BindingTables.FoundForConstant`);
  `BindingTables.ForkedTabledWrong` is such a network.
- A tensor imported for an Output replaces the Output's handle where it is read, not where it is written. No workload writes
  to it (`AsyncExecution.NoImportWritten`), and other readers of the slot read it instead of the value
  (`AsyncExecution.ImportReadInstead`).
- `EnqueueWorkload` switches for each Output a cell of its own if and only if no Output reads an Input and no two read the same
  slot (`LoadedNetwork.OwnCellsExactly`). Of two Outputs on one slot only the one switched last has its handle there; for an
  Output on an Input the first output of the first workload is switched.
- `EnqueueWorkload`: the walk over the sorted pre-imported ids stops at the first id given twice and ignores larger ones
  (`LoadedNetwork.IdsPickedExactly`). For inputs such a call always fails (`LoadedNetwork.AllIdsUsed`). For outputs the larger
  ids are silently not imported (`LoadedNetwork.RepeatedIdDropsOthers`).
- `CreateWorkingMemHandle` gives MemImport layers no execution data, although they have a workload; with one in the
  network the two lists are out of step (`WorkingMemHandle.WorkloadsMatchData`, `WorkingMemHandle.ImportShiftsData`).
- A callback that is notified twice makes a later lookup fail (`Callbacks.LookupsSucceedExactly`).
- `ClearImportedInputs` and `ClearImportedOutputs` let an id pass that equals the number of imports
  (`AsyncExecution.Imports.Clear`).
- `DataLayoutIndexed::GetIndex` does not refuse a width that is out of range (`DataLayout.WidthNotTested`,
  `DataLayout.WidthPastTheEnd`), nor index 0 in an empty dimension (`DataLayout.EmptyTensorAccepted`).
- `CalculateIndexOnOwner` compares slots by their connections and returns the wrong index for a slot without consumers if an
  earlier one of the layer has none either (`Edges.IndexByContents`, `Edges.UnreadSlotsConfused`).
- Layers reparented into a graph do not register their binding ids, so an Input or Output must not be
  (`Subgraphs.Reparent`).
- The copy constructor copies the tensor info set on an input slot only if the slot is connected.

## What an asynchronous execution relies on

`Execution.Execute` gives every Output the value the network means, for every network that meets four conditions:

- Every Input is read. Input tensors are copied before the first workload, in the order of the caller's list, and the lifetime of
  an Input nobody reads is only its own step, so its bytes may belong to a later Input too. `SharedMemory.SharingSafeExactly`
  gives the exact condition on list and graph, `SharedMemory.UnsafeSpoils` what goes wrong without it. A network that comes from
  `Optimize` meets it, because the last pass erases every Input that nobody reads (`Optimizing.FinishOptimizing`). Any other
  does not get as far: the constructor of WorkingMemHandle takes the handle of an Input from its first reader.
- There is no MemImport layer, so that workload and descriptor have the same index (`WorkingMemHandle.WorkloadsMatchData`).
  `Optimize` brings none in as long as no edge between backends is to be exported (`Optimizing.ImportsExactly`).
- Every Output reads a layer with a descriptor (`BindingTables.OutputsRightExactly`).
- Blocks and managed handles follow the same rule (`TensorMemory.SameSlotsExactly`, `TensorMemory.RulesMatchExactly`), which is
  always so without import and export (`TensorMemory.SameSlots`).

`AllocateDynamicBuffers`, for synchronous networks, counts references per tensor, and several slots may carry parts of one. It
manages and allocates a tensor once if and only if the readers keep it in use without a gap (`Lifetimes.OnceExactly`). Sharing as
Splitter and Concat layers make it always does (`Sharing.RulesGiveOneLifetime`); `Buffers.AllocatedTwice` shows what would
happen otherwise.

## Model

| member | source | states |
|---|---|---|
| `GraphModel.Graph.Connect` | src/armnn/Layer.cpp:112-118 | Appends the input slot to the connections with strategy Undefined and returns its index; if the input slot is already connected it fails and nothing changes. The slot invariant holds afterwards. |
| `GraphModel.Graph.Disconnect` | src/armnn/Layer.cpp:120-134 | Exactly the edge into the slot is gone, with its entry in both parallel lists; other entries keep their order and strategy. The slot must be connected to this output or to nothing. |
| `GraphModel.Graph.SetEdgeStrategy` | src/armnn/Layer.cpp:210-213 | Only the strategy at that index changes. |
| `GraphModel.Graph.DisconnectAll` | src/armnn/Layer.cpp:136-143 | The slot has no connection left; every other edge and strategy is as before. |
| `GraphModel.Graph.MoveAllConnections` | src/armnn/Layer.cpp:145-157 | All connections follow those of the destination, in order, with strategy Undefined; other edges stay. Ends because the destination is another slot. |
| `GraphModel.Graph.Insert` | src/armnn/Layer.cpp:48-73 | The slot reads the new layer, which reads what the slot read before and stands last among the readers; both edges have no strategy; every other edge keeps its strategy and every other list its order. |
| `GraphModel.Graph.CalculateIndexOnOwner` | src/armnn/Layer.cpp:159-185 | Returns the first output slot with equal connections; that is the true index exactly when the slot has a consumer or every earlier slot of the layer has one. |
| `Edges.IndexByContents` | src/armnn/Layer.cpp:159-185 | The exact condition under which comparing slots by the contents of their connection lists finds the right slot. |
| `Edges.UnreadSlotsConfused` | src/armnn/Layer.cpp:159-185 | The failing input: of two output slots without readers the second is found under index 0. |
| `NetGraph.LinkKeeps` | src/armnn/Layer.cpp:112-118 | Connecting a free slot keeps the invariant: an input slot points to output o exactly when it occurs once in o's list, and the two lists have equal length; all other edges keep their strategies. |
| `NetGraph.UnlinkKeeps` | src/armnn/Layer.cpp:120-134 | Disconnecting keeps the invariant and the strategy of every other edge, although indices in the lists shift. |
| `GraphModel.Graph.AddLayer` | src/armnn/Graph.hpp:455-468 | Fails exactly if an Input or Output in the graph has the binding id already, and then leaves everything as it was. A new Input or Constant stands behind every old Input and in front of all other layers, a new Output behind everything, any other layer in front of the Outputs and behind all others; old layers keep their relative order. A sorted list stays sorted; the flag survives only for Inputs and Outputs. |
| `Ordering.AddedInOrder` | src/armnn/Graph.hpp:392-417 | Over two additions: Inputs stand in the order in which they were added, and so do Outputs. |
| `LayerEdits.IdTakenExactly` | src/armnn/Graph.hpp:402-437 | Looking a binding id up among those of its kind finds exactly the ids that a layer of the graph has. |
| `GraphModel.Graph.Construct` | src/armnn/Graph.hpp:349-437 | The layer enters the list before its id is checked; when the id is taken it leaves again and everything is as before. |
| `GraphModel.Graph.PositionFor` | src/armnn/Graph.hpp:352-417 | The number of Inputs for an Input or a Constant, the end of the list for an Output, the number of Outputs before the end for any other layer. |
| `Ordering.AddedStandsRight` | src/armnn/Graph.hpp:352-417 | What these positions mean in a partitioned list, layer by layer: which old layers the new one follows and which it precedes. |
| `Ordering.AddKeepsPartition` | src/armnn/Graph.hpp:349-437 | Adding at that position keeps the order Inputs, middle layers, Outputs. |
| `GraphModel.Graph.ForwardToEndOfInputsAndConstants` | src/armnn/Graph.hpp:249-257 | Skips exactly the Inputs and Constants at that place. |
| `GraphModel.Graph.RewindToBeginOfOutputs` | src/armnn/Graph.hpp:259-266 | Goes back over exactly the Outputs before that place. |
| `Ordering.PartitionKept` | src/armnn/Graph.hpp:360-367 | Wherever a middle layer is asked to go, the two position fix-ups put it between the Inputs and the Outputs. |
| `Ordering.InsertionPointAfter` | src/armnn/Graph.hpp:360-367 | Despite the fix-ups, a layer asked to go just behind a layer lands behind it and in front of every later layer that has inputs. |
| `GraphModel.Graph.InsertNewLayerBefore` | src/armnn/Graph.hpp:470-484 | For a layer with one output, and with an input if the slot is connected: the new layer sits on the edge into the slot, in the list just behind the layer the slot reads, or before the slot's own layer if it reads none, up to the two fix-ups; a sorted list stays sorted and partitioned without sorting. |
| `GraphModel.Graph.InsertNewLayerAfter` | src/armnn/Graph.hpp:486-502 | The new layer takes over all readers, in order, and is the slot's only reader; it is listed just behind the slot's layer, up to the two fix-ups; a sorted list stays sorted and partitioned without sorting. |
| `LayerEdits.NewBeforeKeepsOrder` | src/armnn/Graph.hpp:470-484 | Why no re-sorting is needed after an insertion before an input slot. |
| `LayerEdits.NewAfterKeepsOrder` | src/armnn/Graph.hpp:486-502 | Why no re-sorting is needed after an insertion behind an output slot. |
| `LayerEdits.NewBeforeSplices` | src/armnn/Graph.hpp:470-484 | Inserting a layer that passes its input on into an edge is a splice, hence keeps the meaning. |
| `LayerEdits.NewAfterSplices` | src/armnn/Graph.hpp:486-502 | The same behind an output slot. |
| `GraphModel.Graph.EraseLayer` | src/armnn/Graph.hpp:504-517 | The layer, its edges, its tensor infos and its binding id are gone, nothing dangles, all else is kept in order with its strategies; a sorted list stays sorted. |
| `GraphModel.Graph.DestroyOutputs` | src/armnn/Layer.hpp:115-127 | No edge out of the layer is left; edges that do not touch it stay, in order. |
| `GraphModel.Graph.DestroyInputs` | src/armnn/Layer.hpp:199-217 | No edge into the layer is left; edges that do not touch it stay, in order. |
| `LayerEdits.IdsSize` | src/armnn/Graph.hpp:187-188 | The sizes of the id sets are the numbers of Inputs and Outputs in the list. |
| `Ordering.Sections` | src/armnn/Graph.hpp:65-95 | In a partitioned list the first GetNumInputs layers are exactly the Inputs and the last GetNumOutputs exactly the Outputs. |
| `GraphModel.Graph.GetPriority` | src/armnn/Layer.cpp:341-389 | Ends on every graph, cyclic ones too; on success an Input has priority 0, an Output 2^32-1, and any other layer one more than the largest of its parents' priorities; known priorities never change; a failure means a cycle or too many layers. |
| `GraphModel.Graph.Visit` | src/armnn/Layer.cpp:354-386 | The memoised visit of a middle layer; meeting a layer under visit again exhibits a cycle. |
| `GraphModel.Graph.LargestParent` | src/armnn/Layer.cpp:361-378 | The accumulated maximum over the connected input slots. |
| `GraphModel.Graph.ResetPriorities` | src/armnn/Layer.cpp:335-339 | No layer has a priority or a visiting mark. |
| `GraphModel.Graph.SortByPriority` | src/armnn/Graph.cpp:315-321 | A stable sort by priorities that are computed while comparing; fails only on a cycle or too many layers, and then leaves the layers in some order. |
| `GraphModel.Graph.TopologicalSort` | src/armnn/Graph.cpp:306-327 | For an out-of-order list of 2 to 2^32-2 layers it succeeds exactly when the graph is acyclic, and then the list is a stable permutation with every edge forward, Inputs first and Outputs last, in which layers of equal priority, and the Inputs and the Outputs among themselves, keep their relative order; when it fails the flag stays down and the list has the same layers in an order that is left open. Lists in order are left alone. |
| `Priorities.TiesKept` | src/armnn/Graph.cpp:315-321 | In a stably sorted list two layers of equal priority, two Inputs or two Outputs stand as they stood before. |
| `Priorities.SortSucceeded` | src/armnn/Graph.cpp:306-327 | A finished sort shows that the graph is acyclic and leaves the list sorted and partitioned. |
| `Priorities.SortFailed` | src/armnn/Layer.cpp:356-359 | An aborted walk shows that the graph has a cycle, so that no order exists. |
| `Priorities.PathAtMostPriority` | src/armnn/Layer.cpp:376-385 | No path of middle layers into a layer is longer than its priority. |
| `Priorities.LongestPath` | src/armnn/Layer.cpp:376-385 | Some path of middle layers is as long: the priority is the longest-path depth. |
| `Priorities.PriorityAtMost` | src/armnn/Layer.cpp:380-385 | Priorities do not exceed the number of layers, so the largest value is free for the Outputs. |
| `Evaluation.SolutionUnique` | src/armnn/Graph.cpp:306-327 | An acyclic graph has at most one assignment of values to its output slots. |
| `Evaluation.SolutionExistsOn` | src/armnn/Graph.cpp:306-327 | For any values outside a set of layers the layers inside have values; with the whole graph as the set, the meaning exists. |
| `Rewrites.SplicingKeepsMeaning` | src/armnn/Layer.cpp:48-73 | Splicing layers that pass their input on into edges leaves what every old layer receives, whatever the layers compute. |
| `Rewrites.SplicingKeepsAcyclic` | src/armnn/Layer.cpp:48-73 | Splicing keeps a graph acyclic. |
| `Compatibility.AddCompatibilityLayers` | src/armnn/Graph.cpp:329-458 | Between layers that are neither MemCopy nor MemImport, each edge with CopyToTarget runs through a new MemCopy layer and each with ExportToTarget through a new MemImport layer, on the reader's backend and with both halves DirectCompatibility; no such edge is left afterwards. Every other edge keeps source and strategy; every new layer serves such an edge; a sorted list stays sorted. |
| `Compatibility.BridgeEdge` | src/armnn/Graph.cpp:388-452 | One such edge: the layer goes in and both halves are marked, the first one by its new index. |
| `Compatibility.BridgeSlot` | src/armnn/Graph.cpp:363-455 | One output slot: exactly the edges of its copied connection list that need a layer get one. |
| `Compatibility.ConnectionsAreOld` | src/armnn/Graph.cpp:363-367 | As long as no edge out of a slot is done, its connections and strategies are those the walk started with. |
| `Compatibility.CompatibilityKeepsMeaning` | src/armnn/Graph.cpp:329-458 | The same value reaches every layer, Outputs included, and the graph stays acyclic. |
| `NetworkUtils.InsertDebugLayerAfter` | src/armnn/NetworkUtils.cpp:112-142 | Each output slot of the layer has one layer of kind Debug on CpuRef as its only reader, which has its readers, in order; nothing else changes; a sorted list stays sorted. |
| `NetworkUtils.DebugKeepsMeaning` | src/armnn/NetworkUtils.cpp:112-142 | Every slot carries and every layer receives what it did; each Debug layer receives the watched slot's value; the graph stays acyclic. |
| `Conversions.InsertConvertFp16ToFp32LayersBefore` | src/armnn/NetworkUtils.cpp:38-77 | With the flag, exactly the input slots that read a Float16 slot, and without it all of them, read a new layer of kind ConvertUp, of type Float32, that reads what they read; all others read what they read, with their strategies. Afterwards no input slot of the layer reads a slot of type Float16; a sorted list stays sorted. |
| `Conversions.InsertConvertFp32ToFp16LayersAfter` | src/armnn/NetworkUtils.cpp:79-110 | Exactly the output slots of type Float16 or Float32 become Float32 and have a new layer of kind ConvertDown, of type Float16, as their only reader, which has their readers, in order; any other slot keeps readers and type; a sorted list stays sorted. |
| `Conversions.ChangeOutputFp16ToFp32` | src/armnn/NetworkUtils.cpp:19-34 | The 16-bit output slots of the layer become 32-bit ones, no other slot changes its type. |
| `Conversions.ConversionsKeepMeaning` | src/armnn/NetworkUtils.cpp:38-110 | Every layer of kind ConvertUp raises and every one of kind ConvertDown lowers. If the layer computes, on raised inputs and up to lowering its outputs, what it did, every other layer carries and receives the same values and the graph stays acyclic. |
| `Subgraphs.SubstituteSubgraph` | src/armnn/Graph.cpp:472-492 | Fails if a connection of a boundary input finds the new input slot taken; otherwise new inputs read what the old ones read, readers of old outputs read the new ones, old layers and their edges are gone, other edges and tensor infos stay. If a layer joins or the flag was down, the sort succeeds exactly when the result is acyclic. If not, the list is the old one without the old layers, and from a sorted list it is sorted if and only if the substitute already stood in the right place. |
| `Subgraphs.Reparent` | src/armnn/Graph.hpp:319-325 | The layer joins the end of the list and the list counts as out of order; no binding id is registered, so the graph stays valid if and only if the layer is neither an Input nor an Output. |
| `Subgraphs.MoveInputs` | src/armnn/Graph.cpp:518-549 | Step 1: each connected boundary input hands its connection and its own tensor info to the new slot; succeeds exactly when these slots are free. |
| `Subgraphs.MoveOutputs` | src/armnn/Graph.cpp:551-564 | Step 2: the readers of each old output read the new one, behind its own, in order. |
| `Subgraphs.EraseSubgraphLayers` | src/armnn/Graph.cpp:566-575 | Exactly the layers of the subgraph and the edges that touch them are gone; the list is the old one without them, and what is left of every connection list keeps its order. |
| `Substitution.SubstitutedInSteps` | src/armnn/Graph.cpp:494-575 | The three steps together make the boundary rewiring, for any view. |
| `Substitution.SubstitutionKeepsMeaning` | src/armnn/Graph.cpp:472-575 | If fed alike both regions put out the same, every value outside is unchanged in the substituted graph when it is acyclic. |
| `Substitution.SubstituteKeepsMeaning` | src/armnn/Graph.cpp:472-575 | The same seen from the graph before the new layers joined: every remaining layer, Outputs included, receives what it received. |
| `Substitution.SingleLayersAlike` | src/armnn/Graph.cpp:460-470 | Replacing a layer by one that computes the same meets the condition on the two regions. |
| `SubstitutionOrder.SubstitutionKeepsOrderExactly` | src/armnn/Graph.cpp:472-490 | When nothing is sorted: the list is sorted afterwards if and only if every layer that will feed a new input slot stands before it, and every new output slot before the remaining readers of the old one. |
| `SubstitutionOrder.LooseSubstituteKeepsOrderExactly` | src/armnn/Graph.cpp:472-490 | The same for a view of the whole boundary and a substitute without edges to the rest, in terms of the edges before the call. |
| `SubstitutionOrder.LateSuits` | src/armnn/Graph.cpp:472-490 | A sorted graph, a view and a substitute in the graph that meet everything asked of the caller ... |
| `SubstitutionOrder.SubstitutionBreaksOrder` | src/armnn/Graph.cpp:472-490 | ... and for which every result the contract allows is acyclic but out of order. |
| `Optimizer.IsOutputUnconnected` | src/armnn/Layer.hpp:270-280 | The layer has output slots and none of them has a reader. |
| `Optimizer.Pass` | src/armnn/Optimizer.cpp:19-61 | With optimizations that change nothing: succeeds exactly on acyclic graphs and leaves exactly the layers from which a layer without output slots can be reached, all edges among them with their strategies, and a sorted list; on a cycle only the order of the list may change. |
| `Optimizer.RunAll` | src/armnn/Optimizer.cpp:31-58 | The inner loop at one layer, left as soon as the layer is erased; erased are exactly layers that reach no layer without output slots. |
| `Optimizer.SeenLive` | src/armnn/Optimizer.cpp:31-46 | In the reverse walk a layer has a reader left exactly when a layer without output slots can be reached from it. |
| `Optimizer.PruningKeepsMeaning` | src/armnn/Optimizer.cpp:19-61 | What remains carries and receives the same values, and every layer without output slots, each Output among them, remains. |
| `ReadInputs.PrunedHasReader` | src/armnn/Optimizer.cpp:19-61 | After the walk every layer that has output slots is read by some layer. |
| `ReadInputs.CompatibilityKeepsInputsRead` | src/armnn/Graph.cpp:329-458 | Compatibility layers leave every Input with a reader. |
| `Optimizing.DebugPass` | src/armnn/optimizations/AddDebug.hpp:19-27 | The debug optimization over the whole graph: afterwards every output slot, except those of Debug layers, is read by one Debug layer and nobody else; no other layer is lost, every Output receives what it did, the list stays sorted. |
| `Optimizing.UnreadIsDebug` | src/armnn/Optimizer.cpp:35-41 | What this pass erases are Debug layers only. |
| `Optimizing.SelectStrategies` | src/armnn/Network.cpp:1812-1880 | Every edge gets the strategy weighed for it; it is an error exactly if one has none. No edge moves. |
| `Optimizing.ImportsExactly` | src/armnn/Graph.cpp:388-395 | Compatibility layers bring MemImport layers into a graph without them if and only if some edge between layers other than MemCopy and MemImport is to be exported. |
| `Optimizing.FinishOptimizing` | src/armnn/Network.cpp:2052-2104 | The last pass, the debug pass, the strategies and the compatibility layers in one run: fails exactly on a cycle or on an edge without strategy; every Output returns what it did, no edge is left that asks for a copy or an export, the list is sorted and every Input is read. |
| `Copying.Copy` | src/armnn/Graph.cpp:27-66 | The copy has the same layers under new names, every edge, every connection list in the same order, the tensor infos set on connected input slots and no strategies; its list is partitioned, and sorted if its flag is up, which is so exactly if the original's is and it has Inputs and Outputs alone. |
| `Copying.Clone` | src/armnn/Graph.cpp:35-39 | Cloning adds one layer with the same data; the binding id is never taken. |
| `Copying.CopyConnection` | src/armnn/Graph.cpp:47-61 | One connection, after those before it in the list; Connect does not fail. |
| `Copying.StillFree` | src/armnn/Graph.cpp:47-61 | The next input slot of the copy is still unconnected. |
| `Copying.CopyKeepsMeaning` | src/armnn/Graph.cpp:27-66 | If cloned layers compute what the originals compute, the copy means what the original means. |
| `Buffers.Trace` | src/armnn/Graph.cpp:216-226 | The loop up the parents ends at a handle without a parent: the root. |
| `Buffers.AllocateDynamicBuffers` | src/armnn/Graph.cpp:207-304 | All counters end at zero; a handle behind a Constant is allocated once, before the walk, and gets no other call. Any other handle, however many slots carry it, gets one Manage, when its first slot is visited, and one Allocate, at the last use of any of its slots, if it has one lifetime, and more than two calls if not. |
| `Buffers.PreallocateConstants` | src/armnn/Graph.cpp:236-252 | Exactly the root handles of Constant slots are allocated up front, each once. |
| `Buffers.OutputVisited` | src/armnn/Graph.cpp:257-280 | Visiting an output slot keeps every counter equal to the number of edges out of visited producers that are not consumed. |
| `Buffers.InputVisited` | src/armnn/Graph.cpp:284-299 | Consuming an edge finds its counter present and not zero, and keeps that equality. |
| `Buffers.NoUnderflow` | src/armnn/Graph.cpp:291 | The counter that is about to be decremented exists and is not zero. |
| `Buffers.CounterBound` | src/armnn/Graph.cpp:262-277 | No counter exceeds the number of edges. |
| `Lifetimes.OnceExactly` | src/armnn/Graph.cpp:254-300 | The calls for a handle are one Manage followed by one Allocate if and only if nobody reads its slots, or every slot but the first finds, when it is visited, a reader of an earlier slot still to come. |
| `Lifetimes.HistoryProduced` | src/armnn/Graph.cpp:257-280 | Visiting one more slot that carries the handle, whether its counter is there or not, keeps the account of the calls made so far. |
| `Lifetimes.HistoryConsumed` | src/armnn/Graph.cpp:284-299 | Visiting a reader keeps it too; the handle is allocated exactly when no reader of its visited slots is left. |
| `Lifetimes.UnbrokenNext` | src/armnn/Graph.cpp:257-280 | A new slot continues the lifetime exactly if a reader is still waiting. |
| `Lifetimes.AloneOnce` | src/armnn/Graph.cpp:254-300 | A handle that a single slot carries is always managed once and allocated once. |
| `Lifetimes.UnreadFirst` | src/armnn/Graph.cpp:262-272 | A shared handle whose first slot has no reader but another one does is allocated at least twice, or managed twice. |
| `Buffers.SecondReadIsSorted` | src/armnn/Graph.cpp:262-298 | The graph of the example below is valid and sorted. |
| `Buffers.AllocatedTwice` | src/armnn/Graph.cpp:262-298 | If both output slots of a layer were in one tensor, and an Output read only the second, the calls would be Manage, Allocate, Allocate; no layer makes handles that way, see the next rows. |
| `Sharing.SharedIsUnbroken` | src/armnn/layers/ConcatLayer.cpp:115-141 | Slots that share a tensor because outputs of a Splitter are parts of what it reads, or because inputs of a Concat that nobody else reads are parts of its output, in any nesting, keep it in use from the first to the last of them. |
| `Sharing.RulesGiveOneLifetime` | src/armnn/layers/SplitterLayer.cpp:126-145 | So every tensor shared by these two rules, the only ones that make sub-tensors, has one lifetime ... |
| `Sharing.SharedOnce` | src/armnn/Graph.cpp:207-304 | ... and AllocateDynamicBuffers manages it once and allocates it once, unless it was allocated up front. |
| `Sharing.RulesDescend` | src/armnn/Graph.cpp:216-226 | Following the parents of handles made by these rules ends. |
| `MemoryProfile.CreateMemoryProfile` | src/armnn/LoadedNetwork.cpp:2236-2349 | Exactly one block for every output slot of a layer other than a Constant or imported Input, unless it is exported to its only reader, an Output, and no others. It starts at the number of layers listed before the slot's layer that take part (no Constants, imported Inputs or Outputs exported to as sole reader) and ends at that number for the reader listed last, or at the start if there is no reader; its index is the number of slots that get an index before it, its size is rounded up to 4 bytes, its backend is the layer's. |
| `MemoryProfile.StepIsCount` | src/armnn/LoadedNetwork.cpp:2264-2347 | The timestep at a position is the number of positions before it whose layers take part. |
| `MemoryProfile.BlocksAreRight` | src/armnn/LoadedNetwork.cpp:2236-2349 | How the account of blocks in terms of timesteps gives the statement in terms of positions. |
| `MemoryProfile.ProducedOK` | src/armnn/LoadedNetwork.cpp:2290-2317 | Giving a slot the next index keeps the account of all slots seen: one finished block of the exact interval for each whose readers have been visited, a tracker entry with the number of missing readers for each other. |
| `MemoryProfile.ConsumedOK` | src/armnn/LoadedNetwork.cpp:2331-2345 | Visiting a reader keeps it: the tracked lifetime is the number of missing readers, and the block is finished, ending at the last reader, exactly when none is missing. |
| `MemoryProfile.LookupNeverMisses` | src/armnn/LoadedNetwork.cpp:2333 | The tracker has an entry with a positive lifetime for the source of every edge that is looked up. |
| `MemoryProfile.LastReader` | src/armnn/LoadedNetwork.cpp:2338-2345 | The step at which the lifetime reaches zero is the largest among all readers. |
| `MemoryProfile.OnlyExportedWait` | src/armnn/LoadedNetwork.cpp:2272-2277 | The only slots still waiting at the end are those whose single reader is an Output that is exported to. |
| `SharedMemory.BlocksGiveLayout` | src/armnn/LoadedNetwork.cpp:2498-2539 | If blocks whose closed intervals overlap have disjoint bytes, so have slots whose lifetimes overlap. |
| `SharedMemory.PreparedHolds` | src/armnn/LoadedNetwork.cpp:1857-1861 | A safe list leaves every input that is read in place. |
| `SharedMemory.SharingSafeExactly` | src/armnn/LoadedNetwork.cpp:1857-1861 | All inputs that are read survive the copying for every placement and all values if and only if no unread Input is given after a later Input that is read. |
| `SharedMemory.UnsafeSpoils` | src/armnn/LoadedNetwork.cpp:1857-1861 | For any other list, which takes an Input that nobody reads, a placement and values that spoil an input. In the code such a network fails earlier, in the constructor of WorkingMemHandle. |
| `ReadInputs.ReadInputsAreSafe` | src/armnn/LoadedNetwork.cpp:1857-1861 | If every Input is read, as after Optimize, every user list is safe. |
| `SharedMemory.WriteKeeps` | src/armnn/LoadedNetwork.cpp:2249-2348 | What a layer writes is disjoint from every value still needed, the inputs of the same layer included. |
| `Loading.Allocate` | src/armnn/WorkingMemHandle.cpp:100-125 | The k-th managed handle gets the k-th memory, and nothing else gets any. |
| `Loading.AllocatedPlaces` | src/armnn/WorkingMemHandle.cpp:109-112 | If blocks and managed handles follow the same rule, every slot thereby gets the place of its own block, so that overlapping lifetimes have disjoint bytes. |
| `Loading.Load` | src/armnn/LoadedNetwork.cpp:1963-2224 | Queue, descriptors, tables and memory of a working memory for a network that meets the conditions below. |
| `Running.DescriptorFits` | src/armnn/LoadedNetwork.cpp:1910-1921 | Descriptor i, which workload i runs on, holds handles for the slots that the layer of workload i reads, and those of its own slots. |
| `Running.ReadAlike` | src/armnn/LoadedNetwork.cpp:1864-1876 | Reading through the handle of an imported tensor gives what the slot it stands in for would give if the tensor were its memory. |
| `Running.RunWorkload` | src/armnn/LoadedNetwork.cpp:1919 | A workload reads through its descriptor what it would read from memory of its own, also between its own writes; its inputs are intact until its last write, and what is needed later survives. |
| `Running.RunQueue` | src/armnn/LoadedNetwork.cpp:1908-1927 | After all workloads, in the order of the queue, everything an Output reads is in place. |
| `Execution.Validate` | src/armnn/WorkingMemHandle.cpp:145-204 | Exactly lists of different known ids pass. |
| `Execution.OrderListsInputs` | src/armnn/LoadedNetwork.cpp:1749-1797 | As many different known ids as there are Inputs list every Input once. |
| `Execution.EveryOutputGiven` | src/armnn/LoadedNetwork.cpp:1749-1797 | The same for the Outputs. |
| `Execution.PrepareInputs` | src/armnn/LoadedNetwork.cpp:1857-1861 | Each input tensor is copied to the handle that the table has for its binding id, which is its Input's, in the order of the caller's list. |
| `Execution.SwapImports` | src/armnn/LoadedNetwork.cpp:1863-1875 | With the imported tensors swapped in, every place where a slot is read holds the tensor imported for it, or the slot's own handle if there is none. |
| `Execution.InputsStand` | src/armnn/LoadedNetwork.cpp:1855-1876 | Copied or imported, everything that is read of the Inputs is there, whatever the order of the lists. |
| `Execution.ImportOutputs` | src/armnn/LoadedNetwork.cpp:1879-1885 | With export, each output handle gets the memory of the tensor given last for it; the others keep their places. |
| `Execution.CollectOutputs` | src/armnn/LoadedNetwork.cpp:1941-1954 | Output tensors are filled from the handles that the table has for their binding ids, or hold what was written to them if they were imported last. |
| `Execution.Execute` | src/armnn/LoadedNetwork.cpp:1741-1959 | Accepts exactly calls that give every Input, by a tensor or by an import that can be used, and every Output once. Then every Output gets the value the network means, whatever the order of the lists, the placement of the blocks and the contents of the memory before; with export that is so for the last of several Outputs that read one slot, and the others get nothing. The descriptors hold afterwards what they held before. |
| `LoadedNetwork.EnsureOrder` | src/armnn/LoadedNetwork.cpp:235-237 | Sorting happens whatever the flag said; it succeeds exactly on acyclic graphs and leaves the list sorted. |
| `LoadedNetwork.BuildQueue` | src/armnn/LoadedNetwork.cpp:370-432 | The workload of a layer sits at the layer's position minus the number of Inputs. |
| `LoadedNetwork.BuildInputPairs` | src/armnn/LoadedNetwork.cpp:440-459 | The entry of an Input lists the workload slots of its readers, in order. |
| `LoadedNetwork.BuildOutputPairs` | src/armnn/LoadedNetwork.cpp:482-514 | The entry of an Output names the workload slot that produces its value and those of the other readers; for an Output that reads an Input nothing is filled in. |
| `LoadedNetwork.ConsumersInOrder` | src/armnn/LoadedNetwork.cpp:482-514 | The other readers of a slot are listed in the order of its connections. |
| `LoadedNetwork.OwnCellsExactly` | src/armnn/LoadedNetwork.cpp:482-514 | The cell switched for each Output is that of the slot it reads, and no other Output's, if and only if no Output reads an Input and no two read the same slot. |
| `LoadedNetwork.OutputCells` | src/armnn/LoadedNetwork.cpp:488-514 | The slot index found by comparing connection lists is the true one, for every slot that an Output reads. |
| `LoadedNetwork.WorkloadFound` | src/armnn/LoadedNetwork.cpp:448-459 | The computed index lies inside the queue and finds the layer's own workload. |
| `LoadedNetwork.MakePlan` | src/armnn/LoadedNetwork.cpp:370-530 | For every sorted graph without unconnected inputs the queue and the tables are right. |
| `LoadedNetwork.CreateWorkloads` | src/armnn/Layer.cpp:255-285 | Input slot c of workload w holds the handle of the slot that the layer at that place of the queue reads there, and output slot j its own. |
| `LoadedNetwork.Network.constructor` | src/armnn/LoadedNetwork.cpp:370-430 | Nothing is imported and every workload slot holds the graph's own handle; the workloads are created for the queue. |
| `LoadedNetwork.Network.EnqueueWorkload` | src/armnn/LoadedNetwork.cpp:851-1004 | Succeeds exactly if the numbers of inputs and outputs fit and every Input and Output that is not picked has a tensor; then all ids of imported inputs are distinct, in range and picked. After any call, failing ones included, a workload slot on an Input's slot holds the pre-imported handle of that Input if it is marked imported, one on a slot that an Output reads the pre-imported handle of that Output if it is, and all others the graph's own. |
| `LoadedNetwork.ConsistentExactly` | src/armnn/LoadedNetwork.cpp:851-1004 | The invariant kept over calls, stated by ties between slots and inputs or outputs, is exactly that statement about the slots. |
| `LoadedNetwork.SwitchInput` | src/armnn/LoadedNetwork.cpp:889-918 | Swapping the handles of one input in or out touches exactly the slots tied to it. |
| `LoadedNetwork.SwitchOutput` | src/armnn/LoadedNetwork.cpp:940-996 | Swapping the handles of one output in or out touches exactly the slots tied to it. |
| `LoadedNetwork.WalkInputs` | src/armnn/LoadedNetwork.cpp:881-922 | Finishes exactly if every Input that is not picked has a tensor, and marks exactly the ids up to the first repetition in the sorted list. |
| `LoadedNetwork.WalkOutputs` | src/armnn/LoadedNetwork.cpp:936-1002 | The same for the outputs. |
| `LoadedNetwork.DistinctIdsPicked` | src/armnn/LoadedNetwork.cpp:884-911 | Distinct ids in range are picked, and no others. |
| `LoadedNetwork.IdsPickedExactly` | src/armnn/LoadedNetwork.cpp:884-911 | In general the walk over the sorted ids picks an id exactly when no smaller id is given twice. |
| `LoadedNetwork.AllIdsUsed` | src/armnn/LoadedNetwork.cpp:875-922 | Because binding ids differ, a repeated or unknown id among the imported inputs leaves an Input without a tensor: a call that gets through has picked all its ids. |
| `LoadedNetwork.RepeatedIdDropsOthers` | src/armnn/LoadedNetwork.cpp:936-946 | The failing input for outputs: of the ids 0, 0, 1 only 0 is picked. |
| `WorkingMemHandle.BuildQueue` | src/armnn/LoadedNetwork.cpp:378-430 | The queue of an asynchronous network has exactly the layers that are neither Inputs nor Outputs nor Constants, in list order. |
| `WorkingMemHandle.CreateWorkingMemHandle` | src/armnn/LoadedNetwork.cpp:2008-2186 | Execution data is for exactly the layers that are neither Inputs nor Constants nor MemImports, in list order. A slot's handle is managed according to the number of connections to Outputs from its layer's slots up to it: with none unless the layer's values are imported, with one unless outputs are exported, with more always; the handles are in list order. |
| `WorkingMemHandle.OutputsUpToIsSize` | src/armnn/LoadedNetwork.cpp:2040-2062 | What the loop counts over the slots of a layer is the number of connections from those slots to Outputs. |
| `WorkingMemHandle.AgreeExactly` | src/armnn/LoadedNetwork.cpp:2008-2186 | Execution data i belongs to workload i, for all workloads, if and only if the network has no MemImport layer. |
| `WorkingMemHandle.WorkloadsMatchData` | src/armnn/LoadedNetwork.cpp:2172-2184 | The same for the queue the constructor builds and the execution data CreateWorkingMemHandle lists, on any sorted graph. |
| `WorkingMemHandle.ImportShiftsData` | src/armnn/LoadedNetwork.cpp:2172-2184 | The failing input: Input, MemImport, Output, where the workload gets the Output's data. |
| `WorkingMemHandle.ImportedIsSorted` | src/armnn/LoadedNetwork.cpp:2172-2184 | That graph is valid and sorted. |
| `TensorMemory.SameSlotsExactly` | src/armnn/LoadedNetwork.cpp:2189-2197 | The k-th tensor memory by slot id and the k-th managed handle belong to the same output slot, for all k, if and only if every slot has a block exactly when its handle is managed. |
| `TensorMemory.SameSlots` | src/armnn/LoadedNetwork.cpp:2189-2197 | That is so without import and export. |
| `TensorMemory.RulesMatchExactly` | src/armnn/LoadedNetwork.cpp:2012-2062 | The same condition in options and readers. Let n be the number of connections to Outputs from the slots of the layer up to this one: for an imported Input n = 0, or n = 1 and outputs are exported too; for an imported MemImport n > 0; with export, for any slot but an imported Input's, if n > 0 then n = 1 exactly if the only reader of the slot is an Output. |
| `TensorMemory.SharedOutputDisagrees` | src/armnn/LoadedNetwork.cpp:2040-2062 | With export it is not so for any slot read by an Output and by something else, if no slot before it leads to an Output. |
| `Connections.Collect` | src/armnn/LoadedNetwork.cpp:2006-2186 | For every slot the coordinates of its readers, in the order of the walk, and the binding ids of the Outputs among them; every descriptor slot holds the handle of the slot it reads or writes. |
| `Connections.CoordsDiffer` | src/armnn/LoadedNetwork.cpp:2172-2184 | Without MemImport layers different input slots have different coordinates. |
| `Connections.InputSharesCoord` | src/armnn/LoadedNetwork.cpp:2081-2085 | The slot of an Input has the output coordinates of the first slot of the next executed layer. |
| `BindingTables.TableInputs` | src/armnn/WorkingMemHandle.cpp:39-61 | The table of an Input lists the places of all its readers, and they all hold its handle; it takes a reader to find that handle. No other binding is tabled. |
| `BindingTables.TableOutputs` | src/armnn/WorkingMemHandle.cpp:62-95 | Fails exactly if for some Output no descriptor has an output at the place where its handle is looked for; otherwise each Output has the handle found there. Places are listed for an Output exactly if no other Output reads its slot, and they are those of the slot's readers, of a Constant's slot those of the Output alone. |
| `BindingTables.AloneExactly` | src/armnn/LoadedNetwork.cpp:2116-2165 | A slot has collected a single binding exactly if a single Output reads it. |
| `BindingTables.OutputsRightExactly` | src/armnn/WorkingMemHandle.cpp:64-73 | The table is made and has for every Output the handle of the slot it reads if and only if every Output reads a layer with a descriptor, neither an Input nor a Constant. |
| `BindingTables.FoundExactly` | src/armnn/WorkingMemHandle.cpp:68-72 | For one slot: its own handle is found if and only if its layer has a descriptor. |
| `BindingTables.FoundForInput` | src/armnn/LoadedNetwork.cpp:2081-2085 | What an Output gets that reads an Input: the first output of the next layer with a descriptor; the lookup fails if that layer has no output. |
| `BindingTables.FoundForConstant` | src/armnn/LoadedNetwork.cpp:2120-2131 | What an Output gets that reads a Constant: the first output of the first layer with a descriptor; the lookup fails if that layer has none. |
| `BindingTables.TiedExactly` | src/armnn/WorkingMemHandle.cpp:79-95 | All places listed for Outputs hold the handle found for them if and only if every Output that is alone on its slot reads a layer with a descriptor. |
| `BindingTables.ForkedIsSorted` | src/armnn/LoadedNetwork.cpp:2081-2085 | The failing input: an Input read by a layer and by an Output, and a second Output that reads the layer. The graph is valid and sorted ... |
| `BindingTables.ForkedIsAccepted` | src/armnn/LoadedNetwork.cpp:2006-2186 | ... it is connected, its Input is read, it has no MemImport layer and its binding ids differ ... |
| `BindingTables.ForkedTabledWrong` | src/armnn/WorkingMemHandle.cpp:68-72 | ... and the Output on the Input is tabled with the handle of the layer. |
| `AsyncExecution.Imports.Import` | src/armnn/LoadedNetwork.cpp:1498-1569 | Fails exactly if some tensor has an unknown binding id or is not importable; every tensor imported is known and importable and gets the next id, which is the length of the list; a refused one stops the loop and what was imported before stays. |
| `AsyncExecution.Imports.Clear` | src/armnn/LoadedNetwork.cpp:1699-1718 | Succeeds exactly when all ids are known, not cleared before and distinct. Otherwise exactly the ids before the first bad one are cleared, and the call ends in an access past the end of the list exactly if that id is the length of the list. |
| `AsyncExecution.Imports.Validate` | src/armnn/LoadedNetwork.cpp:2541-2557 | An issued id resolves to its own binding until it is cleared and never again after; no other id resolves. |
| `AsyncExecution.WorkingMemory.constructor` | src/armnn/WorkingMemHandle.cpp:18-98 | The tables built from the collected coordinates are those of the graph; every place listed for a binding holds the binding's own handle if and only if every Output that is alone on its slot reads a layer with a descriptor. |
| `AsyncExecution.WorkingMemory.Execute` | src/armnn/LoadedNetwork.cpp:1799-1956 | Inside the workload loop the cells tied to the given ids hold the imported handles; afterwards, however the loop ends, every cell holds what it held before. |
| `AsyncExecution.NoImportWritten` | src/armnn/WorkingMemHandle.cpp:79-95 | The places listed for an Output are inputs of descriptors; the outputs of all descriptors stay the network's own handles, so that no workload writes to a tensor imported for an Output ... |
| `AsyncExecution.ImportReadInstead` | src/armnn/WorkingMemHandle.cpp:79-95 | ... but every other layer that reads the same slot reads that tensor during the execution. |
| `AsyncExecution.WorkingMemory.RunSwapped` | src/armnn/LoadedNetwork.cpp:1863-1953 | The handlers of the loop and the end of the execution reset every swapped cell. |
| `AsyncExecution.SwapIn` | src/armnn/LoadedNetwork.cpp:1864-1903 | Each list of cells gets its handle, later ones winning; no other cell changes. |
| `AsyncExecution.Reset` | src/armnn/LoadedNetwork.cpp:1799-1826 | Whatever was swapped, all cells are as they were. |
| `Callbacks.AsyncCallbackManager.GetNewCallback` | src/armnn/AsyncExecutionCallback.cpp:48-60 | The id is new and the callback waits under it. |
| `Callbacks.AsyncCallbackManager.Notify` | src/armnn/AsyncExecutionCallback.cpp:16-32 | The callback joins the end of the queue, however often it has been notified. |
| `Callbacks.AsyncCallbackManager.GetNotifiedCallback` | src/armnn/AsyncExecutionCallback.cpp:62-75 | Takes the longest waiting notification; the lookup succeeds exactly if it is the callback's first, and then returns that callback. |
| `Callbacks.HandedOutInOrder` | src/armnn/AsyncExecutionCallback.cpp:62-75 | After any interleaving: no callback is handed out twice, those handed out are the notified ones in the order of their first notification, and those missing are in the queue. |
| `Callbacks.TakeAccounted` | src/armnn/AsyncExecutionCallback.cpp:70-74 | The id at the front of the queue is in the map exactly if it has not been taken before. |
| `Callbacks.LookupsSucceedExactly` | src/armnn/AsyncExecutionCallback.cpp:70-74 | No lookup of a run fails if and only if no callback is notified twice. |
| `Concatenation.OriginsDescriptor.SetViewOriginCoord` | src/armnn/Descriptors.cpp:167-184 | Exactly one coordinate changes, or none when view or coordinate is out of range. |
| `Concatenation.CreateDescriptorForConcatenation` | include/armnn/Descriptors.hpp:299-368 | Succeeds exactly on two or more inputs alike in all other dimensions; each view starts where the sizes before it add up to, in unsigned arithmetic, and at 0 in the other dimensions. |
| `Concatenation.ViewsTile` | include/armnn/Descriptors.hpp:344-365 | If the sizes along the axis add up to less than 2^32, a coordinate is in the output exactly when it is in a view, and it is in one view only. |
| `DataLayout.GetIndexIsPosition` | include/armnnUtils/DataLayoutIndexed.hpp:52-72 | Without wrap-around for fewer than 2^32 elements, GetIndex is the position of the element in the order of the layout. |
| `DataLayout.IndexFormula` | include/armnnUtils/DataLayoutIndexed.hpp:52-72 | For both layouts and all sizes the index written out, modulo 2^32. |
| `DataLayout.IndexIsInjective` | include/armnnUtils/DataLayoutIndexed.hpp:28-73 | Indices lie below the number of elements and different elements have different indices. |
| `DataLayout.IndexIsSurjective` | include/armnnUtils/DataLayoutIndexed.hpp:28-73 | Every number below the number of elements is the index of an element. |
| `DataLayout.WidthNotTested` | include/armnnUtils/DataLayoutIndexed.hpp:32-51 | For every shape GetIndex refuses exactly the coordinates outside if and only if one of the tests it makes fails, or no dimension but perhaps the width is empty and the width is in range. |
| `DataLayout.EmptyTensorAccepted` | include/armnnUtils/DataLayoutIndexed.hpp:32-46 | In a tensor without elements, index 0 is accepted in an empty dimension. |
| `DataLayout.WidthPastTheEnd` | include/armnnUtils/DataLayoutIndexed.hpp:47-51 | A width one past the end is accepted and has the index of the next row's first element. |

## Left out

- Slots and layers as separate heap objects: the class `Graph` keeps them in maps and sequences keyed by layer and slot index, so the model does not capture pointer aliasing between objects or the order of destruction inside one layer. `Buffers`, `MemoryProfile` and `WorkingMemHandle` work on a snapshot of the graph because the code they model only reads it.
- The stack of a failed run: C++ exceptions are results; after an error only what the contracts state is known.
- The tensor info of output slots apart from their data type, shape inference and validation, tensor handle factories, layer names, observables, profiling and logging.
- Conversions.InsertConvertFp16ToFp32LayersBefore: without the flag it asks that every input slot is connected, since the code reads the type of the missing source otherwise. Data types are those of output slots; what a conversion does to a value is a parameter of `Conversions.ConversionsKeepMeaning`.
- Optimizer.Pass: is stated for optimizations that change nothing, so that what remains is the pass's own effect; and for fewer than 2^32-1 layers, a flag that is only up on a sorted list, and no self-loop in a list of a single layer, which the sort would not look at.
- Optimizer.RunAll: the same; the debug optimization is in `Optimizing.DebugPass`, all others change the graph by the operations above.
- Optimizing.FinishOptimizing: the strategy of each edge is a parameter, what weighing the tensor handle factories comes to; if it fails, the code returns no network. With debug layers it asks that no edge has a strategy yet, as in the code, where they are chosen later.
- SubgraphView and its selector: a view is a record of its layers and boundary slots. The statements about values ask that edges leave a view only through its outputs, that its inputs are fed from outside and that the substitute has no edge to the rest yet; the statement about edges needs none of this.
- Subgraphs.SubstituteSubgraph: asks that no new boundary slot is among the old ones, and that layers which join are neither Inputs nor Outputs, because reparenting does not register binding ids. They bring the edges among themselves and have no others.
- InsertNewLayer for Inputs, Outputs and Constants, which ignores the requested position.
- GraphModel.Graph.InsertNewLayerBefore: for middle layers other than Constants. The new layer has one output and, if the slot is connected, one input, which InputSlot::Insert asserts (src/armnn/Layer.cpp:50-60).
- The strategies that place blocks: any placement that gives overlapping closed intervals disjoint bytes is allowed; the bins and offsets of one backend are addresses in one space, and the blocks of all backends are kept in one list that carries the backend.
- SharedMemory.UnsafeSpoils: is about copying the inputs alone; the network it takes does not get past the constructor of WorkingMemHandle.
- Execution.Execute: asks the four conditions above, that every input slot is connected, that every value has the size of its slot and that the values of Constants are in place; kernels run one after the other, as in the queue, write one output at a time and do not fail; tensors have the size of their slots, and importing a tensor into a handle succeeds. Values of Constants, imported inputs and exported outputs live outside the shared memory. Tensors may have been imported for Inputs; for those imported for Outputs see `AsyncExecution.NoImportWritten`.
- WorkingMemHandle.CreateWorkingMemHandle: coordinates are collected by `Connections.Collect`.
- Connections.Collect: asks that there is no MemImport layer, since the code reads the binding id of a MemImport, which has none (src/armnn/LoadedNetwork.cpp:2087-2092).
- BindingTables.TableInputs: asks that every Input is read and, as Collect does, that there is no MemImport layer.
- LoadedNetwork.MakePlan: pre-imported handles are given, whether or not the workloads support replacing handles.
- LoadedNetwork.Network.constructor: asks that no Output reads an Input directly and that no two Outputs read one slot; the tables are right without that (`LoadedNetwork.MakePlan`), but then Outputs have no cells of their own to switch (`LoadedNetwork.OwnCellsExactly`).
- LoadedNetwork.Network.EnqueueWorkload: asks what the constructor asks; the queues of input and output workloads and the execution itself are not modelled.
- LoadedNetwork.SwitchInput: asks what the constructor asks.
- LoadedNetwork.SwitchOutput: asks what the constructor asks.
- LoadedNetwork.WalkInputs: asks what the constructor asks.
- LoadedNetwork.WalkOutputs: asks what the constructor asks.
- AsyncExecution.WorkingMemory.constructor: asks that every Input is read, that there is no MemImport layer and that something is found for every Output, without which the code throws or reads past the end.
- AsyncExecution.WorkingMemory.Execute: how the workload loop ends is a parameter, and it asks that the cells of all bindings hold the bindings' own handles (`BindingTables.TiedExactly`); exceptions raised before it, for which nothing is reset, and input slots with a tensor info of their own, whose cells hold decorated handles, are not modelled.
- LoadedNetwork::CreateMemoryProfile for synchronous networks, which the constructor never reaches.
- Callbacks.AsyncCallbackManager.GetNotifiedCallback: the wait on the condition variable; a step is taken when the queue is not empty. Ids are unbounded.
- Buffers.AllocateDynamicBuffers: counters are unbounded; `Buffers.CounterBound` tells when that makes no difference.
- Concatenation.ViewsTile: nothing is said about inputs whose sizes add up to 2^32 or more, for which the origins wrap around.
- Backends, workload factories, kernels, threads, samples, bindings and everything outside the files cited above.
