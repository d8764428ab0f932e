# VPUX plugin: verified models

A Dafny model of the parts of the VPUX plugin and its tools whose behaviour is hard to see from one function body,
with proofs of what they guarantee. `dafny verify dfyconfig.toml` checks everything.

**The Level Zero inference engine.** `CommandQueues.dfy` is a transition system: any number of requests, each with a
host thread, three recorded command lists, one event and three fences, share three device queues.
`PipelineInvariant.dfy` has the invariant that every host step and every device step keeps; `PipelineTheorems.dfy` has
what follows for whole runs: every output belongs to its own input, every round ends quiescent, no state is stuck, no
list is submitted while in flight, the discrete pipeline and both modes of the integrated one refine one and the same
one-step engine. `ZeroPipeline.dfy` has the pipeline objects: their constructors record the lists, their methods make
the driver calls, and however the device runs meanwhile a pull ends with the graph's answer in place.
`AsyncExecutors.dfy` adds the two threads that start inferences and collect results, first come, first served and each
task as a whole; whatever goes on first, everything started ends. `StagingMemory.dfy` lays the arguments out in the
staging regions and tracks who owns an allocation. `InferRequest.dfy` copies blobs in and out
around the pipeline, `StateWiring.dfy` finds the state variables of a network and binds one blob to both ends of each,
and `StatefulSession.dfy` shows that any sequence of inferences, `SetState` and `Reset` calls is a fold from zeros.
`EngineSession.dfy` puts these together: of any number of requests on the shared engine each sees its own fold, and all
their sessions can always be carried through; `AsyncSessions.dfy` does so under the two threads. `StagedRegions.dfy`
connects the named slots of a session with the bytes of the staging region.

What is assumed of the device is what the "Command Queues and Command Lists" and "Synchronization Primitives" sections
of the oneAPI Level Zero Core Programming Guide say: a queue starts lists in submission order (the model also lets
started lists overlap), commands of one list may reorder except across a barrier or a wait, a fence fires when its list
completes. The graph is an uninterpreted function, and its arguments are taken to be captured when its execution is
appended to a list. A user's blob lies outside the staging region or is exactly its own slot.

**Numeric kernels.** `Suppression.dfy` (greedy non-maximum suppression), `RegionTensor.dfy` (index arithmetic of YOLO
outputs, the layout change, the V3/V4 decoder and when it reads outside), `PriorBox.dfy` (prior boxes and the separately computed count),
`MeanIoU.dfy`, `Quantization.dfy`, `CosineSimilarity.dfy`. Floating point is modelled by `real`.

**Graphs and formats.** `FakeQuantizeSearch.dfy` (the stack search for FakeQuantize ancestors), `SubNetwork.dfy`
(cloning growing prefixes of a network), `GraphCut.dfy` (cutting a network at a layer), `ModelImage.dfy` (the image in
which a network is handed to the driver), `QueryResult.dfy` (the list of supported layers).

**The frame source.** `FrameSource.dfy` has the tick arithmetic of `DummySource` and the frame accounting.

Where the code differs from what its names or comments say, the model follows the code:

- The driver adds up offsets in 32 bits (vcl_common.cpp:387) although its header says they go up to 64
  (vcl_common.hpp:30); it finds the weights exactly when header and xml take less than 4 GB, and it refuses an image
  without xml that the plugin is willing to write.
- The guards of `serializeIR` let totals through that do not fit 64 bits: exactly the largest 22.
- A supported-layer list reads back exactly when no name contains `<` and what stands before a `>` in a name is a name too.
- `parseYoloV3V4Output` passes the output number and the anchor count to the anchor functions in the opposite order
  (yolo_helpers.cpp:82 against 377 and 394). For V3 that is the offset meant only for a single output or the output whose
  number is the anchor count, and it is negative, so that anchors are read before the first, exactly for an output after the
  first where outputs do not outnumber the anchors each has: with three outputs and three anchors, the tool's default, for two of the three.
- Box coordinates are read with the square of the width as the stride (yolo_helpers.cpp:37-40), which is right exactly for square outputs and
  stays inside a tensor of just its entries exactly when three widths are no more than coordinates plus classes times the height.
- A signed zero point of 256 levels is 128, out of a signed byte's range, exactly when the range ends at zero.
- `buildFunc` names a result, then keeps another, unnamed one (model-comparator/main.cpp:848-857).
- `getAnyInputsFQ` can report a node twice; as a set its result is exact.
- `changeEdges` needs its edges listed topologically; otherwise it can lose ancestors. The set `paths` it keeps has no effect.
- A state prefix is searched anywhere in a name but cut off the front (prefix.hpp:20-25, vpux_executable_network.cpp:235).
- When `GetResult` refuses an output, the pipeline has been pulled but is not reset. The next inference can then get
  through without the device and return what the output region held before.
- `mean_IoU` reads outside its vectors without classes, with 65536 classes or more, and when the reference is longer than the output.
- A prior-box layer with both fixed and minimum sizes writes more boxes than it counts, so that boxes run into the
  variance plane, unless enough of the count goes unwritten. A density between -1 and 1 without a fixed size takes one
  box per ratio off the count, so that a layer of minimum sizes alone can do so too.
- Two layers with one id can make `delLayers` drop nothing: when the layer cut to has the id of the result and nothing leads to it.

## Model

| member | source | states |
|---|---|---|
| ZeroPipeline.DiscretePipeline.constructor | src/zero_backend/src/zero_pipeline.cpp:40-73 | appending the inputs' copy, barrier, signal, wait, graph, outputs' copy and event reset in this order leaves exactly the three lists the protocol is proved for, on a quiescent request |
| ZeroPipeline.Device.Await | src/zero_backend/src/zero_pipeline.cpp:93-100 | a wait ends, in every behaviour of the device, with what is waited for signalled and the invariant kept |
| ZeroPipeline.DiscretePipeline.Push | src/zero_backend/src/zero_pipeline.cpp:79-88 | its calls are the protocol's next ones, each list the recorded one and not in flight; the request is then pushed, its open input unanswered |
| ZeroPipeline.DiscretePipeline.Pull | src/zero_backend/src/zero_pipeline.cpp:90-101 | however the device runs meanwhile, the host output region then holds the graph's value on the open input |
| ZeroPipeline.DiscretePipeline.Reset | src/zero_backend/src/zero_pipeline.cpp:103-108 | event and fences unsignalled, nothing queued: the next round starts as the first did |
| ZeroPipeline.DiscretePipeline.Infer | src/zero_backend/src/zero_pipeline.cpp:79-108 | push, pull and reset in this order are out := G(in), and leave the pipeline ready for the next |
| ZeroPipeline.IntegratedPipeline.constructor | src/zero_backend/src/zero_pipeline.cpp:151-157 | the list ends in barrier and signal exactly in event mode |
| ZeroPipeline.IntegratedPipeline.Push | src/zero_backend/src/zero_pipeline.cpp:164-171 | in either mode its call is the protocol's next one, with the recorded list, which is not in flight |
| ZeroPipeline.IntegratedPipeline.Pull | src/zero_backend/src/zero_pipeline.cpp:173-180 | in either mode, however the device runs meanwhile, the output region then holds the graph's value on the open input |
| ZeroPipeline.IntegratedPipeline.Reset | src/zero_backend/src/zero_pipeline.cpp:182-188 | event and fences unsignalled, nothing queued: the next round starts as the first did |
| ZeroPipeline.IntegratedPipeline.Infer | src/zero_backend/src/zero_pipeline.cpp:164-188 | push, pull and reset in this order are out := G(in) in either mode |
| PipelineInvariant.StepKeepsInv | src/zero_backend/src/zero_pipeline.cpp:45-108 | for any number of requests of any variant, every host step and every device step of every interleaving keeps the protocol invariant |
| PipelineInvariant.RunKeepsInv | src/zero_backend/src/zero_pipeline.cpp:45-188 | the invariant holds along every run |
| PipelineTheorems.AnswersMatchInputs | src/zero_backend/src/zero_pipeline.cpp:45-108 | over any number of rounds and every interleaving, the n-th output read is the graph's value on the n-th input written |
| PipelineTheorems.RoundsEndQuiescent | src/zero_backend/src/zero_pipeline.cpp:64-108 | after every round event and fences are unsignalled and the request is on no queue |
| PipelineTheorems.GraphReadsItsRoundsInput | src/zero_backend/src/zero_pipeline.cpp:51-66 | a graph execution starts only when the region it reads holds the input of its own round |
| PipelineTheorems.HostOwnsItsRegions | src/zero_backend/src/zero_infer_request.cpp:184-264 | when the host writes its input region or reads its output region, the device owes the request nothing |
| PipelineTheorems.SubmitNeverWaits | src/zero_backend/src/zero_pipeline.cpp:82-100 | in every run, when a thread comes to submit a list, that list has left its queue, although UPLOAD has no fence |
| PipelineTheorems.ConcurrentCommandsCommute | src/zero_backend/src/zero_pipeline.cpp:45-68 | two commands that may run at the same time do not disable each other, and in either order leave the same memory, event, fences and lists |
| PipelineTheorems.AbandonedRoundIsUnreset | src/zero_backend/src/zero_infer_request.cpp:219-264 | giving up after the pull leaves everything the next pull waits for signalled |
| PipelineTheorems.UnresetRoundRepeatsTheLastAnswer | src/zero_backend/src/zero_infer_request.cpp:219-264 | a round begun so can get through without the device and read what the region held before, whatever its input |
| PipelineTheorems.StepRefinesEngine | src/zero_backend/src/zero_pipeline.cpp:64-198 | each step of each variant is a step of the engine out := G(in), or invisible in it, and invisible to all other requests |
| PipelineTheorems.DeviceStepConsumesWork | src/zero_backend/src/zero_pipeline.cpp:79-101 | every device step takes exactly one off the outstanding commands |
| PipelineTheorems.SomeQueueHeadCanRun | src/zero_backend/include/zero_executor.h:55-57 | with the executor's three queues shared and strictly in order, some queue's head can always run |
| PipelineTheorems.LaterListsCanRun | src/zero_backend/include/zero_executor.h:55-57 | nor need it be the head: any list may go on, except that EXECUTE waits for its own UPLOAD |
| PipelineTheorems.ReadbackMayReorder | src/zero_backend/src/zero_pipeline.cpp:64-68 | the output copy and the reset of the event may run in either order |
| PipelineTheorems.BlockedHostHasPendingWork | src/zero_backend/src/zero_pipeline.cpp:90-101 | a waiting host thread has work of its own on a queue |
| PipelineTheorems.EverythingSubmittedDrains | src/zero_backend/src/zero_pipeline.cpp:79-101 | from every state satisfying the invariant the device alone finishes everything, in as many steps as there are outstanding commands, and then no host thread waits |
| PipelineTheorems.EveryRoundCanFinish | src/zero_backend/src/zero_pipeline.cpp:79-108 | with a host thread each, any request can be taken to the end of its round, whatever the others have submitted, while no other thread moves |
| AsyncExecutors.ScheduledRunsAreRuns | src/vpux_plugin/src/vpux_async_infer_request.cpp:16-22 | with one thread submitting and one collecting, every run is a run of the system in which every thread runs freely |
| AsyncExecutors.CollectedAnswersMatch | src/vpux_plugin/src/vpux_async_infer_request.cpp:18-21 | every result collected is the graph's value on the request's own input |
| AsyncExecutors.TurnKeepsSchedule | src/vpux_plugin/src/vpux_async_infer_request.cpp:18-21 | a request waits for at most one of the two threads, for the one its round has come to |
| AsyncExecutors.TasksMakeUpRound | src/vpux_plugin/src/vpux_async_infer_request.cpp:18-21 | the first task of a request is its round up to the push, the second the rest |
| AsyncExecutors.TasksRunWhole | src/vpux_plugin/src/vpux_executable_network.cpp:194-203 | in every reachable state, of the requests waiting for a thread only the first has begun its task |
| AsyncExecutors.FirstComeFirstServed | src/vpux_plugin/src/vpux_async_infer_request.cpp:18-21 | in every run the requests in the order of their starts are those finished, in the order they were, then those waiting for their results, then those waiting to be submitted |
| AsyncExecutors.EverythingStartedFinishes | src/vpux_plugin/src/vpux_executable_network.cpp:194-220 | although each thread is stuck with the task at its head until that is done, from every reachable state everything started is finished after a bounded number of turns, whatever goes on first, and until then something can go on |
| AsyncExecutors.TurnTakesEffort | src/vpux_plugin/src/vpux_async_infer_request.cpp:16-22 | every turn of a thread or of the device, overlapping lists included, takes from what is left to do |
| AsyncExecutors.StuckMeansIdle | src/vpux_plugin/src/vpux_async_infer_request.cpp:16-22 | nothing can go on exactly when nothing is left to do |
| AsyncExecutors.EverythingStartedCanFinish | src/vpux_plugin/src/vpux_executable_network.cpp:194-220 | so everything started can be finished, each request taking any input and none losing an answer |
| StagingMemory.SizeIOBytes | src/zero_backend/include/zero_utils.h:142-150 | the bytes are the smallest number holding all bits of all elements |
| StagingMemory.ElementsMultiply | src/zero_backend/include/zero_utils.h:142-150 | the elements of a tensor are the product of its dimensions |
| StagingMemory.SlotSizeIsPages | src/zero_backend/src/zero_memory.cpp:78-80 | an argument takes 4096 * (bytes / 4096 + 1), always more than its bytes |
| StagingMemory.SlotStartAligned | src/zero_backend/src/zero_memory.cpp:75-81 | every offset is a multiple of 4096 |
| StagingMemory.RegionSizeIsPages | src/zero_backend/src/zero_memory.cpp:75-81 | the region is the sum of all slots' pages |
| StagingMemory.SlotsAreSeparate | src/zero_backend/src/zero_memory.cpp:75-81 | a slot ends strictly inside the region and before every later slot |
| StagingMemory.SlotsDisjoint | src/zero_backend/src/zero_memory.cpp:75-81 | no byte belongs to two arguments |
| StagingMemory.TableFindsFirst | src/zero_backend/src/zero_memory.cpp:76 | a name keeps the offset of the first argument appended under it |
| StagingMemory.BulkCopyCopiesEveryArgument | src/zero_backend/src/zero_pipeline.cpp:45-46 | one copy of the region equals copying each argument separately, on every byte of every argument |
| StagingMemory.SpliceKeepsOtherSlots | src/zero_backend/src/zero_infer_request.cpp:189-197 | writing one argument's slot changes no other argument |
| StagingMemory.NameResolvesToItsSlot | src/zero_backend/src/zero_memory.cpp:116-137 | a pointer looked up by name is region start plus that argument's offset |
| StagingMemory.PointersFail | src/zero_backend/src/zero_memory.cpp:116-137 | there is no pointer exactly without memory or for a name that was not appended |
| StagingMemory.RegionTestAcceptsEverySlot | src/zero_backend/src/zero_memory.cpp:138-141 | the region test accepts every byte of every slot, so it cannot tell slots apart |
| StagingMemory.RegionTestIsTight | src/zero_backend/src/zero_memory.cpp:138-141 | its first and last byte pass the test, the ones before and behind it do not |
| StagingMemory.MemoryManagementUnit.AppendArgument | src/zero_backend/src/zero_memory.cpp:75-81 | size and offset table stay those of the arguments appended so far |
| StagingMemory.MemoryManagementUnit.AllocateHost | src/zero_backend/src/zero_memory.cpp:83-90 | fails exactly when already allocated or empty, and otherwise allocates the whole region |
| StagingMemory.MemoryManagementUnit.AllocateHostAndDevice | src/zero_backend/src/zero_memory.cpp:92-100 | both allocations or neither, of the same size |
| StagingMemory.MemoryManagementUnit.GetHostPtr | src/zero_backend/src/zero_memory.cpp:116-126 | the pointer to the name's slot, or the error for no memory or no such name |
| StagingMemory.MemoryManagementUnit.GetDevicePtr | src/zero_backend/src/zero_memory.cpp:127-137 | the same on the device |
| StagingMemory.MemoryManagementUnit.CheckHostPtr | src/zero_backend/src/zero_memory.cpp:138-141 | true exactly for addresses from the region's start up to its size |
| StagingMemory.MemoryHandle.Free | src/zero_backend/src/zero_memory.cpp:27-33 | releases what it holds, once, and every live allocation keeps exactly one owner |
| StagingMemory.MemoryHandle.MoveFrom | src/zero_backend/src/zero_memory.cpp:49-59 | a move, also onto itself, leaks nothing and leaves every live allocation one owner |
| StateWiring.VariableIdRoundTrip | src/vpux_plugin/src/vpux_executable_network.cpp:234-236 | cutting the prefix off and putting it back gives the name exactly when the prefix was in front |
| StateWiring.ContainsExactly | src/vpux_utils/include/vpux/utils/IE/prefix.hpp:20-25 | a prefix is found exactly in names it is a part of, wherever |
| StateWiring.StateNames | src/vpux_plugin/src/vpux_executable_network.cpp:234-236 | the names made from a variable's id are those of a state input and a state output, and the id is cut out again |
| StateWiring.HasItsAssignExactly | src/vpux_plugin/src/vpux_executable_network.cpp:236-240 | a state input is paired exactly when one output, and no other, has the name put together for it |
| StateWiring.ExtractStates | src/vpux_plugin/src/vpux_executable_network.cpp:225-246 | succeeds exactly when each state input has one assign output, and lists one variable per state input |
| StateWiring.WithoutStates | src/vpux_plugin/src/vpux_executable_network.cpp:131-161 | keeps exactly the ports that carry no state, in order |
| StateWiring.BindStates | src/vpux_plugin/src/vpux_executable_network.cpp:300-306 | makes exactly the bindings whose wiring BindAllWires and BindAllCreates prove |
| StateWiring.BindAllWires | src/vpux_plugin/src/vpux_executable_network.cpp:300-306 | both ends of each variable share one blob, different variables have different ones |
| StateWiring.BindAllCreates | src/vpux_plugin/src/vpux_executable_network.cpp:41-53 | all variables start as zeros and every other port keeps its staging slot |
| StateWiring.CreateInferRequest | src/vpux_plugin/src/vpux_executable_network.cpp:268-310 | succeeds exactly when the states pair up, every device port is a known network port and there are inputs and outputs; then the request is wired as above and every slot is as large as its port |
| InferRequest.ZeroInferRequest.InferAsync | src/zero_backend/src/zero_infer_request.cpp:151-201 | pushes exactly when every input matches, also after a refused result; otherwise it stops at the first that does not, with those before it copied |
| InferRequest.ZeroInferRequest.GetResult | src/zero_backend/src/zero_infer_request.cpp:219-266 | copies out what the pull found and resets, or stops pulled and not reset at an output that does not match; what the pull found is the graph's answer as long as every earlier round has been reset |
| InferRequest.ZeroInferRequest.InferImpl | src/zero_backend/src/zero_infer_request.cpp:146-149 | succeeds exactly when every port matches, and is then one whole inference as long as every earlier round has been reset |
| InferRequest.ZeroInferRequest.QueryState | src/zero_backend/src/zero_infer_request.cpp:203-217 | one handle per variable on its read end's blob, made once; fails exactly when a variable has no network ports |
| InferRequest.ZeroInferRequest.Check | src/zero_backend/src/zero_infer_request.cpp:165-183 | a port passes exactly when it is known to the executor and its attributes match; the error tells which |
| InferRequest.BlobsInRegionAreLeft | src/zero_backend/src/zero_infer_request.cpp:189-191 | a blob in any slot of the region, its own or not, is not copied |
| InferRequest.CopyInDelivers | src/zero_backend/src/zero_infer_request.cpp:161-198 | after the copies every slot holds its input blob's contents and no blob outside the region changed |
| InferRequest.CopyOutDelivers | src/zero_backend/src/zero_infer_request.cpp:228-262 | after the copies every output blob holds its slot's contents and no other blob changed |
| InferRequest.InferDelivers | src/zero_backend/src/zero_infer_request.cpp:151-266 | with the output region holding the graph's answer after the pull, every output blob receives the graph's value on the input blobs, even where one blob is both |
| InferRequest.VariableState.Reset | src/vpux_al/src/vpux_variable_state.cpp:13-22 | the variable becomes zeros of its size, nothing else changes |
| InferRequest.VariableState.SetState | src/vpux_al/src/vpux_variable_state.cpp:24-40 | takes the new value exactly when the sizes agree, else changes nothing |
| InferRequest.VariableState.GetState | src/vpux_al/src/vpux_variable_state.cpp:42-44 | gives out the blob the variable's read end is bound to, not a copy |
| StatefulSession.InferFolds | src/zero_backend/src/zero_infer_request.cpp:184-261 | one inference maps the state by the graph's state outputs and shows the graph's outputs |
| StatefulSession.PerformFolds | src/vpux_al/src/vpux_variable_state.cpp:13-40 | every operation, inference, SetState or Reset, is a step of the fold |
| StatefulSession.RequestIsAFold | src/vpux_plugin/src/vpux_executable_network.cpp:302-306 | over any sequence of operations, state and outputs are those of the fold |
| StatefulSession.DriveRequest | src/vpux_al/src/vpux_variable_state.cpp:13-44 | calling the request object and the handles of its variables, in any order, shows and leaves what the session does |
| StatefulSession.ResetClearsVariable | src/vpux_al/src/vpux_variable_state.cpp:13-22 | after any operations, a reset makes that variable zeros of its size and changes nothing else |
| StatefulSession.SetStateSetsVariable | src/vpux_al/src/vpux_variable_state.cpp:24-40 | after any operations, setting makes that variable the value when sizes agree and changes nothing otherwise |
| StatefulSession.InferenceUsesState | src/zero_backend/src/zero_infer_request.cpp:184-261 | an inference gives the graph the variables at their sources and the caller's data elsewhere, shows its outputs and keeps the sinks |
| StatefulSession.ResetIsSeenByNextInference | src/vpux_al/src/vpux_variable_state.cpp:13-22 | on a request, the inference after a reset gives the graph zeros for that variable |
| StatefulSession.CreatedRequestStartsFromZeros | src/vpux_plugin/src/vpux_executable_network.cpp:41-53 | a created request is such a session and its state is zeros |
| EngineSession.EngineRunsGraph | src/zero_backend/src/zero_infer_request.cpp:189-262 | in every run of any number of requests on the shared queues, the k-th answer to what was staged is what one inference takes the device to do |
| EngineSession.ReplayIsRun | src/zero_backend/src/zero_infer_request.cpp:151-266 | a session whose answers come from the engine goes as the session that computes the graph itself |
| EngineSession.FedBeforeAnswered | src/zero_backend/src/zero_infer_request.cpp:151-201 | what a request stages next, and all it has staged so far, depends only on answers it already has |
| EngineSession.EveryRequestSeesItsOwnFold | src/zero_backend/include/zero_executor.h:55-57 | with any number of requests on the shared queues, in every interleaving, each sees the fold of its own operations from its own first state |
| EngineSession.EverySessionCanFinish | src/zero_backend/include/zero_executor.h:55-57 | from every reachable state in which the requests have followed their sessions, whatever these are, all can be carried through, and each has then seen its fold |
| AsyncSessions.EveryAsyncRequestSeesItsOwnFold | src/vpux_plugin/src/vpux_async_infer_request.cpp:18-21 | each request sees its own fold also with one thread submitting and one collecting for all |
| AsyncSessions.EveryAsyncSessionCanFinish | src/vpux_plugin/src/vpux_async_infer_request.cpp:16-22 | all sessions can also be carried through by the two threads, from every reachable state in which they have been followed |
| StagedRegions.PointerReadsSlot | src/zero_backend/src/zero_memory.cpp:116-126 | what is read through the pointer a name resolves to is the named slot of the region |
| StagedRegions.SpliceIsUpdate | src/zero_backend/src/zero_infer_request.cpp:189-197 | copying data into a name's slot updates that name and no other |
| StagedRegions.BulkCopyKeepsSlots | src/zero_backend/src/zero_pipeline.cpp:45-46 | the bulk copy of a region takes all named slots along |
| StagedRegions.SlotsOfRegionOf | src/zero_backend/src/zero_memory.cpp:75-81 | any data of the right sizes is what some region holds by its slots' names |
| StagedRegions.StagedBytesAreStaged | src/zero_backend/src/zero_infer_request.cpp:161-198 | copying blobs into the region as bytes stages exactly what an inference takes as staged |
| StagedRegions.OnBytesComputes | src/zero_backend/src/zero_pipeline.cpp:51-66 | every graph whose outputs have their slots' sizes runs on bytes as it does on names |
| StagedRegions.EveryRequestSeesItsOwnFoldInBytes | src/zero_backend/src/zero_infer_request.cpp:189-262 | with regions of bytes going through the shared queues, each request sees its own fold in the slots of the regions it reads |
| FakeQuantizeSearch.PopKeepsPending | src/vpux_ngraph_transformations/src/quantization_helpers.cpp:230-244 | every parent of a visited node stays visited or pending, above the node if it is stacked again |
| FakeQuantizeSearch.SecondPopIsSilent | src/vpux_ngraph_transformations/src/quantization_helpers.cpp:239-243 | a node popped again pushes nothing |
| FakeQuantizeSearch.PopMakesProgress | src/vpux_ngraph_transformations/src/quantization_helpers.cpp:230-245 | each pop marks a new node or shortens the stack, so the search ends on every finite graph |
| FakeQuantizeSearch.SearchFinds | src/vpux_ngraph_transformations/src/quantization_helpers.cpp:224-247 | what is reported is exactly the data FakeQuantize nodes above with none in between |
| FakeQuantizeSearch.GetAnyInputsFQ | src/vpux_ngraph_transformations/src/quantization_helpers.cpp:224-247 | terminates and reports exactly the FakeQuantize nodes whose first input is no constant that are nearest on some upward path, where paths go on through a FakeQuantize of a constant |
| FakeQuantizeSearch.WeightsAreNoData | src/vpux_ngraph_transformations/src/quantization_helpers.cpp:233-235 | of a layer with quantized data and quantized constant weights only the first FakeQuantize is found; above the weights there is none |
| FakeQuantizeSearch.DuplicatesOccur | src/vpux_ngraph_transformations/src/quantization_helpers.cpp:233-243 | a node used twice is reported twice |
| FakeQuantizeSearch.GetInputsFQ | src/vpux_ngraph_transformations/src/quantization_helpers.cpp:249-262 | the nodes of all inputs, or none when some input has none |
| Suppression.ExceedsIsSymmetric | src/utils/yolo_helpers.cpp:155-185 | overlap beyond the threshold does not depend on which box comes first |
| Suppression.OverlapIsCommonLength | src/utils/yolo_helpers.cpp:155-165 | two intervals have a point in common exactly when their overlap is not negative, and it is then the length of what they have in common |
| Suppression.IntersectionIsCommonArea | src/utils/yolo_helpers.cpp:167-176 | boxes that meet have a common rectangle, whose area is the intersection; others have none |
| Suppression.UnionCompletesIntersection | src/utils/yolo_helpers.cpp:178-181 | intersection and union add up to both areas, and the intersection is never the larger |
| Suppression.ExceedsExactly | src/utils/yolo_helpers.cpp:183-185 | the test of the quotient, for every pair of boxes, as a test of products |
| Suppression.ExceedsItself | src/utils/yolo_helpers.cpp:183-185 | a box exceeds with itself exactly the thresholds below 1 |
| Suppression.ApartExceedsNone | src/utils/yolo_helpers.cpp:183-185 | boxes without a common point exceed no threshold from 0 on |
| Suppression.ShiftedBoxes | src/utils/yolo_helpers.cpp:183-185 | two unit squares 0.3 apart exceed exactly the thresholds below 0.7 / 1.3 |
| Suppression.SortByScore | src/utils/yolo_helpers.cpp:200-203 | a descending listing of all rows, each once |
| Suppression.ComparisonKeepsSwept | src/utils/yolo_helpers.cpp:208-213 | each comparison of the inner loop keeps the sweep's invariant |
| Suppression.SweptSuppresses | src/utils/yolo_helpers.cpp:204-214 | a finished sweep leaves no two overlapping survivors and a stronger survivor over every zeroed box |
| Suppression.SuppressClass | src/utils/yolo_helpers.cpp:204-214 | one class column is suppressed, the others are untouched |
| Suppression.DoNonMaximumSuppressionSort | src/utils/yolo_helpers.cpp:187-216 | every class column is suppressed, although sorting looks at the scores as they were before the first class |
| Suppression.SuppressionIsIdempotent | src/utils/yolo_helpers.cpp:187-216 | a second run changes nothing |
| Suppression.OutcomeIsUnique | src/utils/yolo_helpers.cpp:200-214 | with distinct non-zero scores the outcome does not depend on the sort |
| RegionTensor.EntryIndexIsFlat | src/utils/yolo_helpers.cpp:15-20 | the index is the mixed-radix number of anchor, entry and cell |
| RegionTensor.FlatIsInjective | src/utils/yolo_helpers.cpp:15-20 | every read is in bounds and no two reads alias |
| RegionTensor.FlatIsSurjective | src/utils/yolo_helpers.cpp:15-20 | every position of the tensor is the index of one anchor, entry and cell |
| RegionTensor.ReorderIsPermutation | src/utils/yolo_helpers.cpp:424-433 | the layout change moves every element to exactly one place |
| RegionTensor.ReorderToNchw | src/utils/yolo_helpers.cpp:426-432 | puts every element where the permutation says |
| RegionTensor.ReorderKeepsTensor | src/utils/yolo_helpers.cpp:424-433 | reading the result by channel, row, column is reading the original so |
| RegionTensor.DecodeOutput | src/utils/yolo_helpers.cpp:84-115 | the loops find exactly the detections read off the tensor, on outputs of any shape and size and with any anchor offset, or read outside |
| RegionTensor.DetectedExactly | src/utils/yolo_helpers.cpp:92-99 | a location is detected exactly when a class reaches the threshold, or the threshold is not above zero |
| RegionTensor.BoxIsPlaced | src/utils/yolo_helpers.cpp:33-43 | a box is centred in its cell's column and row, moved as the tensor says, with the sides of its anchor |
| RegionTensor.OneCellIsDecoded | src/utils/yolo_helpers.cpp:84-115 | the detection read off an output of one cell, one anchor and one class |
| RegionTensor.DecodingFailsExactly | src/utils/yolo_helpers.cpp:84-104 | decoding reads outside exactly when a location has its scores outside the tensor or, being detected, its box outside the tensor or its anchor outside the anchors |
| RegionTensor.AllScoresInTensor | src/utils/yolo_helpers.cpp:89-95 | no score is outside the tensor exactly when it has the entries of all anchors |
| RegionTensor.BoxesInTensor | src/utils/yolo_helpers.cpp:36-40 | no box is outside a tensor of just these entries exactly when 3 * width <= (coordinates + classes) * height |
| RegionTensor.AnchorsInside | src/utils/yolo_helpers.cpp:39-40 | no anchor read is outside exactly when the offset is not negative and leaves room for all |
| RegionTensor.SquareBoxReadsItsEntries | src/utils/yolo_helpers.cpp:36-40 | on square outputs a box is read from its own four entries |
| RegionTensor.DecodingIgnoresLayout | src/utils/yolo_helpers.cpp:403-440 | decoding a reordered NHWC tensor of any shape and any number of channels gives what the original holds, or reads outside when that would |
| RegionTensor.BoxStrideNeedsSquare | src/utils/yolo_helpers.cpp:33-43 | the stride used for box coordinates is the right one exactly on square outputs |
| RegionTensor.AnchorArgumentsSwapped | src/utils/yolo_helpers.cpp:377-396 | with its arguments swapped the V4 offset is unchanged, the V3 one exactly for a single output or output number equal to the anchor count |
| RegionTensor.UsedOffsetNotNegative | src/utils/yolo_helpers.cpp:82 | the V3 offset as called is not negative exactly for one output, the first, or when outputs outnumber the anchors each has |
| RegionTensor.UsedOffsetsInside | src/utils/yolo_helpers.cpp:377-379 | exactly when no V3 output reads outside this many anchors |
| RegionTensor.DefaultNetworkReadsBeforeAnchors | tools/single-image-test/main.cpp:82 | with three outputs and the default of three anchors each the offsets are -2 and -4 for two of them, where the ones meant are inside |
| RegionTensor.V4OffsetsInside | src/utils/yolo_helpers.cpp:394-396 | V4 offsets are inside exactly with two numbers for every anchor of every output |
| PriorBox.BuildRatios | src/utils/parse_layers_helpers.cpp:31-58 | fails exactly on a ratio near zero, else lists 1, the new ratios and their inverses |
| PriorBox.ProperExactly | src/utils/parse_layers_helpers.cpp:35-37 | a ratio is refused exactly when it is less than 1 / 8388608 from zero |
| PriorBox.HalfIsListedOnce | src/utils/parse_layers_helpers.cpp:41-57 | a ratio met as an inverse and by itself is listed once |
| PriorBox.OnlyOneIsNearOne | src/utils/parse_layers_helpers.cpp:41-57 | 1 is the only listed ratio that counts as 1, exactly unless an inverse falls on it |
| PriorBox.InverseNearOne | src/utils/parse_layers_helpers.cpp:55-57 | when the inverse of a ratio that is not near 1 is near 1 |
| PriorBox.ComputeNumPriors | src/utils/parse_layers_helpers.cpp:60-84 | the count the branches add up to |
| PriorBox.MinSizeCountAgrees | src/utils/parse_layers_helpers.cpp:224-259 | without fixed sizes, exactly when a cell gets no more boxes than counted: always unless a density is between -1 and 1, and then exactly when what that takes off is made up for |
| PriorBox.ZeroDensityLeavesNoRoom | src/utils/parse_layers_helpers.cpp:72-80 | a density of zero and one minimum size: room for no box, and a box in every cell |
| PriorBox.NoSizesNoBoxes | src/utils/parse_layers_helpers.cpp:62-84 | without any size no box is written, and the count is what ratios, densities and maximum sizes make it |
| PriorBox.SpareIsNotNegative | src/utils/parse_layers_helpers.cpp:72-80 | densities never count for less than their grids unless one without a fixed size is between -1 and 1, and for as much exactly when none loses a fraction and all others count for 1 |
| PriorBox.FixedSizeCountAgrees | src/utils/parse_layers_helpers.cpp:148-259 | with fixed sizes, alone or with others: a cell gets no more boxes than counted exactly when its minimum sizes take no more than fixed sizes leave undrawn, and as many exactly when as much |
| PriorBox.CountAgrees | src/utils/parse_layers_helpers.cpp:60-259 | for every layer, by how much the count for a cell differs from the boxes it gets |
| PriorBox.BoxesStayInTheirPlane | src/utils/parse_layers_helpers.cpp:138-261 | all boxes of the layer fit the room the count makes exactly when those of a cell do, and fill it exactly when those of a cell do, whatever the densities |
| PriorBox.MixedLayersOutgrowTheirPlane | src/utils/parse_layers_helpers.cpp:148-259 | fixed and minimum sizes together always overrun it when every density is whole and used, every maximum size is used and no inverse falls on 1 |
| PriorBox.TwoPlanesAreEnough | src/utils/parse_layers_helpers.cpp:263-281 | an output of two planes of the counted size holds every layer that fits, boxes in the first and variances filling the second |
| PriorBox.CheckVariance | src/utils/parse_layers_helpers.cpp:86-100 | accepts exactly none, one or four values that are not negative |
| PriorBox.CellIsAtCentre | src/utils/parse_layers_helpers.cpp:138-146 | cell (h, w) is centred at (w + 1/2) / W of the width and (h + 1/2) / H of the height of the image, or a step from the offset for each |
| PriorBox.MinSquareIsPlaced | src/utils/parse_layers_helpers.cpp:224-231 | the box of a minimum size is a square of that size around its cell's centre |
| PriorBox.MaxSquareIsPlaced | src/utils/parse_layers_helpers.cpp:233-240 | that between minimum and maximum size is a square with the area of their product around it |
| PriorBox.RatioBoxIsPlaced | src/utils/parse_layers_helpers.cpp:249-256 | a ratio box is around its cell's centre, as much wider than high as its ratio says, with the area of the square |
| PriorBox.GridSquareIsPlaced | src/utils/parse_layers_helpers.cpp:176-194 | a grid box is a square of the fixed size around its grid point, cut off at the image's borders; grid points are one shift apart |
| PriorBox.GridRatioIsPlaced | src/utils/parse_layers_helpers.cpp:195-219 | so is that of a ratio, with its ratio and the square's area |
| PriorBox.CellFollows | src/utils/parse_layers_helpers.cpp:136-137 | the layer goes row by row and cell by cell |
| PriorBox.BoxesBeforeCell | src/utils/parse_layers_helpers.cpp:136-137 | with as many boxes in each cell |
| PriorBox.FixedSizesFollow | src/utils/parse_layers_helpers.cpp:148-222 | in a cell the fixed sizes come first, in order |
| PriorBox.MinSizesFollow | src/utils/parse_layers_helpers.cpp:224-259 | then the minimum sizes, in order |
| PriorBox.SizeBoxesAt | src/utils/parse_layers_helpers.cpp:176-219 | of a fixed size there are the squares, point by point, then the boxes of each ratio that is not 1, in the same way |
| PriorBox.GridsBefore | src/utils/parse_layers_helpers.cpp:195-219 | ratios that count as 1 get no grid |
| PriorBox.MinSizeIs | src/utils/parse_layers_helpers.cpp:224-259 | of a minimum size there are its square, that with its maximum size, then the ratios -- of the first size, and with the last only, unless all are scaled |
| PriorBox.RatioBoxFollows | src/utils/parse_layers_helpers.cpp:241-259 | a ratio has its box unless it counts as 1, in order |
| PriorBox.BoxesOfTwoCells | src/utils/parse_layers_helpers.cpp:136-231 | the boxes of a layer of two cells, in numbers |
| PriorBox.ValuesOfTwoCells | src/utils/parse_layers_helpers.cpp:224-281 | the values stored for them, in order, and the variances behind, in turn |
| PriorBox.InsideExactly | src/utils/parse_layers_helpers.cpp:263-281 | what is stored stays inside the output exactly when every position stored to does; a negative count is outside wherever it bounds a loop |
| PriorBox.ComputePriorbox | src/utils/parse_layers_helpers.cpp:30-283 | for outputs of any size and densities of any kind: fails exactly on bad ratios or variances or a write outside, and otherwise gives every value |
| SubNetwork.CopyHasSameValue | tools/model-comparator/main.cpp:823-843 | under every semantics and all arguments a copy has its base's value at every output |
| SubNetwork.CopyNode | tools/model-comparator/main.cpp:826-840 | succeeds exactly when every source has a copy, and then takes its inputs from the copies |
| SubNetwork.BuildFunc | tools/model-comparator/main.cpp:806-861 | fails exactly when there is nothing to clone or a source is neither a parameter nor listed before; otherwise the clone uses only fresh nodes |
| SubNetwork.ResultNameIs | tools/model-comparator/main.cpp:848-857 | the name given to the result that is then dropped: the node's, with the output's number if there are several |
| SubNetwork.CloneComputesLastNode | tools/model-comparator/main.cpp:843-861 | every result of the clone computes that output of the last base node |
| SubNetwork.CollectedPrefixesAreClosed | tools/model-comparator/main.cpp:985-1010 | for every prefix of a topological order no lookup is missed |
| GraphCut.SweepFindsOrderedPaths | tools/edit-xml/edit_xml.py:32-45 | however edges are listed, the sweep finds exactly the layers with a path to the cut in list order |
| GraphCut.SweepIsTheClosure | tools/edit-xml/edit_xml.py:32-45 | on a topological list that is the cut layer with all its ancestors |
| GraphCut.SweepKeepsEdgesOnPaths | tools/edit-xml/edit_xml.py:34-57 | on a topological list exactly the edges on some path into the layer survive, in order |
| GraphCut.ClosureExactlyWhenOrdered | tools/edit-xml/edit_xml.py:32-45 | the sweep is the closure exactly when every ancestor has a path in list order that ends before the cut |
| GraphCut.UnorderedEdgesLoseAncestors | tools/edit-xml/edit_xml.py:34-57 | a list on which an ancestor is lost |
| GraphCut.KeptEdgesStayInside | tools/edit-xml/edit_xml.py:34-57 | however edges are listed, both ends of a kept edge are kept |
| GraphCut.CutStaysClosed | tools/edit-xml/edit_xml.py:97-131 | cutting a network leaves a network: every edge joins layers that remain |
| GraphCut.Relabelled | tools/edit-xml/edit_xml.py:78-119 | the result's input takes the cut layer's dimensions, that layer's output the result's name, and nothing else changes |
| GraphCut.Network.ChangeEdges | tools/edit-xml/edit_xml.py:18-57 | fails exactly when no edge leaves the layer; otherwise the swept edges and the redirected one remain |
| GraphCut.Network.DelLayers | tools/edit-xml/edit_xml.py:60-131 | succeeds exactly when the named layer is a result or has a sized output, a leaving edge and a sized result input to cut to, and else names the first of these that is missing; then what remains is what leads to the layer, and the result, ids shared between layers included |
| MeanIoU.SumsCountClasses | src/utils/semantic_segmentation_helpers.hpp:48-60 | a row of the histogram adds up to the pixels of that reference class, a column to those of that actual class |
| MeanIoU.HistogramCountsScoredPixels | src/utils/semantic_segmentation_helpers.hpp:31-46 | the grand total is the number of valid pixels that do not touch the ignored label |
| MeanIoU.UnionCountsEither | src/utils/semantic_segmentation_helpers.hpp:62-65 | the union computed is the number of pixels in either class |
| MeanIoU.FullScoreMeansAgreement | src/utils/semantic_segmentation_helpers.hpp:67-73 | intersection equals union exactly when no scored pixel gives the class on one side only |
| MeanIoU.PixelCounts | src/utils/semantic_segmentation_helpers.hpp:19-47 | one more pixel counts for its two classes, and nowhere if one of them is no class or the ignored one |
| MeanIoU.Encode | src/utils/semantic_segmentation_helpers.hpp:19-26 | each pair of classes is counted under its own code |
| MeanIoU.BinCount | src/utils/semantic_segmentation_helpers.hpp:28-31 | bin k counts the occurrences of k |
| MeanIoU.Histogram | src/utils/semantic_segmentation_helpers.hpp:33-38 | cell (i, j) counts the pixels with reference i and actual j |
| MeanIoU.Ignore | src/utils/semantic_segmentation_helpers.hpp:40-47 | clearing row and column takes exactly that class's pixels out |
| MeanIoU.Sums | src/utils/semantic_segmentation_helpers.hpp:49-60 | diagonal, column and row sums are the per-class counts |
| MeanIoU.Percent | src/utils/semantic_segmentation_helpers.hpp:71 | a share in percent lies in [0, 100] |
| MeanIoU.BinsRunOut | src/utils/semantic_segmentation_helpers.hpp:28 | there are fewer bins than pairs of classes exactly from 65536 classes on |
| MeanIoU.MeanIou | src/utils/semantic_segmentation_helpers.hpp:17-76 | each class but the last is scored 100 * both / either, or not scored when there is no pixel; exactly when it fails or reads outside |
| Quantization.UnsignedZeroPointIsALevel | src/vpux_ngraph_transformations/src/quantization_helpers.cpp:27-29 | the u8 zero point is in [0, levels - 1] |
| Quantization.MiddleIsShiftedPosition | src/vpux_ngraph_transformations/src/quantization_helpers.cpp:27-32 | before rounding, the i8 zero point is the u8 one less half the steps |
| Quantization.ZeroPointsOfQuarter | src/vpux_ngraph_transformations/src/quantization_helpers.cpp:27-32 | the range [-1, 3] with 256 levels has zero points 64 and -64 |
| Quantization.SignedZeroPointFits | src/vpux_ngraph_transformations/src/quantization_helpers.cpp:30-32 | the i8 zero point of 256 levels fits a signed byte exactly when the range reaches above zero |
| Quantization.FewerLevelsAlwaysFit | src/vpux_ngraph_transformations/src/quantization_helpers.cpp:30-32 | with fewer levels it always fits |
| Quantization.AlignZp | src/vpux_ngraph_transformations/src/quantization_helpers.cpp:77-82 | the new ends are what the lowest and the highest level stand for |
| Quantization.AlignmentMovesLittle | src/vpux_ngraph_transformations/src/quantization_helpers.cpp:77-82 | alignment keeps the width, puts zero on a level and moves each end by at most half a step |
| Quantization.AlignmentIsIdempotent | src/vpux_ngraph_transformations/src/quantization_helpers.cpp:77-82 | aligning twice is aligning once |
| Quantization.QuantizeIsMonotone | src/vpux_ngraph_transformations/src/quantization_helpers.cpp:177-187 | a larger number never gets a smaller level |
| Quantization.QuantizeInvertsDequantize | src/vpux_ngraph_transformations/src/quantization_helpers.cpp:177-187 | quantizing what a level stands for gives it back |
| Quantization.QuantizeIsNearest | src/vpux_ngraph_transformations/src/quantization_helpers.cpp:177-187 | no other level stands for a nearer number, in range or out |
| Quantization.QuantizeErrorIsSmall | src/vpux_ngraph_transformations/src/quantization_helpers.cpp:177-187 | the error is at most half a step from the lowest to the highest level |
| Quantization.RangeSurvivesQuantization | src/vpux_ngraph_transformations/src/quantization_helpers.cpp:21-60 | with its own zero point and scale every number of a 256-level range comes back within half a step, and zero exactly |
| FrameSource.DummySource.Pull | tools/protopipe/src/dummy_source.cpp:10-63 | a pull does to tick and sequence number what Deliver says, about which the lemmas below are |
| FrameSource.DroppingDeliversNextTick | tools/protopipe/src/dummy_source.cpp:33-61 | with dropping, next_tick = t0 + seq_id * latency after every pull, and the frame delivered is the first one produced after the call |
| FrameSource.EveryWaitIsWithinOnePeriod | tools/protopipe/src/dummy_source.cpp:18-57 | in every run with dropping, on any clock that does not go back, every wait is in (0, latency] |
| FrameSource.EveryWaitFromTheStart | tools/protopipe/src/dummy_source.cpp:14-57 | so from the first pull of a source on |
| FrameSource.KeepingDeliversEveryFrame | tools/protopipe/src/dummy_source.cpp:18-61 | without dropping no frame is skipped, a late call is served at once, and the next tick is one period after an early call's and the first one after a late call |
| FrameSource.TicksStayOnLattice | tools/protopipe/src/dummy_source.cpp:44-61 | the next tick is always t0 + k * latency for some k not yet delivered |
| FrameSource.NoLatencyNoWait | tools/protopipe/src/dummy_source.cpp:19-32 | without latency nothing ever waits |
| FrameSource.FramesComeInOrder | tools/protopipe/src/dummy_source.cpp:55-62 | in every run, dropping switched at any time, no frame comes twice or out of order |
| FrameSource.KeepingSkipsNothing | tools/protopipe/src/dummy_source.cpp:62 | in every run without dropping the sequence numbers are consecutive |
| FrameSource.DroppingStaysOnTime | tools/protopipe/src/dummy_source.cpp:33-61 | in every run with dropping, every call gets the first frame after it that is left |
| FrameSource.FirstPullStartsOnTime | tools/protopipe/src/dummy_source.cpp:14-17 | the first pull puts the first frame one latency after it |
| FrameSource.CalculateMetrics | tools/protopipe/main.cpp:24-52 | delivered + dropped + first id = total, for any non-empty ids; fails exactly on missing latencies or ids |
| FrameSource.DroppedCountsMissing | tools/protopipe/main.cpp:43-48 | the number called dropped counts the ids in between that were not delivered |
| ModelImage.SerializeIR | src/vpux_driver_compiler_adapter/src/zero_compiler_in_driver.cpp:300-345 | refuses exactly the sizes its guards name, writes outside exactly when the total wraps 64 bits, and otherwise writes the image, ending at its size |
| ModelImage.DecodeReadsImage | src/vpux_driver_compiler/include/vpux_driver_compiler.h:152-158 | reading the image by the documented layout gives version, two elements, xml and weights |
| ModelImage.DecodedBytesAreAnImage | src/vpux_driver_compiler/include/vpux_driver_compiler.h:152-158 | conversely, bytes read so without remainder are the image of what is read |
| ModelImage.GuardsLeaveSomeTotalsTooLarge | src/vpux_driver_compiler_adapter/src/zero_compiler_in_driver.cpp:306-325 | exactly which sizes pass the guards and wrap 64 bits |
| ModelImage.WeightsAreWhereTheyAreSought | src/vpux_driver_compiler/src/vpux_compiler_l0/vcl_common.cpp:387-435 | the driver's 32-bit offset is the weights' offset exactly below 4 GB |
| ModelImage.DriverGetsWhatWasSent | src/vpux_driver_compiler/src/vpux_compiler_l0/vcl_common.cpp:379-445 | below 4 GB the driver gets xml and weights back, unless versions differ or there is no xml |
| ModelImage.Limits | src/vpux_driver_compiler/include/vcl_common.hpp:30-33 | the limits in numbers |
| ModelImage.DriverAcceptsExactly | src/vpux_driver_compiler/src/vpux_compiler_l0/vcl_common.cpp:379-435 | below 4 GB the driver accepts exactly the bytes with its version, fewer than ten elements, an xml, and room for xml and weights |
| ModelImage.WrappedOffsetIsRefused | src/vpux_driver_compiler/src/vpux_compiler_l0/vcl_common.cpp:414-439 | an xml that wraps the offset to zero is refused |
| QueryResult.QueryNetwork.SetQueryResult | src/vpux_driver_compiler/src/vpux_compiler_l0/vcl_query_network.cpp:13-34 | writes every name between brackets into exactly the size computed before |
| QueryResult.ParseQueryResult | src/vpux_driver_compiler_adapter/src/zero_compiler_in_driver.cpp:477-494 | returns exactly the texts that end at a closing bracket and begin after the last opening one |
| QueryResult.PiecesOfFormat | src/vpux_driver_compiler/include/vcl_query_network.hpp:30 | what is read from a list is what is read from its names one by one |
| QueryResult.ReadsBackWhenReadable | src/vpux_driver_compiler_adapter/src/zero_compiler_in_driver.cpp:477-494 | parsing inverts formatting exactly when no name has `<` and what stands before a `>` is a name; so for names free of brackets |
| CosineSimilarity.CauchySchwarz | tools/single-image-test/main.cpp:1100-1105 | for all vectors numr * numr <= denA * denB |
| CosineSimilarity.SimilarityIsACosine | tools/single-image-test/main.cpp:1112-1121 | the similarity is in [-1, 1] in exact arithmetic |
| CosineSimilarity.MultiplesAreSimilar | tools/single-image-test/main.cpp:1112 | an output that is a positive multiple of its reference has similarity 1 |
| CosineSimilarity.CompareCoSim | tools/single-image-test/main.cpp:1081-1126 | the verdict for every pair of blobs; the out-of-range branch is never taken |

## Left out

- The driver, the compiler, OpenVINO, OpenCV, XML parsing, files, processes, clocks and console: their results are parameters or an uninterpreted function.
- Rounding, overflow and not-a-number of floating point; `exp`, `sqrt` and the sigmoid are function parameters. Negative aspect ratios, for which the square root gives no number, are computed with whatever that parameter gives.
- The wrap-around of 32- and 64-bit integers, except where a row of the table speaks of it: region sizes, tensor indices, pixel counts and ticks are unbounded.
- Events of the EXECUTE and READBACK stages, which the discrete pipeline makes and never uses; profiling; the logger.
- AsyncExecutors.EverythingStartedFinishes: callbacks, and sharing the submitting thread with other networks, are not modelled; there is one result executor for a network, as the code makes it.
- What the output region holds once a round has not been reset: `InferRequest.ZeroInferRequest.GetResult` leaves it open, since lists may still be in flight.
- Layout and precision tables of the blob checks: whether a port matches is a given for each port.
- `computePriorbox` with fixed ratios, or with a fixed size that has no density (a read past the end), and the conversion of the quotient by a density below 1, of which nothing is used; `computePriorboxClustered`; empty feature maps and images.
- PriorBox.ComputePriorbox: a write outside the output, which the original does not check, is an error of its own; collects a layer's boxes first and stores their coordinates afterwards, where the original stores each at once; the values and places are the same.
- `std::sort` is modelled by an insertion sort that keeps ties in order; `Suppression.OutcomeIsUnique` says when that cannot show, and `Suppression.Suppresses` holds of any order.
- RegionTensor.DecodeOutput: a read outside the tensor or the anchors, which the original does not check, is an error of its own; blobs have a batch of one.
- The V2 decoder `getRegionBoxes`, `correctRegionBoxes` and the detection list made from the suppressed scores.
- GraphCut.Network.DelLayers: a description without an `edges` element; the text comparison by which layers are selected, ids being compared as whole ids.
- SubNetwork.BuildFunc: the nodes are an arena that only grows; freeing the unused named result is not modelled.
- Frames per second and latency statistics in `calculateMetrics`.
- `serializeIOInfo`, `prepareBuildFlags` and the conversion of precisions and layouts to text.
- MeanIoU.MeanIou and ModelImage.SerializeIR: a read or a write outside, which the original does not check, is an error of its own.
- ModelImage.PrepareModel: a read beyond the image, which the original does not check, is an error of its own; parsing of xml and weights is not part of this model.
- The Python detectors, report generators, option and metric tables, plugin registry and emulator.
