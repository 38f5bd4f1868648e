# Verified model of OBSCURE

OBSCURE compiles straight-line C into multi-instructions, hides the data flow between them behind routing networks,
encrypts them, and runs them on a stateless secure element. This project models the parts of the compiler and of the
runtime in which something can go wrong silently, and proves what they promise each other.

- **Routing** (`Bits`, `Permutations`, `Cycles`, `Benes`, `BenesCompile`, `BenesPerm`, `Rotations`, `Rows`, `Shapes`,
  `BenesMulti`, `ForwardDup`, `Bdb`): control bits of a Beneš network by the minimum-of-cycle method, its regrouping into
  windows of 2^le positions, and the realization of an arbitrary function as permutation, forward duplication, permutation.
  The compiled programs differ between functions only in the shuffles inside their windows.
- **Compiler passes** (`Options`, `IR`, `Frontend`, `Graphs`, `Dfg`, `MergedInstrs`, `DfgMerge`, `DataflowGraph`, `BuildGraph`,
  `DfgSchedule`, `Clusterizer`, `ClusterLoops`, `ClusterLimits`, `Midend`, `RegAlloc`, `AllocationLimits`, `Lowering`,
  `Allocator`): single assignment, copy propagation, dead code removal, node merging, emission in dependency order,
  linear-scan register allocation.
- **Universalization** (`Copies`, `Tracking`, `Layerize`, `LayeredGraph`, `Rectangularize`, `UniversalOps`, `Universalizer`,
  `Topology`, `Drawing`, `Masking`, `Propagation`, `Matching`, `Permuting`, `PermuteLayers`, `Universalize`): nodes are put in layers, edges that
  skip layers are broken by copies, inputs are masked, outputs propagated to a last layer, nodes padded to equal sizes, and
  a routing network is inserted between every two layers. Each change adds copies, zeros or nodes and rewires readers; an
  origin is recorded for every new cell, and every model of the graph before carries over. In the result nothing but the instructions depends on the program: layers,
  nodes, numbers of inputs and outputs and the origin of every input are a function of the numbers of program inputs and
  distinct program outputs, l_in, the depth and the width.
- **Bytecode and runtime** (`BigEndian`, `LlsCode`, `Bytecode`, `Serializer`, `Reader`, `SecureElement`, `InputPhase`,
  `Simulation`, `Interpreter`, `Linking`): the file format, its parser, and the run of the interpreter with the secure
  element, down to the bytes of every ciphertext.
- **The whole chain** (`Backend`, `LoweredRuns`, `Revealing`, `Compiler`): a program compiled, universalized, lowered,
  serialized and interpreted returns what it computes.
- **Protocol** (`SeProtocol`, `ElementBinding`, `SymbolicImage`): what an arbitrary caller of the secure element can and
  cannot do, on symbolic ciphertexts; the bytes that are authenticated and hashed determine what the symbols stand for, and
  the element answers the byte images of the symbolic answers.
- **SPARKLE and SCHWAEMM** (`Words`, `WordBits`, `Sparkle`, `SparkleInPlace`, `ByteView`, `Schwaemm`, `SchwaemmInPlace`,
  `SchwaemmBinding`): the in-place permutation with its inverse, the block-wise authenticated encryption, and how key, nonce,
  associated data and message enter its state.

Opcodes other than MOV are interpreted by an arbitrary function over 32-bit words, so every preservation result holds for
every arithmetic. Python's `set.pop` and set iteration are arbitrary choices (`:|`), and every result holds for all of them.
Python exceptions and C `exit` calls are `None`, `Fail` or `false` results.

Four places where the code does less than its documentation suggests are stated exactly, each with an input that shows it.

- An output of a multi-instruction can lose its register after its last internal read
  (compiler/src/lowering/reg_alloc.py:32-36): `RegAlloc.UnexposedIsKept` and `RegAlloc.ExposedCanBeOverwritten` give the
  condition in both directions, `AllocationLimits.OutputCanBeLost` an input.
- The first register that is handed out is the number of used inputs, not one past the highest index among them
  (compiler/src/lowering/reg_alloc.py:57-61), so a used input that stands behind an unused or repeated one can lose its
  register: `RegAlloc.NoInterference` and `RegAlloc.UnsafeCanClash` give the condition in both directions,
  `AllocationLimits.InputCanBeLost` an input. Such input lists occur: `propagate_outputs_to_last_layer` appends a cell to the
  inputs of a node that may already read it (compiler/src/universalization/universalizer.py:151).
- `merge_1_output_nodes` does not test `l_out` (compiler/src/clusterization/basic_clusterizer.py:80-104):
  `Clusterizer.OneSuccessorWithin` says exactly when the merged node is within it, `ClusterLimits.MergeCanExceedOutputs`
  gives an input.

- The input count stands behind the sealed key in the header, and `SEstart` takes it as it is given
  (runtime/SEalgo.c:347-351), while batches and multi-instructions share one numbering in the nonces of words
  (runtime/SEalgo.c:112-117, 451-461). `SeProtocol.NonceExact`: no two different words are encrypted under one nonce under a
  header if and only if its input count keeps the numbers of batches away from those of multi-instructions whose results
  are encrypted, as the count the compiler writes does (`SeProtocol.CompiledNumbers`). `SeProtocol.OverlapExample` gives an
  input for the other case.

The theorem about the whole chain, `Compiler.CompileAndRun`, therefore has the first two conditions as its only hypothesis on
the compiled graph: `LoweredRuns.Clean` asks the condition on inputs of every node, and of every output that the program
returns or another node uses that it is not exposed. It holds whenever every clusterized node returns everything it
computes, and outright for single-assignment programs that return everything they compute.

Verify with `dafny verify dfyconfig.toml`.

## Model

| member | source | states |
|---|---|---|
| `Permutations.ComposeInvView` | compiler/src/universalization/routing.py:164-166 | composing with an inverse by sorting pairs gives c∘π⁻¹ for every permutation π |
| `Permutations.Invert` | compiler/src/universalization/routing.py:122-127 | the inverse of a shuffle, both ways round |
| `Cycles.TwinOffCycle` | compiler/src/universalization/routing.py:217-227 | x and x^1 never lie on the same cycle of π X π⁻¹ X |
| `Cycles.Period` | compiler/src/universalization/routing.py:222-227 | the cycles have length at most n/2, so m-1 doublings cover them |
| `BenesCompile.CycleMinima` | compiler/src/universalization/routing.py:217-227 | after the doubling loop c[x] is the minimum of the whole cycle of x |
| `BenesPerm.MiddleKeepsLowBit` | compiler/src/universalization/routing.py:228-235 | M = F∘π∘L keeps the low bit of every index |
| `BenesPerm.HalfIsPerm` | compiler/src/universalization/routing.py:236-238 | both halves of M are permutations again |
| `BenesPerm.Compile` | compiler/src/universalization/routing.py:209-247 | for every permutation of 2^m positions the compiled columns route it |
| `Benes.ApplyColumn` | compiler/src/universalization/routing.py:256-273 | the submask loop pairs exactly the positions that differ in the column's bit |
| `Benes.ApplyNetwork` | compiler/src/universalization/routing.py:249-254 | applying the columns to a list gathers it by the composed index map |
| `BenesPerm.CompileAndApply` | compiler/src/universalization/routing.py:206-273 | compile and apply yields x[π[0]], x[π[1]], ... for every list x |
| `Rotations.ROTRIsIter` | compiler/src/universalization/routing.py:79-87 | ROTR is the i-fold one-bit rotation of the index |
| `Rotations.RotationsCommute` | compiler/src/universalization/routing.py:137-146 | index rotations commute, which makes merging public shuffles sound |
| `BenesMulti.RotatedIsBlockDiagonal` | compiler/src/universalization/routing.py:346-362 | a rotated group of columns stays within windows of 2^le positions |
| `BenesMulti.CompileColumns` | compiler/src/universalization/routing.py:346-362 | input wiring, windows and output wiring together are the group of columns |
| `BenesMulti.MergeWirings` | compiler/src/universalization/routing.py:333-344 | replacing two adjacent wirings by their product in the code's order keeps the program |
| `BenesMulti.Compile` | compiler/src/universalization/routing.py:289-331 | the windowed program computes the same permutation, for every le >= 1, with windows of at most 2^le; wirings and windows are those of `Shapes.BenesShape`, the same for every permutation |
| `Rows.CanonicalRun` | compiler/src/universalization/routing.py:33-58 | running a canonical program gathers the list by the program's index map |
| `Rows.Optimize` | compiler/src/universalization/routing.py:60-76 | exactly the identity wirings are removed, and the index map is kept |
| `ForwardDup.DuplicateForward` | compiler/src/universalization/routing.py:415-428 | each position gets the value at the start of its run |
| `ForwardDup.CleanF` | compiler/src/universalization/routing.py:436-444 | the cleaned map sends each position to the start of its run |
| `ForwardDup.CompileMI` | compiler/src/universalization/routing.py:446-469 | the chunks with one-element overlap compose to the whole duplication; where they lie is the same for every function |
| `Bdb.BuildInput` | compiler/src/universalization/routing.py:496-514 | π is a permutation that starts each block with its value, for every order of `missing.pop()` |
| `Bdb.Decompose` | compiler/src/universalization/routing.py:496-529 | π and π2 are permutations and the three stages compose to f, duplicates allowed |
| `Bdb.Apply` | compiler/src/universalization/routing.py:531-536 | the three stages give x[f[i]] everywhere |
| `Bdb.CompileMI` | compiler/src/universalization/routing.py:538-552 | the windowed program of the three stages has index map f, and its wirings and windows are those of `Shapes.BdbShape`, the same for every f and every choice |
| `Bdb.CompileOptimized` | compiler/src/universalization/universalizer.py:331-333 | after `optimize` too: index map f, and the shape without its identity wirings |
| `Shapes.LiftIsTurn` | compiler/src/universalization/routing.py:333-344 | the product of two pending wirings is the rotation from one band of columns to the next |
| `Shapes.BdbTurns` | compiler/src/universalization/routing.py:137-146 | every public wiring is an index rotation |
| `Shapes.BenesTiles` | compiler/src/universalization/routing.py:356-362 | the windows of every secret row of a Beneš network hold every position exactly once |
| `Shapes.DupHolds` | compiler/src/universalization/routing.py:446-469 | the chunks of a duplication hold every position |
| `Shapes.IdleKept` | compiler/src/universalization/routing.py:60-76 | `optimize` keeps all rows of windows, and the remaining wirings are rotations |
| `Bdb.RouteAndRun` | compiler/src/universalization/universalizer.py:331-333 | compiled, optimized and run, the network gives x[f[i]] for every function f |
| `Frontend.SsaCorrect` | compiler/src/frontend/frontend.py:48-115 | single assignment, and the same outputs for all inputs and opcode interpretations |
| `Frontend.ToSSA` | compiler/src/frontend/frontend.py:48-115 | the loop computes that program |
| `Frontend.CopyCorrect` | compiler/src/frontend/frontend.py:117-178 | copy propagation keeps outputs, single assignment and definitions before uses |
| `Frontend.PropagateCopy` | compiler/src/frontend/frontend.py:117-178 | the loop computes that program; nothing reads the destination of a MOV other than the last instruction, and such a MOV remains only for a program output |
| `Frontend.CopiesPropagated` | compiler/src/frontend/frontend.py:138-178 | the environment holds exactly the copies, and neither what they stand for nor what the new code reads is one |
| `Frontend.LiveCorrect` | compiler/src/frontend/frontend.py:220-260 | outputs are kept and every remaining destination is an output or read later |
| `Frontend.RemoveDeadCode` | compiler/src/frontend/frontend.py:220-260 | the backward loop computes that program |
| `Frontend.Passes` | compiler/src/frontend/frontend.py:9-38 | the three passes composed: same outputs, single assignment, no dead code, and no copy that is read |
| `Graphs.CheckDominationForMerge` | compiler/src/DFG.py:78-104 | on an acyclic graph, true exactly when no path of length two or more joins the nodes |
| `Graphs.ContractionAcyclic` | compiler/src/DFG.py:82-84 | merging two nodes that no such path joins leaves the graph acyclic |
| `MergedInstrs.ComputeMergedInstrs` | compiler/src/DFG.py:107-160 | for every iteration order the rescheduling ends and orders definitions before uses |
| `DfgMerge.SomeOrder` | compiler/src/DFG.py:128-133 | one of the two concatenations is a valid order, which is why the loop makes progress |
| `DfgMerge.MergedInputsUsed` | compiler/src/DFG.py:162-164 | the merged inputs are exactly what the merged instructions use |
| `DataflowGraph.Dataflow.KeptOutputs` | compiler/src/DFG.py:166-200 | an output is dropped exactly when only the other node needs it |
| `DataflowGraph.Dataflow.CountIsKept` | compiler/src/DFG.py:184-194 | the use count exceeds one exactly when something other than the merged node needs the output |
| `DfgMerge.MergeIntegral` | compiler/src/DFG.py:202-257 | backward and forward edges still agree, and edges are exactly the shared variables |
| `DfgMerge.MergeAcyclic` | compiler/src/DFG.py:202-257 | the merged graph is acyclic when no path of length two or more joined the nodes |
| `DfgMerge.MergeModels` | compiler/src/DFG.py:202-257 | every cell keeps its value |
| `DataflowGraph.Dataflow.MergeNodes` | compiler/src/DFG.py:202-257 | the in-place updates of nodes, forward and backward edges yield that graph |
| `BuildGraph.Build` | compiler/src/DFG.py:33-59 | the graph of a single-assignment program is integral, acyclic, and has the program's run as model |
| `BuildGraph.RunIsModel` | compiler/src/IR.py:158-164 | what a single-assignment program leaves in memory satisfies each of its instructions |
| `DfgSchedule.ToLlir` | compiler/src/DFG.py:260-293 | succeeds exactly on acyclic graphs, and emits every node exactly once after what it reads |
| `Dfg.OrderComputesOutputs` | compiler/src/DFG.py:260-293 | running the emitted list computes the program outputs of the graph |
| `Dfg.OrdersAgree` | compiler/src/DFG.py:277-284 | the outputs do not depend on what the worklist pops |
| `Clusterizer.MergeScore` | compiler/src/clusterization/basic_clusterizer.py:145-187 | -1 only for a merge that exceeds a limit, does not fit the registers or creates a cycle; otherwise the inputs and outputs saved by a valid merge |
| `Clusterizer.SoleSuccessor` | compiler/src/clusterization/basic_clusterizer.py:82-85 | no longer path joins a node and its only successor, so no check is needed |
| `Clusterizer.OneSuccessorOutputs` | compiler/src/clusterization/basic_clusterizer.py:80-104 | after such a merge the outputs are the successor's and the candidate's own program outputs |
| `Clusterizer.OneSuccessorWithin` | compiler/src/clusterization/basic_clusterizer.py:80-104 | the merged node is within l_out if and only if the successor's outputs and the candidate's own program outputs number at most l_out |
| `ClusterLimits.MergeCanExceedOutputs` | compiler/src/clusterization/basic_clusterizer.py:80-104 | a two-node graph within all limits whose accepted merge has more than l_out outputs |
| `Clusterizer.MergeKeeps` | compiler/src/clusterization/basic_clusterizer.py:78-274 | a merge keeps the meaning, the limits l_in and s, and that every output is needed |
| `ClusterLoops.ShouldMergeWithNext` | compiler/src/clusterization/basic_clusterizer.py:80-104 | accepts a valid merge with the only successor, and refuses only without exactly one successor or when the merged node is too large |
| `ClusterLoops.MergeOneOutputNodes` | compiler/src/clusterization/basic_clusterizer.py:106-142 | both loops end, within l_in and s, with the same meaning, and merge when some merge is possible; the second leaves no node to merge |
| `ClusterLoops.MergeParentsChilds` | compiler/src/clusterization/basic_clusterizer.py:189-243 | both loops end, within l_in, l_out and s, with the same meaning, and merge when some valid merge exists; the second, when it skips nothing, leaves none |
| `ClusterLoops.MergeSiblings` | compiler/src/clusterization/basic_clusterizer.py:246-274 | the loop ends, within l_in, l_out and s, with the same meaning, merges when two siblings are worth it, and when it skips nothing leaves no such two |
| `ClusterLoops.Clusterize` | compiler/src/clusterization/basic_clusterizer.py:277-314 | the three loops composed: for every flag, fewer nodes unless no two of the given ones can be merged, and without `fast` no two siblings worth merging are left |
| `Midend.BuildAndCluster` | compiler/src/clusterization/basic_clusterizer.py:277-314 | the clusterized graph has the program's run as model, no new cell, without dead code only needed outputs, and fewer nodes than the program has instructions unless none could be merged |
| `Midend.Compile` | compiler/src/clusterization/basic_clusterizer.py:277-314 | graph, merges and emission: the ordered list computes the program's outputs |
| `Midend.CompileProgram` | compiler/src/main.py:85-99 | without universalization, up to the ordered multi-instructions, every output is kept for all inputs and opcode interpretations, and what could be merged was |
| `Layerize.LayerNodes` | compiler/src/universalization/rectangularize.py:193-220 | ends on every acyclic graph, whatever the iteration order; a node's layer is the least one after all its predecessors |
| `Rectangularize.Layering.MakeAlternative` | compiler/src/universalization/rectangularize.py:73-95 | a copy in the middle layer, in a node within the limits, with the origin of the cell it copies |
| `Rectangularize.Layering.BreakEdge` | compiler/src/universalization/rectangularize.py:115-169 | the reader takes a copy from the layer just before it, and nothing else but that layer changes |
| `Rectangularize.Layering.SegregateLayers` | compiler/src/universalization/rectangularize.py:172-190 | afterwards every node behind the first layer reads only the layer before it |
| `Rectangularize.TightIsRectangular` | compiler/src/universalization/rectangularize.py:4-51 | then nodes of the first layer read only program inputs, the others only outputs of the layer before |
| `Rectangularize.Rectangularize` | compiler/src/universalization/rectangularize.py:222-233 | rectangular, within l_in, l_out and s, and every model of the graph carries over |
| `Copies.ChangeIntegral` | compiler/src/DFG.py:33-59 | a changed node whose edges follow its inputs and outputs leaves the graph integral |
| `Tracking.TracksExtend` | compiler/src/universalization/rectangularize.py:73-95 | a new cell that copies an old one, or is zero, carries every model over |
| `Tracking.TracksRewire` | compiler/src/universalization/rectangularize.py:61-71 | so does reading cells of the same origin |
| `Tracking.TrackedOutputs` | compiler/src/universalization/universalizer.py:9-61 | then the outputs, run in any order, are those of the graph before |
| `Universalize.AddDepthPadding` | compiler/src/universalization/universalizer.py:63-75 | one node in each added layer, up to the requested depth |
| `Masking.AddInputMaskingLayer` | compiler/src/universalization/universalizer.py:77-131 | a first layer copies all program inputs, l_in at a time and with one node padded to l_out outputs, and nothing else reads them |
| `Propagation.PropagateOutputs` | compiler/src/universalization/universalizer.py:135-211 | all program outputs are defined in a new last layer, for every order of the sets; its nodes copy the distinct outputs, l_out at a time |
| `Matching.EqualizeLayers` | compiler/src/universalization/universalizer.py:214-235 | all layers between the first and the last have the width of the widest or the requested one, and the first and the last keep their sizes |
| `Matching.PadInputs` | compiler/src/universalization/universalizer.py:261-272 | exactly l_in inputs, for every choice of an unused output of the layer before |
| `Matching.PadOutputs` | compiler/src/universalization/universalizer.py:274-297 | exactly l_out outputs, and the added zeros never exceed s |
| `Matching.MatchLayers` | compiler/src/universalization/universalizer.py:238-300 | every node between the first and the last layer has exactly l_in inputs and l_out outputs, within s |
| `Permuting.AddGroup` | compiler/src/universalization/universalizer.py:335-359 | a node in a layer of its own that reads exactly the cells of one window and whose outputs are the new wires, moved as its shuffle says |
| `Permuting.AddRows` | compiler/src/universalization/universalizer.py:367-378 | after all rows, wire j has the origin that the program's index map sends there; the inserted nodes and what they read are those of the shape |
| `PermuteLayers.PermuteBetween` | compiler/src/universalization/universalizer.py:305-402 | a network between two layers, whose nodes then read its wires in order, cells of the same origins; nodes and edges depend on the numbers of outputs and inputs alone; there is none exactly when there is no position at all |
| `PermuteLayers.AddPermutation` | compiler/src/universalization/universalizer.py:304-402 | between every two layers; the program outputs stay in the last one, and layers, nodes and edges are `Topology.Layout` of the sizes of the nodes before |
| `Topology.NetworkSeals` | compiler/src/universalization/universalizer.py:335-398 | every wire behind a network is an output of one of its nodes: no cell passes by |
| `Topology.BehindReads` | compiler/src/universalization/universalizer.py:386-402 | every input of a node behind a network is an output of a node of that network |
| `Topology.NetworkLayers` | compiler/src/universalization/universalizer.py:367-378 | a network has one node for each window of its shape |
| `Universalize.UniversalizeGraph` | compiler/src/universalization/universalizer.py:9-61 | succeeds exactly when there are program inputs and something to place; the graph is integral, acyclic, within l_in, l_out and s, program outputs come only from the last layer and no node reads them, every model carries over, and layers, nodes and edges are those that the numbers of inputs and distinct outputs, depth and width determine |
| `Universalize.PadGraph` | compiler/src/universalization/universalizer.py:30-54 | before the networks, the sizes of all nodes are determined by the numbers of inputs and distinct outputs, depth and width |
| `Universalize.UniformAlike` | compiler/src/universalization/universalizer.py:9-61 | graphs universalized from two programs with the same numbers agree in layers, nodes, numbers of inputs and outputs, and the place each input comes from |
| `Universalize.EmitUniversal` | compiler/src/universalization/universalizer.py:9-61 | emitted in any order, the universalized graph computes the outputs of the given one, and has the topology of its numbers |
| `RegAlloc.StuckExactlyWhenExhausted` | compiler/src/lowering/reg_alloc.py:63-88 | a run gets stuck exactly when the count of free registers, which no choice influences, is exhausted |
| `RegAlloc.NoInterference` | compiler/src/lowering/reg_alloc.py:40-89 | a variable that is still read shares its register with no later definition, for every choice, also with repeated and unused inputs as long as no register is handed out before the last read of a used input behind them |
| `RegAlloc.UnsafeCanClash` | compiler/src/lowering/reg_alloc.py:57-61 | without that condition some choice gives the register of an input still to be read to another variable, and the allocation then fails or ends in a mapping in which both share it |
| `AllocationLimits.InputCanBeLost` | compiler/src/lowering/reg_alloc.py:52-61 | a two-instruction input and a complete allocation on which that happens |
| `RegAlloc.UnexposedIsKept` | compiler/src/lowering/reg_alloc.py:32-36 | an output with no non-output born at or after its last internal read keeps its register, for every choice |
| `RegAlloc.ExposedCanBeOverwritten` | compiler/src/lowering/reg_alloc.py:77-79 | otherwise some choice of free registers overwrites it |
| `AllocationLimits.OutputCanBeLost` | compiler/src/lowering/reg_alloc.py:77-79 | a three-instruction input on which that happens |
| `Lowering.LoweredReadsAgree` | compiler/src/lowering/lowering.py:5-31 | each operand of the lowered sequence holds the value of its variable |
| `Lowering.OutputAgrees` | compiler/src/lowering/lowering.py:5-31 | such an output ends in register r-l_out+i |
| `Allocator.ComputeLiveIntervals` | compiler/src/lowering/reg_alloc.py:16-38 | births and deaths are first definitions and last reads |
| `Allocator.GetRegistersMapping` | compiler/src/lowering/reg_alloc.py:40-89 | the mapping is the end of such a run; under the condition on inputs, failure does not depend on the choices |
| `Allocator.NeedsLeqKRegisters` | compiler/src/lowering/reg_alloc.py:91-103 | under the condition on inputs, the answer is the count of free registers never running out |
| `Allocator.LowerMultiInstruction` | compiler/src/lowering/lowering.py:5-31 | the lowered sequence computes what the multi-instruction computes, cell 0 standing in for an empty list of inputs |
| `BigEndian.FromToBytes` | compiler/src/code_gen/serializer.py:80-81 | big-endian bytes are read back |
| `BigEndian.LoadU32Is` | runtime/utils.c:8-37 | the per-width C expressions read the positional value, exactly for widths 1 to 4 |
| `BigEndian.U32ToBytesIs` | runtime/utils.c:102-127 | the C writer writes what the Python writer writes |
| `BigEndian.WidthFits` | compiler/src/code_gen/serializer.py:173-176 | every index below a count fits the width both sides derive from the count |
| `LlsCode.SerializeLls` | compiler/src/code_gen/serializer.py:107-166 | fails exactly when an instruction has a register out of range or a shape without code |
| `LlsCode.DecodeWritten` | runtime/SEalgo.c:209-306 | decoding gets the sequence back over all 14 operand shapes and consumes exactly the bytes |
| `LlsCode.LlsExecute` | runtime/SEalgo.c:209-306 | succeeds exactly on accepted byte strings, and leaves the registers as direct execution would |
| `LlsCode.ExecuteIsRun` | runtime/SEalgo.c:141-194 | direct execution is the meaning of the instruction sequence |
| `Bytecode.NumbersDiffer` | compiler/src/code_gen/serializer.py:193-218 | input batches and multi-instructions never share an instrID |
| `Bytecode.ReadWrittenListing` | runtime/interpreter.c:94-142 | parsing inverts serialization for every listing that fits the format |
| `Serializer.Serialize` | compiler/src/code_gen/serializer.py:168-277 | the file is written exactly when nothing raises, with the IDs that id_dict holds |
| `Serializer.ListingForFits` | compiler/src/code_gen/serializer.py:168-277 | what is written fits the format |
| `Reader.Cursor.LoadBytes` | runtime/interpreter.c:15-44 | the number at the cursor, which moves past it |
| `Reader.Cursor.LoadMi` | runtime/interpreter.c:108-141 | one multi-instruction is parsed, and the cursor stands behind it |
| `Reader.Cursor.LoadListing` | runtime/interpreter.c:94-142 | the cursor loops compute the parsed program |
| `SecureElement.TokenAccepted` | runtime/SEalgo.c:375-434 | the token of a batch is accepted with that batch |
| `SecureElement.SeInput` | runtime/SEalgo.c:375-475 | accepts exactly when the token opens; answers the previous token and the encrypted words |
| `SecureElement.WordRoundTrip` | runtime/SEalgo.c:76-129 | a word encrypted under an ID opens under that ID |
| `SecureElement.LoadWords` | runtime/SEalgo.c:76-104 | the opened inputs fill the first registers |
| `SecureElement.StoreWords` | runtime/SEalgo.c:106-139 | the last registers are encrypted under (instrID, i), or stored in clear |
| `SecureElement.LlsNonceIs` | runtime/SEalgo.c:41-48 | the runtime rebuilds the nonce the serializer used |
| `SecureElement.SeEval` | runtime/SEalgo.c:477-525 | succeeds exactly when everything opens, and returns what the decrypted sequence computes |
| `InputPhase.Hashes` | runtime/interpreter.c:187-205 | batches and hash chain |
| `InputPhase.EncryptInputs` | runtime/interpreter.c:187-219 | every SEinput call of the descending loop is accepted, and input k ends up encrypted under its ID |
| `Simulation.OutputClear` | compiler/src/code_gen/serializer.py:242-247 | a program output that some multi-instruction produces ends up in clear |
| `Simulation.InputsOpen` | runtime/SEalgo.c:76-104 | on simulating memory every input opens to the program's word |
| `Simulation.MiEvaluates` | runtime/SEalgo.c:477-525 | evaluating a serialized multi-instruction never fails a decryption |
| `Interpreter.StepKeeps` | runtime/interpreter.c:221-235 | at every step each cell holds its word, in clear or under the ID id_dict holds for it |
| `Interpreter.ParsesBack` | runtime/interpreter.c:144-185 | the parser gets back what was serialized and stops at the end of the file |
| `Interpreter.RunAll` | runtime/interpreter.c:221-235 | no multi-instruction of a runnable program fails |
| `Interpreter.Interpret` | runtime/interpreter.c:144-242 | on serialized code the result is the program's outputs |
| `Interpreter.SerializeAndInterpret` | runtime/interpreter.c:144-242 | serializing and interpreting a runnable program gives its outputs |
| `Linking.LoweredInRange` | compiler/src/lowering/reg_alloc.py:40-89 | lowered sequences stay in the register file and can be serialized |
| `Linking.LoweredEvaluates` | runtime/SEalgo.c:477-525 | the element returns what the multi-instruction computes, whatever the registers held before |
| `Backend.NodeRegular` | compiler/src/main.py:61-65 | with r >= l_in + l_out every node within the limits can be given to the allocator |
| `Backend.LowerAllNodes` | compiler/src/DFG.py:260-293 | every node of the order lowered in turn; under the condition on inputs exactly when all have enough registers |
| `LoweredRuns.OutputRight` | runtime/SEalgo.c:477-525 | on a memory that holds the live cells, a lowered node gives each live unexposed output its value, whatever the registers held |
| `LoweredRuns.LiveCellsRight` | runtime/interpreter.c:221-235 | at every step of the lowered program every live cell so far has the value the graph gives it |
| `LoweredRuns.ResultsRight` | runtime/interpreter.c:236-242 | so the lowered program returns the graph's outputs |
| `LoweredRuns.ReturningClean` | compiler/src/lowering/reg_alloc.py:77-85 | graphs whose nodes return everything they compute meet the conditions of the allocator |
| `Dfg.OutputsReturned` | compiler/src/DFG.py:166-200 | a graph that assigns only program outputs is such a graph |
| `Revealing.UniversalUnread` | compiler/src/universalization/universalizer.py:135-211 | after universalization no node reads an output of a node that returns a program output |
| `Revealing.LoweredRunnable` | compiler/src/code_gen/serializer.py:242-247 | then revealed cells are never read and every program output is revealed |
| `Compiler.CompileUniversal` | compiler/src/main.py:85-114 | ends with a lowered program that returns the source program's outputs, or with a node beyond the limits, nothing to universalize, or too few registers; no pass is skipped: no dead code or copies are left, what could be merged was, and the graph has the topology of its numbers |
| `Compiler.CompileAndRun` | compiler/src/main.py:85-118 | compiled, universalized, lowered, serialized and interpreted, a program returns what it computes, for every input, opcode interpretation and choice, when the lowered graph meets the conditions of the allocator, so when the clusterized nodes return everything they compute, and outright when the program does |
| `SeProtocol.NextKeeps` | runtime/SEalgo.c:311-475 | whatever is called, issued tokens carry the hash their execution committed to |
| `SeProtocol.SameIndexSameBatch` | runtime/SEalgo.c:375-475 | over every interleaving, two accepted calls for one execution and index used the same hash and batch |
| `SeProtocol.NonceOnce` | runtime/SEalgo.c:448-474 | no two different words are encrypted under one nonce by SEinput |
| `SeProtocol.NonceNeverReused` | runtime/SEalgo.c:375-525 | over every interleaving of the three calls, no two different words are encrypted under one nonce by SEinput or SEeval, in executions whose header keeps batch numbers away from the multi-instructions that encrypt their results |
| `SeProtocol.OverlapReuses` | runtime/SEalgo.c:311-525 | under any other header some run encrypts two different words under one nonce |
| `SeProtocol.NonceExact` | runtime/SEalgo.c:311-525 | for compiled programs the two together: if and only if |
| `SeProtocol.OverlapExample` | runtime/SEalgo.c:347-351 | a program with one input and one multi-instruction, and a header that says two inputs |
| `SeProtocol.CompiledNumbers` | compiler/src/code_gen/serializer.py:193-218 | the serializer's numbers keep multi-instructions apart from each other, and from the input batches under the count it writes |
| `SeProtocol.CompiledIds` | compiler/src/code_gen/serializer.py:187-233 | what a multi-instruction reads has a smaller number and an index below l_out |
| `SeProtocol.ExecutionIsCommitted` | runtime/SEalgo.c:311-434 | when every index was accepted, the batches are exactly those of the committed hash |
| `SeProtocol.DescendingAccepted` | runtime/interpreter.c:212-219 | with the token the previous call answered, every index is accepted |
| `ElementBinding.TokenAdBinds` | runtime/SEalgo.c:353-357 | the data of a token determine hash, index and execution |
| `ElementBinding.WordAdBinds` | runtime/SEalgo.c:106-129 | the data of a word determine execution, number and output |
| `ElementBinding.AdBytesBinds` | runtime/SEalgo.c:41-60 | the data of a multi-instruction determine its number, flag, input IDs and output count |
| `ElementBinding.HashChainBinds` | runtime/utils.c:241-253 | a chained hash is asked for the previous hash and the batch, and for nothing else |
| `ElementBinding.QueriesBind` | runtime/SEalgo.c:33-39 | the four kinds of prefixed queries never ask the hash for the same bytes unless all their parts agree |
| `SymbolicImage.StartImage` | runtime/SEalgo.c:311-373 | `SEstart` answers the byte images of the symbolic answer |
| `SymbolicImage.InputImage` | runtime/SEalgo.c:375-475 | `SEinput` accepts the image of an accepted call, and answers the images of its answer |
| `SymbolicImage.EvalOpensImage` | runtime/SEalgo.c:477-525 | `SEeval` opens the image of an evaluation that opens |
| `SymbolicImage.EvalImage` | runtime/SEalgo.c:477-525 | and answers the images of the words it issues, or the words in clear |
| `Sparkle.PermuteInverts` | runtime/sparkle/schwaemm/sparkle.c:39-133 | the inverse permutation undoes the permutation for every state, branch count and number of steps |
| `Sparkle.PermuteInvInverts` | runtime/sparkle/schwaemm/sparkle.c:39-133 | and the other way round |
| `WordBits.RotBit` | runtime/sparkle/schwaemm/sparkle.c:27 | `ROT(x, n)` moves bit i to position i - n, around the word |
| `WordBits.XorBit` | runtime/sparkle/schwaemm/sparkle.c:39-84 | bit i of an exclusive or is set exactly when the bits differ |
| `WordBits.EllHalves` | runtime/sparkle/schwaemm/sparkle.c:28 | of the halves h and l of a word `ELL` makes l and h xor l |
| `WordBits.StepsDiffer` | runtime/sparkle/schwaemm/sparkle.c:39-84 | two steps agree on a state exactly when their counters agree, so every step has its own constants |
| `SparkleInPlace.LinearLayer` | runtime/sparkle/schwaemm/sparkle.c:64-82 | the shifting loop computes the linear layer in place |
| `SparkleInPlace.LinearLayerInv` | runtime/sparkle/schwaemm/sparkle.c:93-112 | the shifting loops of the inverse compute its inverse in place |
| `SparkleInPlace.SparklePermutation` | runtime/sparkle/schwaemm/sparkle.c:39-84 | the loops compute the permutation |
| `SparkleInPlace.SparklePermutationInv` | runtime/sparkle/schwaemm/sparkle.c:87-133 | the loops compute the inverse |
| `SparkleInPlace.RoundTrip` | runtime/sparkle/schwaemm/sparkle.c:39-133 | running both restores the state array |
| `Schwaemm.RhoAgrees` | runtime/sparkle/schwaemm/schwaemm.c:237-330 | absorbing the ciphertext of a block leads to the same state as absorbing the block |
| `Schwaemm.CompleteIsCipher` | runtime/sparkle/schwaemm/schwaemm.c:338-362 | completing a truncated last block from the state yields the untruncated one |
| `Schwaemm.CipherTextInverts` | runtime/sparkle/schwaemm/schwaemm.c:507-536 | both directions keep the same states, and decryption returns the message |
| `Schwaemm.DecryptInverts` | runtime/sparkle/schwaemm/schwaemm.c:546-599 | decryption undoes encryption and accepts, for every key, nonce, message and associated data |
| `SchwaemmBinding.InitialBinds` | runtime/sparkle/schwaemm/schwaemm.c:372-380 | the state after the key and the nonce determines both |
| `SchwaemmBinding.RhoWhitens` | runtime/sparkle/schwaemm/schwaemm.c:183-231 | what a word of the rate becomes tells the word of the capacity that whitens it |
| `SchwaemmBinding.LastBlockBinds` | runtime/sparkle/schwaemm/schwaemm.c:389-416 | different last blocks, full or padded, lead to different states |
| `SchwaemmBinding.AssocDataBinds` | runtime/sparkle/schwaemm/schwaemm.c:389-416 | associated data with the same blocks before the last and different last blocks lead to different states |
| `SchwaemmBinding.OpenedBinds` | runtime/sparkle/schwaemm/schwaemm.c:546-569 | for any associated data the state determines key and nonce |
| `SchwaemmBinding.OpenedBindsData` | runtime/sparkle/schwaemm/schwaemm.c:546-569 | for one key and nonce the state determines the last block of the associated data |
| `SchwaemmBinding.MessageBinds` | runtime/sparkle/schwaemm/schwaemm.c:425-453 | for one state, messages with the same blocks before the last and different last blocks lead to different states |
| `SchwaemmBinding.TagBinds` | runtime/sparkle/schwaemm/schwaemm.c:484-498 | the tag determines the capacity, given the key, and the key, given the capacity |
| `SchwaemmBinding.NonceEnters` | runtime/sparkle/schwaemm/schwaemm.c:546-569 | encryptions under different nonces are told apart by the empty message or by any message of one block |
| `SchwaemmBinding.DataEnters` | runtime/sparkle/schwaemm/schwaemm.c:546-569 | so are encryptions with associated data that differ in the last block |
| `SchwaemmInPlace.Absorb` | runtime/sparkle/schwaemm/schwaemm.c:183-231 | the in-place loop of rho and rate whitening for associated data |
| `SchwaemmInPlace.EncryptBlock` | runtime/sparkle/schwaemm/schwaemm.c:237-297 | the in-place loop for encryption: new state and ciphertext block |
| `SchwaemmInPlace.DecryptBlock` | runtime/sparkle/schwaemm/schwaemm.c:304-362 | the in-place loop for decryption |
| `SchwaemmInPlace.ProcessAssocData` | runtime/sparkle/schwaemm/schwaemm.c:389-416 | the block loop absorbs the associated data |
| `SchwaemmInPlace.ProcessPlainText` | runtime/sparkle/schwaemm/schwaemm.c:425-453 | the block loop, also when input and output are the same buffer |
| `SchwaemmInPlace.ProcessCipherText` | runtime/sparkle/schwaemm/schwaemm.c:507-536 | the block loop, also when input and output are the same buffer |
| `SchwaemmInPlace.VerifyTag` | runtime/sparkle/schwaemm/schwaemm.c:484-498 | 0 exactly when the tag is the capacity part, -1 otherwise |
| `SchwaemmInPlace.AeadEncrypt` | runtime/sparkle/schwaemm/schwaemm.c:546-569 | ciphertext and tag in the output buffer, nothing beyond them changed |
| `SchwaemmInPlace.AeadDecrypt` | runtime/sparkle/schwaemm/schwaemm.c:576-599 | the message in the output buffer, and 0 exactly when the tag matches |
| `SchwaemmInPlace.AeadRoundTrip` | runtime/sparkle/schwaemm/schwaemm.c:546-599 | encrypting and decrypting a buffer in place restores it and reports success |

## Left out

- The C front end (normalization, alpha conversion, AST to HLIR): visitors over a parser library; the model starts from HLIR.
- Arithmetic of the opcodes: only MOV is interpreted, the others are an arbitrary function.
- NOP in the serializer: no pass emits it; the runtime's handling of NOP bytes is modelled.
- Word sizes other than 32 bits, and `log2`/`log2f` in floating point: the widths use the exact ceiling of the logarithm.
- Hash function ESCH and the sealed box of the header: arbitrary functions; the protocol model makes the hash injective.
- Byte order: words are copied to and from bytes in little-endian order, as on the platforms the C code targets; alignment and casts are not modelled.
- Memory that C reads out of bounds: the model stops with a failure there.
- Partial output of `serialize` when it raises half way: the model returns no file.
- Compiler.CompileAndRun: asks that cell 0 is a program input when there is one, as the front end numbers them (compiler/src/frontend/AST_to_IR.py:29-39), and stops with a result of its own where clusterization left l_in, l_out or s, on which the padding loops of the universalizer do not end.
- In the protocol model a multi-instruction is a deterministic function of the words it opens.
- The register test during clusterization is an arbitrary predicate, so the results hold whatever it answers.
- `add_permutation` clears the forward edges of a layer before it adds the network (compiler/src/universalization/universalizer.py:312-315); the model drops them when the reader is rewired. It inserts one layer per window of a row, where the code keeps no layers for these nodes.
- The last layer of `propagate_outputs_to_last_layer` is filled with the loop used for the other layers, which takes the first node with room; it fills the same nodes.
- Universalize.UniversalizeGraph: states depth and width of the result as at least the requested ones; a program that is deeper or wider than requested shows its own depth or width.
- SchwaemmBinding.AssocDataBinds: compares associated data with the same blocks before the last; that two longer ones never collide is a matter of cryptography.
- Statistics, messages and the order of warnings.
- `ForwardDupLowDepth`, graph colouring, `extract_outputs`, `fix_outputs`, the naive clusterizer: unused by the compiler.
