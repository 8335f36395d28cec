# Moscow ML: verified models of its core algorithms

Dafny models of the algorithms that the Moscow ML system rests on, with proofs of what they promise.
Every file is one module of the same name. `dafny verify dfyconfig.toml` verifies all of them.

**The parser generator mosmlyac and the engine that runs its tables.** `Grammars` and `Trees` say what
packed grammars, LR(0) automata and parse trees are. `Warshall`, `Closures` and `Lr0` build the LR(0)
collection. `Gotos`, `Relations`, `Traversals`, `Digraph`, `Lookahead` and `Lalr` compute LALR(1) lookahead sets by
the relations of DeRemer and Pennello. `Conflicts` settles conflicts by precedence and picks default
reductions, `Reduction` shows what default reductions can and cannot do. `Vectors`, `Packing` and
`Output` pack the tables by row displacement, and `Generator` runs the whole. `Machine` is the
pushdown automaton that the packed tables drive; `Delays`, `Nesting` and `Completeness` are about its
runs.
`ParsingEngine` is the resumable engine with its real stacks, and its ML driver. Together: for a
grammar without conflicts the engine returns exactly the parse trees of the grammar, for every
grammar what it returns is a parse tree of what it read, and in that tree all binary operators nest as
their precedences and associativities say.

**The garbage collector.** `Heaps` is a map from header addresses to blocks that lie end to end in
chunks. `Tricolor` relates it to the objects as the program sees them (a "world": the objects, and
where each is kept), with the invariants of the snapshot-at-start marker. `Marking`, `Sweeping` and
`Collectors` are the incremental major collector with its gray stack that may overflow; `Allocation`
and `FreeLists` are allocation in the major heap and the address-ordered free list; `Minor` is the
copying minor collection; `Barrier` and `Objects` are `Modify`, `Alloc_small`, `alloc_shr`
and `initialize`. `Mutators` puts them together: every run on the collected heap behaves as on a
memory where nothing is ever moved or freed.

**Structured output in the compact format.** `Compact` says what is written for a value and what is
read from any bytes, on machines with words of eight or of four bytes. `CompactRoundTrip` and
`CompactGraphs` prove when a graph, with its sharing and cycles, comes back. `ExternTables` is the open-addressing table of the objects already written, and
`CompactChannels` has the writer and the reader themselves.

**Structured output in the fast format.** `FastFormat` says what an image of a graph is, `FastWriter`
has the writer, which scans its own copies, and `FastReader` the reader, which turns offsets into
pointers in place, with the round trip. `Widening` and `WideCopies` are the reader of 32-bit images on
64-bit machines, with its forwarding words.

**Bytecode and threaded code.** `Bytecode` describes instructions and where they lie; `Encoding` has the
bytes that the compiler writes for them, and `Emission` its buffer with backpatched labels. `Expansion`
translates bytecode to threaded code, `Interpreter` has the control instructions, `InstructionLaws`
proves what they do, one at a time and several together (calls and returns, partial applications,
exceptions, signals), and `Threading` that every run of the bytecode is a run of the threaded code.

**Tagged integer arithmetic.** `Arithmetic` has the integer instructions of the interpreter, among
them the multiplication in half-word chunks and the floored division.

Conventions. A method that works in place is proved against a function or predicate on the values
before and after. A result that may be missing, or a flag `ok`, stands for the program's fatal error or
exception, and the contract says when it comes. Random choices of the outside world (what `malloc`
returns, how much work a collector slice may do, how the heap grows) are arbitrary.

Six places where the code does not do what one would expect are kept as they are, each with the exact
condition and an input:

- `SMLMULINT` raises Overflow for one pair of representable products (`Arithmetic`).
- `digraph` loses tokens for 32766 or 32767 vertices, when its mark for finished vertices does not fit
  in a short (`Digraph`).
- The compact format loses data of blocks with 2^22 fields or more and strings of 2^32 bytes or more,
  although its writer checks the total size (`CompactGraphs`).
- The fast format loses weak arrays that hold anything but integers, because its writer replaces their
  fields and its reader does not (`FastReader`, `WideCopies`).
- On 64-bit machines, 32-bit images with objects of 2^21 words or more cannot be read, because the sign
  of their headers is extended (`Widening`, `WideCopies`).
- Extending the heap during a sweep at certain addresses leaves the free list's merge pointer behind
  (`FreeLists`).

## Model

| member | source | states |
|---|---|---|
| Warshall.TransitiveClosure | src/mosmlyac/warshall.c:3-52 | Warshall's algorithm in place: afterwards row i holds j exactly when a path of at least one edge leads from i to j. |
| Warshall.ReflexiveTransitiveClosure | src/mosmlyac/warshall.c:54-80 | The rows become the reflexive transitive closure: row i holds j exactly when j can be reached from i. |
| Closures.SetEFF | src/mosmlyac/closure.c:11-44 | EFF relates two variables exactly when the second can begin, through leading variables of rules, what the first derives. |
| Closures.SetFirstDerives | src/mosmlyac/closure.c:47-101 | The row of a variable holds exactly the rules of all variables that it reaches through EFF. |
| Closures.Closure | src/mosmlyac/closure.c:104-173 | The merge of the nucleus with the ruleset gives, sorted and without duplicates, exactly the items of the least LR(0) closure of the nucleus. |
| Closures.ClosureMeans | src/mosmlyac/closure.c:104-173 | The closure defined as a least fixed point is the nucleus and the openings of all rules opened by it; this connects the fast form with the fixed point. |
| Lr0.SaveReductions | src/mosmlyac/lr0.c:427-473 | Of a closed item set, exactly the rules whose items are complete are recorded, in ascending order. |
| Lr0.NewItemsets | src/mosmlyac/lr0.c:244-276 | For each symbol other than the end marker after a dot, the kernel of its successor is exactly the advanced items in order; each such symbol is listed once. |
| Lr0.SortSymbols | src/mosmlyac/lr0.c:85-111 | The insertion sort leaves the same symbols in ascending order. |
| Lr0.Builder.GetState | src/mosmlyac/lr0.c:154-213 | Finds the state with the given kernel through its hash chain, or appends it; gives up exactly when the kernel is new and there are already MAXSHORT states. |
| Lr0.Builder.NewState | src/mosmlyac/lr0.c:280-314 | Appends a state with the kernel of the symbol, and keeps every hash chain complete and free of repetitions. |
| Lr0.GenerateStates | src/mosmlyac/lr0.c:127-150 | The worklist ends with exactly the LR(0) automaton: no two states with one kernel, all reachable, each shift list sorted with one target per symbol after a dot, and the kernels exactly the advanced items. It fails only if more than MAXSHORT distinct kernels are reachable. |
| Trees.SetNullable | src/mosmlyac/lr0.c:535-581 | The table marks exactly the variables that have a parse tree with an empty yield. |
| Gotos.SetGotoMap | src/mosmlyac/lalr.c:180-243 | The counting sort numbers every move on a variable exactly once, grouped by variable and ascending by state; it fails if and only if there are more than MAXSHORT moves. |
| Gotos.GotoTable.MapGoto | src/mosmlyac/lalr.c:249-271 | The binary search finds the number of the move of a state on a variable: its assertion never fails. |
| Digraph.Digraph | src/mosmlyac/lalr.c:565-644 | Tarjan's traversal ends with each row equal to the union of the original rows of all vertices reachable from its own, on every relation, cyclic or not, whose number of vertices plus two fits in a short; for up to MAXSHORT vertices it leaves what the traversal with a wrapped mark leaves. |
| Traversals.Traversal.Traverse | src/mosmlyac/lalr.c:591-644 | The recursive procedure on the arrays computes the traversal as a function of their contents, whatever the mark for finished vertices is. |
| Digraph.WrappedRow | src/mosmlyac/lalr.c:565-644 | With 32766 or 32767 vertices the mark for finished vertices wraps to a negative number, and on a relation with three edges a row misses a token that its vertex reaches. |
| Relations.StarLeast | src/mosmlyac/lalr.c:565-644 | These rows are the least ones that contain the original rows and are closed under the relation. |
| Lalr.InitializeF | src/mosmlyac/lalr.c:275-348 | The rows hold exactly the tokens that a move directly reads, and the read relation relates two numbers exactly when the second move follows the first over a nullable variable. |
| Lalr.BuildRelations | src/mosmlyac/lalr.c:352-441 | The include relation relates exactly the moves that the includes relation of the grammar relates, and each reduction gets exactly the numbers of the moves it looks back to. |
| Lalr.Transpose | src/mosmlyac/lalr.c:470-521 | The result has an edge exactly where the argument has the opposite one. |
| Lalr.ComputeLookaheads | src/mosmlyac/lalr.c:531-562 | Each set is exactly the union of the rows of the moves that its reduction looks back to. |
| Lalr.FollowIsLeast | src/mosmlyac/lalr.c:525-528 | Closing the read sets and then the follow sets with digraph gives the least solution of the equations for reads and includes. |
| Lalr.ComputeLalr | src/mosmlyac/lalr.c:52-67 | For every state and complete rule the lookahead set is exactly the union of the least follow sets of the moves it looks back to, if the number of moves plus two fits in a short; fails if and only if the moves cannot be numbered; the sets hold tokens only in any case. |
| Reduction.DefaultReductionsOnlyDelay | src/mosmlyac/mkpar.c:316-352 | If a rule is reduced on a token outside its lookahead set, then after any further reductions, whichever they are, the token can still not be shifted. |
| Delays.WrongTokenNeverShifted | src/runtime/parsing.c:88-151 | In every run of the tables, once a default reduction has been made on a wrong token, the input stays as it was: the token is never shifted. |
| Conflicts.GetShifts | src/mosmlyac/mkpar.c:56-87 | The action list holds exactly the shifts of the state on tokens, in order, each with the precedence and associativity of its token. |
| Conflicts.AddReductions | src/mosmlyac/mkpar.c:89-148 | Keeps all shifts and enters exactly one reduction for each rule and each token of its lookahead set, with the precedence of the rule, so that the list stays ordered by symbol, shifts first, rules ascending. |
| Conflicts.RemoveConflicts | src/mosmlyac/mkpar.c:202-293 | Only the suppression marks change. Afterwards an action is live exactly when it wins on its symbol: the first one if it has no precedence, else the first of those with the highest precedence, but if the shift has it too, its associativity decides (left: the first reduction that ties, right: the shift, neither: none). On the end marker in the final state the first action wins. |
| Conflicts.SoleReduction | src/mosmlyac/mkpar.c:316-342 | Returns a rule exactly when the state has no shift at all, not even a suppressed one, all its live reductions are by that rule, and one of them is on a token other than the error token. |
| Output.DefaultGoto | src/mosmlyac/output.c:305-336 | The default is a state to which most of the moves on the variable lead. |
| Output.SaveColumn | src/mosmlyac/output.c:340-378 | The column maps a state to its target exactly for the moves that do not lead to the default. |
| Packing.SortActions | src/mosmlyac/output.c:380-412 | The order lists every nonempty vector once, the widest first and among those the longest first. |
| Packing.MatchingVector | src/mosmlyac/output.c:477-512 | A match is an earlier vector with the same contents; for a vector of shifts or reductions, no match means that no earlier vector is the same. |
| Packing.Packer.PackVector | src/mosmlyac/output.c:516-588 | Places the vector at the first displacement where it fits (free places, a base that is not zero and not taken), writes it there and nothing else; fails only if every place that would fit reaches past the end of the table. |
| Packing.PackTable | src/mosmlyac/output.c:415-458 | Looking up any code at the base of any vector gives exactly the entry of that vector, or none; fails only when the vectors crowd the table. |
| Output.MakeTables | src/mosmlyac/output.c:187-303 | For every state and every code the packed tables give exactly the unsuppressed action of the state, and for every move on a variable its target, whether it is stored or the default. |
| Output.SmallTablesFit | src/mosmlyac/output.c:516-588 | A bound on states, symbols and codes under which the tables are never crowded, so that the generator must succeed. |
| Generator.FindFinalState | src/mosmlyac/mkpar.c:151-165 | The final state is the target of the first state on the goal symbol. |
| Generator.MakeParserTables | src/mosmlyac/main.c:384-389 | The whole generator: the tables refine a correct LALR(1) parser of the grammar, its conflicts settled by the given precedences, unless the grammar has 32766 moves on variables or more. It gives up only with too many states, that many moves, or a crowded table. |
| Machine.StepKeeps | src/runtime/parsing.c:88-165 | Every step keeps that the stack is a path of the automaton from state 0, that the values are parse trees for its symbols, and that their yields and the input ahead make up the tokens. |
| Machine.AcceptMeans | src/runtime/parsing.c:129-165 | When the entry rule is reduced, the value is a parse tree from the entry symbol, and its yield followed by what is ahead is the input. |
| Machine.Soundness | src/runtime/parsing.c:82-165 | Any run that accepts returns a parse tree of the grammar for a prefix of the input. |
| Completeness.AcceptsSentence | src/runtime/parsing.c:82-165 | Without conflicts, the run on the yield of any parse tree followed by the end marker accepts with that very tree. |
| Completeness.Unambiguous | src/mosmlyac/mkpar.c:202-293 | A grammar for which there are no conflicts is unambiguous: trees with the same yield are the same. |
| ParsingEngine.ParserEnv.GrowStacks | src/mosmllib/Parsing.sml:115-134 | The stacks get twice the size and keep their contents. |
| ParsingEngine.Engine.ParseEngine | src/runtime/parsing.c:72-167 | Each call of the resumable engine makes a number of moves of the machine and stops with the reply that the state it has reached calls for; the stack arrays change only in place. |
| ParsingEngine.YyParse | src/mosmllib/Parsing.sml:141-168 | The driver returns what the machine does: the value it accepts, a parse error, or nothing when calls run out. |
| ParsingEngine.ValueIsParse | src/mosmllib/Parsing.sml:141-168 | A value returned by the driver is a parse tree for a prefix of the tokens read. |
| ParsingEngine.SentencesParse | src/mosmllib/Parsing.sml:141-168 | Without conflicts the driver, given enough calls, returns for the yield of any parse tree that very tree. |
| Machine.RejectsExactly | src/runtime/parsing.c:88-128 | A parse error comes exactly when the state has no default reduction and no live action on the token. |
| Nesting.RowDecides | src/mosmlyac/mkpar.c:202-293 | Where a state can shift a token and reduce by a rule on it, the shift or the reduction is live only if the precedences prefer it. |
| Nesting.AcceptedNests | src/mosmlyac/mkpar.c:224-262 | In every tree that a run of the tables accepts, for rules e -> e op e: the right operand of an operator is such an operation only if the shift of its operator is preferred to the reduction of the outer rule, the left operand only if its reduction is preferred to the shift of the outer operator. |
| Nesting.Associates | src/mosmlyac/mkpar.c:242-255 | In such a tree, an operator whose rule has its precedence nests to the left only if it is declared left, to the right only if it is declared right, and not at all if it is declared neither. |
| ParsingEngine.ValueNests | src/mosmllib/Parsing.sml:141-168 | The same of every value that the driver returns. |
| Tricolor.MarkingDone | src/runtime/major_gc.c:518-571 | When no block is gray, exactly the blocks of the objects of the snapshot are black, so nothing that can be reached is left white. |
| Collectors.Collector.constructor | src/runtime/major_gc.c:719-771 | A new heap is one free block that tiles its chunk, nothing is young, and marking has started with an empty gray stack; with the global data loaded (Mutators.Start) the state becomes valid. |
| Collectors.Collector.ReallocGrayVals | src/runtime/major_gc.c:449-473 | Below the limit the gray stack doubles and keeps its entries, or loses all of them when there is no memory; at the limit it loses its upper half. Where entries are lost, the heap is marked impure. |
| Collectors.Collector.Darken | src/runtime/major_gc.c:494-501 | A white block becomes gray; that every gray block below the scan pointer is on the stack while the heap is pure is kept, even when the stack overflows. |
| Collectors.Collector.StartCycle | src/runtime/major_gc.c:508-516 | A cycle starts with the roots gray and the snapshot being what can be reached now. |
| Collectors.Collector.MarkStep | src/runtime/major_gc.c:518-571 | One step of marking keeps the snapshot invariant and makes progress in a lexicographic measure: unmarked blocks, impurity, the rest of the scan. |
| Collectors.Collector.MarkAll | src/runtime/major_gc.c:518-571 | Marking without a work limit ends, with all invariants kept. |
| Collectors.Collector.MarkSlice | src/runtime/major_gc.c:518-571 | A slice of marking blackens blocks of at least as many words as there is work, or ends marking. |
| Collectors.Collector.WeakStep | src/runtime/major_gc.c:573-593 | The weak phase ends at once and the sweep comes next. |
| Collectors.Collector.FlMergeBlock | src/runtime/freelist.c:138-193 | Freeing a white block that keeps no object merges it with its free neighbours and touches no other block. |
| Collectors.Collector.SweepStep | src/runtime/major_gc.c:595-637 | A sweep step frees only blocks that keep no object. When the sweep is over, every block left in use keeps an object that was there, and a new cycle starts from what can be reached. |
| Collectors.Collector.SweepSlice | src/runtime/major_gc.c:595-637 | A slice of sweeping moves the sweep pointer by at least as many words as there is work, or the next cycle starts; then every block in use keeps an object that was there. |
| Collectors.Collector.MajorCollectionSlice | src/runtime/major_gc.c:639-687 | By phase: marking goes on by the work or ends in the weak phase, the weak phase ends in the sweep, the sweep goes on by the work or starts the next cycle with exactly what can be reached. |
| Collectors.Collector.SlicesComplete | src/runtime/major_gc.c:639-687 | Slices of positive work alone complete the cycle; at most three more are needed than the words to be marked and swept make up. |
| Collectors.Collector.FinishMajorCycle | src/runtime/major_gc.c:690-704 | Finishes the cycle from any phase; the objects still tracked are exactly those that can be reached. |
| Collectors.Collector.FullMajor | src/runtime/major_gc.c:690-704 | Two cycles in a row: afterwards every block in use can be reached from the roots. |
| Allocation.FindPlace | src/runtime/memory.c:97-120 | The walk along the chunk list finds where the new chunk belongs by address. |
| Allocation.ExpandHeap | src/runtime/memory.c:20-128 | The heap grows by a new chunk that is one free block, large enough; chunks stay ordered and tiled, old blocks are untouched. |
| Allocation.AllocShr | src/runtime/memory.c:130-153 | The new block has the size, tag and the colour that the phase and the sweep pointer require, and nothing else changes; failure only when no free block is large enough. |
| Minor.Oldify | src/runtime/minor_gc.c:60-117 | Copies a young object once, forwarding what it points to, so that the pending places get fewer; failure only when no free block is large enough for one of the objects. |
| Minor.MinorCollection | src/runtime/minor_gc.c:119-151 | Afterwards the young area is empty, the objects are the same, old ones have not moved, and young ones survive only if they can be reached from the roots or from objects of the heap; then the major slice does its work on the heap that this has left. |
| Minor.MinorEnds | src/runtime/minor_gc.c:60-151 | When no place is pending, nothing points into the young area and the heap holds all objects it must. |
| Barrier.Modify | src/runtime/memory.h:44-58 | The store changes one field of one object, and all invariants of marking, sweeping and of the remembered set are kept in every phase. |
| Barrier.PhaseStored | src/runtime/memory.h:44-58 | The store with its deletion barrier keeps the invariant of the phase. |
| Barrier.PutMark | src/runtime/memory.h:44-58 | The snapshot invariant survives the loss of a pointer that was dark or not in the snapshot. |
| Barrier.OldValueDark | src/runtime/major_gc.c:494-501 | After darken the overwritten pointer is dark unless the snapshot did not have it. |
| Objects.AllocSmall | src/runtime/memory.h:26-38 | The new young object has the given fields, in a root; the young area is emptied first if it is full. |
| Objects.Initialize | src/runtime/memory.c:181-191 | Stores the first value of a field and records it when it is young. |
| Objects.AllocLarge | src/runtime/memory.c:130-191 | alloc_shr followed by initialize of all fields adds one object and keeps all invariants in every phase. |
| Mutators.Start | src/runtime/major_gc.c:719-771 | A new heap with global data represents the initial memory; it fails only if the heap is not larger than the global data. |
| Mutators.Perform | src/runtime/memory.h:26-58 | Each operation of a program on the collected heap does what it does on a memory where nothing is moved or freed; failure only if no free block is large enough. |
| Mutators.Run | src/runtime/memory.h:26-58 | The same for every run, whatever slices and collections happen in between. |
| Mutators.StoreThenLoad | src/runtime/memory.h:44-58 | In the ideal memory, after a store that field of that object holds the value, through whatever root, and every other field what it held. |
| Mutators.NewThenLoad | src/runtime/memory.h:26-38 | In the ideal memory, the fields of a new object hold the roots it was made from, and all other objects stay. |
| Mutators.SameWalk | src/runtime/minor_gc.c:60-151 | Following any path from a value leads to the same place in the heap as in the ideal memory. |
| Mutators.Indistinguishable | src/runtime/minor_gc.c:60-151 | Two paths from the roots meet in the heap exactly when they meet in the ideal memory, and see the same constants. |
| Mutators.FreedUnreachable | src/runtime/major_gc.c:595-637 | No path from a root leads to a block that keeps no object, which is the only kind of block the sweeper frees. |
| Mutators.DoFull | src/runtime/gc_ctrl.c:180-186 | After a full collection every block in use keeps an object that can be reached from the roots. |
| FreeLists.FreeList.AllocateBlock | src/runtime/freelist.c:71-93 | Takes the end of a free block, or all of it with its predecessor relinked; the list stays sorted, complete and without neighbours. |
| FreeLists.FreeList.FlAllocate | src/runtime/freelist.c:99-129 | Next fit: the first block that is large enough, from the last place on and then from the start; none is returned only if no free block is large enough. |
| FreeLists.FreeList.FlInitMerge | src/runtime/freelist.c:131-134 | The merge pointer is the last free block before the sweep. |
| FreeLists.FreeList.FlMergeBlock | src/runtime/freelist.c:138-193 | Frees a block and joins it with the free blocks and fragments on both sides; the list stays sorted, complete and without neighbours, the outcome is one that the collector allows, and the assignments are those of a function that is defined for any merge pointer. |
| FreeLists.FreeList.FlAddBlock | src/runtime/freelist.c:202-235 | A new chunk enters the list in its place; the merge pointer stays the last free block before the sweep if and only if the chunk is not above the last free block and below the sweep. |
| FreeLists.SweepPasses | src/runtime/major_gc.c:595-637 | As the sweep passes a block, the merge pointer moves to it exactly if it is free. |
| FreeLists.StaleMerge | src/runtime/freelist.c:202-235 | At a concrete list where that happens: an extension between two blocks in use, of which the sweep then frees the second; the assignments that free it link it in front of the new block, which lies before it, and the links are those of no sorted list. |
| ExternTables.ExternTable.Probe | src/runtime/externcp.c:56-76 | Linear probing ends, at the entry of the object or at a free entry if there is none. |
| ExternTables.ExternTable.Resize | src/runtime/extern.c:24-44 | The table of twice the size agrees with the same map. |
| ExternTables.ExternTable.Enter | src/runtime/externcp.c:56-76 | The table agrees with a map from objects to numbers: an object is found exactly when it was entered, and stays at most half full. |
| CompactChannels.Writer.EmitCompact | src/runtime/externcp.c:24-129 | The writer emits the specified bytes, numbers the objects in order and counts objects and words of eight and of four bytes. |
| CompactChannels.ExternCompactVal | src/runtime/externcp.c:131-161 | The header announces the counts; an exception comes if a closure, an abstract or a final value can be reached, and only then or for a total of 2^32 words or more. |
| CompactChannels.Scanner.ReadCompact | src/runtime/interncp.c:31-142 | On any input, the reader does what the specification says, or runs out of input or meets an integer of eight bytes on a machine with words of four; it always consumes something. An unknown code stands for what the reader's variable held: the enclosing block in the last field of a block, else the unit value. |
| CompactChannels.InternCompactVal | src/runtime/interncp.c:144-173 | The same with the header and the magic number, and failing when the announced size for this machine is too big. |
| CompactGraphs.RefusedExactly | src/runtime/externcp.c:106-112 | Nothing is written if and only if following fields from the value leads to an object with tag 249, 252 or 255. |
| CompactGraphs.SampleBytes | src/runtime/externcp.c:24-161 | The bytes, header included, for a block that holds 1000 and itself. |
| CompactRoundTrip.RoundTrip | src/runtime/interncp.c:31-142 | Wherever it stands in the input, what was written for a value is read back as a copy with the same sharing and cycles, all objects are numbered as when writing, and the pointer moves by exactly their words on the reading machine. |
| CompactGraphs.Misread | src/runtime/externcp.c:24-129 | If one size does not fit its field, or the reading machine does not have one of the integers, what is read differs from what was written. |
| CompactGraphs.ReadBack | src/runtime/interncp.c:144-173 | On machines with words of eight or of four bytes, the graph comes back isomorphic if and only if every block has fewer than 2^22 fields, every string fewer than 2^32 bytes, the machine has all the integers and the announced size is not too big for it; then the reader makes the announced number of objects and of words for that machine. |
| CompactGraphs.OnlyIntegersLost | src/runtime/interncp.c:144-173 | On a machine with words of four bytes, a graph that is not too big comes back exactly when all its integers fit in 31 bits. |
| CompactGraphs.TooManyFields | src/runtime/externcp.c:131-161 | A block that the writer accepts and the format cannot hold. |
| FastWriter.Copier.Emit | src/runtime/extern.c:56-89 | The result stands for the value (an integer for itself, an atom by its tag, an object by its offset); an object that has not been met is copied to the end, and what lies before keeps its place and meaning. |
| FastWriter.Copier.EmitAll | src/runtime/extern.c:91-127 | Scanning the copies ends with an image of exactly the objects that can be reached from the root, the root first, each once, all pointers replaced by offsets; it fails exactly when an object with tag 249, 252 or 255 (functional, abstract or final) can be reached. |
| FastReader.AdjustPointers | src/runtime/intern.c:16-53 | Every object of the block gets its header in the new colour, and its fields, if its tag says that they are values, become pointers, atoms and integers; nothing else changes. |
| FastReader.FastRoundTrip | src/runtime/intern.c:16-53 | Whatever the address it is loaded at, an image that has been adjusted is a copy of the graph, with its sharing and cycles and the root first, if and only if all weak arrays hold integers only. |
| FastReader.WeakArrayLost | src/runtime/intern.c:16-53 | A weak array that holds one block: its image, and the adjusted words, in which the field is still an offset. |
| Widening.SizeAfterExpansion | src/runtime/intern.c:121-152 | The size for any 32-bit words, with headers read as signed numbers, as the source reads them. |
| Widening.SizeFrom | src/runtime/intern.c:121-152 | The computed size is the right one if no object has 2^21 words or more, and at least 2^52 words if one has. |
| Widening.NewPosBelow | src/runtime/intern.c:174-176 | No copy lies behind its original, so that 32 bits hold its place. |
| Widening.ExpandBlock | src/runtime/intern.c:157-243 | For a block whose computed size some memory can hold: after both passes every object has its copy with its contents widened, and every offset has become the address of the copy of its target, which was found in the forwarding word. |
| Widening.ReadBlock32 | src/runtime/intern.c:455-478 | Reading a block fails exactly when there is no room for the computed size, and else expands it. |
| WideCopies.SameString | src/runtime/intern.c:183-196 | The string with its new padding has the same length and bytes. |
| WideCopies.WideRoundTrip | src/runtime/intern.c:157-243 | A graph written with 32-bit words can be read with 64-bit words if and only if every object has less than 2^21 words and there is room; it then comes back as a copy (integers with their signs, strings, doubles, sharing and cycles) if and only if all weak arrays hold integers only. |
| WideCopies.TooWide | src/runtime/intern.c:121-152 | A block of 2^21 integers is written by the 32-bit machine and asks for at least 2^52 words on the 64-bit machine. |
| Encoding.Decoded | src/compiler/Buffcode.sml:27-45 | An instruction of any shape, laid out with its numbers and the offsets of its labels (from the first entry in a table, else from where they stand), is decoded to the same numbers and targets. |
| Encoding.Encoded | src/runtime/interp.c:190-237 | And any instruction is laid out as the one with its numbers and targets. |
| Encoding.TableFromStart | src/compiler/Emitcode.sml:166-175 | A SWITCH of two labels, byte by byte: both count from the start of the table. |
| Emission.Emitter.OutLabelWithOrig | src/compiler/Labels.sml:49-65 | Writes the offset of a label that is defined, else zero, and remembers the place. |
| Emission.Emitter.DefineLabel | src/compiler/Labels.sml:28-47 | Defines a label and patches exactly the places that refer to it; fails if and only if it is defined already. |
| Emission.Emitter.ExtendLabelTable | src/compiler/Labels.sml:19-26 | The table grows enough and keeps its entries. |
| Emission.Emitter.ReallocOutBuffer | src/compiler/Buffcode.sml:17-23 | The buffer gets twice the size and keeps its contents. |
| Emission.Emitter.EmitCode | src/compiler/Emitcode.sml:249-325 | With one label defined before or after its uses, in any number, every instruction ends up laid out with its final offsets; fails if and only if a label is marked twice. |
| Emission.Assemble | src/compiler/Labels.sml:28-65 | In the finished bytes, every instruction lies at its place and its labels lead to where they are marked, forward and backward references alike. |
| Emission.ItemDecoded | src/compiler/Emitcode.sml:103-246 | Decoding the finished bytes at the place of an instruction gives its opcode, numbers and targets, and the next instruction follows. |
| Emission.AssemblyRuns | src/runtime/expand.c:358-674 | Code whose labels are marked inside it, with a RESTART before each GRAB, meets all that the expander and the simulation require. |
| InstructionLaws.BranchLaw | src/runtime/interp.c:1033-1037 | BRANCH goes to its label. |
| InstructionLaws.BranchIfLaw | src/runtime/interp.c:1038-1051 | BRANCHIF goes to its label exactly when the tag of the accumulator is not 0, BRANCHIFNOT when it is 0, BRANCHIFNEQTAG when it is not the operand; else they go on behind. |
| InstructionLaws.PopBranchLaw | src/runtime/interp.c:1044-1048 | POPBRANCHIFNOT tests the accumulator and pops the next one. |
| InstructionLaws.CompareLaw | src/runtime/interp.c:1254-1267 | The six comparing branches pop an integer and go to the label exactly when it is =, <>, <, >, <= or >= the accumulator. |
| InstructionLaws.SameLaw | src/runtime/interp.c:1254-1263 | The two for equality compare pointers and atoms as such. |
| InstructionLaws.SwitchLaw | src/runtime/interp.c:1052-1057 | SWITCH goes to the label that the accumulator numbers. |
| InstructionLaws.IntervalLaw | src/runtime/interp.c:1285-1303 | BRANCHINTERVAL goes to its first label below the interval, to its second above it, else the accumulator becomes the index in it. |
| InstructionLaws.CheckSignalsLaw | src/runtime/interp.c:729-747 | A pending signal starts the handler with a frame that leads back; else the program goes on. |
| InstructionLaws.StopLaw | src/runtime/interp.c:1562-1565 | STOP ends with the accumulator. |
| InstructionLaws.CallLaw | src/runtime/interp.c:477-529 | APPLYn enters the closure in the accumulator with the arguments above a frame of the caller's address, environment and extra arguments. |
| InstructionLaws.CallEnvLaw | src/runtime/interp.c:361-416 | PUSH_ENV1_APPLYn does the same with field 1 of the environment, the accumulator being the first argument. |
| InstructionLaws.CallGlobalLaw | src/runtime/interp.c:702-794 | PUSH_GETGLOBAL_APPLYn does the same with a global. |
| InstructionLaws.PushRetaddrLaw | src/runtime/interp.c:465-472 | PUSH_RETADDR pushes such a frame for its label. |
| InstructionLaws.ApplyLaw | src/runtime/interp.c:473-476 | APPLY enters the closure with n - 1 extra arguments. |
| InstructionLaws.ReturnLaw | src/runtime/interp.c:584-607 | RETURN without extra arguments drops the locals and leaves the frame below them. |
| InstructionLaws.ReturnAppliesLaw | src/runtime/interp.c:584-607 | RETURN with extra arguments applies the result to them. |
| InstructionLaws.CallThenReturn | src/runtime/interp.c:477-607 | A call and, after whatever, the matching RETURN restore the address, the environment, the extra arguments and the stack below the arguments. |
| InstructionLaws.SignalThenReturn | src/runtime/interp.c:1099-1128 | When a handler returns, the interrupted state is back. |
| InstructionLaws.TailCallLaw | src/runtime/interp.c:530-582 | APPTERM and APPTERMn move the arguments to the end of the frame and enter the closure. |
| InstructionLaws.TailCallEnvLaw | src/runtime/interp.c:418-462 | PUSH_ENV1_APPTERMn does the same with field 1 of the environment. |
| InstructionLaws.TailCallGlobalLaw | src/runtime/interp.c:796-837 | PUSH_GETGLOBAL_APPTERMn does the same with a global. |
| InstructionLaws.TailCallThenReturn | src/runtime/interp.c:530-607 | A function called in tail position returns to the caller of its caller. |
| InstructionLaws.ClosureLaw | src/runtime/interp.c:641-653 | CLOSURE makes a block of the code address and the captured variables. |
| InstructionLaws.ClosrecLaw | src/runtime/interp.c:655-668 | CLOSREC makes one that holds itself in field 1. |
| InstructionLaws.CallsItself | src/runtime/interp.c:655-668 | Through such an environment PUSH_ENV1_APPLYn enters the function itself. |
| InstructionLaws.GrabLaw | src/runtime/interp.c:618-622 | GRAB with enough arguments takes them from the extra ones. |
| InstructionLaws.GrabTooFewLaw | src/runtime/interp.c:618-639 | GRAB with too few returns a closure of them that starts at the RESTART before it. |
| InstructionLaws.RestartLaw | src/runtime/interp.c:608-616 | RESTART puts the arguments of such a closure back on the stack. |
| InstructionLaws.PartialApplication | src/runtime/interp.c:608-639 | Applying a partial application to the rest of the arguments ends, after RESTART and GRAB, as applying the function to all of them does; with still too few, with the same new closure. |
| InstructionLaws.PushTrapLaw | src/runtime/interp.c:1064-1073 | PUSHTRAP pushes a frame for the handler, linked to the one before. |
| InstructionLaws.TrapThenPop | src/runtime/interp.c:1074-1082 | POPTRAP restores the stack and the trap frame that there were before PUSHTRAP. |
| InstructionLaws.TrapThenRaise | src/runtime/interp.c:1083-1097 | RAISE, however deep, resumes at the last handler with the environment, extra arguments, stack and trap frame of its PUSHTRAP. |
| InstructionLaws.RaiseEscapes | src/runtime/interp.c:1083-1092 | RAISE without a trap frame of this run leaves the interpreter. |
| InstructionLaws.DataLaw | src/runtime/interp.c:1221-1238 | An instruction on data goes on behind itself, or raises its exception to the last handler or out of the interpreter. |
| Expansion.BuildRealMap | src/runtime/expand.c:52-347 | The result is the size of the translation, and the map has the real address of every instruction and -1 elsewhere; it fails exactly on a bad opcode. |
| Expansion.ExpandCode | src/runtime/expand.c:358-674 | The threaded code is the translation of all instructions in order: opcode, numbers, and for each label, tables included, the real address of its target. |
| Expansion.ExpandedAt | src/runtime/expand.c:52-347 | The translation of an instruction lies at its real address. |
| Threading.FetchAgrees | src/runtime/interp.c:178-216 | What the threaded machine fetches at the real address of an instruction is what the byte machine fetches, with the addresses renamed, the restart address of GRAB included. |
| Threading.ExecuteRenamed | src/runtime/interp.c:376-668 | An instruction does the same to a state whose code addresses are renamed, in the stack, in closures and in trap frames. |
| Threading.StepSimulated | src/runtime/interp.c:1033-1128 | One step of the byte machine is one step of the threaded machine, and all code addresses remain starts of instructions. |
| Threading.Simulation | src/runtime/expand.c:358-674 | Every run of a program as bytecode is a run of its threaded code step for step, with the same results up to the names of code addresses. |
| Threading.NamesDiffer | src/runtime/expand.c:52-347 | Different instructions have different real addresses. |
| Threading.Expandable | src/runtime/expand.c:358-674 | Programs that can be run can be expanded. |
| Arithmetic.SmlNegInt | src/runtime/interp.c:1405-1413 | The negation, or Overflow exactly when it is not representable. |
| Arithmetic.SmlSuccInt | src/runtime/interp.c:1415-1420 | The successor, or Overflow exactly when it is not representable. |
| Arithmetic.SmlPredInt | src/runtime/interp.c:1421-1426 | The predecessor, or Overflow exactly when it is not representable. |
| Arithmetic.SmlAddInt | src/runtime/interp.c:1427-1432 | The sum, or Overflow exactly when it is not representable. |
| Arithmetic.SmlSubInt | src/runtime/interp.c:1433-1438 | The difference, or Overflow exactly when it is not representable. |
| Arithmetic.MulChunks | src/runtime/interp.c:1453-1464 | The product by half-word chunks is exact, with Overflow exactly when it is not representable; every intermediate result fits a word. |
| Arithmetic.SmlMulInt | src/runtime/interp.c:1440-1466 | The exact product or Overflow; Overflow comes exactly when the product is not representable or is one of the missed ones. |
| Arithmetic.MissedProducts | src/runtime/interp.c:1449-1452 | The missed products are exactly those of two factors of absolute value 2^(half the integer's bits) whose product is the least integer, which is representable. |
| Arithmetic.SmlDivInt | src/runtime/interp.c:1468-1488 | The quotient rounded to minus infinity, Div exactly for divisor 0, and Overflow exactly for the least integer divided by -1. |
| Arithmetic.SmlModInt | src/runtime/interp.c:1490-1510 | The remainder with the sign of the divisor, Div exactly for divisor 0, and never Overflow. |
| Arithmetic.DivisionLaw | src/runtime/interp.c:1468-1510 | Floored quotient and remainder are the only numbers with x = q * y + m and m between 0 and y on the side of y. |

## Left out

Parser generator:

- Reading grammar files, and writing the output text, the listings and the debugging names; the model starts from a packed grammar and ends with the tables.
- Error recovery does not exist in the engine, but symbol positions on its stacks do; they are left out, and so are the semantic actions, which are taken to build parse trees.
- The bit rows of tokens and rules are sets, and adjacency lists are sequences; the word-by-word loops over them are not modelled.
- Shorts are unbounded integers except where the program checks MAXSHORT and MAXTABLE, and in `digraph`. So the numbers of items and of rules are taken to fit in a short; beyond its extent the check table reads as -1.
- Lalr.ComputeLalr: takes the number of the reductions of all states together to fit in a short (the array `lookaheads`), which the program does not check.
- Packing.PackTable: takes the number of vectors and their widths to fit in a short (the arrays `order` and `width`), which the program does not check.
- Token codes are taken to be distinct and between 0 and MAXSHORT.
- Conflict counts, unused rules and the warnings about them.
- Packing.Packer.PackVector: that a crowded table always fails is not stated, because the program lets displacements run up to 200 places beyond the limit.
- ParsingEngine.YyParse: has a bound on the number of calls, because the driver may run for ever on a lexer that never ends.

Garbage collector:

- The heap is a map of blocks with fields that are constants or pointers. Bytes of strings, page rounding, the page table (membership in a chunk) and largest chunk sizes are left out.
- Collectors.Collector.FlMergeBlock: which free neighbours are joined is left open; `FreeLists` has the list itself and proves that it does what is allowed here.
- Allocation.AllocShr: which free block is taken is left open, for the same reason.
- Weak arrays (the weak phase passes over an empty list), finalizers, statistics and messages.
- The arithmetic that paces slices: the work of a slice is arbitrary. `LONG_MAX` work means no limit.
- The reallocation of the table of references, and the collections that signals force.
- The sentinel of the free list is taken to lie below all blocks, as an extension of an empty list requires for the fast path.

Structured output:

- The compact format is written by machines with 64-bit words, the fast format by both kinds. The byte order of doubles is left out.
- A block enters the model's memory when its last field has been read.
- CompactGraphs.Intern: where the memory set aside for the result ends is not modelled, so that a misread input may use more of it.
- In the fast format, roots that are integers or atoms, the magic numbers, and what goes through the channel: the 32-bit word that holds the size, the 32-bit count of bytes of a block, and the largest block that a 32-bit machine reads. Words written and read by the same machine are unbounded integers.
- The reversal of bytes between machines and the reader of 64-bit images on 32-bit machines.
- FastWriter.Copier.Emit: has the hash function of 64-bit machines for both word sizes.

Elsewhere:

- Instructions that only work on data are a parameter of the interpreter model, a function that may raise exceptions and does not look into code addresses; those of integer arithmetic are in `Arithmetic`.
- Programs that are loaded in several pieces are one program here. The opcodes, which threaded code has as addresses of the interpreter's code, keep their numbers.
- Allocation in the interpreter model always takes a new place; that the collector does not disturb a program is shown in `Mutators`. The growth of the stack is left out.
- Emission.Emitter.EmitCode: takes the instructions as chosen and with operands that fit (the compiler's short forms and its checks for too many arguments are left out), and labels that are not `Nolabel`; what is patched when units are linked is left out.
- The rest of the compiler and the libraries written in ML, the lexer generator, the launcher, input and output, and the bindings to foreign libraries.
