# A model of the Lua 5.1 core

The repository embeds the C sources of Lua 5.1.2 under `Scripting/`. This project models the parts of that core that
carry its correctness and proves that they do what the language and the comments of the code promise. Nothing here is
executed; Dafny checks the proofs (`dafny verify dfyconfig.toml`).

What is modelled:

- **The incremental collector** (`lgc.c`, `lgc.h`, `lfunc.c`, `lstring.c`). `GcHeap` has the heap: objects with a colour,
  a fixed bit and references, the gray lists, the two whites and the five phases. `GcMark` and `GcSweep` have the
  collector's steps as functions on states, `GcMutator` the actions of the program with their barriers. `GcSafety` and
  `GcProgram` prove that every interleaving keeps one invariant, from the state of a new Lua state on, and with it safety
  and the tri-colour invariant; `GcFull` proves that a full collection is exact, `GcCycle` that every collection starts,
  ends and is exact from one pause to the next, `GcGarbage` that garbage goes within one collection also while the
  program runs. `GcCollector` is the collector in place: a class whose methods are proved to compute those functions.
  `GcBits` relates the mark byte to the colours.
- **The code generator for expressions and the virtual machine** (`lcode.c`, `lparser.c`, `lvm.c`). `LuaVm` is the meaning
  of the instructions, `LuaGen` the generator as functions, with patch lists as sequences. `LuaRun` to `LuaSound` prove
  that generated code computes its expression; `LuaTheorems` states it for values and for conditions. `LuaFuncState`
  threads patch lists through the jump offsets of a code array that is updated in place, `LuaCodeGen` is the generator on
  that state and on mutable descriptors, and `LuaExecute` runs the stored code: from an expression to its value.
  `LuaFailures` is about the two places where this version generates wrong code, and says exactly when it does.
- **The hybrid table** (`ltable.c`, `luaO_log2`). `TableChain` has the chained scatter part with Brent's variation,
  `TableSizes` the choice of the array's size, `TableMap` the finite map a table stands for, `Table` the class whose
  methods are the operations, mutual recursion of `newkey`, `rehash`, `resize` and `luaH_set` included.
- **The pattern matcher** (`lstrlib.c`). `Pattern` is the matcher as functions, `PatternClasses` says independently what the
  classes of characters mean and `PatternLanguage` what a pattern accepts, and they prove the matcher exact;
  `PatternMatcher` is the matcher on its mutable state, `PatternFind` is searching and substitution.
- **Precompiled chunks** (`ldump.c`, `lundump.c`, `lzio.c`): `Chunk`, `ChunkLoad`, `ChunkStream`, `ChunkDump`, and what
  undump rejects, `ChunkReject`.
- **Quoting and the lexer's strings** (`Quote`, with the language of literal strings in `QuoteLiteral`), **`table.sort`**
  (`Sort`), **interning** (`Interning`) and **upvalues as shared cells** (`Upvalues`, with the lists they are kept in,
  `UpvalLists`).

Object addresses are natural numbers, and a heap is a map from them. Lua values that an operation does not look into are
abstract. What the virtual machine leaves to number arithmetic, tables and metamethods is a parameter (`Sem`), as are hash
functions, the order that sorting uses, the check of loaded code, the allocator's choice of an address and the pieces a
reader delivers.

Two statements of the code's design do not hold of the code as it is, and the model follows the code:

- A bare jump for a constant condition (`lcode.c:547-550`, `575-578`) takes over jumps that were pending to it, although
  they may bring values of their own. `(a and b) or true or c` yields `a` when `a` is false. `LuaFailures.MergedChoice` and
  `LuaFailures.ValueLost` say exactly when the value is right; control flow is always right.
- Unary minus guards against string constants only (`lcode.c:702-704`), so `-nil`, `-true` and `-false` become an
  instruction that reads a register but names a constant. `LuaFailures.MinusExact` says exactly when that happens.

## Model

| member | source | states |
|---|---|---|
| GcProgram.NothingReachableIsErased | Scripting/lgc.c:407-428 | in every run of program actions and collector steps, no step removes an object that was reachable before it |
| GcProgram.NoDanglingReference | Scripting/lgc.c:556-607 | in every state of a run each reachable object is in memory and not dead |
| GcProgram.SafeOverRuns | Scripting/lgc.c:556-607 | both of these for every run from the state that lua_newstate leaves |
| GcProgram.ApplyInv | Scripting/lgc.c:556-607 | each collector step and each action of the program (allocation, stack write, stores with their barriers, capture and close of upvalues, interning, resizing the string table) keeps the invariant, and what it erases was dead |
| GcProgram.StartInv | Scripting/lstate.c:143-188 | the state of a new Lua state satisfies the invariant |
| GcProgram.TricolourInv | Scripting/lgc.c:277-305 | in the mark phase no black object refers to a white one and every gray table, function, prototype or thread is in a gray list; threads and open upvalues are never black |
| GcProgram.TricolourOverRuns | Scripting/lgc.c:277-305 | the tri-colour invariant in every state of every run from the start |
| GcSafety.SingleStepInv | Scripting/lgc.c:556-607 | a collector step in any of the five phases keeps the invariant |
| GcSafety.StoreBarrierInv | Scripting/lgc.c:662-672 | a store of any live value with luaC_barrier keeps the invariant in every phase |
| GcSafety.TableStoreInv | Scripting/lgc.c:675-683 | a table store with luaC_barriert for key and value keeps the invariant in every phase |
| GcProgram.CloseInv | Scripting/lfunc.c:96-112 | luaF_close, with luaC_linkupval, keeps the invariant in every phase |
| GcProgram.FindUpvalInv | Scripting/lfunc.c:53-79 | finding or creating an upvalue keeps the invariant, a dead one that is found again included |
| GcProgram.NewStringInv | Scripting/lstring.c:50-72 | a new string put in its bucket keeps the invariant, also while the sweep walks the buckets |
| GcProgram.ReviveInv | Scripting/lstring.c:75-93 | a dead string or upvalue found again becomes live, and the rest of the sweep spares it |
| GcMark.PropagateMarkKeeps | Scripting/lgc.c:277-320 | traversing one gray object keeps lists, colours and what is covered, and changes nothing but marks |
| GcMark.AtomicMarkComplete | Scripting/lgc.c:525-553 | after the marking of the atomic phase no list of gray objects is needed any more: every marked object has marked children, the roots are marked, and white objects are untouched |
| GcMark.MarkRootStarts | Scripting/lgc.c:501-512 | from an all-white heap markroot establishes the tri-colour invariant |
| GcMark.RemarkCovers | Scripting/lgc.c:515-522 | after remarkupvals no open upvalue needs an exemption |
| GcSweep.SweepListSpec | Scripting/lgc.c:407-428 | a swept list keeps exactly its objects that are alive or fixed, in order, all in the current white, and frees the others |
| GcSweep.SweepRootsKeeps | Scripting/lgc.c:407-428 | any number of steps along the list of all objects keeps the invariant of the sweep and every live object |
| GcSweep.AtomicKeeps | Scripting/lgc.c:525-553 | the atomic step establishes the invariant of the sweep phases, with all unmarked objects dead and none reachable |
| GcFull.FullCollectionExact | Scripting/lgc.c:636-659 | from any state of the collector a full collection leaves exactly the reachable and the fixed objects, all in the current white |
| GcFull.AbandonedFreesNothing | Scripting/lgc.c:636-645 | the sweep that follows an abandoned mark phase frees nothing |
| GcCycle.PauseStarts | Scripting/lgc.c:501-512 | in the pause phase the next step starts a collection: the mark phase, with every root but the running thread, and the table of globals, marked |
| GcCycle.StepProgress | Scripting/lgc.c:556-607 | every step of a collection that has started brings its end closer: phase, what is left in it, and the gray list decrease lexicographically |
| GcCycle.CollectionEnds | Scripting/lgc.c:556-607 | from every state of the collector some number of steps reaches the pause phase |
| GcCycle.CycleExact | Scripting/lgc.c:556-607 | from one pause to the next the steps leave exactly what was reachable or fixed, all in the current white, and the whites have changed roles |
| GcGarbage.GarbageGoes | Scripting/lgc.c:556-607 | what is neither reachable nor fixed when a collection starts is erased by the end of its sweep, whatever the program does between its steps, unless the program finds it again by interning or capturing |
| GcGarbage.StepApart | Scripting/lgc.c:556-607 | no collector step marks, and no action lets in, anything from outside a set closed under references, but for what the program finds |
| GcSweep.CloseValues | Scripting/lfunc.c:96-112 | in every phase each upvalue that is closed holds the value its slot had; nothing else changes its content, and nothing alive goes |
| GcHeap.RefsExact | Scripting/lgc.c:158-310 | what the collector follows is exactly what objects hold and the registers of the state refer to |
| GcCollector.GlobalState.Step | Scripting/lgc.c:610-633 | whatever its steps cost, the loop makes at least one, stops at the first that ends the collection or uses up the limit, and keeps the invariant |
| GcBits.MacrosPaint | Scripting/lgc.h:54-77 | the macros on the mark byte do to the stored object what painting does in the model, and keep the fixed bit |
| GcBits.BitTests | Scripting/lgc.c:407-428 | iswhite, isdead and the test of sweeplist on the byte agree with the model: it spares exactly what is not dead or is fixed |
| GcCollector.GlobalState.SingleStep | Scripting/lgc.c:556-607 | the imperative step on the fields of global_State computes the step function, of which PauseStarts, StepProgress and CycleExact speak |
| GcCollector.GlobalState.FullGC | Scripting/lgc.c:636-659 | the imperative full collection leaves exactly the reachable and fixed objects, all white, in the pause phase |
| GcCollector.GlobalState.ReallyMarkObject | Scripting/lgc.c:69-112 | marks as the specification does, recursion through userdata and upvalues included |
| GcCollector.GlobalState.PropagateMark | Scripting/lgc.c:277-320 | one gray object is traversed; a thread moves to grayagain |
| GcCollector.GlobalState.Atomic | Scripting/lgc.c:525-553 | the atomic phase in its order: upvalues, running thread and metatables, second list, flip |
| GcCollector.GlobalState.SweepWholeList | Scripting/lgc.c:407-428 | the loop over a list frees, repaints and relinks what the specification says |
| GcCollector.GlobalState.SweepAt | Scripting/lgc.c:407-428 | one object at the sweep position, a thread with its open upvalues first |
| GcCollector.GlobalState.LinkUpval | Scripting/lgc.c:695-710 | a closed upvalue joins the list of all objects with the colour its phase asks for |
| GcCollector.GlobalState.Close | Scripting/lfunc.c:96-112 | the loop over the open upvalues frees dead ones and closes the others |
| LuaTheorems.ValuePreserved | Scripting/lcode.c:414-419 | running the code leaves the value of the expression in the next register, registers below as they were and no temporary in use; it fails exactly when the expression does |
| LuaTheorems.SimpleValue | Scripting/lparser.c:828-853 | the same under a condition on the source text alone |
| LuaTheorems.ControlPreserved | Scripting/lparser.c:963-970 | the code of a condition falls through exactly when the condition is true and leaves by the returned list when it is not, for every nesting of and, or and not |
| LuaTheorems.SimpleControl | Scripting/lparser.c:963-970 | the same under a condition on the source text alone |
| LuaTheorems.SimpleExact | Scripting/lcode.c:539-591 | an expression whose text has no literal that could end a left operand, and no minus before nil or a boolean, never meets the two cases below |
| LuaTheorems.WholeValue | Scripting/lcode.c:414-419 | the value theorem for an expression by itself, from the first instruction to the last |
| LuaSound.GenOk | Scripting/lparser.c:828-853 | for every expression the generated code computes it: its truth always, its very value where no bare jump merges a TESTSET and no minus stays over a constant |
| LuaReg.Exp2RegOk | Scripting/lcode.c:390-411 | by whichever way the value comes (register, jump with or without a value, pending comparison) it ends up in the register |
| LuaReg.Exp2AnyRegOk | Scripting/lcode.c:422-433 | the value is in the register that is named, and a local is used where it stands |
| LuaReg.Exp2RKOk | Scripting/lcode.c:444-469 | afterwards the operand, register or constant, holds the value |
| LuaCond.GoOk | Scripting/lcode.c:539-591 | the two branches: which runs go on, which leave by the list and what value they carry |
| LuaCond.NotRemoved | Scripting/lcode.c:524-536 | taking back an OP_NOT and reversing the test does not change what the branch does |
| LuaNot.CodeNotOk | Scripting/lcode.c:594-626 | the descriptor now computes the negation, with its lists exchanged and their values removed |
| LuaNot.RemoveExact | Scripting/lcode.c:144-147 | exactly the TESTSETs of the listed jumps become TESTs |
| LuaState.NilOk | Scripting/lcode.c:35-56 | the register holds nil even when the previous LOADNIL is extended or nothing is emitted at the start of a function |
| LuaRun.PatchListExact | Scripting/lcode.c:150-160 | patching changes exactly the listed jumps and the TESTSETs that control them |
| LuaRun.RunPatched | Scripting/lcode.c:150-160 | a run of patched code goes on where it used to leave by a patched jump, with the value its TESTSET now writes |
| LuaSound.FoldComputes | Scripting/lcode.c:635-658 | constant folding computes what the machine would |
| LuaSound.FoldsExactly | Scripting/lcode.c:635-658 | two numerals are folded, to what the machine would compute, unless that divides by zero or makes a NaN |
| LuaSound.MachineArithmetic | Scripting/lvm.c:315-372 | what the machine computes, by its fast way, conversions and metamethods, is the operator of the reference manual with its operands in written order |
| LuaFailures.MergedValue | Scripting/lcode.c:547-550 | a jump pending before the bare jump of a constant leaves with it, with the right value if and only if it brings none of its own or the constant itself; for both branches |
| LuaFailures.MergedChoice | Scripting/lcode.c:539-591 | where the first operand ends in such a constant, the value is right if and only if the run does not arrive by a jump that brings another value; all else is right either way |
| LuaFailures.ValueLost | Scripting/lcode.c:59-66 | for arbitrary operands that branch on a register, `(a and b) or true or c` is right if and only if a is true, and `((a or b) and false) and c` if and only if a is false; otherwise a itself arrives |
| LuaFailures.LostLocals | Scripting/lcode.c:575-578 | the least such input: three local variables |
| LuaFailures.MinusExact | Scripting/lcode.c:697-704 | a unary minus is folded or reads a register, as OP_UNM needs, if and only if its operand has jumps, is not nil, true, false or an unfoldable numeral, or the constants exceed what an operand can index |
| LuaFailures.MinusLost | Scripting/lcode.c:697-704 | otherwise an OP_UNM over a constant is emitted, whatever expression the constant came from |
| LuaFailures.MinusConstant | Scripting/lopcodes.h:177-177 | instances: -nil, -true, -false, -(not nil), -(nil) |
| LuaFuncState.ChainAcyclic | Scripting/lcode.c:100-106 | a list threaded through jump offsets visits no jump twice |
| LuaFuncState.ChainUnique | Scripting/lcode.c:100-106 | the head determines the list |
| LuaFuncState.ChainsMeet | Scripting/lcode.c:100-106 | two lists are disjoint, or one is the end of the other |
| LuaFuncState.ListedWaits | Scripting/lcode.c:80-107 | a threaded list stands for a list of distinct waiting jumps |
| LuaFuncState.FuncState.Concat | Scripting/lcode.c:185-196 | the second list is appended to the first; no instruction outside the first changes |
| LuaFuncState.FuncState.PatchListAux | Scripting/lcode.c:150-160 | the walk along the links patches what the specification says; no other waiting jump is touched |
| LuaFuncState.FuncState.Jump | Scripting/lcode.c:59-66 | a jump is emitted, and the pending jumps join its list |
| LuaFuncState.FuncState.PatchToHere | Scripting/lcode.c:179-182 | the list joins the pending jumps |
| LuaFuncState.FuncState.RemoveValues | Scripting/lcode.c:144-147 | the walk removes the values of the listed jumps |
| LuaFuncState.FuncState.InvertJump | Scripting/lcode.c:516-521 | the controlling comparison is negated in place |
| LuaCodeGen.DischargeVars | Scripting/lcode.c:304-334 | in place on state and descriptor as specified; jumps of other descriptors keep waiting with their links |
| LuaCodeGen.ToReg | Scripting/lcode.c:343-379 | likewise |
| LuaCodeGen.Exp2Reg | Scripting/lcode.c:390-411 | likewise; afterwards the descriptor owns no jump |
| LuaCodeGen.Exp2NextReg | Scripting/lcode.c:414-419 | likewise |
| LuaCodeGen.Exp2AnyReg | Scripting/lcode.c:422-433 | likewise |
| LuaCodeGen.Exp2RK | Scripting/lcode.c:444-469 | likewise, with the operand |
| LuaCodeGen.JumpOnCond | Scripting/lcode.c:524-536 | likewise, with the new jump, which no one else holds |
| LuaCodeGen.GoIfTrue | Scripting/lcode.c:539-564 | likewise; only the false list is left |
| LuaCodeGen.GoIfFalse | Scripting/lcode.c:567-591 | likewise; only the true list is left |
| LuaCodeGen.CodeNot | Scripting/lcode.c:594-626 | likewise, with the lists exchanged |
| LuaCodeGen.CodeArith | Scripting/lcode.c:661-678 | likewise: folded, or both operands loaded and freed in stack order |
| LuaCodeGen.CodeComp | Scripting/lcode.c:681-694 | likewise, operands exchanged for > and >= |
| LuaCodeGen.PosfixAnd | Scripting/lcode.c:745-789 | for `and`: the false list of the first operand goes behind that of the second |
| LuaCodeGen.PosfixOr | Scripting/lcode.c:745-789 | for `or`: the true list of the first operand goes behind that of the second |
| LuaCodeGen.SubExpr | Scripting/lparser.c:828-853 | compiling any expression in place yields the code and descriptor of the specification and leaves every other waiting jump alone; none is lost |
| LuaCodeGen.Cond | Scripting/lparser.c:963-970 | likewise, with the list of the jumps taken when the condition fails |
| LuaExecute.Frame.Execute | Scripting/lvm.c:390-583 | the main loop over stored code, jumps by their offsets, computes the specified run |
| LuaExecute.Compile | Scripting/lparser.c:856-858 | a finished expression is the specified code with no jump left waiting |
| LuaExecute.Evaluate | Scripting/lvm.c:390-583 | compiling an expression and executing the stored code yields its value, with operators, conversions and handlers as the reference manual has them, or fails if it does |
| LuaExecute.EvaluateSimple | Scripting/lvm.c:390-583 | the same for every expression whose text is simple |
| Table.Table.Get | Scripting/ltable.c:469-491 | the value the map has for the key, nil for an absent one |
| Table.Table.Set | Scripting/ltable.c:494-505 | a place for the key with the map unchanged; nil and NaN are rejected and leave the table as it was |
| Table.Table.Assign | Scripting/ltable.c:494-505 | a raw assignment is an update of the finite map, rehash included |
| Table.Table.AssignAll | Scripting/ltable.c:494-505 | any sequence of assignments, rejected keys included, makes the finite map it should |
| Table.Table.NewKey | Scripting/ltable.c:399-429 | the key gets a node and the map stays; with a free node left there is no rehash |
| Table.Table.Collide | Scripting/ltable.c:399-429 | Brent's variation: whoever is out of its main position moves, and all invariants hold again |
| TableChain.InsertBehind | Scripting/ltable.c:418-425 | a key behind one at home keeps the chains: reachable from the main position, one predecessor, no cycle |
| TableChain.MoveAway | Scripting/ltable.c:410-417 | so does moving a key that is away from home to the free node |
| TableChain.TailOf | Scripting/ltable.c:15-18 | chains have no cycle |
| Table.Table.GetFreePos | Scripting/ltable.c:382-388 | the last free node, and NULL only if no node is free |
| Table.Table.Rehash | Scripting/ltable.c:333-349 | the array part gets the optimal size and the extra key then finds its place |
| TableSizes.ComputeSizes | Scripting/ltable.c:189-208 | the largest power of two with more than half of its slots in use, and the number of keys going there |
| TableSizes.CountInt | Scripting/ltable.c:211-219 | a key is counted in the slice of its logarithm and no other |
| TableSizes.Log2 | Scripting/lobject.c:54-69 | the place of the highest bit, and -1 for zero |
| Table.Table.NumUseArray | Scripting/ltable.c:222-244 | the counts per slice of the array part |
| Table.Table.NumUseHash | Scripting/ltable.c:247-260 | the counts of the hash part, and of its keys that could go to the array part |
| Table.Table.Resize | Scripting/ltable.c:297-324 | both parts have the new sizes and the map is the same; every re-insertion finds a free node, so that no rehash nests |
| Table.Table.Reinsert | Scripting/ltable.c:297-324 | one re-insertion, without a rehash |
| Table.Table.FindIndex | Scripting/ltable.c:137-159 | the place of every key that has one, whatever its value is now; an error if and only if the key has none |
| Table.Table.Next | Scripting/ltable.c:162-179 | the next element in the order of the slots; an error if and only if the key has no place in the table, so never for a key of the map or one cleared since |
| Table.Table.TraverseEditing | Scripting/ltable.c:162-179 | a traversal between whose steps existing fields are assigned or cleared: no step is an error, no key is visited twice, and every key that keeps a value is visited |
| Table.Table.Traverse | Scripting/ltable.c:162-179 | a traversal visits each key of the map exactly once |
| Table.Table.GetN | Scripting/ltable.c:560-576 | a boundary: n is in the table (or 0) and n+1 is not |
| Table.Table.UnboundSearch | Scripting/ltable.c:532-553 | likewise beyond the array part, with the linear search for malicious tables |
| PatternLanguage.MatchExact | Scripting/lstrlib.c:364-439 | match fails only if the pattern accepts no prefix of the subject, and what it returns the pattern accepts, captures included |
| PatternLanguage.MatchComplete | Scripting/lstrlib.c:364-439 | for a well-formed pattern it succeeds if and only if something is accepted |
| PatternLanguage.CountPreferred | Scripting/lstrlib.c:300-326 | * + and ? take the largest, - the smallest number of repetitions for which the rest of the pattern accepts |
| PatternLanguage.NeverFails | Scripting/lstrlib.c:364-439 | a well-formed pattern raises no error |
| PatternLanguage.BalanceExact | Scripting/lstrlib.c:280-297 | it finds the one balanced string, if there is one |
| PatternClasses.MatchClassExact | Scripting/lstrlib.c:225-241 | the letters name the blocks of characters of the C locale, upper-case letters their complements, and any other character stands for itself |
| PatternClasses.InSetExact | Scripting/lstrlib.c:244-264 | the scan of a set looks for a written member that holds the character: a range with both its ends, a class or a character |
| PatternClasses.SingleMatchExact | Scripting/lstrlib.c:267-274 | it decides membership in the class that is written there, complemented after ^ |
| PatternClasses.AtFrontierExact | Scripting/lstrlib.c:383-397 | the frontier lies between a character outside the set and one in it; both ends of the subject read as zero |
| PatternClasses.ClassEndExact | Scripting/lstrlib.c:201-222 | a class ends where its written form ends, the bracket behind the first character that no % precedes for a set; an error if none is written |
| PatternClasses.SameTextExact | Scripting/lstrlib.c:353-361 | %1 to %9 ask for the text of that capture again |
| PatternClasses.CaptureToCloseExact | Scripting/lstrlib.c:193-198 | a closing parenthesis closes the last capture that is open |
| PatternMatcher.MatchState.DoMatch | Scripting/lstrlib.c:364-439 | the matcher on the mutable state computes Match; a failed call leaves level and active captures as they were |
| PatternMatcher.MatchState.MaxExpandAt | Scripting/lstrlib.c:300-312 | likewise |
| PatternMatcher.MatchState.MinExpandAt | Scripting/lstrlib.c:315-325 | likewise |
| PatternFind.MemFind | Scripting/lstrlib.c:443-462 | the first occurrence from the position on, or none |
| PatternFind.SearchLeftmost | Scripting/lstrlib.c:517-532 | the match found is the leftmost; if none is found there is none |
| PatternFind.StrFind | Scripting/lstrlib.c:494-534 | positions and captures, plain or by matching |
| PatternFind.PlainSearch | Scripting/lstrlib.c:494-534 | for a pattern without special characters plain search gives what the matcher would: same start and end, or failure |
| PatternFind.GsubExact | Scripting/lstrlib.c:647-679 | the text between the successive leftmost matches is kept, each match is replaced by what its place and captures give, and the count is their number |
| PatternFind.StrGsub | Scripting/lstrlib.c:647-679 | the loop does that |
| PatternFind.Start | Scripting/lstrlib.c:36-39 | where a search begins: from 1 on, backwards from the end if negative, clipped to the subject |
| PatternFind.GsubIdentity | Scripting/lstrlib.c:647-679 | replacing every match by itself gives the subject back, whatever the pattern |
| ChunkLoad.RoundTrip | Scripting/lundump.c:160-177 | undump of dump gives the function back; stripped, without debug data and with every source replaced by =? |
| ChunkReject.ForeignHeader | Scripting/lundump.c:179-186 | an accepted chunk has the signature, version, format, byte order and sizes of this build |
| ChunkReject.UndumpLonger | Scripting/lundump.c:160-177 | what a chunk is read as depends on its own bytes only, not on what follows |
| ChunkReject.TruncatedRejected | Scripting/lundump.c:47-51 | a chunk that was cut off anywhere is rejected |
| ChunkReject.UndumpExact | Scripting/lundump.c:160-177 | a dumped function is accepted if and only if it and every function inside it pass the code check |
| ChunkReject.UndumpChecked | Scripting/lundump.c:160-177 | every function of an accepted chunk has passed the code check |
| Chunk.FourBytes | Scripting/ldump.c:45-48 | an int is saved least significant byte first |
| ChunkStream.LoadPieces | Scripting/lzio.c:58-71 | however the bytes are cut into pieces, loading gives the function back |
| ChunkStream.Zio.Read | Scripting/lzio.c:58-71 | the next bytes across the pieces, and how many were missing |
| ChunkStream.Zio.Fill | Scripting/lzio.c:21-32 | the next piece becomes the buffer and its first byte is read |
| ChunkStream.Zio.Lookahead | Scripting/lzio.c:35-45 | the next byte, which stays unread |
| ChunkStream.LoadState.Function | Scripting/lundump.c:160-177 | reads what the specification reads, inner functions and failures included |
| ChunkDump.DumpState.Function | Scripting/ldump.c:129-141 | writes the specified bytes as long as the writer accepts them |
| ChunkDump.DumpState.DumpChunk | Scripting/ldump.c:153-164 | with a good writer the whole chunk is out; the status is that of the writer |
| Quote.QuoteRoundTrip | Scripting/lstrlib.c:695-722 | for every byte string the lexer reads from its quoted form the string itself |
| Quote.AddQuoted | Scripting/lstrlib.c:695-722 | the loop writes the specified form |
| QuoteLiteral.ReadStringExact | Scripting/llex.c:276-329 | there is a token if and only if the input spells pieces up to the delimiter, and it is what they stand for: characters, the seven letters, one to three decimal digits, escaped line ends, other escaped characters |
| QuoteLiteral.NumbersRoundTrip | Scripting/llex.c:304-314 | every string comes back from its bytes written as three digits each |
| QuoteLiteral.NumberTooLarge | Scripting/llex.c:311-312 | a number above 255 is an error |
| Quote.LexState.ReadStringToken | Scripting/llex.c:276-329 | the scanner computes the token or error of which ReadStringExact speaks |
| Quote.LexState.ReadEscape | Scripting/llex.c:289-321 | the cases after a backslash |
| Quote.LexState.IncLineNumber | Scripting/llex.c:127-135 | one or both characters of a line end are skipped and counted once |
| Sort.AuxSort | Scripting/ltablib.c:184-245 | for every strict weak order: sorted, a permutation, nothing outside touched, no error raised, and nesting at most the logarithm of the length |
| Sort.SortList | Scripting/ltablib.c:247-255 | table.sort sorts elements 1 to n |
| Sort.Partition | Scripting/ltablib.c:209-230 | the pivot ends between smaller and larger elements and neither guard fires |
| Sort.MedianOfThree | Scripting/ltablib.c:191-204 | first, middle and last are in order |
| Interning.StringTable.Run | Scripting/lstring.c:75-93 | over every run of interning, fixing, resizing and sweep steps the table stays valid, what interning returned since the whites last changed is alive and has the content asked for, and fixed strings are never freed |
| Interning.StringTable.NewLStr | Scripting/lstring.c:75-93 | the one object with the content, not dead afterwards and otherwise as it was; a new one, white and not fixed, only if there was none |
| Interning.StringTable.AddString | Scripting/lstring.c:50-72 | a new object in the bucket of its hash; a crowded table grows |
| Interning.StringTable.FixString | Scripting/lstring.h:24-24 | the string is fixed and nothing else changes |
| Interning.StringTable.Resize | Scripting/lstring.c:22-47 | every string moves to its new bucket; nothing happens during the string sweep |
| Interning.StringTable.SweepChain | Scripting/lgc.c:572-579 | one bucket is swept: exactly its dead, unfixed strings go, the others of the bucket get the current white, and nothing else about any string changes |
| Upvalues.SharedCells | Scripting/lvm.c:719-737 | from the start, over every run of capture, read, write and close, closures see what they would see if each captured variable were one heap cell |
| Upvalues.RunsAgree | Scripting/lfunc.c:53-112 | the same from any two states that correspond |
| UpvalLists.Thread.FindUpval | Scripting/lfunc.c:53-79 | the upvalue of the slot, a new one in its place in both lists if there was none |
| UpvalLists.Thread.CloseFrom | Scripting/lfunc.c:96-112 | exactly the upvalues from the level on get their values and leave both lists |
| UpvalLists.Thread.OnePerSlot | Scripting/lfunc.c:53-79 | the open list is strictly decreasing, with at most one upvalue per slot |
| UpvalLists.RingRemove | Scripting/lfunc.c:82-86 | unlinking keeps the doubly linked list |

## Left out

Collector:
- Weak tables, userdata finalizers and dead keys: no object here is weak or has a `__gc` metamethod, so the weak list and tmudata stay empty.
- Pacing (thresholds, `gcdept`, estimates): when `luaC_step` runs is left to the run, and what a step costs is a parameter of `Step`.
- Replacing the registry, or a C function's environment, through the API: there is no barrier for those slots.
- Shrinking the string table at the end of a sweep is an action of its own in the collector's model; `Interning` has it in place.
- `traversestack` also clears the unused part of a stack; stacks end at their top here.
- The collector's mark byte: `GcCollector` keeps colour and fixed bit; `GcBits` shows that the byte and its macros amount to the same.

Code generator and virtual machine:
- Calls, varargs, table constructors, `..`, `OP_SELF`, assignments and statements other than the condition of `if` and `while`.
- The limits "control structure too long", "function or expression too complex" and the size of the constant table: expressions are assumed to fit `MAXSTACK` registers.
- Packing of instructions into 32 bits and of sizes into floating point bytes; RK operands name their constants.
- Numbers are integers with abstract arithmetic: no rounding, no negative zero (`addk` takes 0 and -0 for one key).
- The parser's tokens and operator priorities: `SubExpr` starts from the syntax tree.
- Line information and hooks.
- LuaCodeGen.GoIfTrue: what the descriptor's kind becomes is not stated, because it is not used again.
- LuaCodeGen.GoIfFalse: what the descriptor's kind becomes is not stated, because it is not used again.
- LuaFailures.MinusLost: an OP_UNM over a constant counts as a run-time error, where the machine reads a slot outside the frame.

Tables:
- Metatables, the `flags` cache, and array parts beyond 2^26 slots.
- Table.Table.AssignAll: nothing is stated about a table after "table overflow", which leaves it half resized.

Strings and chunks:
- Locale: character classes are those of the C locale; `gmatch`, and `%` in replacement strings (a replacement is a function of the match here).
- The bytecode check is an abstract predicate, and memory errors do not occur.
- Other tokens of the lexer, and the buffer's growth.
- Full userdata as values.

Sorting:
- Sort.AuxSort: order functions that are no strict weak order, for which the guards exist.
