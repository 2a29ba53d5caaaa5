# Verified model of the Cwerg IR optimizer and A32 register back end

Cwerg compiles a register-based intermediate representation. This project models the parts of it that
decide whether a compiled program still means what it meant, and proves that it does:

* **Reaching definitions and the rewrites that rely on them.** Registers are tagged with the
  instruction that set them last, or with the block where definitions met. Copies, constants and
  load/store addresses are replaced only on the strength of equal tags. Every run stays the same,
  state for state, loops that run a tagged definition again included.
* **Liveness and dead code.** The worklist finds exactly the registers some path reads, and removing
  what nobody needs changes nothing an observer could see.
* **Control flow surgery.** Edges are found from the layout, unconditional branches move into edges,
  empty blocks disappear, and branches are flipped or put back: running by fall-through and following
  edges agree.
* **Register allocation.** Live ranges agree with liveness at every instruction; both linear scans,
  with overlapping single and double precision registers, reserved stretches and a one-way cursor,
  keep their promises. A function with spilled registers, down to the bytes of its stack frame,
  follows the function it was made from through all blocks and loops, and so does a function on
  machine registers that keeps in the frame what did not fit. When two scratch registers of one
  instruction coincide, and when the scan that spills gives up, is settled exactly.
* **Renaming local registers** so that each is set in one place, which allocation builds on.
* **The stack frame**: encodable adjustments, an epilog that undoes the prolog, disjoint slots, and
  the one way in which the stack pointer loses its alignment.

## Reading guide

| file | contents |
|---|---|
| IR.dfy, Steps.dfy | instructions, blocks, functions; what a run is, block by block and instruction by instruction |
| ReachingDefs.dfy, Avail.dfy, Rewrites.dfy, Replaced.dfy, Passes.dfy, Lookup.dfy | the analysis, what its tags say about runs, the rewrites, what exactly they replace, the passes, why their lookups cannot fail |
| Liveness.dfy, DeadCode.dfy | liveness and removal |
| Cfg.dfy, Linear.dfy, InitCfg.dfy | edges, empty blocks, layout |
| RegPool.dfy, LiveRanges.dfy, SortRanges.dfy, LinearScan.dfy | pool, ranges, the scan that can spill: on values, then as the class that does it |
| ScratchRegs.dfy, ScratchExamples.dfy | the scratch registers one instruction holds at a time, when they coincide and when there is none; two blocks where that goes wrong |
| ScanLaws.dfy | which registers are free at any moment of a scan, who gets which, and who loses one |
| RegStats.dfy | the standard scan and the number of registers it needs |
| MachineCode.dfy, LocalAlloc.dfy, Spill.dfy, BlockAlloc.dfy | a block on machine registers |
| FunSpill.dfy, FrameSpill.dfy, FrameExample.dfy | whole functions with registers in slots, and in the bytes of the stack frame |
| FunAlloc.dfy, FrameAlloc.dfy | whole functions on machine registers, with slots, and with the stack frame |
| SeparateLocals.dfy, SeparatePass.dfy | register statistics and renaming |
| Frame.dfy | prolog, epilog, stack slots |

Instructions, blocks and jump tables are numbered and kept in arenas of a mutable `Fun`; a value `Fn`
is a snapshot of it that specifications speak about. Results about runs hold for every `Machine`: for
any ALU, any memory, and any behaviour of callees, which may depend on everything observable that
happened before. An observer sees loads, stores, bulk operations, arguments pushed and popped, calls
with their arguments, and traps.

`dafny verify dfyconfig.toml` checks the project.

## Choices

* Tags are compared by identity, as the C++ implementation does with handles
  (Base/reaching_defs.cc:537); in Python `Ins` compares by structure (Base/ir.py:223), so that two
  equal-looking loads would count as one definition.
* The entry state follows Python: every register read somewhere starts out tagged with the first block
  (Base/reaching_defs.py:108).
* Reaching definitions are not the least solution: the result can depend on the order of the worklist.
  What is proved is what the rewrites need, and an instruction tag is exact all the same.
* Offsets are unbounded integers and addresses are taken modulo the size of the address space. That a
  combined constant fits 64 bits is asserted by the source and not modelled.
* The test whether a source is still current treats a register without a tag as not current, where
  Python would raise a `KeyError`. `Lookup.PassNeverMissesKey` proves that there always is a tag.
* The search for a register to take away compares with the definition of the range that was spilled
  (Base/reg_alloc.py:206), not with the place where the scratch register is needed. So it may find a
  range that is over and whose register is a scratch register already; `ScratchExamples.TwoScratchAlike`
  gives such a block. The final allocation, which runs after the spill code is in, does not use these
  scratch registers.
* A comment (Base/reg_alloc.py:231-232) says that with four registers per class the scan always works.
  It does not, as `ScratchExamples.GivesUp` shows: the nearest range may be in a callee-saved register,
  which does not help. `ScratchRegs.ClaimIff` and `ScratchRegs.DefGivesUpIff` say exactly when it
  gives up; `ok == false` stands for the failing assertion.
* Registers are integers; in the stack frame a value takes the bytes of its slot, little-endian and in
  two's complement if signed. The frame is part of the memory that everything else uses. What
  `FrameSpill.SpilledToFrame` and `FrameAlloc.AllocatedToFrame` ask of the machine is that memory
  operations are local: they depend on and change no bytes but those they reach. What they ask of the
  code is about the run in question: no instruction that is executed, and no callee, reaches a byte of
  a spill slot, and a spilled register is given values of its kind. `FrameExample.SumInFrame` is a
  byte-addressed machine and a function with registers of two widths that meet this.
* `FunAddUnconditionalBranches` indexes past the layout if the last block falls through, for example
  after the bra that closed a loop at the end was removed (`Linear.LoopAtEndFails`); the model returns
  `ok == false` then.
* `vstm` saves everything between the first and the last single precision register in use. Gaps are
  counted for the instruction but not for the alignment of the frame: `Frame.GapsMisalign` is an
  input, and `Frame.StaysAligned` says exactly when.
* The stretches of a fixed register are reserved, and its register is given back where its range ends
  (Base/reg_alloc.py:80-86), so from there on the pool may hand it out, whether it was in the pool at
  first or not. That is why `BlockAlloc.PoolHasNoSp` speaks of fixed registers too.
* Live ranges are numbered in sorted order, and records of reads refer to them by number.

## Model

| member | source | states |
|---|---|---|
| `ReachingDefs.FunComputeReachingDefs` | Base/reaching_defs.py:92-129 | For every function with reachable blocks the worklist ends; its in-maps are closed under every edge, every tag in them is accounted for by paths, and every register operand that is read is tagged with what replaying its block gives there (the lookup never fails) |
| `ReachingDefs.ReachingDefsFixpoint` | Base/reaching_defs.py:104-127 | The worklist terminates although a merge can report a change at the top, and keeps any property of tags that is closed under edges |
| `ReachingDefs.MergeReachingDefs` | Base/reaching_defs.py:52-65 | Merging into a block: each entry stays, rises to the value that came in, or rises to the block itself, and the change flag says whether anything was touched |
| `ReachingDefs.OutClimbs` | Base/reaching_defs.py:111-125 | An out-map that really changed is strictly closer to the top, entry by entry, which bounds how often blocks are queued again |
| `ReachingDefs.SolutionCoversPaths` | Base/reaching_defs.py:92-129 | Along every entry path, the tag at a block is the last definition on the path, or a block that the path went through since, with no definition in between |
| `ReachingDefs.InsTagIff` | Base/reaching_defs.py:92-129 | A block has an instruction tag for r iff some path defines r and on all paths that do that instruction is the last to do so |
| `ReachingDefs.UseIsTagged` | Base/reaching_defs.py:68-89 | Every read in a reachable block finds a tag |
| `ReachingDefs.BblComputeDefs` | Base/reaching_defs.py:22-43 | Definitions of a block are the last ones, and the collected uses are those not defined above |
| `ReachingDefs.BblPropagateDefs` | Base/reaching_defs.py:68-89 | Each instruction of the block gets the tags that hold right there, and definitions update the running map |
| `ReachingDefs.TagsAtIsUpdate` | Base/reaching_defs.py:111-125 | Replaying a block instruction by instruction equals merging its local definitions over the in-map |
| `Avail.TagStep` | Base/reaching_defs.py:46-129 | One step of any run seen by the tags: a write gives its own tag, an edge keeps a tag or replaces it by the tag of the block being entered, nothing else changes it |
| `Avail.TagOrigin` | Base/reaching_defs.py:46-129 | Whenever a register carries a tag, the event the tag speaks of has happened on that run |
| `Avail.NoDescent` | Base/reaching_defs.py:409-439 | A definition that is always preceded by an event, and that event always preceded by the definition, can never both occur; so loops cannot make a stale tag look current |
| `Avail.SourceKept` | Base/reaching_defs.py:325-331 | While a source of a definition still carries the tag it had there, it has not been written since, even if loops ran the definition of the source again |
| `Avail.ValueIsCurrent` | Base/reaching_defs.py:409-439 | If all sources of a pure instruction still carry their recorded tags, the register it set holds what the instruction would compute now, on every run |
| `Avail.SourceIsHonest` | Base/reaching_defs.py:409-439 | A source that is still current may be used in place of the register, and its recorded tag is right at the new place as well |
| `Avail.FreshIsHonest` | Base/reaching_defs.py:92-129 | Right after the analysis all recorded tags are right at every execution of their instruction, in every run |
| `Rewrites.CopyIsCurrent` | Base/reaching_defs.py:409-439 | A mov whose source still has its recorded tag: source and copy hold equal values |
| `Rewrites.FoldedAddress` | Base/reaching_defs.py:281-322 | Combining base and offsets keeps the effective address (modulo the address space) as long as the base and any register offset are current |
| `Rewrites.FoldedEffect` | Base/reaching_defs.py:334-374 | The folded opcode has the same effect and result as the original access; which form it takes is Replaced.FoldIsDone |
| `Rewrites.StepMayReplace` | Base/reaching_defs.py:144-160 | Each single replacement of any of the three passes is justified on every run |
| `Rewrites.RewrittenRunsAlike` | Base/reaching_defs.py:409-439 | Every run of the rewritten function is the run of the original, state for state |
| `Rewrites.RewriteKeepsRuns` | Base/reaching_defs.py:162-165 | A whole pass that only performs justified replacements keeps every run and leaves the tags right for the next pass |
| `Rewrites.AnalysedIsRewritten` | Base/reaching_defs.py:92-129 | The analysed function is a starting point for the passes |
| `Passes.InsPropagateRegs` | Base/reaching_defs.py:409-439 | Operand by operand, with its tag: a register set by a mov from a register outside of `cpuRegs`, whose tag recorded there is the one it has here, becomes that register with that tag; every other operand stays |
| `Passes.InsPropagateConsts` | Base/reaching_defs.py:144-160 | Operand by operand: a register set by a mov of a constant becomes the constant, without a tag; every other operand stays |
| `Passes.InsTryLoadStoreSimplify` | Base/reaching_defs.py:334-374 | A ld, st or lea takes over the base of the lea or mov that set its base, with the form that base calls for and the two offsets as one, iff base and offset may be used here; else it stays. Memory forms keep memory operands, stack forms stack operands |
| `Replaced.CopiesAreDone` | Base/reaching_defs.py:409-439 | Replacing operands from left to right comes to this: an operand changes iff it was set by a mov from a register not bound to the machine that still has its recorded tag, and then to that register with that tag |
| `Replaced.ConstsAreDone` | Base/reaching_defs.py:144-160 | The same for constants |
| `Replaced.FoldIsDone` | Base/reaching_defs.py:281-374 | What a fold leaves: the base of the definition, the sum of the offsets, and the memory, stack or register form that goes with the base; nothing else of the instruction changes |
| `Replaced.CanFoldFolds` | Base/reaching_defs.py:296-331 | Whenever base and offsets can be combined and are still there, the fold happens |
| `Replaced.FoldsCan` | Base/reaching_defs.py:296-331 | and only then |
| `Replaced.FormsStay` | Base/opcode_tab.py:643-727 | After any of the passes ld.mem, st.mem and lea.mem still have a global as base, ld.stk, st.stk and lea.stk a stack slot, and ld, st and lea neither |
| `Replaced.PassIsDone` | Base/reaching_defs.py:162-165 | After a whole pass every instruction of every block has been treated once, with the tags that hold there and the code as far as the pass had got |
| `Passes.FunRewrite` | Base/reaching_defs.py:405-444 | Any of the passes over a whole function keeps all runs (same blocks, registers, memory and events at every step), and leaves every instruction as the pass should |
| `Passes.OptimizeWithReachingDefs` | Base/optimize.py:120-137 | Analysis followed by the passes that use it: every run of the result equals the run of the original, block by block and register by register; each pass has done to every instruction what it should, and opcode forms fit their operands if they did before |
| `Lookup.SourceIsTagged` | Base/reaching_defs.py:325-331 | The tag of a register operand of a definition is still there wherever the tag of the definition has got to: along every path on which a register carries the definition, each register the definition read is tagged |
| `Lookup.AnalysisIsOnTheWay` | Base/reaching_defs.py:92-129 | The analysed function satisfies what the lookups rest on |
| `Lookup.StepKeepsGrounded` | Base/reaching_defs.py:409-439 | Every replacement of every pass keeps it |
| `Lookup.StepLooksUp` | Base/reaching_defs.py:325-331 | so each instruction of each pass finds the tags it looks up |
| `Lookup.FunOnTheWay` | Base/reaching_defs.py:377-444 | A whole pass keeps it too, so the passes may follow each other in any order |
| `Lookup.PassNeverMissesKey` | Base/reaching_defs.py:377-444 | No pass over a function looks up a register that has no tag, at any instruction or operand |
| `Liveness.LiveAtIff` | Base/liveness.py:54-79 | A register is live inside a block iff it is read before being set from there on, or reaches the end unset and is live there |
| `Liveness.InsUpdateDefUse` | Base/liveness.py:54-79 | One backward step over an instruction |
| `Liveness.BblDefUse` | Base/liveness.py:82-87 | The def/use summary of a block is the composition of its instruction transfers, for every live-out set |
| `Liveness.ReadFromUnfolds` | Base/liveness.py:143-168 | A register is read on some path from a block iff the block exposes it, or does not set it and some successor path reads it |
| `Liveness.FunLivenessFixpoint` | Base/liveness.py:143-168 | The worklist, which only compares sizes, ends with exactly the registers that some path reads before setting them |
| `Liveness.SizeTellsGrowth` | Base/liveness.py:143-168 | Live sets only grow, so comparing lengths detects every change |
| `Liveness.FunComputeLivenessInfo` | Base/liveness.py:171-186 | r is in live_out(b) iff some path from the end of b reads r with no write of r before it |
| `DeadCode.InsUpdateLiveness` | Base/liveness.py:90-124 | Decides whether an instruction has a side effect or a live result, and updates the live set accordingly |
| `DeadCode.BblRemoveUselessInstructions` | Base/liveness.py:127-135 | Keeps, in order, exactly the instructions that have a side effect by the attributes of their opcode, or set a register that a kept instruction below, or what follows the block, reads before it is set again |
| `DeadCode.NeededIsLive` | Base/liveness.py:127-135 | What the pruned block needs never exceeds what was live |
| `DeadCode.KeptHasToStay` | Base/opcode_tab.py:107-108 | The instructions the backward walk keeps are those that have to stay, seen from the instructions kept: a call, terminator, memory access or special opcode, or a register that is read later |
| `DeadCode.PrunedRunsAgree` | Base/liveness.py:138-140 | Given exact liveness, the pruned function is at the same block with the same memory and events at every step of every run, and agrees on every register that may still be read |
| `DeadCode.FunRemoveUselessInstructions` | Base/liveness.py:138-140 | Every block is pruned like that by its own live-out set and nothing else changes |
| `DeadCode.ComputeLivenessAndRemoveUseless` | Base/optimize.py:139-141 | Liveness and removal one after the other keep all observable runs, and remove from every block exactly what the paths from its end do not need |
| `InitCfg.FunInitCFG` | Base/cfg.py:81-120 | Fails exactly if control can run off the end of a block with instructions; otherwise every block has the edges its last instruction and its place in the layout ask for, each known at both ends |
| `InitCfg.EdgesRunLikeLayout` | Base/cfg.py:81-120 | Following the edges found is, run for run, executing the blocks in layout order with fall-through |
| `InitCfg.InitMakesGraph` | Base/cfg.py:108-120 | The result is the well-formed graph the other passes ask for if control cannot run off the end; when an empty last block is dropped, it is iff nothing leads to that block and it is not the only one |
| `InitCfg.AddEdgeOut` | Base/ir.py:274-276 | An edge is recorded at both ends |
| `Cfg.InsMaybePatchNewSuccessor` | Base/cfg.py:149-179 | Every mention of the old successor in a branch or jump table becomes the new one |
| `Cfg.ReplaceEdgeOut` | Base/ir.py:282-289 | All edges to the old successor now go to the new one, with the same multiplicities at both ends |
| `Cfg.RedirectedNext` | Base/cfg.py:182-205 | A redirected block goes where it went before, but to the target of the removed block instead of that block |
| `Cfg.RemoveEmptyBbl` | Base/cfg.py:182-205 | Removing one empty block redirects every predecessor and keeps predecessor and successor lists consistent |
| `Cfg.EmptyBblsDontMatter` | Base/cfg.py:182-205 | Following any chain of removed empty blocks ends where the new edges go, so runs agree up to visits to empty blocks |
| `Cfg.FunRemoveEmptyBbls` | Base/cfg.py:182-205 | Exactly the non-empty blocks remain, with their instructions and in their old order, the graph stays well-formed, and every run is the same up to visits to removed blocks |
| `Linear.FunRemoveUnconditionalBranches` | Base/cfg.py:123-138 | No block ends in bra any more, the blocks lost nothing else, and no run that follows edges changed |
| `Linear.FlippedHolds` | Base/cfg.py:141-146 | The inverted condition, with operands exchanged for blt and ble, holds iff the original does not |
| `Linear.BranchRealizes` | Base/cfg.py:208-249 | Taking the (possibly flipped) branch or falling through leads where the edges led, also if both edges go to one block |
| `Linear.LinearRunsLikeEdges` | Base/cfg.py:208-249 | If every block realizes its edges in the layout, the fall-through run without visits to inserted blocks is the edge run, and nothing of that run is missing |
| `Linear.LoopAtEndFails` | Base/cfg.py:208-249 | A well-formed function on which re-inserting branches fails: a loop last in the layout whose closing bra was taken out |
| `Linear.FunAddUnconditionalBranches` | Base/cfg.py:208-249 | Fails exactly if the last block of the layout falls through. Otherwise the edges of all blocks, inserted ones included, are the ones their last instructions ask for, and are known at both ends; running the new layout in a row is following its edges, and following the old ones; the old blocks keep their order, and nothing is inserted or flipped where falling through would do |
| `Linear.LaidResult` | Base/cfg.py:208-249 | What the laid out function is like: well-formed edges at both ends, fall-through and edges lead to the same place, old blocks in the old order, no branch where none is needed |
| `Linear.InsertionIsMutual` | Base/cfg.py:237-247 | Inserting one block keeps predecessor and successor lists in step, with multiplicities |
| `RegPool.MasksOverlapIff` | CodeGenA32/regs.py:38-50 | Allocation masks overlap exactly when the architecture lets the registers overlap (d0 is s0 and s1) |
| `RegPool.PreAllocation.Add` | Base/reg_alloc.py:21-24 | Keeps the reserved stretches sorted |
| `RegPool.PreAllocation.HasConflict` | Base/reg_alloc.py:26-40 | With non-decreasing queries the one-way cursor answers true iff some reserved stretch overlaps the query |
| `RegPool.OverlapsIff` | Base/reg_alloc.py:26-40 | Two stretches overlap, as the cursor compares them, iff some position lies in both |
| `RegPool.RegPoolArm.GetAvailableReg` | CodeGenA32/regs.py:251-283 | Returns the lowest register of the kind that is free in the right class and has no reserved stretch in the way; fails only if there is none; takes exactly its bits |
| `RegPool.RegPoolArm.GiveBackAvailableReg` | CodeGenA32/regs.py:285-294 | Puts the bits back into the class they belong to |
| `RegPool.RegPoolArm.AddReservedRange` | CodeGenA32/regs.py:224-236 | Records a stretch for every bit of the register |
| `RegPool.MaskInClass` | CodeGenA32/regs.py:60-76 | All bits of a register agree on whether they survive calls |
| `LiveRanges.BblGetLiveRanges` | Base/liveness.py:282-360 | r is live after position p iff a range of r with a real last use covers p; each range starts at a write or the block start and ends at a read, the block end or nowhere; it has the kind of its register and is live across calls iff a call lies strictly inside; every read is on record, every last read exactly once |
| `LiveRanges.WalkIns` | Base/liveness.py:313-356 | One instruction of the backward walk keeps all of that for the part of the block seen so far |
| `LiveRanges.LacIsRight` | Base/liveness.py:300-305 | Comparing the last use with the nearest call decides whether any call lies inside the range |
| `LiveRanges.FinalizeOpen` | Base/liveness.py:358-360 | Ranges still open reach back to the start of the block, calls at position 0 included |
| `SortRanges.Sort` | Base/liveness.py:248-255 | Sorted by start and end, each range once |
| `SortRanges.DescribesReordered` | Base/reg_alloc.py:120-120 | Sorting keeps what the ranges say about liveness |
| `SortRanges.EndsNamedReordered` | Base/reg_alloc.py:120-120 | and which record ends which range |
| `LinearScan.EndingIsFree` | Base/reg_alloc.py:73-94 | A range that ends at a read shares no bit with any range that goes on, so its register may be reused there |
| `LinearScan.NearestIsFree` | Base/reg_alloc.py:129-163 | The nearest earlier range that ends after the position still holds its register alone, although the search compares with positions long past: a nearer holder would have been found first |
| `LinearScan.AssignKeeps` | Base/reg_alloc.py:166-184 | Giving the next range a register from the pool keeps: no available bit belongs to an unfinished range, ranges that meet are apart, reserved stretches are respected |
| `LinearScan.UnassignKeeps` | Base/reg_alloc.py:129-145 | Taking the register away from the range the search finds keeps the invariant of the scan and the scratch registers in use |
| `LinearScan.UseStepKeeps` | Base/reg_alloc.py:187-217 | One record of reads, with scratch registers for spilled ranges, keeps the invariant |
| `LinearScan.DefStepKeeps` | Base/reg_alloc.py:166-184 | One definition, with spilling if needed, keeps the invariant |
| `LinearScan.ScanKeeps` | Base/reg_alloc.py:220-244 | At every moment of every scan, for all ranges and pools it may start with: no available bit belongs to a range that still needs it, ranges that meet share no bit, reserved stretches are respected |
| `LinearScan.AnswerIs` | CodeGenA32/regs.py:251-283 | A request to the pool has one possible answer, so the scan is a function of the ranges and the pool |
| `LinearScan.Scan.SpillEarlierLiveRange` | Base/reg_alloc.py:129-145 | Un-assigns the nearest range of the family that ends after the given place, and fails iff there is none |
| `LinearScan.Scan.HandleDefLiveRangeFancy` | Base/reg_alloc.py:166-184 | Ends in exactly the ranges and the pool that the scan on values prescribes for a definition, and fails exactly when that does |
| `LinearScan.Scan.HandleUseLiveRangeFancy` | Base/reg_alloc.py:187-217 | Ends in exactly the ranges and the pool that the scan on values prescribes for a record of reads, scratch registers included, and fails exactly when that does |
| `LinearScan.Scan.RegisterAssignerLinearScanFancy` | Base/reg_alloc.py:220-244 | Every range is spilled or has a register of its kind that survives calls if needed; ranges that meet share no bit; none conflicts with a reserved stretch; the result is that of the scan on values |
| `ScanLaws.PoolAtAnyMoment` | CodeGenA32/regs.py:251-294 | At every moment of every scan a bit is available iff the pool began with it, or it came back from a fixed range that is over, and no range that goes on holds it |
| `ScanLaws.CandidateIff` | CodeGenA32/regs.py:251-283 | The registers the pool may hand out are those whose bits are all free in the right class and not reserved during the range |
| `ScanLaws.EveryDefinition` | Base/reg_alloc.py:166-184 | A definition gets the lowest numbered register that is free, and is spilled only if there is none; then the nearest earlier range that may loses its register iff otherwise there is no scratch register, and the scan fails iff that does not help |
| `ScanLaws.EveryRead` | Base/reg_alloc.py:187-217 | A read of a spilled range gets the lowest scratch register; only if there is none the nearest earlier range that ends later loses its register, and the scan fails iff there is no such range or its register does not help |
| `ScanLaws.EveryRecord` | Base/reg_alloc.py:187-217 | A record fails iff one of its reads does, and changes no range otherwise |
| `ScanLaws.EverythingElse` | Base/reg_alloc.py:220-244 | A range that is fixed or not for this allocator to place changes nothing |
| `ScanLaws.ScanUses` | CodeGenA32/regs.py:57-75 | Every register a block gets outside of its fixed ones consists of bits r0 to r12, r14 and s0 to s31, or of bits of fixed registers, and is of the kind asked for |
| `ScratchRegs.ScanAccounts` | Base/reg_alloc.py:187-244 | In every scan no bit gets lost: what a handled range was given is available again or belongs to a range that still needs it |
| `ScratchRegs.BlockIsNamed` | Base/liveness.py:282-360 | The live ranges of a block are as the results about scratch registers ask: whatever ends in the block is on record there |
| `ScratchRegs.ScratchDistinctIff` | Base/reg_alloc.py:187-217 | The scratch registers one record holds at the same time are pairwise distinct if and only if no range that is over, or never read, loses its register for them |
| `ScratchRegs.EveryRecordIff` | Base/reg_alloc.py:220-244 | The same for every record of every scan, stated over the ranges and the pool before the record is served |
| `ScratchRegs.ClaimIff` | Base/reg_alloc.py:193-207 | A scratch register is found if and only if the pool has one to hand out, or the register of the nearest range that qualifies is caller-saved and completes one |
| `ScratchRegs.DefGivesUpIff` | Base/reg_alloc.py:166-184 | The scan gives up at a definition if and only if the pool has no register for it, none as scratch register, and taking one from the nearest range is of no use |
| `ScratchExamples.CodeHasRanges` | Base/liveness.py:282-360 | The live ranges of the two examples say exactly what liveness says of their code |
| `ScratchExamples.GivesUp` | Base/reg_alloc.py:231-232 | A block of code with its live ranges on which the scan gives up with the full A32 pool, though callee-saved registers are available |
| `ScratchExamples.TwoScratchAlike` | Base/reg_alloc.py:193-212 | A block of code with its live ranges in which, with the full A32 pool, one store gets r14 as scratch register both for its address and for its value |
| `RegStats.UsagePool.GetAvailableReg` | Base/reg_stats.py:43-51 | Takes a register of the class from stock or makes one |
| `RegStats.UsagePool.GiveBackAvailableReg` | Base/reg_stats.py:59-61 | Returns it to the stock of its class |
| `RegStats.UsagePool.Usage` | Base/reg_stats.py:53-57 | The assertion holds iff as many registers are in stock as were made |
| `RegStats.PressureIsHolders` | Base/reg_alloc.py:97-106 | The registers needed at a definition are those held by earlier ranges plus one |
| `RegStats.PeakIsMost` | Base/reg_stats.py:71-86 | No definition needs more registers of its class than the peak |
| `RegStats.PeakIsReached` | Base/reg_stats.py:71-86 | and some definition needs that many |
| `RegStats.PeakOfIsMostThatMeet` | Base/reg_stats.py:39-86 | The peak over all blocks, read off the fields of the ranges: no more ranges of a kind and flag meet anywhere, and somewhere that many do |
| `RegStats.RegisterAssignerLinearScan` | Base/reg_alloc.py:109-126 | With the manufacturing pool the standard scan makes registers of a class only up to the peak of the block, and all are back in the pool at the end |
| `RegStats.FunComputeBblRegUsageStats` | Base/reg_stats.py:64-86 | usage[Class(k, l)] is the highest number of ranges of kind k, live across calls or not as l says, that meet at a definition of such a range, over all blocks; the final assertion of the pool never fails; the ranges are the true live ranges of each block, without those of machine registers and of kinds that have no machine register |
| `MachineCode.SavedAcrossCall` | CodeGenA32/regs.py:56-76 | A callee-saved register reads the same after a call that clobbers everything else |
| `MachineCode.ReadOther` | CodeGenA32/regs.py:38-43 | Writing a register leaves every register with a disjoint mask alone |
| `MachineCode.ColoredRunMatches` | CodeGenA32/regs.py:343-355 | If registers live at the same time have disjoint machine registers and those live across calls are callee-saved, the block on machine registers follows the block on virtual ones |
| `LocalAlloc.SetUpPool` | CodeGenA32/regs.py:312-334 | The pool offers r6 to r11 and s16 to s31 for ranges live across calls, r0 to r5, r12, r14 and s0 to s15 for the others, and holds exactly the reserved stretches of the pre-allocated ranges |
| `LocalAlloc.RunLinearScan` | CodeGenA32/regs.py:312-340 | Scanning a block with such a pool yields an allocation with the properties above, or reports failure; either is what the scan on values comes to |
| `LocalAlloc.RangesColor` | CodeGenA32/regs.py:343-355 | Ranges allocated apart make the assignment of registers interference-free at every instruction |
| `LocalAlloc.AssignAllocatedRegs` | CodeGenA32/regs.py:343-355 | Every register of a range gets the register of that range or is reported as spilled, never both, and no other register changes |
| `LocalAlloc.OnceIfLocal` | CodeGenA32/regs.py:343-355 | Registers set once and dead outside the block have one range each |
| `Spill.InsSpillRegs` | Base/reg_alloc.py:247-268 | One load into a scratch register of its own for each spilled operand that is read, last operand first, then the instruction with exactly these operands replaced, then one store iff what it writes is spilled; nothing else |
| `Spill.BblSpillRegs` | Base/reg_alloc.py:271-279 | The block is rewritten like that instruction by instruction, in order, with new scratch registers for each |
| `Spill.LiveAfterSpill` | Base/reg_alloc.py:271-279 | Liveness of the spilled block is that of the original without the spilled registers |
| `Spill.ExpandRuns` | Base/reg_alloc.py:247-268 | After each rewritten instruction every spilled register equals its slot and all others agree |
| `Spill.SpillRuns` | Base/reg_alloc.py:271-279 | The spilled block has the same memory, events and values as the original block |
| `FunSpill.NewSlots` | Base/reg_alloc.py:282-288 | Each register gets a new slot of its own, as wide and as aligned as the register, and there are no other new slots |
| `FunSpill.BblSpill` | Base/reg_alloc.py:271-279 | In place: the instructions of a block keep their identity, loads and stores are new instructions around them |
| `FunSpill.FunSpillRegs` | Base/reg_alloc.py:282-290 | Every block is rewritten with the same slots: loads, stores and scratch operands where spilled registers are read and written, and nothing else |
| `FunSpill.SpilledStep` | Base/reg_alloc.py:282-290 | One block of the spilled function leads to the same next block and keeps every live register in its slot, also around loops |
| `FunSpill.SpilledFunRuns` | Base/reg_alloc.py:282-290 | At every step of every run of the whole function, on every machine: same block, memory and events, every live spilled register in its slot and every other one unchanged |
| `FrameSpill.StoredSlot` | Base/ir.py:377-387 | A slot of the frame decodes to the value that was stored; all other slots and all memory outside of the slots stay |
| `FrameSpill.FinalizedFits` | Base/ir.py:377-387 | The slots that spilling makes, placed by FinalizeStackSlots, are places of the right size that do not overlap |
| `FrameSpill.PerformInFrame` | Base/reg_alloc.py:247-268 | One instruction does on the bytes of the frame what it does on abstract slots, if it uses slots as it should and the machine is local |
| `FrameSpill.SpillIsSound` | Base/reg_alloc.py:271-279 | Spill code goes to the addresses of its slots with values that fit, and the rewritten instructions touch no slot, if the original ones, where they are executed, do not and give spilled registers values of their kinds |
| `FrameSpill.SpilledToFrame` | Base/reg_alloc.py:282-290 | The whole spilled function with loads and stores going to the frame addresses of FinalizeStackSlots, in one memory with everything else: if the run of the original stays off the slots and within the sizes of the spilled registers, then at every step the same block and events, the same memory outside of the slots, and every live register has its value in the bytes of its slot |
| `FrameExample.SumInFrame` | Base/reg_alloc.py:282-290 | A byte-addressed machine and a loop with registers of one and four bytes meet all that is asked, for every start, so the theorem holds of them |
| `BlockAlloc.SpilledRuns` | CodeGenA32/regs.py:391-432 | Spilling followed by a second allocation runs like the original block |
| `BlockAlloc.UnspilledRuns` | CodeGenA32/regs.py:391-432 | and so does the first allocation if nothing was spilled |
| `BlockAlloc.SlotsFor` | Base/reg_alloc.py:272-277 | Every spilled register gets a new slot of its own, as wide and as aligned as the register, and there are no other new slots |
| `BlockAlloc.SpillSetsOnce` | CodeGenA32/regs.py:391-432 | After spilling, local registers are still set once |
| `BlockAlloc.BblRegAllocOrSpill` | CodeGenA32/regs.py:391-432 | Gives up exactly if the first scan fails, or it spills and the second scan, over the block with its spill code, fails. Otherwise registers are as the scans say, from r0 to r12, r14 and s0 to s31 but for fixed ones (so none is sp or pc if no fixed one is), and running the block on machine registers, with calls clobbering all that is not callee-saved, has the same stores, calls, branch operands and live-out values as on virtual registers |
| `BlockAlloc.OutcomeFromPool` | CodeGenA32/regs.py:391-432 | Whatever register an allocation gives out besides the fixed ones is of the right kind and from the registers the allocator may use |
| `BlockAlloc.PoolHasNoSp` | CodeGenA32/regs.py:57-75 | so it is neither sp nor pc unless a fixed one is |
| `FunAlloc.BlockOnMachine` | CodeGenA32/regs.py:391-432 | An allocated block leads, by the branch at its end, to the same next block with all live-out values in their machine registers |
| `FunAlloc.AllocatedFunRuns` | CodeGenA32/regs.py:445-446 | The whole function on machine registers: at every step of every run, for any machine and any clobbering by callees, same block, memory and events, and every live register in its machine register |
| `FunAlloc.FunLocalRegAlloc` | CodeGenA32/regs.py:445-446 | Gives up exactly if the allocation of some block does. Otherwise every block is allocated as above; blocks keep their spilled registers in new slots of their own, sized for them |
| `FrameAlloc.BlockOnFrame` | CodeGenA32/regs.py:391-432 | An allocated block on machine registers, its slots in the frame, leads to the same next block with all live-out values in their machine registers |
| `FrameAlloc.AllocatedFits` | Base/ir.py:377-387 | The slots that local allocation makes in all blocks, placed by FinalizeStackSlots, are places of the right size that do not overlap |
| `FrameAlloc.AllocatedToFrame` | CodeGenA32/regs.py:445-446 | The whole function on machine registers, its spilled registers in the bytes of the frame: at every step of the run the same block and events, the same memory outside of the slots, and every live register in its machine register |
| `SeparatePass.FunComputeRegStatsExceptLAC` | Base/reg_stats.py:89-123 | The recorded instruction is the first in layout order that sets the register |
| `SeparatePass.FunComputeRegStatsLAC` | Base/reg_stats.py:126-147 | A register is global iff it is live at the start of some block, and lac iff it is live after some call |
| `SeparateLocals.BblRenameReg` | Base/reg_stats.py:191-203 | Reads of the register are renamed up to and including those of the next instruction that sets it |
| `SeparateLocals.NameStep` | Base/reg_stats.py:206-223 | Renaming one definition in place amounts to giving that definition a name that later reads look up |
| `SeparateLocals.FunSeparateLocalRegUsage` | Base/reg_stats.py:206-223 | An instruction gets a fresh register to set iff its own is not in `kept` and it is not the recorded first to set it; no fresh register is given twice; every read names the register that the last instruction before it in the block sets in its place, or stays |
| `SeparateLocals.SeparatedIsNamedApart` | Base/reg_stats.py:206-223 | Renaming one definition after the other comes to exactly that |
| `SeparateLocals.SeparationKeepsRuns` | Base/reg_stats.py:206-223 | Same blocks, memory, events and non-local registers at every step of every run |
| `SeparateLocals.SeparatedSetOnce` | Base/reg_stats.py:206-223 | Afterwards a register that is neither global nor a machine register is set by one instruction at most |
| `SeparatePass.ComputeStatsAndSeparate` | CodeGenA32/legalize.py:426-433 | Liveness, statistics and separation together rename exactly the later definitions of registers not seen outside their block, keep all runs, and establish, for every block, what the block allocator asks for |
| `SeparatePass.SeparatedIsLocalOnce` | CodeGenA32/regs.py:391-432 | Set once and set before read within the block is the precondition of local allocation |
| `Frame.ComputeHighByte` | CodeGenA32/isel_tab.py:341-347 | The leading byte at an even bit position |
| `Frame.FrameChunks` | CodeGenA32/isel_tab.py:350-356 | For any size below 2^32 the immediates add up to it, are at most four, and each is encodable (section A5.2.4 of ARM DDI 0406C) |
| `Frame.EmitFunProlog` | CodeGenA32/isel_tab.py:378-391 | From any state: the registers of the context lie in the words right below the old sp, sp is below them by the size of the frame, and no other register or memory changed; six instructions at most, with encodable immediates |
| `Frame.EmitFunEpilog` | CodeGenA32/isel_tab.py:350-364 | From any state a body may end in: sp and the callee-saved registers are as at the start and execution goes on at the old lr; memory, results and scratch registers stay; seven instructions at most, with encodable immediates |
| `Frame.EpilogUndoesProlog` | CodeGenA32/isel_tab.py:350-391 | Whatever runs in between, as long as it leaves sp, the saved words and the unsaved callee-saved registers alone: afterwards sp and all callee-saved registers are as before and execution continues at the old lr, with 32-bit address arithmetic; memory and the registers that hold results are as the body left them |
| `Frame.SameOrder` | CodeGenA32/regs.py:488-497 | pc stands in the ldm list where lr stands in the stm list |
| `Frame.FunComputeEmitContext` | CodeGenA32/regs.py:484-503 | All callee-saved registers in use are saved, lr iff there are calls or it is used, and saved words plus frame are a multiple of 16 bytes with less than 16 wasted |
| `Frame.ArmGetFltRegRanges` | CodeGenA32/regs.py:78-88 | The stretch from the first to the last register of the mask |
| `Frame.StaysAligned` | CodeGenA32/regs.py:498-503 | sp stays 16-byte aligned iff the gaps in the saved single precision registers take up a multiple of 16 bytes |
| `Frame.GapsMisalign` | CodeGenA32/regs.py:484-503 | A function that uses just s16 and s18 of the callee-saved registers: three words are saved, two are counted, and sp is not 16-byte aligned after the prolog |
| `Frame.FinalizeStackSlots` | Base/ir.py:377-387 | Slots are aligned, disjoint, in order, at the first fitting place, and within the frame |
| `Frame.SlotsAreCells` | Base/ir.py:377-387 | A slot reads back what was written to it, byte by byte, and no other slot notices |

## Left out

- `FunSplitBbls`, `_BblRemoveUnreachableIns`: blocks are taken to end at their first terminator already.
- `_InsConstantFold` and the ALU evaluators: folded values are computed in unbounded integers and are marked naive in the source.
- Canonicalization, strength reduction, move elimination, width widening: identities of single instructions, or rewrites whose own comments list exceptions.
- Constant kinds and register widths: registers hold integers, and the machine's ALU is arbitrary.
- Load and store widths: memory is abstract, so an access is an event with an address and a value.
- Change counts returned by the passes.
- The array form of the tag lattice in Base/reaching_defs.cc: the dictionary form of the Python reference is modelled.
- `ReachingDefs.FunComputeReachingDefs`: asks for all blocks to be reachable from the first, since the lookup fails in blocks that are not.
- `Cfg.FunRemoveEmptyBbls`: asks that the entry block is not empty and that no cycle consists of empty blocks only; on such a cycle the source has no block to redirect to.
- `LiveRanges.BblGetLiveRanges`: calls do not bind machine registers (`cpu_live_in`, `cpu_live_out`), the part the source calls ad hoc; `num_uses` is dropped, as the allocators do not read it.
- `Liveness.FunComputeLivenessInfo`: models the code before machine registers exist.
- `LinearScan.Scan.SpillEarlierLiveRange`: `backtrack_reset` of the pool is not modelled; the allocator does not call it.
- `BlockAlloc.BblRegAllocOrSpill`: the positions of a block must stay below 32000 with the spill code included, as the sentinels of the source require, and scratch registers are numbered from a base above all others.
- `Spill.BblSpillRegs`: rewrites the instructions; the slots are made by `BlockAlloc.SlotsFor`.
- `FunSpill.FunSpillRegs`: the number of changed blocks is not returned; slots are numbers in order of creation, and the position of a slot in the order of names is the `rank` of the frame layout.
- `FunAlloc.FunLocalRegAlloc`: works on the instruction lists of the blocks and returns new ones instead of updating the function in place.
- `Passes.OptimizeWithReachingDefs`: the constant folding, canonicalization and strength reduction that the source runs in between are left out, as said above.
- `Liveness.InsUpdateDefUse`: models the code before machine registers exist, when calls set no registers.
- `DeadCode.InsUpdateLiveness`: the same.
- `RegStats.FunComputeBblRegUsageStats`: ranges are sorted before they are marked as ignored, while the source marks first; the order of the two does not matter.
- `SeparateLocals.FunSeparateLocalRegUsage`: new registers are numbers above all others; names and kinds of scratch registers are not modelled.
- `SeparatePass.FunComputeRegStatsExceptLAC`: flags for several reads or writes are not modelled.
- `Frame.FunComputeEmitContext`: the machine registers in use and whether there are calls are parameters; collecting them is a plain scan.
- `GetCpuRegsForSignature`, the conversion of pusharg and poparg, and `FunArgState`: assignment of argument registers from kinds, straight-line code that adds little to the allocation results.
- Global register allocation in CodeGenA32/legalize.py, instruction selection tables, encoders, ELF output, text parsing and printing, front ends, the JIT, and command line tools.
