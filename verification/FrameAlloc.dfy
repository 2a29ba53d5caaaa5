/** Local allocation down to machine registers and bytes: registers are read through the assignment of
    each block, and what did not fit is in the stack frame, where `Frame.FinalizeStackSlots` put it.
    Every run follows the run on virtual registers (`AllocatedToFrame`). */
module FrameAlloc {
  import opened IR
  import opened Liveness
  import opened DeadCode
  import opened MachineCode
  import opened Spill
  import opened FunSpill
  import opened BlockAlloc
  import opened FunAlloc
  import opened FrameSpill
  import Frame

  // ---------------------------------------------------------------- one block

  /** Machine registers, and memory with the frame in it. */
  datatype Framed = Framed(file: File, world: Bytewise)

  function ExecFramed(m: Machine, abi: Abi, l: Layout, frame: set<nat>, cpu: Assignment, ins: Ins, q: Framed): Framed {
    var d := PerformFlat(m, l, frame, ins, UseVals(m, ins, Seen(cpu, q.file)), q.world);
    Framed(FileAfter(abi, cpu, ins, Performed(d.result, World(d.world.mem, d.world.trace, map[])), q.file), d.world)
  }

  function ExecFramedIds(m: Machine, abi: Abi, l: Layout, frame: set<nat>, cpu: Assignment, code: seq<Ins>, ids: seq<InsId>, k: nat, q: Framed): Framed
    requires k <= |ids|
  {
    if k == 0 then q
    else ExecFramed(m, abi, l, frame, cpu, InsAt(code, ids[k - 1]), ExecFramedIds(m, abi, l, frame, cpu, code, ids, k - 1, q))
  }

  /** Same machine registers; the frame holds the slots. */
  ghost predicate SameFile(l: Layout, frame: set<nat>, all: set<nat>, p: Physical, q: Framed) {
    q.file == p.file && InFrame(l, frame, all, p.world, q.world)
  }

  lemma FileAfterSame(abi: Abi, cpu: Assignment, ins: Ins, d: Performed, d': Performed, file: File)
    requires d.result == d'.result && d.world.trace == d'.world.trace
    ensures FileAfter(abi, cpu, ins, d, file) == FileAfter(abi, cpu, ins, d', file)
  {
    hide WriteCpu, Clobbered;
  }

  lemma FramedStep(m: Machine, reach: Reach, abi: Abi, l: Layout, frame: set<nat>, all: set<nat>, cpu: Assignment, ins: Ins, p: Physical, q: Framed)
    requires l.Places(m, all) && frame <= all && Local(m, reach) && SameFile(l, frame, all, p, q)
    requires Sound(m, reach, l, frame, all, ins, UseVals(m, ins, Seen(cpu, p.file)), p.world.trace)
    ensures SameFile(l, frame, all, ExecPhysical(m, abi, frame, cpu, ins, p), ExecFramed(m, abi, l, frame, cpu, ins, q))
  {
    hide l.Places, Local, Sound, UseVals, Seen, Perform, PerformFlat, FileAfter, AgreeOut, HoldsSlots;
    var vs := UseVals(m, ins, Seen(cpu, p.file));
    PerformInFrame(m, reach, l, frame, all, ins, vs, p.world, q.world);
    var d, d' := Perform(m, frame, ins, vs, p.world), PerformFlat(m, l, frame, ins, vs, q.world);
    FileAfterSame(abi, cpu, ins, d, Performed(d'.result, World(d'.world.mem, d'.world.trace, map[])), p.file);
  }

  lemma SoundAtIndex(m: Machine, reach: Reach, l: Layout, frame: set<nat>, all: set<nat>, body: seq<Ins>, t: Virtual, k: nat)
    requires k < |body| && SoundRun(m, reach, l, frame, all, body, t)
    ensures var t' := RunList(m, frame, body[..k], t);
      Sound(m, reach, l, frame, all, body[k], UseVals(m, body[k], t'.regs), t'.world.trace)
  {
    assert body[..k] + body[k..] == body;
    SoundOfConcat(m, reach, l, frame, all, body[..k], body[k..], t);
    hide Sound, UseVals, ExecVirtual, RunList;
  }

  /** What is sound on virtual registers is so on machine registers, as the sources are the same. */
  lemma SoundOnMachine(m: Machine, reach: Reach, abi: Abi, l: Layout, frame: set<nat>, all: set<nat>, body: seq<Ins>, out: set<RegId>, cpu: Assignment,
                       k: nat, t: Virtual, p: Physical)
    requires k < |body| && SoundRun(m, reach, l, frame, all, body, t)
    requires Colored(body, Iota(|body|), out, cpu) && Matches(cpu, LiveAt(body, Iota(|body|), 0, out), t, p)
    ensures var p' := ExecPhysicalIds(m, abi, frame, cpu, body, Iota(|body|), k, p);
      Sound(m, reach, l, frame, all, body[k], UseVals(m, body[k], Seen(cpu, p'.file)), p'.world.trace)
  {
    var ids := Iota(|body|);
    assert InsAt(body, ids[k]) == body[k];
    hide *;
    var t', p' := ExecVirtualIds(m, frame, body, ids, k, t), ExecPhysicalIds(m, abi, frame, cpu, body, ids, k, p);
    SoundAtIndex(m, reach, l, frame, all, body, t, k);
    RunIsExecIds(m, frame, body, k, t);
    ColoredRunMatches(m, abi, frame, body, ids, out, cpu, k, t, p);
    BeforeParts(body, ids, k, out);
    MatchesFewer(cpu, LiveAt(body, ids, k, out), UsesOf(body[k]), t', p');
    SameReads(m, cpu, body[k], t', p');
    SameWorlds(cpu, UsesOf(body[k]), t', p');
  }

  lemma SameWorlds(cpu: Assignment, live: set<RegId>, t: Virtual, p: Physical)
    requires Matches(cpu, live, t, p)
    ensures t.world == p.world
  {
    hide ReadCpu;
  }

  lemma FramedNext(m: Machine, abi: Abi, l: Layout, frame: set<nat>, cpu: Assignment, code: seq<Ins>, ids: seq<InsId>, k: nat, q: Framed)
    requires k < |ids|
    ensures ExecFramedIds(m, abi, l, frame, cpu, code, ids, k + 1, q) ==
      ExecFramed(m, abi, l, frame, cpu, InsAt(code, ids[k]), ExecFramedIds(m, abi, l, frame, cpu, code, ids, k, q))
    ensures ExecFramedIds(m, abi, l, frame, cpu, code, ids, 0, q) == q
  {
    hide ExecFramed, InsAt;
  }

  lemma {:induction false} FramedFollows(m: Machine, reach: Reach, abi: Abi, l: Layout, frame: set<nat>, all: set<nat>, body: seq<Ins>, out: set<RegId>,
                                         cpu: Assignment, k: nat, t: Virtual, p: Physical, q: Framed)
    requires k <= |body| && SoundRun(m, reach, l, frame, all, body, t) && l.Places(m, all) && frame <= all && Local(m, reach)
    requires Colored(body, Iota(|body|), out, cpu) && Matches(cpu, LiveAt(body, Iota(|body|), 0, out), t, p) && SameFile(l, frame, all, p, q)
    ensures SameFile(l, frame, all, ExecPhysicalIds(m, abi, frame, cpu, body, Iota(|body|), k, p),
                     ExecFramedIds(m, abi, l, frame, cpu, body, Iota(|body|), k, q))
  {
    var ids := Iota(|body|);
    if k > 0 {
      assert InsAt(body, ids[k - 1]) == body[k - 1];
      hide *;
      FramedFollows(m, reach, abi, l, frame, all, body, out, cpu, k - 1, t, p, q);
      SoundOnMachine(m, reach, abi, l, frame, all, body, out, cpu, k - 1, t, p);
      FramedStep(m, reach, abi, l, frame, all, cpu, body[k - 1], ExecPhysicalIds(m, abi, frame, cpu, body, ids, k - 1, p),
                 ExecFramedIds(m, abi, l, frame, cpu, body, ids, k - 1, q));
      PhysicalStep(m, abi, frame, cpu, body, ids, k - 1, p);
      FramedNext(m, abi, l, frame, cpu, body, ids, k - 1, q);
    } else {
      hide SameFile, SoundRun, l.Places, Local, Colored, Matches, ExecPhysical, ExecFramed, LiveAt, Iota;
    }
  }

  /** Same events, same memory outside of the slots, every register of `live` in its machine register. */
  ghost predicate OnFrame(l: Layout, all: set<nat>, fixed: Assignment, live: set<RegId>, s: State, q: Framed) {
    && s.trace == q.world.trace && AgreeOut(l, all, s.mem, q.world.mem)
    && forall r :: r in live ==> r in fixed && ReadReg(s.regs, r) == ReadCpu(q.file, fixed[r])
  }

  /** The machine with abstract slots that stands for q. */
  ghost function Abstract(l: Layout, frame: set<nat>, s: State, q: Framed): Physical {
    Physical(q.file, World(s.mem, s.trace, SlotsOf(l, frame, q.world.mem)))
  }

  lemma AbstractIs(l: Layout, frame: set<nat>, all: set<nat>, fixed: Assignment, live: set<RegId>, s: State, q: Framed)
    requires OnFrame(l, all, fixed, live, s, q)
    ensures var p := Abstract(l, frame, s, q);
      SameFile(l, frame, all, p, q) && InRegisters(fixed, live, s, p) && Matches(fixed, live, Lift(s, p.world.slots), p)
  {
    hide AgreeOut, l.Held, ReadCpu;
  }

  lemma OnFrameAfter(l: Layout, frame: set<nat>, all: set<nat>, fixed: Assignment, live: set<RegId>, s: State, p: Physical, q: Framed)
    requires InRegisters(fixed, live, s, p) && SameFile(l, frame, all, p, q)
    ensures OnFrame(l, all, fixed, live, s, q)
  {
    hide AgreeOut, HoldsSlots, ReadCpu;
  }

  lemma AllocationParts(body: seq<Ins>, out: set<RegId>, fixed: Assignment, base: nat, body': seq<Ins>, cpu: Assignment, slotOf: SlotMap)
    requires Allocation(body, out, fixed, base, body', cpu, slotOf)
    ensures body' == SpillList(body, slotOf, base) && SpillSetting(body, slotOf, base, base, out)
    ensures Colored(body', Iota(|body'|), out, cpu) && Extends(cpu, fixed) && out !! slotOf.Keys && Live(body, out) !! slotOf.Keys
  {
    hide SpillSetting, Colored, Extends, SpillList, Live;
  }

  /** Nothing that is live where the block starts was spilled. */
  lemma StartsAlike(body: seq<Ins>, out: set<RegId>, fixed: Assignment, base: nat, body': seq<Ins>, cpu: Assignment, slotOf: SlotMap, t: Virtual, p: Physical)
    requires Allocation(body, out, fixed, base, body', cpu, slotOf) && Matches(fixed, Live(body, out), t, p)
    ensures Matches(cpu, LiveAt(body', Iota(|body'|), 0, out), t, p) && SpillMatches(slotOf, Live(body, out), t, t)
  {
    AllocationParts(body, out, fixed, base, body', cpu, slotOf);
    BlockAlloc.SettingParts(body, slotOf, base, out);
    hide SpillSetting, Colored, SpillList, Live, LiveAt, AllBelow, RegsBelow, ReadCpu, Allocation, OwnSlots;
    LiveAfterSpill(body, slotOf, base, base, out);
    LiveIsLiveAt(body', 0, out);
    assert body'[0..] == body';
  }

  /** Where the block leads is read from the machine registers. */
  function NextOf(m: Machine, f: Fn, b: BblId, c: Code, file: File): Option<BblId> {
    ExitOf(f, BblAt(f, b).edgeOut, LastOf(c.body), ExitVals(m, c.body, Seen(c.cpu, file)))
  }

  function FramedBlock(m: Machine, abi: Abi, l: Layout, c: Code, q: Framed): Framed {
    ExecFramedIds(m, abi, l, c.Slots(), c.cpu, c.body, Iota(|c.body|), |c.body|, q)
  }

  lemma BlockOnFrame(m: Machine, reach: Reach, abi: Abi, f: Fn, b: BblId, out: set<RegId>, fixed: Assignment, c: Code, l: Layout, all: set<nat>,
                     ranges: Ranges, s: State, q: Framed)
    requires AllocatedBlock(f, b, out, fixed, c) && l.Places(m, all) && c.Slots() <= all && SlotsFit(ranges, c.slotOf, l) && Local(m, reach)
    requires ProperRun(m, reach, l, all, ranges, c.slotOf.Keys, Body(f, b), s) && OnFrame(l, all, fixed, LiveInOf(f, b, out), s, q)
    ensures var s', q' := ExecBbl(m, f, b, s), FramedBlock(m, abi, l, c, q);
      OnFrame(l, all, fixed, out, s', q') && NextOf(m, f, b, c, q'.file) == EdgeNext(m, f, b, s')
  {
    var p := Abstract(l, c.Slots(), s, q);
    assert Allocation(Body(f, b), out, fixed, c.base, c.body, c.cpu, c.slotOf) by {
      hide Allocation, RunsOnMachine, SameEnd, Body, l.Places, Local, ProperRun, OnFrame, SlotsFit;
    }
    SlotsAre(c);
    ExecIs(m, abi, f, b, l, c, p, q);
    hide *;
    AbstractIs(l, c.Slots(), all, fixed, LiveInOf(f, b, out), s, q);
    BlockOnMachine(m, abi, f, b, out, fixed, c, s, p);
    LiveInIsLive(f, b, out);
    var t := Lift(s, p.world.slots);
    AllocationParts(Body(f, b), out, fixed, c.base, c.body, c.cpu, c.slotOf);
    StartsAlike(Body(f, b), out, fixed, c.base, c.body, c.cpu, c.slotOf, t, p);
    SpillIsSound(m, reach, l, all, ranges, Body(f, b), c.slotOf, c.base, c.base, out, s, p.world.slots, t);
    FramedFollows(m, reach, abi, l, c.Slots(), all, c.body, out, c.cpu, |c.body|, t, p, q);
    SameFileIs(l, c.Slots(), all, ExecCode(m, abi, c, p), FramedBlock(m, abi, l, c, q));
    OnFrameAfter(l, c.Slots(), all, fixed, out, ExecBbl(m, f, b, s), ExecCode(m, abi, c, p), FramedBlock(m, abi, l, c, q));
  }

  lemma SlotsAre(c: Code)
    ensures c.Slots() == c.slotOf.Values
  {
  }

  lemma SameFileIs(l: Layout, frame: set<nat>, all: set<nat>, p: Physical, q: Framed)
    requires SameFile(l, frame, all, p, q)
    ensures q.file == p.file
  {
    hide InFrame;
  }

  lemma ExecIs(m: Machine, abi: Abi, f: Fn, b: BblId, l: Layout, c: Code, p: Physical, q: Framed)
    ensures ExecCode(m, abi, c, p) == ExecPhysicalIds(m, abi, c.Slots(), c.cpu, c.body, Iota(|c.body|), |c.body|, p)
    ensures FramedBlock(m, abi, l, c, q) == ExecFramedIds(m, abi, l, c.Slots(), c.cpu, c.body, Iota(|c.body|), |c.body|, q)
    ensures MachineNext(m, f, b, c, ExecCode(m, abi, c, p)) == NextOf(m, f, b, c, ExecCode(m, abi, c, p).file)
  {
    hide ExecPhysicalIds, ExecFramedIds, ExitOf, ExitVals, Seen, LastOf;
  }

  // ---------------------------------------------------------------- the whole function

  datatype FramedVisit = FramedAt(bbl: BblId, state: Framed) | FramedDone(state: Framed)

  function FramedTo(next: Option<BblId>, q: Framed): FramedVisit {
    match next case None => FramedDone(q) case Some(b) => FramedAt(b, q)
  }

  function FramedVisitStep(m: Machine, abi: Abi, l: Layout, f: Fn, blocks: map<BblId, Code>, x: FramedVisit): FramedVisit {
    match x
    case FramedDone(_) => x
    case FramedAt(b, q) =>
      var q' := FramedBlock(m, abi, l, CodeAt(blocks, b), q);
      FramedTo(NextOf(m, f, b, CodeAt(blocks, b), q'.file), q')
  }

  function FramedRun(m: Machine, abi: Abi, l: Layout, f: Fn, blocks: map<BblId, Code>, q0: Framed, n: nat): FramedVisit {
    if n == 0 then FramedAt(First(f), q0) else FramedVisitStep(m, abi, l, f, blocks, FramedRun(m, abi, l, f, blocks, q0, n - 1))
  }

  ghost predicate RunsOnFrame(f: Fn, liveOut: LiveMap, fixed: Assignment, l: Layout, all: set<nat>, v: Visit, x: FramedVisit) {
    match (v, x)
    case (At(b, s), FramedAt(c, q)) => b == c && b in f.blocks && b in liveOut && OnFrame(l, all, fixed, LiveInOf(f, b, liveOut[b]), s, q)
    case (Done(s), FramedDone(q)) => OnFrame(l, all, fixed, {}, s, q)
    case _ => false
  }

  /** The slots of all blocks, and the registers that have one. */
  function AllSlots(blocks: map<BblId, Code>): set<nat> {
    set b, r | b in blocks && r in blocks[b].slotOf :: blocks[b].slotOf[r]
  }

  function AllSpilled(blocks: map<BblId, Code>): set<RegId> {
    set b, r | b in blocks && r in blocks[b].slotOf :: r
  }

  ghost predicate FunFrame(m: Machine, reach: Reach, l: Layout, ranges: Ranges, blocks: map<BblId, Code>) {
    l.Places(m, AllSlots(blocks)) && Local(m, reach) && forall b :: b in blocks ==> SlotsFit(ranges, blocks[b].slotOf, l)
  }

  lemma {:induction false} ProperFewer(m: Machine, reach: Reach, l: Layout, all: set<nat>, ranges: Ranges, regs: set<RegId>, fewer: set<RegId>,
                                       body: seq<Ins>, s: State)
    requires ProperRun(m, reach, l, all, ranges, regs, body, s) && fewer <= regs
    ensures ProperRun(m, reach, l, all, ranges, fewer, body, s)
  {
    hide ExecIns, Clear, Touched, Effect, UseVals, DstOf;
    if body != [] { ProperFewer(m, reach, l, all, ranges, regs, fewer, body[1..], ExecIns(m, body[0], s)); }
  }

  lemma FrameOf(m: Machine, reach: Reach, l: Layout, ranges: Ranges, blocks: map<BblId, Code>, b: BblId)
    requires FunFrame(m, reach, l, ranges, blocks)
    ensures var c := CodeAt(blocks, b);
      && l.Places(m, AllSlots(blocks)) && Local(m, reach) && c.Slots() <= AllSlots(blocks) && c.slotOf.Keys <= AllSpilled(blocks)
      && SlotsFit(ranges, c.slotOf, l)
  {
    hide l.Places, Local, l.RangeOf;
  }

  lemma OnFrameAt(f: Fn, liveOut: LiveMap, fixed: Assignment, l: Layout, all: set<nat>, b: BblId, s: State, x: FramedVisit)
    requires RunsOnFrame(f, liveOut, fixed, l, all, At(b, s), x)
    ensures x == FramedAt(b, x.state) && b in f.blocks && b in liveOut && OnFrame(l, all, fixed, LiveInOf(f, b, liveOut[b]), s, x.state)
  {
    hide OnFrame, LiveInOf;
  }

  lemma OnFrameNext(f: Fn, liveOut: LiveMap, fixed: Assignment, l: Layout, all: set<nat>, live: set<RegId>, next: Option<BblId>, s: State, q: Framed)
    requires OnFrame(l, all, fixed, live, s, q)
    requires next.Some? ==> next.value in f.blocks && next.value in liveOut && LiveInOf(f, next.value, liveOut[next.value]) <= live
    ensures RunsOnFrame(f, liveOut, fixed, l, all, StepTo(next, s), FramedTo(next, q))
  {
    hide LiveInOf, AgreeOut, ReadCpu;
  }

  lemma FramedSteps(m: Machine, abi: Abi, l: Layout, f: Fn, blocks: map<BblId, Code>, b: BblId, s: State, q: Framed)
    ensures var s', q' := ExecBbl(m, f, b, s), FramedBlock(m, abi, l, CodeAt(blocks, b), q);
      && RunStep(m, f, At(b, s)) == StepTo(EdgeNext(m, f, b, s'), s')
      && FramedVisitStep(m, abi, l, f, blocks, FramedAt(b, q)) == FramedTo(NextOf(m, f, b, CodeAt(blocks, b), q'.file), q')
  {
    hide ExecBbl, EdgeNext, FramedBlock, NextOf, CodeAt;
  }

  lemma OverOnFrame(m: Machine, abi: Abi, f: Fn, liveOut: LiveMap, fixed: Assignment, blocks: map<BblId, Code>, l: Layout, all: set<nat>, v: Visit, x: FramedVisit)
    requires RunsOnFrame(f, liveOut, fixed, l, all, v, x) && v.Done?
    ensures RunsOnFrame(f, liveOut, fixed, l, all, RunStep(m, f, v), FramedVisitStep(m, abi, l, f, blocks, x))
  {
    hide OnFrame, LiveInOf;
  }

  lemma StepOnFrame(m: Machine, reach: Reach, abi: Abi, f: Fn, liveOut: LiveMap, fixed: Assignment, blocks: map<BblId, Code>, l: Layout, ranges: Ranges,
                    s0: State, n: nat, x: FramedVisit)
    requires FunLive(f, liveOut) && AllocatedFun(f, liveOut, fixed, blocks) && FunFrame(m, reach, l, ranges, blocks)
    requires ProperFun(m, reach, l, AllSlots(blocks), ranges, AllSpilled(blocks), f, s0)
    requires RunsOnFrame(f, liveOut, fixed, l, AllSlots(blocks), Run(m, f, s0, n), x)
    ensures RunsOnFrame(f, liveOut, fixed, l, AllSlots(blocks), RunStep(m, f, Run(m, f, s0, n)), FramedVisitStep(m, abi, l, f, blocks, x))
  {
    hide *;
    var v, all := Run(m, f, s0, n), AllSlots(blocks);
    if v.Done? {
      OverOnFrame(m, abi, f, liveOut, fixed, blocks, l, all, v, x);
    } else {
      var b, s, q, c := v.bbl, v.state, x.state, CodeAt(blocks, v.bbl);
      OnFrameAt(f, liveOut, fixed, l, all, b, s, x);
      BlockOf(f, liveOut, fixed, blocks, b);
      FrameOf(m, reach, l, ranges, blocks, b);
      ProperBody(m, reach, l, all, ranges, AllSpilled(blocks), f, s0, n);
      ProperFewer(m, reach, l, all, ranges, AllSpilled(blocks), c.slotOf.Keys, Body(f, b), s);
      BlockOnFrame(m, reach, abi, f, b, liveOut[b], fixed, c, l, all, ranges, s, q);
      NextIsLive(m, f, liveOut, b, ExecBbl(m, f, b, s));
      FramedSteps(m, abi, l, f, blocks, b, s, q);
      OnFrameNext(f, liveOut, fixed, l, all, liveOut[b], EdgeNext(m, f, b, ExecBbl(m, f, b, s)), ExecBbl(m, f, b, s), FramedBlock(m, abi, l, c, q));
    }
  }

  lemma FramedRunUnfolds(m: Machine, abi: Abi, l: Layout, f: Fn, blocks: map<BblId, Code>, q0: Framed, n: nat)
    requires n > 0
    ensures FramedRun(m, abi, l, f, blocks, q0, n) == FramedVisitStep(m, abi, l, f, blocks, FramedRun(m, abi, l, f, blocks, q0, n - 1))
  {
    hide FramedVisitStep;
  }

  lemma StartsOnFrame(m: Machine, abi: Abi, f: Fn, liveOut: LiveMap, fixed: Assignment, blocks: map<BblId, Code>, l: Layout, all: set<nat>, s0: State, q0: Framed)
    requires FunLive(f, liveOut) && First(f) in liveOut && OnFrame(l, all, fixed, LiveInOf(f, First(f), liveOut[First(f)]), s0, q0)
    ensures RunsOnFrame(f, liveOut, fixed, l, all, Run(m, f, s0, 0), FramedRun(m, abi, l, f, blocks, q0, 0))
  {
    hide OnFrame, LiveInOf, First, LiveSolution, WfEdges;
  }

  /** The allocated function on machine registers with its spilled registers in the stack frame: at every
      step of the run it is at the same block with the same events behind it and the same memory
      outside of the slots, and every live register is in its machine register. */
  lemma {:induction false} AllocatedToFrame(m: Machine, reach: Reach, abi: Abi, f: Fn, liveOut: LiveMap, fixed: Assignment, blocks: map<BblId, Code>,
                                            l: Layout, ranges: Ranges, s0: State, q0: Framed, n: nat)
    requires FunLive(f, liveOut) && AllocatedFun(f, liveOut, fixed, blocks) && FunFrame(m, reach, l, ranges, blocks) && First(f) in liveOut
    requires ProperFun(m, reach, l, AllSlots(blocks), ranges, AllSpilled(blocks), f, s0)
    requires OnFrame(l, AllSlots(blocks), fixed, LiveInOf(f, First(f), liveOut[First(f)]), s0, q0)
    ensures RunsOnFrame(f, liveOut, fixed, l, AllSlots(blocks), Run(m, f, s0, n), FramedRun(m, abi, l, f, blocks, q0, n))
  {
    hide *;
    if n > 0 {
      AllocatedToFrame(m, reach, abi, f, liveOut, fixed, blocks, l, ranges, s0, q0, n - 1);
      StepOnFrame(m, reach, abi, f, liveOut, fixed, blocks, l, ranges, s0, n - 1, FramedRun(m, abi, l, f, blocks, q0, n - 1));
      RunUnfolds(m, f, s0, n);
      FramedRunUnfolds(m, abi, l, f, blocks, q0, n);
    } else {
      StartsOnFrame(m, abi, f, liveOut, fixed, blocks, l, AllSlots(blocks), s0, q0);
    }
  }

  lemma SlotIsNew(blocks: map<BblId, Code>, width: RegId -> nat, stks0: seq<Frame.Stk>, stks: seq<Frame.Stk>, b: BblId, r: RegId)
    requires OwnFrames(blocks, width, stks0, stks) && b in blocks && r in blocks[b].slotOf
    ensures r in AllSpilled(blocks) && blocks[b].slotOf[r] < |stks| && stks[blocks[b].slotOf[r]] == Frame.Stk(width(r), width(r))
  {
    assert NewStks(blocks[b].slotOf, width, stks0, stks);
  }

  /** The slots that `FunAlloc.FunLocalRegAlloc` makes, placed by `Frame.FinalizeStackSlots`. */
  lemma AllocatedFits(m: Machine, l: Layout, ranges: Ranges, blocks: map<BblId, Code>, width: RegId -> nat, stks0: seq<Frame.Stk>, stks: seq<Frame.Stk>)
    requires OwnFrames(blocks, width, stks0, stks)
    requires forall r :: r in AllSpilled(blocks) ==> width(r) == ranges(r).width > 0
    requires forall b, r :: b in blocks && r in blocks[b].slotOf ==> (blocks[b].slotOf[r] in l.signed <==> ranges(r).signed)
    requires forall s: nat :: s < |stks| ==> s in l.rank && l.rank[s] < |l.stks| && l.stks[l.rank[s]] == stks[s]
    requires forall s: nat, t: nat :: s < |stks| && t < |stks| && s != t ==> l.rank[s] != l.rank[t]
    requires Frame.SlotsPlaced(l.stks, l.slots, l.size) && |l.slots| == |l.stks| && l.sp + l.size <= m.addrSpace
    requires forall s :: s in AllSlots(blocks) ==> m.stkAddr(s) == l.Addr(s)
    ensures l.Places(m, AllSlots(blocks)) && forall b :: b in blocks ==> SlotsFit(ranges, blocks[b].slotOf, l)
  {
    forall b, r | b in blocks && r in blocks[b].slotOf
      ensures var s := blocks[b].slotOf[r]; s < |stks| && s in l.rank && l.rank[s] < |l.slots| && l.RangeOf(s) == ranges(r) && l.Width(s) > 0
    {
      SlotIsNew(blocks, width, stks0, stks, b, r);
    }
    hide Frame.SlotsPlaced, l.Addr, NewStks, OwnFrames, AllSpilled;
  }
}
