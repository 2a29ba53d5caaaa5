/** Local allocation of a whole function, one block after another. Values cross from block to block
    in the machine registers of `fixed`; what a block does in between, spilling included, is its own
    business. Every run on machine registers follows the run on virtual ones (`AllocatedFunRuns`). */
module FunAlloc {
  import opened IR
  import opened Liveness
  import opened RegPool
  import opened MachineCode
  import opened Spill
  import opened FunSpill
  import opened BlockAlloc
  import Frame
  import opened DeadCode
  import opened LocalAlloc

  /** A block after allocation; scratch registers are numbered from `base` on. */
  datatype Code = Code(body: seq<Ins>, cpu: Assignment, slotOf: SlotMap, base: nat) {
    function Slots(): set<nat> { slotOf.Values }
  }

  ghost predicate AllocatedBlock(f: Fn, b: BblId, out: set<RegId>, fixed: Assignment, c: Code) {
    && RunsOnMachine(Body(f, b), out, fixed, c.body, c.cpu, c.Slots()) && SameEnd(Body(f, b), c.body)
    && Allocation(Body(f, b), out, fixed, c.base, c.body, c.cpu, c.slotOf)
  }

  ghost predicate AllocatedFun(f: Fn, liveOut: LiveMap, fixed: Assignment, blocks: map<BblId, Code>) {
    forall b :: b in f.blocks ==> b in liveOut && b in blocks && AllocatedBlock(f, b, liveOut[b], fixed, blocks[b])
  }

  // ---------------------------------------------------------------- runs on machine registers

  datatype MachineVisit = MachineAt(bbl: BblId, state: Physical) | MachineDone(state: Physical)

  function CodeAt(blocks: map<BblId, Code>, b: BblId): Code { if b in blocks then blocks[b] else Code([], map[], map[], 0) }

  function ExecCode(m: Machine, abi: Abi, c: Code, t: Physical): Physical {
    ExecPhysicalIds(m, abi, c.Slots(), c.cpu, c.body, Iota(|c.body|), |c.body|, t)
  }

  function MachineTo(next: Option<BblId>, t: Physical): MachineVisit {
    match next case None => MachineDone(t) case Some(b) => MachineAt(b, t)
  }

  /** The branch at the end decides by what it finds in the machine registers. */
  function MachineNext(m: Machine, f: Fn, b: BblId, c: Code, t: Physical): Option<BblId> {
    ExitOf(f, BblAt(f, b).edgeOut, LastOf(c.body), ExitVals(m, c.body, Seen(c.cpu, t.file)))
  }

  function MachineStep(m: Machine, abi: Abi, f: Fn, blocks: map<BblId, Code>, w: MachineVisit): MachineVisit {
    match w
    case MachineDone(_) => w
    case MachineAt(b, t) =>
      var t' := ExecCode(m, abi, CodeAt(blocks, b), t);
      MachineTo(MachineNext(m, f, b, CodeAt(blocks, b), t'), t')
  }

  function MachineRun(m: Machine, abi: Abi, f: Fn, blocks: map<BblId, Code>, t0: Physical, n: nat): MachineVisit {
    if n == 0 then MachineAt(First(f), t0) else MachineStep(m, abi, f, blocks, MachineRun(m, abi, f, blocks, t0, n - 1))
  }

  /** Same memory and events; every register of `live` in its machine register. */
  ghost predicate InRegisters(fixed: Assignment, live: set<RegId>, s: State, t: Physical) {
    && s.mem == t.world.mem && s.trace == t.world.trace
    && forall r :: r in live ==> r in fixed && ReadReg(s.regs, r) == ReadCpu(t.file, fixed[r])
  }

  ghost predicate OnMachine(f: Fn, liveOut: LiveMap, fixed: Assignment, v: Visit, w: MachineVisit) {
    match (v, w)
    case (At(b, s), MachineAt(c, t)) => b == c && b in f.blocks && b in liveOut && InRegisters(fixed, LiveInOf(f, b, liveOut[b]), s, t)
    case (Done(s), MachineDone(t)) => InRegisters(fixed, {}, s, t)
    case _ => false
  }

  lemma InRegistersLess(fixed: Assignment, live: set<RegId>, less: set<RegId>, s: State, t: Physical)
    requires InRegisters(fixed, live, s, t) && less <= live
    ensures InRegisters(fixed, less, s, t)
  {
    hide ReadCpu;
  }

  /** One block: what holds for lists of instructions holds for the block and where it leads. */
  lemma BlockOnMachine(m: Machine, abi: Abi, f: Fn, b: BblId, out: set<RegId>, fixed: Assignment, c: Code, s: State, t: Physical)
    requires AllocatedBlock(f, b, out, fixed, c) && InRegisters(fixed, LiveInOf(f, b, out), s, t)
    ensures var s', t' := ExecBbl(m, f, b, s), ExecCode(m, abi, c, t);
      InRegisters(fixed, out, s', t') && MachineNext(m, f, b, c, t') == EdgeNext(m, f, b, s')
  {
    var slots, s', t' := t.world.slots, ExecBbl(m, f, b, s), ExecCode(m, abi, c, t);
    BlockIsRun(m, f, b, s, slots);
    LiveInIsLive(f, b, out);
    NextIsExit(m, f, b, s');
    LastOfBody(f, b);
    EndsAlike(f, f, BblAt(f, b).edgeOut, Body(f, b), c.body, ExitVals(m, Body(f, b), s'.regs));
    Instance(m, abi, Body(f, b), out, fixed, c, s, t, slots);
    hide ExecBbl, EdgeNext, Body, Live, LiveInOf, RunList, ExecPhysicalIds, ReadCpu, ExitVals, ExitOf, LastOf, LastIns, BblAt, Seen, SameEnd, RunsOnMachine;
  }

  lemma Instance(m: Machine, abi: Abi, body: seq<Ins>, out: set<RegId>, fixed: Assignment, c: Code, s: State, t: Physical, slots: Slots)
    requires RunsOnMachine(body, out, fixed, c.body, c.cpu, c.Slots()) && InRegisters(fixed, Live(body, out), s, t) && slots == t.world.slots
    ensures EndsMatch(m, abi, body, out, fixed, c.body, c.cpu, c.Slots(), Lift(s, slots), t)
  {
    hide EndsMatch, ReadCpu, Live;
    assert Matches(fixed, Live(body, out), Lift(s, slots), t);
  }

  lemma OnMachineNext(f: Fn, liveOut: LiveMap, fixed: Assignment, live: set<RegId>, next: Option<BblId>, s: State, t: Physical)
    requires InRegisters(fixed, live, s, t)
    requires next.Some? ==> next.value in f.blocks && next.value in liveOut && LiveInOf(f, next.value, liveOut[next.value]) <= live
    ensures OnMachine(f, liveOut, fixed, StepTo(next, s), MachineTo(next, t))
  {
    hide InRegisters, LiveInOf;
    match next {
      case Some(b) => InRegistersLess(fixed, live, LiveInOf(f, b, liveOut[b]), s, t);
      case None => InRegistersLess(fixed, live, {}, s, t);
    }
  }

  lemma MachineSteps(m: Machine, abi: Abi, f: Fn, blocks: map<BblId, Code>, b: BblId, s: State, t: Physical)
    ensures var s', t' := ExecBbl(m, f, b, s), ExecCode(m, abi, CodeAt(blocks, b), t);
      && RunStep(m, f, At(b, s)) == StepTo(EdgeNext(m, f, b, s'), s')
      && MachineStep(m, abi, f, blocks, MachineAt(b, t)) == MachineTo(MachineNext(m, f, b, CodeAt(blocks, b), t'), t')
  {
    hide ExecBbl, EdgeNext, ExecCode, MachineNext, CodeAt;
  }

  /** What the function must be like. */
  ghost predicate FunLive(f: Fn, liveOut: LiveMap) {
    WfLayout(f) && LiveSolution(f, liveOut) && forall b :: b in f.blocks ==> WfEdges(f, b)
  }

  lemma BlockOf(f: Fn, liveOut: LiveMap, fixed: Assignment, blocks: map<BblId, Code>, b: BblId)
    requires FunLive(f, liveOut) && AllocatedFun(f, liveOut, fixed, blocks) && b in f.blocks
    ensures b in liveOut && AllocatedBlock(f, b, liveOut[b], fixed, CodeAt(blocks, b)) && WfLayout(f) && LiveSolution(f, liveOut) && WfEdges(f, b)
  {
    hide AllocatedBlock, WfLayout, LiveSolution, WfEdges;
  }

  lemma OnMachineAt(f: Fn, liveOut: LiveMap, fixed: Assignment, b: BblId, s: State, w: MachineVisit)
    requires OnMachine(f, liveOut, fixed, At(b, s), w)
    ensures w == MachineAt(b, w.state) && b in f.blocks && b in liveOut && InRegisters(fixed, LiveInOf(f, b, liveOut[b]), s, w.state)
  {
    hide InRegisters, LiveInOf;
  }

  lemma OverOnMachine(m: Machine, abi: Abi, f: Fn, liveOut: LiveMap, fixed: Assignment, blocks: map<BblId, Code>, v: Visit, w: MachineVisit)
    requires OnMachine(f, liveOut, fixed, v, w) && v.Done?
    ensures OnMachine(f, liveOut, fixed, RunStep(m, f, v), MachineStep(m, abi, f, blocks, w))
  {
    hide InRegisters, LiveInOf;
  }

  lemma StepOnMachine(m: Machine, abi: Abi, f: Fn, liveOut: LiveMap, fixed: Assignment, blocks: map<BblId, Code>, v: Visit, w: MachineVisit)
    requires FunLive(f, liveOut) && AllocatedFun(f, liveOut, fixed, blocks) && OnMachine(f, liveOut, fixed, v, w)
    ensures OnMachine(f, liveOut, fixed, RunStep(m, f, v), MachineStep(m, abi, f, blocks, w))
  {
    hide *;
    if v.Done? {
      OverOnMachine(m, abi, f, liveOut, fixed, blocks, v, w);
    } else {
      var b, s, t := v.bbl, v.state, w.state;
      var s', t' := ExecBbl(m, f, b, s), ExecCode(m, abi, CodeAt(blocks, b), t);
      OnMachineAt(f, liveOut, fixed, b, s, w);
      BlockOf(f, liveOut, fixed, blocks, b);
      BlockOnMachine(m, abi, f, b, liveOut[b], fixed, CodeAt(blocks, b), s, t);
      NextIsLive(m, f, liveOut, b, s');
      MachineSteps(m, abi, f, blocks, b, s, t);
      OnMachineNext(f, liveOut, fixed, liveOut[b], EdgeNext(m, f, b, s'), s', t');
    }
  }

  lemma MachineRunUnfolds(m: Machine, abi: Abi, f: Fn, blocks: map<BblId, Code>, t0: Physical, n: nat)
    requires n > 0
    ensures MachineRun(m, abi, f, blocks, t0, n) == MachineStep(m, abi, f, blocks, MachineRun(m, abi, f, blocks, t0, n - 1))
  {
    hide MachineStep;
  }

  lemma StartsOnMachine(m: Machine, abi: Abi, f: Fn, liveOut: LiveMap, fixed: Assignment, blocks: map<BblId, Code>, s0: State, t0: Physical)
    requires FunLive(f, liveOut) && First(f) in liveOut && InRegisters(fixed, LiveInOf(f, First(f), liveOut[First(f)]), s0, t0)
    ensures OnMachine(f, liveOut, fixed, Run(m, f, s0, 0), MachineRun(m, abi, f, blocks, t0, 0))
  {
    hide InRegisters, LiveInOf, First, LiveSolution, WfEdges;
  }

  /** The whole function on machine registers: at every step of every run, for every machine and whatever
      callees do to the registers they need not save, it is at the same block with the same memory
      and events behind it, and every live register is in its machine register. */
  lemma {:induction false} AllocatedFunRuns(m: Machine, abi: Abi, f: Fn, liveOut: LiveMap, fixed: Assignment, blocks: map<BblId, Code>,
                                            s0: State, t0: Physical, n: nat)
    requires FunLive(f, liveOut) && AllocatedFun(f, liveOut, fixed, blocks) && First(f) in liveOut
    requires InRegisters(fixed, LiveInOf(f, First(f), liveOut[First(f)]), s0, t0)
    ensures OnMachine(f, liveOut, fixed, Run(m, f, s0, n), MachineRun(m, abi, f, blocks, t0, n))
  {
    hide *;
    if n > 0 {
      AllocatedFunRuns(m, abi, f, liveOut, fixed, blocks, s0, t0, n - 1);
      StepOnMachine(m, abi, f, liveOut, fixed, blocks, Run(m, f, s0, n - 1), MachineRun(m, abi, f, blocks, t0, n - 1));
      RunUnfolds(m, f, s0, n);
      MachineRunUnfolds(m, abi, f, blocks, t0, n);
    } else {
      StartsOnMachine(m, abi, f, liveOut, fixed, blocks, s0, t0);
    }
  }

  // ---------------------------------------------------------------- the code

  ghost predicate FunReady(f: Fn, liveOut: LiveMap, fixed: Assignment, base: nat, slotBase: nat) {
    forall b :: b in f.blocks ==> b in liveOut && BlockReady(Body(f, b), liveOut[b], fixed, base, slotBase)
  }

  lemma ReadyLater(body: seq<Ins>, out: set<RegId>, fixed: Assignment, base: nat, slotBase: nat, base': nat, slotBase': nat)
    requires BlockReady(body, out, fixed, base, slotBase) && base <= base' && slotBase <= slotBase'
    ensures BlockReady(body, out, fixed, base', slotBase')
  {
    hide FixedColored, LocalOnce, WfIns, FlatOperands;
  }

  /** Blocks keep their spilled registers in slots of their own, made for them in stks. */
  ghost predicate OwnFrames(blocks: map<BblId, Code>, width: RegId -> nat, stks0: seq<Frame.Stk>, stks: seq<Frame.Stk>) {
    && (forall b :: b in blocks ==> NewStks(blocks[b].slotOf, width, stks0, stks)) && stks0 <= stks
    && (forall b, c :: b in blocks && c in blocks && b != c ==> blocks[b].Slots() !! blocks[c].Slots())
  }

  lemma OwnFramesNext(blocks: map<BblId, Code>, width: RegId -> nat, stks0: seq<Frame.Stk>, stks: seq<Frame.Stk>, b: BblId, c: Code, stks': seq<Frame.Stk>)
    requires OwnFrames(blocks, width, stks0, stks) && b !in blocks && NewStks(c.slotOf, width, stks, stks')
    ensures OwnFrames(blocks[b := c], width, stks0, stks')
  {
    forall x | x in blocks ensures blocks[x].Slots() !! c.Slots() && NewStks(blocks[x].slotOf, width, stks0, stks') {
      assert NewStks(blocks[x].slotOf, width, stks0, stks);
    }
  }

  /** All blocks, in layout order; scratch registers are numbered from `base` on, and new slots go to the
      end of the list. */
  method FunLocalRegAlloc(f: Fn, liveOut: LiveMap, kindOf: RegId -> Kind, width: RegId -> nat, fixed: Assignment, base: nat, stks0: seq<Frame.Stk>)
    returns (ok: bool, blocks: map<BblId, Code>, stks: seq<Frame.Stk>, ghost hows: map<BblId, Trail>)
    requires WfOrder(f) && FunReady(f, liveOut, fixed, base, |stks0|)
    ensures ok ==> AllocatedFun(f, liveOut, fixed, blocks)
    ensures OwnFrames(blocks, width, stks0, stks)
    ensures AllTurned(f, liveOut, kindOf, fixed, blocks, hows)
    ensures !ok ==> exists b, c, how :: b in f.blocks && Turned(f, liveOut, kindOf, fixed, b, false, c, how)
  {
    hide Turned, AllTurned, BlockOutcome, FromPool, LeavesSpAndPc;
    NoneTurned(f, liveOut, kindOf, fixed);
    hows := map[];
    blocks, stks := map[], stks0;
    var next := base;
    hide AllocatedBlock, BlockReady, Body, OwnFrames, FlatOperands, NewStks;
    NoFrames(width, stks0);
    for n := 0 to |f.order|
      invariant base <= next && |stks0| <= |stks| && OwnFrames(blocks, width, stks0, stks)
      invariant blocks.Keys == set j | 0 <= j < n :: f.order[j]
      invariant forall b :: b in blocks ==> b in f.blocks && b in liveOut && AllocatedBlock(f, b, liveOut[b], fixed, blocks[b])
      invariant AllTurned(f, liveOut, kindOf, fixed, blocks, hows)
    {
      var b := f.order[n];
      assert b in f.blocks && b in liveOut && BlockReady(Body(f, b), liveOut[b], fixed, base, |stks0|);
      ReadyLater(Body(f, b), liveOut[b], fixed, base, |stks0|, next, |stks|);
      var body', cpu, slotOf, stks';
      ghost var how;
      ok, body', cpu, slotOf, stks', how := BblRegAllocOrSpill(Body(f, b), liveOut[b], kindOf, width, fixed, next, stks);
      var c := Code(body', cpu, slotOf, next);
      TurnedIs(f, liveOut, kindOf, fixed, b, ok, c, how);
      if !ok { return; }
      OneMoreTurned(f, liveOut, kindOf, fixed, blocks, hows, b, c, how);
      hows := hows[b := how];
      IsAllocated(f, b, liveOut[b], fixed, c);
      OwnFramesNext(blocks, width, stks0, stks, b, c, stks');
      MoreStks(slotOf, width, stks, stks');
      blocks, stks := blocks[b := c], stks';
      next := next + |FlatOperands(Body(f, b))|;
    }
    ok := true;
  }

  /** How allocation turned out for block b. */
  ghost predicate Turned(f: Fn, liveOut: LiveMap, kindOf: RegId -> Kind, fixed: Assignment, b: BblId, ok: bool, c: Code, how: Trail) {
    b in liveOut && BlockOutcome(Body(f, b), liveOut[b], kindOf, fixed, c.base, ok, c.body, c.cpu, c.slotOf, how) &&
    (ok ==> FromPool(c.cpu, fixed, kindOf, how) && (LeavesSpAndPc(fixed) ==> LeavesSpAndPc(c.cpu)))
  }

  ghost predicate AllTurned(f: Fn, liveOut: LiveMap, kindOf: RegId -> Kind, fixed: Assignment, blocks: map<BblId, Code>, hows: map<BblId, Trail>) {
    forall b :: b in blocks ==> b in f.blocks && b in hows && Turned(f, liveOut, kindOf, fixed, b, true, blocks[b], hows[b])
  }

  lemma NoneTurned(f: Fn, liveOut: LiveMap, kindOf: RegId -> Kind, fixed: Assignment)
    ensures AllTurned(f, liveOut, kindOf, fixed, map[], map[])
  {
  }

  lemma OneMoreTurned(f: Fn, liveOut: LiveMap, kindOf: RegId -> Kind, fixed: Assignment, blocks: map<BblId, Code>, hows: map<BblId, Trail>,
                      b: BblId, c: Code, how: Trail)
    requires AllTurned(f, liveOut, kindOf, fixed, blocks, hows) && b in f.blocks
    ensures Turned(f, liveOut, kindOf, fixed, b, true, c, how) ==> AllTurned(f, liveOut, kindOf, fixed, blocks[b := c], hows[b := how])
  {
    hide Turned;
  }

  lemma TurnedIs(f: Fn, liveOut: LiveMap, kindOf: RegId -> Kind, fixed: Assignment, b: BblId, ok: bool, c: Code, how: Trail)
    requires b in liveOut && BlockOutcome(Body(f, b), liveOut[b], kindOf, fixed, c.base, ok, c.body, c.cpu, c.slotOf, how)
    requires ok ==> FromPool(c.cpu, fixed, kindOf, how) && (LeavesSpAndPc(fixed) ==> LeavesSpAndPc(c.cpu))
    ensures Turned(f, liveOut, kindOf, fixed, b, ok, c, how)
  {
  }

  lemma NoFrames(width: RegId -> nat, stks0: seq<Frame.Stk>)
    ensures OwnFrames(map[], width, stks0, stks0)
  {
  }

  lemma MoreStks(slotOf: SlotMap, width: RegId -> nat, stks0: seq<Frame.Stk>, stks: seq<Frame.Stk>)
    requires NewStks(slotOf, width, stks0, stks)
    ensures |stks0| <= |stks|
  {
  }

  lemma IsAllocated(f: Fn, b: BblId, out: set<RegId>, fixed: Assignment, c: Code)
    requires RunsOnMachine(Body(f, b), out, fixed, c.body, c.cpu, c.Slots()) && SameEnd(Body(f, b), c.body)
    requires Allocation(Body(f, b), out, fixed, c.base, c.body, c.cpu, c.slotOf)
    ensures AllocatedBlock(f, b, out, fixed, c)
  {
  }
}
