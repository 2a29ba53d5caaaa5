/** Blocks run on machine registers. Reading and writing goes through an assignment of machine
    registers to virtual ones; doubles and singles share their bits, and a call leaves nothing
    intact but the callee-saved registers. If no write hits a register that is still live
    (`Colored`), the run on machine registers does what the run on virtual registers does. */
module MachineCode {
  import opened IR
  import opened Liveness
  import opened RegPool

  // ---------------------------------------------------------------- the register file

  /** What one bit of the file holds: a value and which part of it (0 all, 1 and 2 the halves of a double). */
  datatype Cell = Cell(value: int, part: nat)

  type File = map<Bit, Cell>

  function CellAt(file: File, b: Bit): Cell { if b in file then file[b] else Cell(0, 0) }

  function WriteCpu(file: File, reg: CpuReg, v: int): File {
    match reg.kind
    case Gpr => file[GprBit(reg.no) := Cell(v, 0)]
    case Flt => file[FltBit(reg.no) := Cell(v, 0)]
    case Dbl => file[FltBit(2 * reg.no) := Cell(v, 1)][FltBit(2 * reg.no + 1) := Cell(v, 2)]
  }

  /** A double whose halves do not belong together reads as 0. */
  function ReadCpu(file: File, reg: CpuReg): int {
    match reg.kind
    case Gpr => CellAt(file, GprBit(reg.no)).value
    case Flt => CellAt(file, FltBit(reg.no)).value
    case Dbl =>
      var lo, hi := CellAt(file, FltBit(2 * reg.no)), CellAt(file, FltBit(2 * reg.no + 1));
      if lo.part == 1 && hi == Cell(lo.value, 2) then lo.value else 0
  }

  lemma ReadWritten(file: File, reg: CpuReg, v: int)
    ensures ReadCpu(WriteCpu(file, reg, v), reg) == v
  {
  }

  lemma ReadDependsOn(file: File, file': File, reg: CpuReg)
    requires forall b :: b in AllocMask(reg) ==> CellAt(file', b) == CellAt(file, b)
    ensures ReadCpu(file', reg) == ReadCpu(file, reg)
  {
    match reg.kind {
      case Gpr => assert GprBit(reg.no) in AllocMask(reg);
      case Flt => assert FltBit(reg.no) in AllocMask(reg);
      case Dbl => assert FltBit(2 * reg.no) in AllocMask(reg) && FltBit(2 * reg.no + 1) in AllocMask(reg);
    }
  }

  lemma ReadOther(file: File, reg: CpuReg, v: int, other: CpuReg)
    requires AllocMask(reg) !! AllocMask(other)
    ensures ReadCpu(WriteCpu(file, reg, v), other) == ReadCpu(file, other)
  {
    forall b | b in AllocMask(other) ensures CellAt(WriteCpu(file, reg, v), b) == CellAt(file, b) {
      assert b !in AllocMask(reg);
    }
    ReadDependsOn(file, WriteCpu(file, reg, v), other);
  }

  /** After a call every register that is not callee-saved holds something else. */
  function Clobbered(file: File, clobber: (Trace, Bit) -> Cell, trace: Trace): File {
    map b | b in ALL_BITS + file.Keys :: if CalleeSaved(b) then CellAt(file, b) else clobber(trace, b)
  }

  lemma SavedAcrossCall(file: File, clobber: (Trace, Bit) -> Cell, trace: Trace, reg: CpuReg)
    requires SurvivesCalls(reg)
    ensures ReadCpu(Clobbered(file, clobber, trace), reg) == ReadCpu(file, reg)
  {
    forall b | b in AllocMask(reg) ensures CellAt(Clobbered(file, clobber, trace), b) == CellAt(file, b) {
      MaskInClass(reg, b);
    }
    ReadDependsOn(file, Clobbered(file, clobber, trace), reg);
  }

  // ---------------------------------------------------------------- instructions with spill slots

  type Slots = map<nat, int>

  function SlotAt(slots: Slots, s: nat): int { if s in slots then slots[s] else 0 }

  /** The spill slot an instruction loads from or stores to; `frame` are the slots made by spilling. */
  function SlotLoaded(ins: Ins, frame: set<nat>): Option<nat> {
    if ins.opcode.LdStk? && |ins.operands| == 3 && ins.operands[1].StkOp? && ins.operands[1].stk in frame
    then Some(ins.operands[1].stk) else None
  }

  function SlotStored(ins: Ins, frame: set<nat>): Option<nat> {
    if ins.opcode.StStk? && |ins.operands| == 3 && ins.operands[0].StkOp? && ins.operands[0].stk in frame
    then Some(ins.operands[0].stk) else None
  }

  /** Everything a block can change but registers. */
  datatype World = World(mem: Memory, trace: Trace, slots: Slots)

  datatype Performed = Performed(result: int, world: World)

  function Perform(m: Machine, frame: set<nat>, ins: Ins, vs: seq<int>, w: World): Performed {
    match (SlotLoaded(ins, frame), SlotStored(ins, frame))
    case (Some(s), _) => Performed(SlotAt(w.slots, s), w)
    case (None, Some(s)) => Performed(0, w.(slots := w.slots[s := Nth(vs, 2)]))
    case (None, None) =>
      var o := Effect(m, ins.opcode, vs, w.mem, w.trace);
      Performed(o.result, World(o.mem, o.trace, w.slots))
  }

  type Regs = map<RegId, int>

  datatype Virtual = Virtual(regs: Regs, world: World)

  function RegsAfter(ins: Ins, d: Performed, regs: Regs): Regs {
    match DstOf(ins) case Some(r) => regs[r := d.result] case None => regs
  }

  function ExecVirtual(m: Machine, frame: set<nat>, ins: Ins, s: Virtual): Virtual {
    var d := Perform(m, frame, ins, UseVals(m, ins, s.regs), s.world);
    Virtual(RegsAfter(ins, d, s.regs), d.world)
  }

  function ExecVirtualIds(m: Machine, frame: set<nat>, code: seq<Ins>, ids: seq<InsId>, k: nat, s: Virtual): Virtual
    requires k <= |ids|
  {
    if k == 0 then s else ExecVirtual(m, frame, InsAt(code, ids[k - 1]), ExecVirtualIds(m, frame, code, ids, k - 1, s))
  }

  /** Without spill slots this is the semantics of the intermediate representation. */
  lemma VirtualIsExec(m: Machine, ins: Ins, s: State, slots: Slots)
    ensures ExecVirtual(m, {}, ins, Virtual(s.regs, World(s.mem, s.trace, slots))) ==
      var s' := ExecIns(m, ins, s); Virtual(s'.regs, World(s'.mem, s'.trace, slots))
  {
    hide UseVals, Effect;
  }

  lemma {:induction false} VirtualIdsAreExec(m: Machine, code: seq<Ins>, ids: seq<InsId>, k: nat, s: State, slots: Slots)
    requires k <= |ids|
    ensures ExecVirtualIds(m, {}, code, ids, k, Virtual(s.regs, World(s.mem, s.trace, slots))) ==
      var s' := ExecIds(m, code, ids, k, s); Virtual(s'.regs, World(s'.mem, s'.trace, slots))
  {
    if k > 0 {
      VirtualIdsAreExec(m, code, ids, k - 1, s, slots);
      VirtualIsExec(m, InsAt(code, ids[k - 1]), ExecIds(m, code, ids, k - 1, s), slots);
      hide ExecVirtual, ExecIns, InsAt;
    }
  }

  // ---------------------------------------------------------------- on machine registers

  type Assignment = map<RegId, CpuReg>

  function CpuOf(cpu: Assignment, r: RegId): CpuReg { if r in cpu then cpu[r] else CpuReg(Gpr, 15) }

  /** What the virtual registers hold, seen through the assignment. */
  function Seen(cpu: Assignment, file: File): Regs {
    map r | r in cpu :: ReadCpu(file, cpu[r])
  }

  datatype Physical = Physical(file: File, world: World)

  /** What is outside of the block: how callees leave the registers they need not save. */
  datatype Abi = Abi(clobber: (Trace, Bit) -> Cell)

  function FileAfter(abi: Abi, cpu: Assignment, ins: Ins, d: Performed, file0: File): File {
    var file := match DstOf(ins) case Some(r) => WriteCpu(file0, CpuOf(cpu, r), d.result) case None => file0;
    if IsCall(ins.opcode) then Clobbered(file, abi.clobber, d.world.trace) else file
  }

  function ExecPhysical(m: Machine, abi: Abi, frame: set<nat>, cpu: Assignment, ins: Ins, t: Physical): Physical {
    var d := Perform(m, frame, ins, UseVals(m, ins, Seen(cpu, t.file)), t.world);
    Physical(FileAfter(abi, cpu, ins, d, t.file), d.world)
  }

  function ExecPhysicalIds(m: Machine, abi: Abi, frame: set<nat>, cpu: Assignment, code: seq<Ins>, ids: seq<InsId>, k: nat, t: Physical): Physical
    requires k <= |ids|
  {
    if k == 0 then t
    else ExecPhysical(m, abi, frame, cpu, InsAt(code, ids[k - 1]), ExecPhysicalIds(m, abi, frame, cpu, code, ids, k - 1, t))
  }

  // ---------------------------------------------------------------- colorings

  /** The write of instruction k hits no register that is live afterwards, and a call there leaves
      intact what is live across it. */
  ghost predicate ColoredAt(code: seq<Ins>, ids: seq<InsId>, out: set<RegId>, cpu: Assignment, k: nat)
    requires k < |ids|
  {
    var ins, after := InsAt(code, ids[k]), LiveAt(code, ids, k + 1, out);
    && (forall r, q :: DstOf(ins) == Some(r) && q in after && q != r ==> AllocMask(CpuOf(cpu, r)) !! AllocMask(CpuOf(cpu, q)))
    && (IsCall(ins.opcode) ==> forall q :: q in after ==> SurvivesCalls(CpuOf(cpu, q)))
  }

  ghost predicate Colored(code: seq<Ins>, ids: seq<InsId>, out: set<RegId>, cpu: Assignment) {
    && (forall k: nat :: k < |ids| ==> ColoredAt(code, ids, out, cpu, k))
    && (forall k: nat, r :: k <= |ids| && r in LiveAt(code, ids, k, out) ==> r in cpu)
  }

  /** The file holds the values of the registers in `live`, and the rest of the world is the same. */
  ghost predicate Matches(cpu: Assignment, live: set<RegId>, s: Virtual, t: Physical) {
    && s.world == t.world
    && forall r :: r in live ==> r in cpu && ReadReg(s.regs, r) == ReadCpu(t.file, cpu[r])
  }

  lemma SameReads(m: Machine, cpu: Assignment, ins: Ins, s: Virtual, t: Physical)
    requires Matches(cpu, UsesOf(ins), s, t)
    ensures UseVals(m, ins, Seen(cpu, t.file)) == UseVals(m, ins, s.regs)
  {
    hide ReadCpu;
    if NumDefs(ins.opcode) <= |ins.operands| {
      var ops := ins.operands[NumDefs(ins.opcode)..];
      forall n | 0 <= n < |ops| ensures Eval(m, ops[n], Seen(cpu, t.file)) == Eval(m, ops[n], s.regs) {
        if ops[n].RegOp? {
          assert ins.operands[n + NumDefs(ins.opcode)] == RegOp(ops[n].reg);
          assert ops[n].reg in UsesOf(ins);
        }
        hide UsesOf;
      }
    }
  }

  lemma StepMatches(m: Machine, abi: Abi, frame: set<nat>, code: seq<Ins>, ids: seq<InsId>, out: set<RegId>, cpu: Assignment, k: nat,
                    s: Virtual, t: Physical)
    requires Colored(code, ids, out, cpu) && k < |ids| && Matches(cpu, LiveAt(code, ids, k, out), s, t)
    ensures Matches(cpu, LiveAt(code, ids, k + 1, out), ExecVirtual(m, frame, InsAt(code, ids[k]), s),
                    ExecPhysical(m, abi, frame, cpu, InsAt(code, ids[k]), t))
  {
    var ins, after := InsAt(code, ids[k]), LiveAt(code, ids, k + 1, out);
    assert ColoredAt(code, ids, out, cpu, k);
    BeforeParts(code, ids, k, out);
    SameReads(m, cpu, ins, s, t);
    var d := Perform(m, frame, ins, UseVals(m, ins, s.regs), s.world);
    var s', t' := ExecVirtual(m, frame, ins, s), ExecPhysical(m, abi, frame, cpu, ins, t);
    hide UseVals, Perform, UsesOf, LiveAt, Seen, AllocMask, SurvivesCalls, ReadCpu, WriteCpu, Clobbered, RegsAfter, FileAfter;
    WorldAfter(m, abi, frame, cpu, ins, s, t);
    forall q | q in after ensures q in cpu && ReadReg(s'.regs, q) == ReadCpu(t'.file, cpu[q]) {
      assert q in LiveAt(code, ids, k + 1, out);
      OneMatches(abi, cpu, ins, d, s.regs, t.file, q);
    }
  }

  lemma WorldAfter(m: Machine, abi: Abi, frame: set<nat>, cpu: Assignment, ins: Ins, s: Virtual, t: Physical)
    requires s.world == t.world && UseVals(m, ins, Seen(cpu, t.file)) == UseVals(m, ins, s.regs)
    ensures var d := Perform(m, frame, ins, UseVals(m, ins, s.regs), s.world);
      && ExecVirtual(m, frame, ins, s) == Virtual(RegsAfter(ins, d, s.regs), d.world)
      && ExecPhysical(m, abi, frame, cpu, ins, t) == Physical(FileAfter(abi, cpu, ins, d, t.file), d.world)
  {
    hide UseVals, Perform, Seen, WriteCpu, Clobbered;
  }

  lemma OneMatches(abi: Abi, cpu: Assignment, ins: Ins, d: Performed, regs: Regs, file: File, q: RegId)
    requires q in cpu && (DstOf(ins) != Some(q) ==> ReadReg(regs, q) == ReadCpu(file, cpu[q]))
    requires DstOf(ins).Some? && DstOf(ins).value != q ==> AllocMask(CpuOf(cpu, DstOf(ins).value)) !! AllocMask(CpuOf(cpu, q))
    requires IsCall(ins.opcode) ==> SurvivesCalls(CpuOf(cpu, q)) && DstOf(ins) == None
    ensures ReadReg(RegsAfter(ins, d, regs), q) == ReadCpu(FileAfter(abi, cpu, ins, d, file), cpu[q])
  {
    hide AllocMask, SurvivesCalls, ReadCpu, WriteCpu, Clobbered, DstOf;
    if IsCall(ins.opcode) {
      SavedAcrossCall(file, abi.clobber, d.world.trace, cpu[q]);
    } else if DstOf(ins).Some? {
      var r := DstOf(ins).value;
      if q == r { ReadWritten(file, cpu[r], d.result); } else { ReadOther(file, CpuOf(cpu, r), d.result, cpu[q]); }
    }
  }

  lemma BeforeParts(code: seq<Ins>, ids: seq<InsId>, k: nat, out: set<RegId>)
    requires k < |ids|
    ensures UsesOf(InsAt(code, ids[k])) <= LiveAt(code, ids, k, out)
    ensures forall r :: r in LiveAt(code, ids, k + 1, out) && DstOf(InsAt(code, ids[k])) != Some(r) ==> r in LiveAt(code, ids, k, out)
    ensures IsCall(InsAt(code, ids[k]).opcode) ==> DstOf(InsAt(code, ids[k])) == None
  {
    hide UsesOf;
  }

  lemma VirtualStep(m: Machine, frame: set<nat>, code: seq<Ins>, ids: seq<InsId>, k: nat, s: Virtual)
    requires k < |ids|
    ensures ExecVirtualIds(m, frame, code, ids, 0, s) == s
    ensures ExecVirtualIds(m, frame, code, ids, k + 1, s) == ExecVirtual(m, frame, InsAt(code, ids[k]), ExecVirtualIds(m, frame, code, ids, k, s))
  {
    hide ExecVirtual, InsAt;
  }

  lemma PhysicalStep(m: Machine, abi: Abi, frame: set<nat>, cpu: Assignment, code: seq<Ins>, ids: seq<InsId>, k: nat, t: Physical)
    requires k < |ids|
    ensures ExecPhysicalIds(m, abi, frame, cpu, code, ids, k + 1, t) ==
      ExecPhysical(m, abi, frame, cpu, InsAt(code, ids[k]), ExecPhysicalIds(m, abi, frame, cpu, code, ids, k, t))
  {
    hide ExecPhysical, InsAt;
  }

  /** The run of a well-colored block on machine registers follows the run on virtual registers:
      same memory, same events, same spill slots, same values in everything live. */
  lemma {:induction false} ColoredRunMatches(m: Machine, abi: Abi, frame: set<nat>, code: seq<Ins>, ids: seq<InsId>, out: set<RegId>, cpu: Assignment,
                                             k: nat, s: Virtual, t: Physical)
    requires Colored(code, ids, out, cpu) && k <= |ids| && Matches(cpu, LiveAt(code, ids, 0, out), s, t)
    ensures Matches(cpu, LiveAt(code, ids, k, out), ExecVirtualIds(m, frame, code, ids, k, s),
                    ExecPhysicalIds(m, abi, frame, cpu, code, ids, k, t))
  {
    if k > 0 {
      hide *;
      ColoredRunMatches(m, abi, frame, code, ids, out, cpu, k - 1, s, t);
      StepMatches(m, abi, frame, code, ids, out, cpu, k - 1, ExecVirtualIds(m, frame, code, ids, k - 1, s),
                  ExecPhysicalIds(m, abi, frame, cpu, code, ids, k - 1, t));
      VirtualStep(m, frame, code, ids, k - 1, s);
      PhysicalStep(m, abi, frame, cpu, code, ids, k - 1, t);
    } else {
      hide Matches, ExecVirtual, ExecPhysical, InsAt;
    }
  }
}
