/** The intermediate representation and its meaning.

    Instructions, blocks and jump tables live in arenas and are named by their index, so an
    instruction has an identity of its own: two instructions that look alike are still two.
    A function value `Fn` is a snapshot of the mutable `Fun` object.
 */
module IR {
  datatype RegId = RegNo(no: nat)
  datatype BblId = BblNo(no: nat)
  type InsId = nat
  type JtbId = nat

  datatype Option<+T> = None | Some(value: T)

  datatype Operand =
    | RegOp(reg: RegId)
    | ConstOp(value: int)
    | MemOp(mem: nat)
    | StkOp(stk: nat)
    | FunOp(fn: nat)
    | BblOp(bbl: BblId)
    | JtbOp(jtb: JtbId)

  datatype Cond = Beq | Bne | Blt | Ble

  datatype CallKind = Bsr | Jsr | Syscall

  /** `Alu` stands for every opcode that only computes a register from its sources
      (alu, alu1, cmp, conv, bitcast, lea.fun), `Bulk` for bcopy and bzero. */
  datatype Opcode =
    | Alu(code: nat)
    | Mov
    | Lea | LeaMem | LeaStk
    | Ld | LdMem | LdStk
    | St | StMem | StStk
    | Bulk(code: nat)
    | PushArg | PopArg
    | Call(kind: CallKind)
    | CondBra(cond: Cond) | Bra | Switch | Ret | Trap
    | Nop | Nop1

  /** Where a register was last set: by an instruction, or by whatever flows into a block. */
  datatype Tag = DefIns(ins: InsId) | DefBbl(bbl: BblId)

  type DefMap = map<RegId, Tag>

  /** `defs` parallels `operands`; None means nothing is known about that operand. */
  datatype Ins = Ins(opcode: Opcode, operands: seq<Operand>, defs: seq<Option<Tag>>)

  datatype Bbl = Bbl(inss: seq<InsId>, edgeOut: seq<BblId>, edgeIn: multiset<BblId>)

  datatype Case = Case(key: int, bbl: BblId)

  datatype Jtb = Jtb(defBbl: BblId, tab: seq<Case>)

  /** `order` lists the blocks in layout order and `blocks` is the set of them (`fun.bbls` and
      `fun.bbl_syms`); the arena `bbls` may also hold blocks that were removed. */
  datatype Fn = Fn(order: seq<BblId>, blocks: set<BblId>, bbls: seq<Bbl>, jtbs: seq<Jtb>, code: seq<Ins>)

  class Fun {
    var order: seq<BblId>
    var blocks: set<BblId>
    var bbls: seq<Bbl>
    var jtbs: seq<Jtb>
    var code: seq<Ins>
    var cpuRegs: set<RegId>            // registers already bound to a machine register
    var defsIn: map<BblId, DefMap>     // bbl.defs_in
    var liveOut: map<BblId, set<RegId>>  // bbl.live_out

    constructor (f: Fn, cpuRegs: set<RegId>)
      ensures View() == f && this.cpuRegs == cpuRegs
    {
      order, blocks, bbls, jtbs, code := f.order, f.blocks, f.bbls, f.jtbs, f.code;
      this.cpuRegs := cpuRegs;
      defsIn, liveOut := map[], map[];
    }

    function View(): Fn
      reads this
    {
      Fn(order, blocks, bbls, jtbs, code)
    }
  }

  // ---------------------------------------------------------------- opcode attributes

  /** How many of the leading operands are register writes. */
  function NumDefs(opc: Opcode): nat {
    match opc
    case Alu(_) | Mov | Lea | LeaMem | LeaStk | Ld | LdMem | LdStk | PopArg | Nop1 => 1
    case _ => 0
  }

  predicate IsCall(opc: Opcode) { opc.Call? }

  predicate IsTerminator(opc: Opcode) {
    opc.CondBra? || opc.Bra? || opc.Switch? || opc.Ret? || opc.Trap?
  }

  predicate HasFallthrough(opc: Opcode) {
    !(opc.Bra? || opc.Switch? || opc.Ret? || opc.Trap?)
  }

  predicate HasSideEffect(opc: Opcode) {
    !(opc.Alu? || opc.Mov? || opc.Lea? || opc.LeaMem? || opc.LeaStk? || opc.Nop?)
  }

  /** The opcodes whose result depends on nothing but the source operands. */
  predicate IsPure(opc: Opcode) {
    opc.Alu? || opc.Mov? || opc.Lea? || opc.LeaMem? || opc.LeaStk?
  }

  predicate WfIns(ins: Ins) {
    && |ins.defs| == |ins.operands|
    && NumDefs(ins.opcode) <= |ins.operands|
    && (NumDefs(ins.opcode) == 1 ==> ins.operands[0].RegOp? && ins.defs[0] == None)
    && (ins.opcode.Mov? ==> |ins.operands| == 2)
    && (ins.opcode.Lea? || ins.opcode.LeaMem? || ins.opcode.LeaStk? ==> |ins.operands| == 3)
    && (ins.opcode.Ld? || ins.opcode.LdMem? || ins.opcode.LdStk? ==> |ins.operands| == 3)
    && (ins.opcode.St? || ins.opcode.StMem? || ins.opcode.StStk? ==> |ins.operands| == 3)
    && (ins.opcode.CondBra? ==> |ins.operands| == 3 && ins.operands[2].BblOp?)
    && (ins.opcode.Bra? ==> |ins.operands| == 1 && ins.operands[0].BblOp?)
    && (ins.opcode.Switch? ==> |ins.operands| == 2 && ins.operands[1].JtbOp?)
  }

  /** The register an instruction writes. */
  function DstOf(ins: Ins): Option<RegId> {
    if NumDefs(ins.opcode) == 1 && |ins.operands| > 0 && ins.operands[0].RegOp?
    then Some(ins.operands[0].reg) else None
  }

  function DefsOf(ins: Ins): set<RegId> {
    match DstOf(ins)
    case Some(r) => {r}
    case None => {}
  }

  /** Register r is among the operands from position `from` on. */
  predicate ReadsFrom(ins: Ins, from: nat, r: RegId) {
    exists n :: from <= n < |ins.operands| && ins.operands[n] == RegOp(r)
  }

  predicate UsesReg(ins: Ins, r: RegId) {
    ReadsFrom(ins, NumDefs(ins.opcode), r)
  }

  function UsesOf(ins: Ins): (rs: set<RegId>)
    ensures forall r :: r in rs <==> UsesReg(ins, r)
  {
    set n | NumDefs(ins.opcode) <= n < |ins.operands| && ins.operands[n].RegOp? :: ins.operands[n].reg
  }

  const NOP_INS: Ins := Ins(Nop, [], [])

  function InsAt(code: seq<Ins>, i: InsId): Ins {
    if i < |code| then code[i] else NOP_INS
  }

  function BblAt(f: Fn, b: BblId): Bbl {
    if b.no < |f.bbls| then f.bbls[b.no] else Bbl([], [], multiset{})
  }

  function LastIns(f: Fn, b: BblId): Ins {
    var ids := BblAt(f, b).inss;
    if ids == [] then NOP_INS else InsAt(f.code, ids[|ids| - 1])
  }

  // ---------------------------------------------------------------- well-formed functions

  function First(f: Fn): BblId {
    if f.order == [] then BblNo(0) else f.order[0]
  }

  /** Edges stay inside the function. */
  ghost predicate WfLayout(f: Fn) {
    && First(f) in f.blocks
    && (forall b :: b in f.blocks ==> b.no < |f.bbls|)
    && (forall b, t :: b in f.blocks && t in BblAt(f, b).edgeOut ==> t in f.blocks)
  }

  /** The layout lists every block once. */
  ghost predicate WfOrder(f: Fn) {
    && f.order != []
    && (forall b :: b in f.order <==> b in f.blocks)
    && (forall i, j :: 0 <= i < j < |f.order| ==> f.order[i] != f.order[j])
  }

  ghost predicate WfCode(f: Fn) {
    && (forall b, i :: b in f.blocks && i in BblAt(f, b).inss ==> i < |f.code|)
    && (forall i :: 0 <= i < |f.code| ==> WfIns(f.code[i]))
    && UniqueIds(f)
  }

  /** An instruction stands in one place only. */
  ghost predicate UniqueIds(f: Fn) {
    && (forall b, k, l :: b in f.blocks && 0 <= k < l < |BblAt(f, b).inss| ==> BblAt(f, b).inss[k] != BblAt(f, b).inss[l])
    && (forall b, c, i :: b in f.blocks && c in f.blocks && i in BblAt(f, b).inss && i in BblAt(f, c).inss ==> b == c)
  }

  /** The edges of a block are the ones its last instruction asks for. */
  ghost predicate WfEdges(f: Fn, b: BblId) {
    var e := BblAt(f, b).edgeOut;
    var last := LastIns(f, b);
    match last.opcode
    case Ret | Trap => e == []
    case Bra => |e| == 1 && last.operands == [BblOp(e[0])]
    case CondBra(_) => |e| == 2 && |last.operands| == 3 && last.operands[2].BblOp? && last.operands[2].bbl in e
    case Switch =>
      && |last.operands| == 2 && last.operands[1].JtbOp? && last.operands[1].jtb < |f.jtbs|
      && multiset(e) == multiset(JtbTargets(f.jtbs[last.operands[1].jtb]))
    case _ => |e| == 1
  }

  ghost predicate Wf(f: Fn) {
    && WfLayout(f)
    && WfOrder(f)
    && WfCode(f)
    && (forall b :: b in f.blocks ==> WfEdges(f, b))
  }

  /** The default block and, once per entry, the blocks of the table. */
  function JtbTargets(j: Jtb): (ts: seq<BblId>)
    ensures |ts| == |j.tab| + 1 && ts[0] == j.defBbl
    ensures forall i :: 0 <= i < |j.tab| ==> ts[i + 1] == j.tab[i].bbl
  {
    [j.defBbl] + seq(|j.tab|, i requires 0 <= i < |j.tab| => j.tab[i].bbl)
  }

  /** The block a jump table names for an index. */
  function TabLookup(tab: seq<Case>, index: int, default: BblId): (t: BblId)
    ensures t == default || exists i :: 0 <= i < |tab| && tab[i].bbl == t
  {
    if tab == [] then default
    else if tab[|tab| - 1].key == index then tab[|tab| - 1].bbl
    else TabLookup(tab[..|tab| - 1], index, default)
  }

  // ---------------------------------------------------------------- meaning

  /** What an observer of the function sees. */
  datatype Event =
    | EvLoad(addr: int)
    | EvStore(addr: int, value: int)
    | EvBulk(code: nat, args: seq<int>)
    | EvPush(value: int)
    | EvPop
    | EvReserve
    | EvCall(kind: CallKind, args: seq<int>)
    | EvTrap

  type Memory = map<int, int>
  type Trace = seq<Event>
  type pos = x: int | 0 < x witness 1

  /** Everything the intermediate representation leaves open. Results about runs hold for every
      machine: for any arithmetic, any memory and any behaviour of the callees, which may depend
      on everything that happened so far. */
  datatype Machine = Machine(
    addrSpace: pos,
    alu: (nat, seq<int>) -> int,
    load: (Memory, int) -> int,
    store: (Memory, int, int) -> Memory,
    bulk: (nat, seq<int>, Memory) -> Memory,
    input: Trace -> int,
    callMem: (Trace, Memory) -> Memory,
    memAddr: nat -> int,
    stkAddr: nat -> int,
    funAddr: nat -> int)

  datatype State = State(regs: map<RegId, int>, mem: Memory, trace: Trace)

  function ReadReg(regs: map<RegId, int>, r: RegId): int {
    if r in regs then regs[r] else 0
  }

  function Eval(m: Machine, op: Operand, regs: map<RegId, int>): int {
    match op
    case RegOp(r) => ReadReg(regs, r)
    case ConstOp(v) => v
    case MemOp(x) => m.memAddr(x)
    case StkOp(x) => m.stkAddr(x)
    case FunOp(x) => m.funAddr(x)
    case BblOp(_) => 0
    case JtbOp(_) => 0
  }

  function Vals(m: Machine, ops: seq<Operand>, regs: map<RegId, int>): (vs: seq<int>)
    ensures |vs| == |ops|
    ensures forall n :: 0 <= n < |ops| ==> vs[n] == Eval(m, ops[n], regs)
  {
    seq(|ops|, n requires 0 <= n < |ops| => Eval(m, ops[n], regs))
  }

  /** The values of the operands an instruction reads. */
  function UseVals(m: Machine, ins: Ins, regs: map<RegId, int>): seq<int> {
    if NumDefs(ins.opcode) > |ins.operands| then []
    else Vals(m, ins.operands[NumDefs(ins.opcode)..], regs)
  }

  function Nth(vs: seq<int>, n: nat): int {
    if n < |vs| then vs[n] else 0
  }

  function Address(m: Machine, base: int, offset: int): int {
    (base + offset) % m.addrSpace
  }

  function PureResult(m: Machine, opc: Opcode, vs: seq<int>): int {
    match opc
    case Alu(c) => m.alu(c, vs)
    case Mov => Nth(vs, 0)
    case Lea | LeaMem | LeaStk => Address(m, Nth(vs, 0), Nth(vs, 1))
    case _ => 0
  }

  datatype Outcome = Outcome(result: int, mem: Memory, trace: Trace)

  /** What an opcode does once its sources are known. */
  function Effect(m: Machine, opc: Opcode, vs: seq<int>, mem: Memory, trace: Trace): Outcome {
    match opc
    case Ld | LdMem | LdStk =>
      var a := Address(m, Nth(vs, 0), Nth(vs, 1));
      Outcome(m.load(mem, a), mem, trace + [EvLoad(a)])
    case St | StMem | StStk =>
      var a := Address(m, Nth(vs, 0), Nth(vs, 1));
      Outcome(0, m.store(mem, a, Nth(vs, 2)), trace + [EvStore(a, Nth(vs, 2))])
    case Bulk(c) => Outcome(0, m.bulk(c, vs, mem), trace + [EvBulk(c, vs)])
    case PushArg => Outcome(0, mem, trace + [EvPush(Nth(vs, 0))])
    case PopArg => Outcome(m.input(trace), mem, trace + [EvPop])
    case Nop1 => Outcome(m.input(trace), mem, trace + [EvReserve])
    case Call(k) => Outcome(0, m.callMem(trace + [EvCall(k, vs)], mem), trace + [EvCall(k, vs)])
    case Trap => Outcome(0, mem, trace + [EvTrap])
    case _ => Outcome(PureResult(m, opc, vs), mem, trace)
  }

  function ExecIns(m: Machine, ins: Ins, s: State): State {
    var o := Effect(m, ins.opcode, UseVals(m, ins, s.regs), s.mem, s.trace);
    var regs := match DstOf(ins) case Some(r) => s.regs[r := o.result] case None => s.regs;
    State(regs, o.mem, o.trace)
  }

  /** The state after the first k of the instructions `ids`. */
  function ExecIds(m: Machine, code: seq<Ins>, ids: seq<InsId>, k: nat, s: State): State
    requires k <= |ids|
  {
    if k == 0 then s else ExecIns(m, InsAt(code, ids[k - 1]), ExecIds(m, code, ids, k - 1, s))
  }

  predicate Holds(c: Cond, x: int, y: int) {
    match c
    case Beq => x == y
    case Bne => x != y
    case Blt => x < y
    case Ble => x <= y
  }

  /** The edge a conditional branch follows when it is not taken. */
  function OtherEdge(e: seq<BblId>, target: BblId): Option<BblId> {
    if |e| != 2 then None else if e[1] == target then Some(e[0]) else Some(e[1])
  }

  function OnlyEdge(e: seq<BblId>): Option<BblId> {
    if e == [] then None else Some(e[0])
  }

  function TargetOf(op: Operand): BblId {
    if op.BblOp? then op.bbl else BblNo(0)
  }

  function JtbLookup(f: Fn, op: Operand, index: int): Option<BblId> {
    if op.JtbOp? && op.jtb < |f.jtbs| then
      var j := f.jtbs[op.jtb];
      Some(TabLookup(j.tab, index, j.defBbl))
    else None
  }

  function OperandAt(ins: Ins, n: nat): Operand {
    if n < |ins.operands| then ins.operands[n] else ConstOp(0)
  }

  /** Where control goes from the end of block b, following edges rather than block order. */
  function EdgeNext(m: Machine, f: Fn, b: BblId, s: State): Option<BblId> {
    var e := BblAt(f, b).edgeOut;
    var last := LastIns(f, b);
    var vs := UseVals(m, last, s.regs);
    match last.opcode
    case Ret | Trap => None
    case Bra => Some(TargetOf(OperandAt(last, 0)))
    case CondBra(c) =>
      var target := TargetOf(OperandAt(last, 2));
      if Holds(c, Nth(vs, 0), Nth(vs, 1)) then Some(target) else OtherEdge(e, target)
    case Switch => JtbLookup(f, OperandAt(last, 1), Nth(vs, 0))
    case _ => OnlyEdge(e)
  }

  function ExecBbl(m: Machine, f: Fn, b: BblId, s: State): State {
    ExecIds(m, f.code, BblAt(f, b).inss, |BblAt(f, b).inss|, s)
  }

  /** A run has just arrived at block `bbl`, or is over. */
  datatype Visit = At(bbl: BblId, state: State) | Done(state: State)

  function RunStep(m: Machine, f: Fn, v: Visit): Visit {
    match v
    case Done(_) => v
    case At(b, s) =>
      var s' := ExecBbl(m, f, b, s);
      match EdgeNext(m, f, b, s')
      case None => Done(s')
      case Some(t) => At(t, s')
  }

  /** The run that starts in state s0, after n blocks. */
  function Run(m: Machine, f: Fn, s0: State, n: nat): Visit {
    if n == 0 then At(First(f), s0) else RunStep(m, f, Run(m, f, s0, n - 1))
  }

  /** Two functions no run can tell apart: same blocks, same registers, memory and trace, always. */
  ghost predicate SameRuns(f: Fn, g: Fn) {
    forall m: Machine, s0: State, n: nat :: Run(m, f, s0, n) == Run(m, g, s0, n)
  }

  lemma NextIsEdge(m: Machine, f: Fn, b: BblId, s: State)
    requires WfEdges(f, b)
    ensures EdgeNext(m, f, b, s).Some? ==> EdgeNext(m, f, b, s).value in BblAt(f, b).edgeOut
  {
    var last := LastIns(f, b);
    if last.opcode.Switch? {
      var j := f.jtbs[last.operands[1].jtb];
      var index := Nth(UseVals(m, last, s.regs), 0);
      var t := TabLookup(j.tab, index, j.defBbl);
      assert t in JtbTargets(j) by {
        if t == j.defBbl {
          assert JtbTargets(j)[0] == t;
        } else {
          var i :| 0 <= i < |j.tab| && j.tab[i].bbl == t;
          assert JtbTargets(j)[i + 1] == t;
        }
      }
      assert t in multiset(BblAt(f, b).edgeOut);
    }
  }

  lemma NextInside(m: Machine, f: Fn, b: BblId, s: State)
    requires WfLayout(f) && b in f.blocks && WfEdges(f, b)
    ensures EdgeNext(m, f, b, s).Some? ==> EdgeNext(m, f, b, s).value in f.blocks
  {
    NextIsEdge(m, f, b, s);
  }

  lemma {:induction false} RunStaysInside(m: Machine, f: Fn, s0: State, n: nat)
    requires WfLayout(f) && forall b :: b in f.blocks ==> WfEdges(f, b)
    ensures Run(m, f, s0, n).At? ==> Run(m, f, s0, n).bbl in f.blocks
  {
    if n > 0 {
      RunStaysInside(m, f, s0, n - 1);
      var v := Run(m, f, s0, n - 1);
      if v.At? {
        NextInside(m, f, v.bbl, ExecBbl(m, f, v.bbl, v.state));
      }
    }
  }
}
