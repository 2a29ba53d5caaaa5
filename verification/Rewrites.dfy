/** The rewrites that rest on reaching definitions: copy propagation, constant propagation and
    load/store folding. Each looks at the tag of an operand, changes the instruction in place
    and goes on; later instructions see the changed ones. All of them keep every run as it is
    (`RewriteKeepsRuns`), because every recorded tag stays honest throughout. */
module Rewrites {
  import opened IR
  import opened Steps
  import opened ReachingDefs
  import opened Avail

  // ---------------------------------------------------------------- replacing one instruction

  /** f and g have the same shape and every instruction writes the same register. */
  ghost predicate SameShape(f: Fn, g: Fn) {
    && g == f.(code := g.code) && |g.code| == |f.code|
    && forall i: InsId :: DstOf(InsAt(g.code, i)) == DstOf(InsAt(f.code, i))
  }

  lemma SameBlockDefs(f: Fn, g: Fn, b: BblId)
    requires SameShape(f, g)
    ensures BlockDefs(g, b) == BlockDefs(f, b)
  {
    TagsIgnoreDefs(f.code, g.code, BblAt(f, b).inss, |BblAt(f, b).inss|, map[]);
  }

  lemma SolutionIgnoresUses(f: Fn, g: Fn, live: set<RegId>, defsIn: map<BblId, DefMap>)
    requires SameShape(f, g) && Solution(f, live, defsIn)
    ensures Solution(g, live, defsIn)
  {
    forall b ensures BlockDefs(g, b) == BlockDefs(f, b) { SameBlockDefs(f, g, b); }
    hide BlockDefs, ArrivesAt;
    forall b, s | b in g.blocks && s in g.blocks && Edge(g, b, s)
      ensures ArrivesAt(s, defsIn[b] + BlockDefs(g, b), defsIn[s])
    {
      assert Edge(f, b, s);
    }
  }

  lemma SameTagsHere(f: Fn, g: Fn, defsIn: map<BblId, DefMap>, b: BblId, k: nat)
    requires SameShape(f, g)
    ensures TagsHere(g, defsIn, b, k) == TagsHere(f, defsIn, b, k)
  {
    if b in defsIn && k <= |BblAt(f, b).inss| {
      TagsIgnoreDefs(f.code, g.code, BblAt(f, b).inss, k, defsIn[b]);
    }
  }

  /** Two contexts that differ only in what their instructions read, yet run alike. */
  ghost predicate Alike(c: Ctx, e: Ctx) {
    && e == c.(f := e.f) && SameShape(c.f, e.f)
    && SameSteps(c.m, c.f, e.f, c.s0)
  }

  lemma AlikeStep(c: Ctx, e: Ctx, n: nat)
    requires Alike(c, e)
    ensures ConfigAt(e, n) == ConfigAt(c, n)
    ensures forall i: InsId :: Executes(e, n, i) <==> Executes(c, n, i)
    ensures forall r :: Writes(e, n, r) <==> Writes(c, n, r)
    ensures forall b, k: nat :: AtPoint(e, n, b, k) <==> AtPoint(c, n, b, k)
    ensures TagsNow(e, n) == TagsNow(c, n)
  {
    hide NextConfig, StepN;
    assert StepN(c.m, c.f, c.s0, n) == StepN(c.m, e.f, c.s0, n);
    var cfg := ConfigAt(c, n);
    if cfg.Pt? { SameTagsHere(c.f, e.f, c.defsIn, cfg.bbl, cfg.k); }
    hide TagsHere;
  }

  lemma {:induction false} AlikeKnown(c: Ctx, e: Ctx, n: nat, r: RegId)
    requires Alike(c, e)
    ensures r in Known(e, n) <==> r in Known(c, n)
  {
    hide *;
    if n == 0 {
      AlikeStart(c, e);
    } else {
      AlikeKnown(c, e, n - 1, r);
      KnownStep(c, n - 1, r);
      KnownStep(e, n - 1, r);
      AlikeStep(c, e, n - 1);
    }
  }

  lemma AlikeStart(c: Ctx, e: Ctx)
    requires Alike(c, e)
    ensures Known(c, 0) == Known(e, 0)
  {
    hide SameShape, SameSteps;
  }

  lemma AlikeDominates(c: Ctx, e: Ctx, d: InsId, n: nat)
    requires Alike(c, e) && DominatesNow(c, d, n)
    ensures DominatesNow(e, d, n)
  {
    AlikeStep(c, e, n);
    var b, k := ConfigAt(c, n).bbl, ConfigAt(c, n).k;
    hide ConfigAt, Alike, AtPoint, Executes;
    forall n': nat | AtPoint(e, n', b, k) ensures RanBefore(e, n', d) {
      AlikeStep(c, e, n');
      assert RanBefore(c, n', d);
      var o: nat :| o < n' && Executes(c, o, d);
      AlikeStep(c, e, o);
    }
  }

  lemma AlikeHeld(c: Ctx, e: Ctx, n: nat, r: RegId, d: InsId)
    requires Alike(c, e) && Held(c, n, r, d)
    ensures Held(e, n, r, d)
  {
    var since: nat :| HeldSince(c, since, n, r, d);
    HeldWrites(c, since, n, r, d);
    assert DstOf(InsAt(e.f.code, d)) == DstOf(InsAt(c.f.code, d));
    hide DominatesNow, Executes, Writes, Alike;
    AlikeStep(c, e, since);
    forall t | since < t < n ensures !Writes(e, t, r) { AlikeStep(c, e, t); }
    forall t | since < t <= n ensures DominatesNow(e, d, t) { AlikeDominates(c, e, d, t); }
    assert HeldSince(e, since, n, r, d);
  }

  lemma AlikeHonest(c: Ctx, e: Ctx, n: nat, op: Operand, t: Tag)
    requires Alike(c, e) && HonestOperand(c, n, op, t)
    ensures HonestOperand(e, n, op, t)
  {
    AlikeStep(c, e, n);
    AlikeKnown(c, e, n, op.reg);
    if t.DefIns? { AlikeHeld(c, e, n, op.reg, t.ins); }
    hide Held, TagsNow, Known, Alike;
  }

  /** The new instruction asks for the same control flow. */
  predicate SameControl(ins: Ins, ins': Ins) {
    && IsTerminator(ins'.opcode) == IsTerminator(ins.opcode)
    && (IsTerminator(ins.opcode) ==>
          && ins'.opcode == ins.opcode && |ins'.operands| == |ins.operands|
          && forall l :: 0 <= l < |ins.operands| && !ins.operands[l].RegOp? ==> ins'.operands[l] == ins.operands[l])
  }

  /** Running ins' instead of instruction i makes no difference, and its tags are honest. */
  ghost predicate MayReplace(c: Ctx, i: InsId, ins': Ins) {
    var ins := InsAt(c.f.code, i);
    && i < |c.f.code| && WfIns(ins) && WfIns(ins') && DstOf(ins') == DstOf(ins) && SameControl(ins, ins')
    && forall n: nat :: Executes(c, n, i) ==>
      && ExecIns(c.m, ins', ConfigAt(c, n).state) == ExecIns(c.m, ins, ConfigAt(c, n).state)
      && (IsTerminator(ins.opcode) ==>
            UseVals(c.m, ins', ConfigAt(c, n).state.regs) == UseVals(c.m, ins, ConfigAt(c, n).state.regs))
      && HonestIns(c, n, ins')
  }

  function WithIns(f: Fn, i: InsId, ins: Ins): Fn {
    if i < |f.code| then f.(code := f.code[i := ins]) else f
  }

  lemma SameEdge(m: Machine, f: Fn, i: InsId, ins': Ins, b: BblId, s: State)
    requires i < |f.code| && WfIns(f.code[i]) && WfIns(ins') && SameControl(f.code[i], ins')
    requires BblAt(f, b).inss != [] && BblAt(f, b).inss[|BblAt(f, b).inss| - 1] == i && IsTerminator(f.code[i].opcode) ==>
      UseVals(m, ins', s.regs) == UseVals(m, f.code[i], s.regs)
    ensures EdgeNext(m, WithIns(f, i, ins'), b, s) == EdgeNext(m, f, b, s)
  {
    hide UseVals;
    var g := WithIns(f, i, ins');
    assert BblAt(g, b) == BblAt(f, b);
    if LastIns(g, b) != LastIns(f, b) {
      assert LastIns(f, b) == f.code[i] && LastIns(g, b) == ins';
    }
  }

  lemma TerminatorKeepsRegs(m: Machine, ins: Ins, s: State)
    requires IsTerminator(ins.opcode)
    ensures ExecIns(m, ins, s).regs == s.regs
  {
    hide UseVals, Effect;
  }

  lemma {:induction false} ReplacedStep(c: Ctx, i: InsId, ins': Ins, n: nat)
    requires WfCtx(c) && MayReplace(c, i, ins')
    ensures StepN(c.m, WithIns(c.f, i, ins'), c.s0, n) == ConfigAt(c, n)
  {
    hide *;
    if n == 0 {
      ReplacedStart(c, i, ins');
    } else {
      ReplacedStep(c, i, ins', n - 1);
      ReplacedNext(c, i, ins', n - 1);
      ConfigUnfolds(c, n - 1);
      StepsUnfold(c.m, WithIns(c.f, i, ins'), c.s0, n - 1);
      StepsUnfold(c.m, c.f, c.s0, n - 1);
    }
  }

  lemma ReplacedStart(c: Ctx, i: InsId, ins': Ins)
    ensures StepN(c.m, WithIns(c.f, i, ins'), c.s0, 0) == ConfigAt(c, 0)
  {
  }

  lemma StepsUnfold(m: Machine, f: Fn, s0: State, n: nat)
    ensures StepN(m, f, s0, n + 1) == NextConfig(m, f, StepN(m, f, s0, n))
  {
    hide NextConfig;
  }

  lemma ConfigUnfolds(c: Ctx, n: nat)
    ensures ConfigAt(c, n) == StepN(c.m, c.f, c.s0, n)
    ensures ConfigAt(c, n + 1) == StepN(c.m, c.f, c.s0, n + 1)
  {
    hide StepN;
  }

  lemma MayReplaceAt(c: Ctx, i: InsId, ins': Ins, n: nat)
    requires MayReplace(c, i, ins') && Executes(c, n, i)
    ensures i < |c.f.code|
    ensures ExecIns(c.m, ins', ConfigAt(c, n).state) == ExecIns(c.m, InsAt(c.f.code, i), ConfigAt(c, n).state)
    ensures IsTerminator(InsAt(c.f.code, i).opcode) ==>
      UseVals(c.m, ins', ConfigAt(c, n).state.regs) == UseVals(c.m, InsAt(c.f.code, i), ConfigAt(c, n).state.regs)
  {
    hide Executes, ExecIns, ConfigAt, UseVals, HonestIns, WfIns, SameControl, DstOf;
  }

  lemma ReplacedNext(c: Ctx, i: InsId, ins': Ins, n: nat)
    requires WfCtx(c) && MayReplace(c, i, ins')
    ensures NextConfig(c.m, WithIns(c.f, i, ins'), ConfigAt(c, n)) == NextConfig(c.m, c.f, ConfigAt(c, n))
  {
    var cfg := ConfigAt(c, n);
    var g := WithIns(c.f, i, ins');
    hide ExecIns, HonestIns, WfCtx, StepN, UseVals, EdgeNext, WfIns, SameControl;
    if cfg.Pt? {
      var ids := BblAt(c.f, cfg.bbl).inss;
      assert BblAt(g, cfg.bbl) == BblAt(c.f, cfg.bbl);
      if cfg.k < |ids| {
        if ids[cfg.k] == i { assert Executes(c, n, i); }
      } else {
        if ids != [] && ids[|ids| - 1] == i && IsTerminator(c.f.code[i].opcode) {
          StaysInside(c, n);
          LastWasReplaced(c, i, ins', n, cfg.bbl, cfg.k);
        }
        SameEdge(c.m, c.f, i, ins', cfg.bbl, cfg.state);
      }
    }
  }

  lemma LastWasReplaced(c: Ctx, i: InsId, ins': Ins, n: nat, b: BblId, k: nat)
    requires MayReplace(c, i, ins') && AtPoint(c, n, b, k) && k == |BblAt(c.f, b).inss| > 0
    requires BblAt(c.f, b).inss[k - 1] == i && IsTerminator(InsAt(c.f.code, i).opcode)
    ensures UseVals(c.m, ins', ConfigAt(c, n).state.regs) == UseVals(c.m, InsAt(c.f.code, i), ConfigAt(c, n).state.regs)
  {
    hide *;
    BackOne(c, n, b, k);
    StepWrites(c, n - 1, b, k - 1);
    MayReplaceAt(c, i, ins', n - 1);
    TerminatorStep(c, n - 1, i);
  }

  lemma TerminatorStep(c: Ctx, n: nat, i: InsId)
    requires Executes(c, n, i) && IsTerminator(InsAt(c.f.code, i).opcode)
    ensures ConfigAt(c, n + 1).state.regs == ConfigAt(c, n).state.regs
  {
    TerminatorKeepsRegs(c.m, InsAt(c.f.code, i), ConfigAt(c, n).state);
    hide ExecIns, EdgeNext;
  }

  lemma ReplacedIsAlike(c: Ctx, i: InsId, ins': Ins)
    requires WfCtx(c) && MayReplace(c, i, ins')
    ensures Alike(c, c.(f := WithIns(c.f, i, ins')))
  {
    forall n: nat ensures StepN(c.m, WithIns(c.f, i, ins'), c.s0, n) == StepN(c.m, c.f, c.s0, n) {
      ReplacedStep(c, i, ins', n);
    }
    hide StepN, WfCtx, ExecIns, HonestIns, SameControl, UseVals;
  }

  lemma ReplacedIsHonest(c: Ctx, i: InsId, ins': Ins)
    requires WfCtx(c) && Honest(c) && MayReplace(c, i, ins')
    ensures Honest(c.(f := WithIns(c.f, i, ins')))
  {
    var e := c.(f := WithIns(c.f, i, ins'));
    ReplacedIsAlike(c, i, ins');
    forall n: nat, j: InsId | Executes(e, n, j) ensures HonestIns(e, n, InsAt(e.f.code, j)) {
      AlikeStep(c, e, n);
      ReplacedInsWasHonest(c, i, ins', n, j);
      HonestInsCarries(c, e, n, InsAt(e.f.code, j));
    }
  }

  lemma ReplacedInsWasHonest(c: Ctx, i: InsId, ins': Ins, n: nat, j: InsId)
    requires Honest(c) && MayReplace(c, i, ins') && Executes(c, n, j)
    ensures HonestIns(c, n, InsAt(WithIns(c.f, i, ins').code, j))
  {
    hide HonestIns, Executes, ExecIns, UseVals, SameControl, WfIns;
    assert HonestIns(c, n, InsAt(c.f.code, j));
  }

  lemma HonestInsCarries(c: Ctx, e: Ctx, n: nat, ins: Ins)
    requires Alike(c, e) && HonestIns(c, n, ins)
    ensures HonestIns(e, n, ins)
  {
    hide Alike, HonestOperand;
    forall l: nat | l < |ins.operands| && l < |ins.defs| && ins.defs[l].Some?
      ensures HonestOperand(e, n, ins.operands[l], ins.defs[l].value)
    {
      AlikeHonest(c, e, n, ins.operands[l], ins.defs[l].value);
    }
  }

  lemma ReplacedIsWf(f: Fn, i: InsId, ins': Ins, live: set<RegId>, defsIn: map<BblId, DefMap>)
    requires i < |f.code| && WfIns(f.code[i]) && WfIns(ins') && DstOf(ins') == DstOf(f.code[i]) && SameControl(f.code[i], ins')
    requires WfLayout(f) && UniqueIds(f) && (forall b :: b in f.blocks ==> WfEdges(f, b)) && Solution(f, live, defsIn)
    ensures var g := WithIns(f, i, ins');
      SameShape(f, g) && WfLayout(g) && UniqueIds(g) && (forall b :: b in g.blocks ==> WfEdges(g, b)) && Solution(g, live, defsIn)
  {
    var g := WithIns(f, i, ins');
    forall b ensures BblAt(g, b) == BblAt(f, b) {}
    SolutionIgnoresUses(f, g, live, defsIn);
    forall b | b in g.blocks ensures WfEdges(g, b) {
      assert WfEdges(f, b);
      WfEdgesKept(f, i, ins', b);
    }
    hide Solution, WfEdges;
  }

  lemma WfEdgesKept(f: Fn, i: InsId, ins': Ins, b: BblId)
    requires i < |f.code| && WfIns(f.code[i]) && WfIns(ins') && SameControl(f.code[i], ins') && WfEdges(f, b)
    ensures WfEdges(WithIns(f, i, ins'), b)
  {
    var g := WithIns(f, i, ins');
    assert BblAt(g, b) == BblAt(f, b);
    if LastIns(g, b) != LastIns(f, b) {
      assert LastIns(f, b) == f.code[i] && LastIns(g, b) == ins';
    }
  }

  // ---------------------------------------------------------------- the passes

  /** The passes over operands; registers in `cpuRegs` are bound to the machine and left alone. */
  datatype Pass = PropagateRegs(cpuRegs: set<RegId>) | PropagateConsts | LoadStoreSimplify

  function WithOperand(ins: Ins, l: nat, op: Operand, t: Option<Tag>): Ins
    requires l < |ins.operands| && l < |ins.defs|
  {
    ins.(operands := ins.operands[l := op], defs := ins.defs[l := t])
  }

  /** The mov that set operand l, when that is what its tag says. */
  function MovOf(code: seq<Ins>, ins: Ins, l: nat): Option<Ins> {
    if l < |ins.operands| && l < |ins.defs| && ins.defs[l].Some? && ins.defs[l].value.DefIns?
       && InsAt(code, ins.defs[l].value.ins).opcode.Mov?
       && |InsAt(code, ins.defs[l].value.ins).operands| == 2 && |InsAt(code, ins.defs[l].value.ins).defs| == 2
    then Some(InsAt(code, ins.defs[l].value.ins)) else None
  }

  /** The register in `op` still has the tag `t`; anything that is not a register needs none. */
  predicate DefAvailable(op: Operand, t: Option<Tag>, tags: DefMap) {
    match op
    case ConstOp(_) | MemOp(_) | StkOp(_) => true
    case RegOp(r) => t.Some? && r in tags && tags[r] == t.value
    case _ => false
  }

  function PropagateRegAt(code: seq<Ins>, cpuRegs: set<RegId>, tags: DefMap, ins: Ins, l: nat): Ins {
    match MovOf(code, ins, l)
    case None => ins
    case Some(mov) =>
      if mov.operands[1].RegOp? && mov.operands[1].reg !in cpuRegs && DefAvailable(mov.operands[1], mov.defs[1], tags)
      then WithOperand(ins, l, mov.operands[1], mov.defs[1]) else ins
  }

  function PropagateConstAt(code: seq<Ins>, ins: Ins, l: nat): Ins {
    match MovOf(code, ins, l)
    case None => ins
    case Some(mov) => if mov.operands[1].ConstOp? then WithOperand(ins, l, mov.operands[1], None) else ins
  }

  /** The opcode that folds a base set by `base` into a memory access or address `opc`. */
  function FoldedOpcode(base: Opcode, opc: Opcode): Option<Opcode> {
    match (base, opc)
    case (LeaMem, Ld) => Some(LdMem)
    case (LeaStk, Ld) => Some(LdStk)
    case (Lea, Ld) => Some(Ld)
    case (Mov, Ld) => Some(Ld)
    case (LeaMem, St) => Some(StMem)
    case (LeaStk, St) => Some(StStk)
    case (Lea, St) => Some(St)
    case (Mov, St) => Some(St)
    case (LeaMem, Lea) => Some(LeaMem)
    case (LeaStk, Lea) => Some(LeaStk)
    case (Lea, Lea) => Some(Lea)
    case (Mov, Lea) => Some(Lea)
    case _ => None
  }

  function BasePos(opc: Opcode): nat { if opc.St? then 0 else 1 }

  function OffsetPos(opc: Opcode): nat { if opc.St? then 1 else 2 }

  function IsZero(op: Operand): bool { op == ConstOp(0) }

  datatype Offset = Offset(op: Operand, tag: Option<Tag>)

  /** The two offsets as one, with the tag that says whether it may be used here. */
  function CombinedOffset(ins: Ins, base: Ins): Option<Offset>
    requires |ins.operands| == 3 && |ins.defs| == 3 && |base.operands| == |base.defs|
    requires !base.opcode.Mov? ==> |base.operands| == 3
  {
    var p := OffsetPos(ins.opcode);
    var off1 := ins.operands[p];
    if base.opcode.Mov? then Some(Offset(off1, ins.defs[p]))
    else
      var off2 := base.operands[2];
      if IsZero(off1) then Some(Offset(off2, base.defs[2]))
      else if IsZero(off2) then Some(Offset(off1, ins.defs[p]))
      else if off1.ConstOp? && off2.ConstOp? then Some(Offset(ConstOp(off1.value + off2.value), None))
      else None
  }

  /** A ld, st or lea with the definition of its base folded in, when base and offset are still
      what they were at that definition. */
  function SimplifyLoadStore(code: seq<Ins>, tags: DefMap, ins: Ins): Ins {
    var p := BasePos(ins.opcode);
    if !(ins.opcode.St? || ins.opcode.Ld? || ins.opcode.Lea?) || |ins.operands| != 3 || |ins.defs| != 3 then ins
    else if ins.defs[p].None? || !ins.defs[p].value.DefIns? then ins
    else
      var base := InsAt(code, ins.defs[p].value.ins);
      var opc := FoldedOpcode(base.opcode, ins.opcode);
      if opc.None? || !WfIns(base) || !DefAvailable(base.operands[1], base.defs[1], tags) then ins
      else
        var off := CombinedOffset(ins, base);
        if off.None? || !DefAvailable(off.value.op, off.value.tag, tags) then ins
        else if ins.opcode.St? then
          Ins(opc.value, [base.operands[1], off.value.op, ins.operands[2]], [base.defs[1], off.value.tag, ins.defs[2]])
        else
          Ins(opc.value, [ins.operands[0], base.operands[1], off.value.op], [ins.defs[0], base.defs[1], off.value.tag])
  }

  /** Step l of the work on one instruction. Copies and constants go operand by operand, loads
      and stores in one go. */
  function RewriteAt(pass: Pass, code: seq<Ins>, tags: DefMap, ins: Ins, l: nat): Ins {
    match pass
    case PropagateRegs(cpuRegs) => PropagateRegAt(code, cpuRegs, tags, ins, l)
    case PropagateConsts => PropagateConstAt(code, ins, l)
    case LoadStoreSimplify => if l == 0 then SimplifyLoadStore(code, tags, ins) else ins
  }

  function Put(code: seq<Ins>, i: InsId, ins: Ins): seq<Ins> {
    if i < |code| then code[i := ins] else code
  }

  /** The code after the first l steps on instruction i, whose surroundings have `tags`. */
  function RewriteIns(pass: Pass, code: seq<Ins>, tags: DefMap, i: InsId, l: nat): seq<Ins> {
    if l == 0 then code
    else
      var before := RewriteIns(pass, code, tags, i, l - 1);
      Put(before, i, RewriteAt(pass, before, tags, InsAt(before, i), l - 1))
  }

  /** The code after the first k instructions of a block. */
  function RewriteBbl(pass: Pass, code: seq<Ins>, ids: seq<InsId>, k: nat, tags: DefMap): seq<Ins>
    requires k <= |ids|
  {
    if k == 0 then code
    else
      var before := RewriteBbl(pass, code, ids, k - 1, tags);
      RewriteIns(pass, before, TagsAt(before, ids, k - 1, tags), ids[k - 1], |InsAt(before, ids[k - 1]).operands|)
  }

  /** The code after the first n blocks of the layout. */
  function RewriteFun(pass: Pass, f: Fn, defsIn: map<BblId, DefMap>, n: nat): seq<Ins>
    requires n <= |f.order|
  {
    if n == 0 then f.code
    else
      var b := f.order[n - 1];
      var before := RewriteFun(pass, f, defsIn, n - 1);
      RewriteBbl(pass, before, BblAt(f, b).inss, |BblAt(f, b).inss|, if b in defsIn then defsIn[b] else map[])
  }

  // ---------------------------------------------------------------- every step may be taken

  lemma UseValsWithOperand(m: Machine, ins: Ins, l: nat, op: Operand, t: Option<Tag>, regs: map<RegId, int>)
    requires NumDefs(ins.opcode) <= l < |ins.operands| && l < |ins.defs|
    requires Eval(m, op, regs) == Eval(m, ins.operands[l], regs)
    ensures UseVals(m, WithOperand(ins, l, op, t), regs) == UseVals(m, ins, regs)
  {
    hide Eval;
    var ins', d := WithOperand(ins, l, op, t), NumDefs(ins.opcode);
    assert ins'.operands[d..] == ins.operands[d..][l - d := op];
    assert UseVals(m, ins', regs) == UseVals(m, ins, regs);
  }

  lemma ExecSame(m: Machine, ins: Ins, ins': Ins, s: State)
    requires ins'.opcode == ins.opcode && DstOf(ins') == DstOf(ins) && UseVals(m, ins', s.regs) == UseVals(m, ins, s.regs)
    ensures ExecIns(m, ins', s) == ExecIns(m, ins, s)
  {
    hide UseVals, Effect, DstOf;
  }

  /** Only registers that are read carry tags. */
  predicate WfTags(ins: Ins) {
    && |ins.defs| == |ins.operands|
    && forall l :: 0 <= l < |ins.defs| && ins.defs[l].Some? ==> NumDefs(ins.opcode) <= l && ins.operands[l].RegOp?
  }

  ghost predicate AllWfIns(code: seq<Ins>) {
    forall i :: 0 <= i < |code| ==> WfIns(code[i]) && WfTags(code[i])
  }

  lemma HonestAt(c: Ctx, n: nat, i: InsId, l: nat)
    requires Honest(c) && Executes(c, n, i)
    requires l < |InsAt(c.f.code, i).operands| && l < |InsAt(c.f.code, i).defs| && InsAt(c.f.code, i).defs[l].Some?
    ensures HonestOperand(c, n, InsAt(c.f.code, i).operands[l], InsAt(c.f.code, i).defs[l].value)
  {
    hide Executes, HonestOperand, InsAt;
    assert HonestIns(c, n, InsAt(c.f.code, i));
  }

  lemma HonestHolds(c: Ctx, n: nat, op: Operand, t: Tag)
    requires HonestOperand(c, n, op, t) && t.DefIns?
    ensures op.RegOp? && Held(c, n, op.reg, t.ins)
  {
    hide Held, Known, TagsNow;
  }

  lemma AllWf(f: Fn, d: InsId)
    requires AllWfIns(f.code)
    ensures WfIns(InsAt(f.code, d)) && WfTags(InsAt(f.code, d))
  {
    hide WfIns, WfTags;
    if d >= |f.code| { NopIsWf(); }
  }

  lemma NopIsWf()
    ensures WfIns(NOP_INS) && WfTags(NOP_INS)
  {
  }

  /** A mov whose source still has its tag: source and copy are equal now. */
  lemma CopyIsCurrent(c: Ctx, n: nat, x: RegId, d: InsId)
    requires WfCtx(c) && Honest(c) && Held(c, n, x, d) && ConfigAt(c, n).Pt?
    requires WfIns(InsAt(c.f.code, d)) && InsAt(c.f.code, d).opcode.Mov?
    requires DefAvailable(InsAt(c.f.code, d).operands[1], InsAt(c.f.code, d).defs[1], TagsNow(c, n))
    ensures ValueAt(c, n, x) == Eval(c.m, InsAt(c.f.code, d).operands[1], ConfigAt(c, n).state.regs)
  {
    var mov := InsAt(c.f.code, d);
    hide ConfigAt, Held, Honest, WfCtx, TagsNow, InsAt;
    assert SourcesCurrent(c, n, d);
    ValueIsCurrent(c, n, x, d);
    assert UseVals(c.m, mov, ConfigAt(c, n).state.regs)[0] == Eval(c.m, mov.operands[1], ConfigAt(c, n).state.regs);
  }

  /** An available source of the definition of x may stand in for an operand, tag and all. */
  lemma AvailableIsHonest(c: Ctx, n: nat, x: RegId, d: InsId, j: nat)
    requires WfCtx(c) && Honest(c) && Held(c, n, x, d) && ConfigAt(c, n).Pt?
    requires j < |InsAt(c.f.code, d).operands| && j < |InsAt(c.f.code, d).defs|
    requires DefAvailable(InsAt(c.f.code, d).operands[j], InsAt(c.f.code, d).defs[j], TagsNow(c, n))
    ensures InsAt(c.f.code, d).operands[j].RegOp? && InsAt(c.f.code, d).defs[j].Some? ==>
      HonestOperand(c, n, InsAt(c.f.code, d).operands[j], InsAt(c.f.code, d).defs[j].value)
  {
    hide ConfigAt, Held, Honest, WfCtx, TagsNow, InsAt, HonestOperand;
    if InsAt(c.f.code, d).operands[j].RegOp? && InsAt(c.f.code, d).defs[j].Some? {
      SourceIsHonest(c, n, x, d, j, InsAt(c.f.code, d).operands[j].reg);
    }
  }

  lemma HonestWithOperand(c: Ctx, n: nat, ins: Ins, l: nat, op: Operand, t: Option<Tag>)
    requires HonestIns(c, n, ins) && l < |ins.operands| && l < |ins.defs|
    requires t.Some? ==> HonestOperand(c, n, op, t.value)
    ensures HonestIns(c, n, WithOperand(ins, l, op, t))
  {
    hide HonestOperand;
    var ins' := WithOperand(ins, l, op, t);
    forall j: nat | j < |ins'.operands| && j < |ins'.defs| && ins'.defs[j].Some?
      ensures HonestOperand(c, n, ins'.operands[j], ins'.defs[j].value)
    {
      if j != l { assert ins'.operands[j] == ins.operands[j] && ins'.defs[j] == ins.defs[j]; }
    }
  }

  /** The point where instruction i runs, and what the tags are then. */
  lemma RunsHere(c: Ctx, n: nat, b: BblId, k: nat)
    requires WfCtx(c) && b in c.f.blocks && k < |BblAt(c.f, b).inss| && Executes(c, n, BblAt(c.f, b).inss[k])
    ensures AtPoint(c, n, b, k) && ConfigAt(c, n).Pt? && TagsNow(c, n) == TagsHere(c.f, c.defsIn, b, k)
  {
    StaysInside(c, n);
    hide ConfigAt, TagsHere;
    var b', k' := ConfigAt(c, n).bbl, ConfigAt(c, n).k;
    assert BblAt(c.f, b).inss[k] in BblAt(c.f, b).inss && BblAt(c.f, b).inss[k] in BblAt(c.f, b').inss;
  }

  lemma OperandReplaceIsWf(ins: Ins, l: nat, op: Operand, t: Option<Tag>)
    requires WfIns(ins) && NumDefs(ins.opcode) <= l < |ins.operands| && ins.operands[l].RegOp?
    ensures WfIns(WithOperand(ins, l, op, t)) && DstOf(WithOperand(ins, l, op, t)) == DstOf(ins)
    ensures SameControl(ins, WithOperand(ins, l, op, t))
    ensures WfTags(ins) && (t.Some? ==> op.RegOp?) ==> WfTags(WithOperand(ins, l, op, t))
  {
  }

  lemma OperandMayReplace(c: Ctx, i: InsId, l: nat, op: Operand, t: Option<Tag>)
    requires i < |c.f.code| && WfIns(c.f.code[i])
    requires NumDefs(c.f.code[i].opcode) <= l < |c.f.code[i].operands| && c.f.code[i].operands[l].RegOp?
    requires Honest(c)
    requires forall n: nat :: Executes(c, n, i) ==>
      && Eval(c.m, op, ConfigAt(c, n).state.regs) == Eval(c.m, c.f.code[i].operands[l], ConfigAt(c, n).state.regs)
      && (t.Some? ==> HonestOperand(c, n, op, t.value))
    ensures MayReplace(c, i, WithOperand(c.f.code[i], l, op, t))
  {
    var ins := c.f.code[i];
    var ins' := WithOperand(ins, l, op, t);
    OperandReplaceIsWf(ins, l, op, t);
    hide WfIns, SameControl, DstOf, Eval, ConfigAt, HonestOperand, HonestIns, UseVals, ExecIns, WithOperand, Executes;
    forall n: nat | Executes(c, n, i)
      ensures ExecIns(c.m, ins', ConfigAt(c, n).state) == ExecIns(c.m, ins, ConfigAt(c, n).state)
      ensures UseVals(c.m, ins', ConfigAt(c, n).state.regs) == UseVals(c.m, ins, ConfigAt(c, n).state.regs)
      ensures HonestIns(c, n, ins')
    {
      UseValsWithOperand(c.m, ins, l, op, t, ConfigAt(c, n).state.regs);
      SameOpcode(ins, l, op, t);
      ExecSame(c.m, ins, ins', ConfigAt(c, n).state);
      assert HonestIns(c, n, InsAt(c.f.code, i));
      HonestWithOperand(c, n, ins, l, op, t);
    }
  }

  lemma SameOpcode(ins: Ins, l: nat, op: Operand, t: Option<Tag>)
    requires l < |ins.operands| && l < |ins.defs|
    ensures WithOperand(ins, l, op, t).opcode == ins.opcode
  {
  }

  /** Instruction i stands at position k of block b of a function that may be rewritten. */
  ghost predicate Stands(c: Ctx, b: BblId, k: nat, i: InsId) {
    && WfCtx(c) && Honest(c) && AllWfIns(c.f.code)
    && b in c.f.blocks && k < |BblAt(c.f, b).inss| && BblAt(c.f, b).inss[k] == i && i < |c.f.code|
  }

  lemma StandsWf(c: Ctx, b: BblId, k: nat, i: InsId)
    requires Stands(c, b, k, i)
    ensures i < |c.f.code| && WfIns(c.f.code[i]) && WfTags(c.f.code[i])
    ensures WfCtx(c) && Honest(c)
    ensures forall d: InsId :: WfIns(InsAt(c.f.code, d)) && WfTags(InsAt(c.f.code, d))
  {
    hide WfCtx, Honest, WfIns, WfTags, InsAt;
    forall d: InsId ensures WfIns(InsAt(c.f.code, d)) && WfTags(InsAt(c.f.code, d)) { AllWf(c.f, d); }
  }

  /** When i runs, a register tagged with an instruction is held, and the tags are known. */
  lemma TaggedFacts(c: Ctx, b: BblId, k: nat, i: InsId, l: nat, n: nat)
    requires Stands(c, b, k, i) && Executes(c, n, i)
    requires l < |InsAt(c.f.code, i).operands| && l < |InsAt(c.f.code, i).defs|
    requires InsAt(c.f.code, i).defs[l].Some? && InsAt(c.f.code, i).defs[l].value.DefIns?
    ensures ConfigAt(c, n).Pt? && InsAt(c.f.code, i).operands[l].RegOp?
    ensures Held(c, n, InsAt(c.f.code, i).operands[l].reg, InsAt(c.f.code, i).defs[l].value.ins)
    ensures TagsNow(c, n) == TagsHere(c.f, c.defsIn, b, k)
  {
    StandsWf(c, b, k, i);
    RunsHereAt(c, n, b, k, i);
    hide *;
    HonestAt(c, n, i, l);
    HonestHolds(c, n, InsAt(c.f.code, i).operands[l], InsAt(c.f.code, i).defs[l].value);
  }

  lemma RunsHereAt(c: Ctx, n: nat, b: BblId, k: nat, i: InsId)
    requires Stands(c, b, k, i) && Executes(c, n, i)
    ensures ConfigAt(c, n).Pt? && TagsNow(c, n) == TagsHere(c.f, c.defsIn, b, k)
  {
    hide WfCtx, Honest, AllWfIns, Executes, ConfigAt, TagsNow, TagsHere;
    RunsHere(c, n, b, k);
  }

  lemma MovShape(code: seq<Ins>, i: InsId, l: nat)
    requires MovOf(code, InsAt(code, i), l).Some?
    ensures l < |InsAt(code, i).operands| && l < |InsAt(code, i).defs|
    ensures InsAt(code, i).defs[l].Some? && InsAt(code, i).defs[l].value.DefIns?
    ensures MovOf(code, InsAt(code, i), l).value == InsAt(code, InsAt(code, i).defs[l].value.ins)
    ensures MovOf(code, InsAt(code, i), l).value.opcode.Mov?
    ensures |MovOf(code, InsAt(code, i), l).value.operands| == 2 && |MovOf(code, InsAt(code, i), l).value.defs| == 2
  {
    hide InsAt;
  }

  lemma OperandIsSource(ins: Ins, l: nat)
    requires WfTags(ins) && l < |ins.defs| && ins.defs[l].Some?
    ensures l < |ins.operands| && NumDefs(ins.opcode) <= l && ins.operands[l].RegOp?
  {
  }

  /** Operand l of i may be replaced by the source of the mov that set it, if that is available. */
  lemma MovSourceMayReplace(c: Ctx, b: BblId, k: nat, i: InsId, l: nat)
    requires Stands(c, b, k, i) && MovOf(c.f.code, InsAt(c.f.code, i), l).Some?
    requires var mov := MovOf(c.f.code, InsAt(c.f.code, i), l).value;
      |mov.operands| == 2 && |mov.defs| == 2 && (mov.operands[1].RegOp? || mov.operands[1].ConstOp?) &&
      DefAvailable(mov.operands[1], mov.defs[1], TagsHere(c.f, c.defsIn, b, k))
    requires l < |InsAt(c.f.code, i).operands| && l < |InsAt(c.f.code, i).defs|
    ensures var mov := MovOf(c.f.code, InsAt(c.f.code, i), l).value;
      && MayReplace(c, i, WithOperand(InsAt(c.f.code, i), l, mov.operands[1], if mov.operands[1].RegOp? then mov.defs[1] else None))
      && WfTags(WithOperand(InsAt(c.f.code, i), l, mov.operands[1], if mov.operands[1].RegOp? then mov.defs[1] else None))
  {
    var ins := InsAt(c.f.code, i);
    var mov := MovOf(c.f.code, ins, l).value;
    var t := if mov.operands[1].RegOp? then mov.defs[1] else None;
    StandsWf(c, b, k, i);
    MovShape(c.f.code, i, l);
    OperandIsSource(ins, l);
    OperandReplaceIsWf(ins, l, mov.operands[1], t);
    forall n: nat | Executes(c, n, i)
      ensures Eval(c.m, mov.operands[1], ConfigAt(c, n).state.regs) == Eval(c.m, ins.operands[l], ConfigAt(c, n).state.regs)
      ensures t.Some? ==> HonestOperand(c, n, mov.operands[1], t.value)
    {
      hide Stands, MovOf, WfIns, WfTags, SameControl, ConfigAt, TagsNow, TagsHere, Held, Honest, WfCtx, HonestOperand, WithOperand, Executes, InsAt, DefAvailable;
      TaggedFacts(c, b, k, i, l, n);
      CopyIsCurrent(c, n, ins.operands[l].reg, ins.defs[l].value.ins);
      AvailableIsHonest(c, n, ins.operands[l].reg, ins.defs[l].value.ins, 1);
    }
    hide Stands, MovOf, WfIns, WfTags, SameControl, ConfigAt, TagsNow, TagsHere, Held, Honest, WfCtx, HonestOperand, WithOperand, Executes, DefAvailable, Eval;
    OperandMayReplace(c, i, l, mov.operands[1], t);
  }

  // ---------------------------------------------------------------- folding an address

  lemma MulBounds(d: int, a: int)
    requires a > 0
    ensures d > 0 ==> d * a >= a
    ensures d < 0 ==> d * a <= -a
  {
    if d > 0 { assert (d - 1) * a >= 0; }
    if d < 0 { assert (-d - 1) * a >= 0; }
  }

  lemma DivModUnique(x: int, q: int, r: int, a: pos)
    requires x == q * a + r && 0 <= r < a
    ensures x % a == r
  {
    var p, t := x / a, x % a;
    assert x == p * a + t && 0 <= t < a;
    MulBounds(p - q, a);
    assert (p - q) * a == p * a - q * a;
  }

  lemma ModOfMod(x: int, y: int, a: pos)
    ensures (x % a + y) % a == (x + y) % a
  {
    var q, t := x / a, (x % a + y) / a;
    var r := (x % a + y) % a;
    assert x == q * a + x % a && x % a + y == t * a + r;
    assert q * a + t * a == (q + t) * a;
    DivModUnique(x + y, q + t, r, a);
  }

  /** The base register of a folded access holds base + offset, so the address stays. */
  lemma FoldedAddress(m: Machine, ins: Ins, base: Ins, regs: map<RegId, int>)
    requires |ins.operands| == 3 && |ins.defs| == 3 && WfIns(base)
    requires FoldedOpcode(base.opcode, ins.opcode).Some? && CombinedOffset(ins, base).Some?
    ensures var p := OffsetPos(ins.opcode);
      Address(m, PureResult(m, base.opcode, UseVals(m, base, regs)), Eval(m, ins.operands[p], regs)) ==
      Address(m, Eval(m, base.operands[1], regs), Eval(m, CombinedOffset(ins, base).value.op, regs))
  {
    var off1 := Eval(m, ins.operands[OffsetPos(ins.opcode)], regs);
    var vs := UseVals(m, base, regs);
    assert vs[0] == Eval(m, base.operands[1], regs);
    if !base.opcode.Mov? {
      assert vs[1] == Eval(m, base.operands[2], regs);
      ModOfMod(vs[0] + vs[1], off1, m.addrSpace);
    }
  }

  /** Ld, st and lea only look at base + offset; the folded opcode does the same to it. */
  lemma FoldedEffect(m: Machine, base: Opcode, opc: Opcode, vs: seq<int>, vs': seq<int>, mem: Memory, trace: Trace)
    requires FoldedOpcode(base, opc).Some?
    requires Address(m, Nth(vs, 0), Nth(vs, 1)) == Address(m, Nth(vs', 0), Nth(vs', 1)) && Nth(vs, 2) == Nth(vs', 2)
    ensures Effect(m, FoldedOpcode(base, opc).value, vs', mem, trace) == Effect(m, opc, vs, mem, trace)
  {
    hide Address, Nth;
  }

  /** What `SimplifyLoadStore` checks before it folds. */
  predicate Folds(code: seq<Ins>, tags: DefMap, ins: Ins) {
    var p := BasePos(ins.opcode);
    && (ins.opcode.St? || ins.opcode.Ld? || ins.opcode.Lea?) && |ins.operands| == 3 && |ins.defs| == 3
    && ins.defs[p].Some? && ins.defs[p].value.DefIns?
    && var base := InsAt(code, ins.defs[p].value.ins);
       && FoldedOpcode(base.opcode, ins.opcode).Some? && WfIns(base)
       && DefAvailable(base.operands[1], base.defs[1], tags)
       && CombinedOffset(ins, base).Some?
       && DefAvailable(CombinedOffset(ins, base).value.op, CombinedOffset(ins, base).value.tag, tags)
  }

  lemma FoldsOrNot(code: seq<Ins>, tags: DefMap, ins: Ins)
    ensures !Folds(code, tags, ins) ==> SimplifyLoadStore(code, tags, ins) == ins
  {
    hide WfIns, DefAvailable, CombinedOffset;
  }

  function BaseOf(code: seq<Ins>, ins: Ins): Ins
    requires BasePos(ins.opcode) < |ins.defs| && ins.defs[BasePos(ins.opcode)].Some? && ins.defs[BasePos(ins.opcode)].value.DefIns?
  {
    InsAt(code, ins.defs[BasePos(ins.opcode)].value.ins)
  }

  /** The shape of a folded instruction. */
  lemma FoldedShape(code: seq<Ins>, tags: DefMap, ins: Ins)
    requires Folds(code, tags, ins) && WfIns(ins)
    ensures var ins', base := SimplifyLoadStore(code, tags, ins), BaseOf(code, ins);
      && |ins'.operands| == 3 && |ins'.defs| == 3
      && ins'.opcode == FoldedOpcode(base.opcode, ins.opcode).value
      && ins'.operands[BasePos(ins.opcode)] == base.operands[1] && ins'.defs[BasePos(ins.opcode)] == base.defs[1]
      && ins'.operands[OffsetPos(ins.opcode)] == CombinedOffset(ins, base).value.op
      && ins'.defs[OffsetPos(ins.opcode)] == CombinedOffset(ins, base).value.tag
      && (ins.opcode.St? ==> ins'.operands[2] == ins.operands[2] && ins'.defs[2] == ins.defs[2])
      && (!ins.opcode.St? ==> ins'.operands[0] == ins.operands[0] && ins'.defs[0] == ins.defs[0])
      && WfIns(ins') && DstOf(ins') == DstOf(ins) && SameControl(ins, ins')
  {
    hide DefAvailable, CombinedOffset;
  }

  lemma FoldedTags(code: seq<Ins>, tags: DefMap, ins: Ins)
    requires Folds(code, tags, ins) && WfIns(ins) && WfTags(ins) && WfTags(BaseOf(code, ins))
    ensures WfTags(SimplifyLoadStore(code, tags, ins))
  {
    FoldedShape(code, tags, ins);
    var ins', base := SimplifyLoadStore(code, tags, ins), BaseOf(code, ins);
    assert CombinedOffset(ins, base).value.tag.Some? ==> CombinedOffset(ins, base).value.op.RegOp?;
    hide DefAvailable, CombinedOffset, SimplifyLoadStore, InsAt;
    assert NumDefs(ins'.opcode) == NumDefs(ins.opcode);
  }

  lemma FoldedSourcesCurrent(c: Ctx, b: BblId, k: nat, ins: Ins, n: nat)
    requires Folds(c.f.code, TagsHere(c.f, c.defsIn, b, k), ins) && TagsNow(c, n) == TagsHere(c.f, c.defsIn, b, k)
    ensures SourcesCurrent(c, n, ins.defs[BasePos(ins.opcode)].value.ins) && IsPure(BaseOf(c.f.code, ins).opcode)
    ensures WfIns(BaseOf(c.f.code, ins))
  {
    hide TagsNow, TagsHere, InsAt;
  }

  lemma FoldedExec(c: Ctx, b: BblId, k: nat, i: InsId, n: nat)
    requires Stands(c, b, k, i) && Executes(c, n, i)
    requires Folds(c.f.code, TagsHere(c.f, c.defsIn, b, k), InsAt(c.f.code, i))
    ensures ExecIns(c.m, SimplifyLoadStore(c.f.code, TagsHere(c.f, c.defsIn, b, k), InsAt(c.f.code, i)), ConfigAt(c, n).state) ==
            ExecIns(c.m, InsAt(c.f.code, i), ConfigAt(c, n).state)
  {
    var ins, tags := InsAt(c.f.code, i), TagsHere(c.f, c.defsIn, b, k);
    var ins', base, p := SimplifyLoadStore(c.f.code, tags, ins), BaseOf(c.f.code, ins), BasePos(ins.opcode);
    StandsWf(c, b, k, i);
    TaggedFacts(c, b, k, i, p, n);
    FoldedShape(c.f.code, tags, ins);
    FoldedSourcesCurrent(c, b, k, ins, n);
    ValueIsCurrent(c, n, ins.operands[p].reg, ins.defs[p].value.ins);
    var s := ConfigAt(c, n).state;
    FoldedAddress(c.m, ins, base, s.regs);
    FoldedVals(c.m, ins, ins', s.regs);
    hide *;
    FoldedIns(c.m, ins, ins', base, s);
  }

  lemma FoldedVals(m: Machine, ins: Ins, ins': Ins, regs: map<RegId, int>)
    requires (ins.opcode.St? || ins.opcode.Ld? || ins.opcode.Lea?) && |ins.operands| == 3 && |ins'.operands| == 3
    requires NumDefs(ins'.opcode) == NumDefs(ins.opcode)
    ensures Nth(UseVals(m, ins, regs), 0) == Eval(m, ins.operands[BasePos(ins.opcode)], regs)
    ensures Nth(UseVals(m, ins, regs), 1) == Eval(m, ins.operands[OffsetPos(ins.opcode)], regs)
    ensures Nth(UseVals(m, ins', regs), 0) == Eval(m, ins'.operands[BasePos(ins.opcode)], regs)
    ensures Nth(UseVals(m, ins', regs), 1) == Eval(m, ins'.operands[OffsetPos(ins.opcode)], regs)
    ensures ins.opcode.St? ==> Nth(UseVals(m, ins, regs), 2) == Eval(m, ins.operands[2], regs) &&
                               Nth(UseVals(m, ins', regs), 2) == Eval(m, ins'.operands[2], regs)
    ensures !ins.opcode.St? ==> Nth(UseVals(m, ins, regs), 2) == 0 == Nth(UseVals(m, ins', regs), 2)
  {
    hide Eval;
  }

  lemma FoldedIns(m: Machine, ins: Ins, ins': Ins, base: Ins, s: State)
    requires FoldedOpcode(base.opcode, ins.opcode) == Some(ins'.opcode) && DstOf(ins') == DstOf(ins)
    requires Address(m, Nth(UseVals(m, ins, s.regs), 0), Nth(UseVals(m, ins, s.regs), 1)) ==
             Address(m, Nth(UseVals(m, ins', s.regs), 0), Nth(UseVals(m, ins', s.regs), 1))
    requires Nth(UseVals(m, ins, s.regs), 2) == Nth(UseVals(m, ins', s.regs), 2)
    ensures ExecIns(m, ins', s) == ExecIns(m, ins, s)
  {
    hide UseVals, Address, Nth, Effect, DstOf;
    FoldedEffect(m, base.opcode, ins.opcode, UseVals(m, ins, s.regs), UseVals(m, ins', s.regs), s.mem, s.trace);
  }

  ghost predicate HonestIfTagged(c: Ctx, n: nat, op: Operand, t: Option<Tag>) {
    t.Some? ==> HonestOperand(c, n, op, t.value)
  }

  lemma SourceHonestIfTagged(c: Ctx, b: BblId, k: nat, i: InsId, l: nat, n: nat, j: nat)
    requires Stands(c, b, k, i) && Executes(c, n, i)
    requires l < |InsAt(c.f.code, i).operands| && l < |InsAt(c.f.code, i).defs|
    requires InsAt(c.f.code, i).defs[l].Some? && InsAt(c.f.code, i).defs[l].value.DefIns?
    requires var base := InsAt(c.f.code, InsAt(c.f.code, i).defs[l].value.ins);
      j < |base.operands| && j < |base.defs| && DefAvailable(base.operands[j], base.defs[j], TagsHere(c.f, c.defsIn, b, k))
    ensures var base := InsAt(c.f.code, InsAt(c.f.code, i).defs[l].value.ins);
      HonestIfTagged(c, n, base.operands[j], base.defs[j])
  {
    var d := InsAt(c.f.code, i).defs[l].value.ins;
    StandsWf(c, b, k, i);
    TaggedFacts(c, b, k, i, l, n);
    hide Stands, Executes, InsAt, TagsHere, TagsNow, ConfigAt, Held, WfCtx, Honest, HonestOperand, WfIns, DefAvailable;
    AvailableIsHonest(c, n, InsAt(c.f.code, i).operands[l].reg, d, j);
    if InsAt(c.f.code, d).defs[j].Some? { OperandIsSource(InsAt(c.f.code, d), j); }
  }

  lemma OwnHonestIfTagged(c: Ctx, i: InsId, n: nat, l: nat)
    requires Honest(c) && Executes(c, n, i) && l < |InsAt(c.f.code, i).operands| && l < |InsAt(c.f.code, i).defs|
    ensures HonestIfTagged(c, n, InsAt(c.f.code, i).operands[l], InsAt(c.f.code, i).defs[l])
  {
    hide Honest, Executes, InsAt, HonestOperand;
    if InsAt(c.f.code, i).defs[l].Some? { HonestAt(c, n, i, l); }
  }

  lemma OffsetHonest(c: Ctx, b: BblId, k: nat, i: InsId, n: nat)
    requires Stands(c, b, k, i) && Executes(c, n, i)
    requires Folds(c.f.code, TagsHere(c.f, c.defsIn, b, k), InsAt(c.f.code, i))
    ensures var off := CombinedOffset(InsAt(c.f.code, i), BaseOf(c.f.code, InsAt(c.f.code, i))).value;
      HonestIfTagged(c, n, off.op, off.tag)
  {
    var ins, tags := InsAt(c.f.code, i), TagsHere(c.f, c.defsIn, b, k);
    var base := BaseOf(c.f.code, ins);
    var off := CombinedOffset(ins, base).value;
    StandsWf(c, b, k, i);
    if off.tag.Some? {
      OffsetTags(ins, base);
      hide Stands, Executes, InsAt, TagsHere, HonestIfTagged, CombinedOffset, DefAvailable, WfTags, WfCtx, Honest;
      OwnHonestIfTagged(c, i, n, OffsetPos(ins.opcode));
      if !base.opcode.Mov? && off == Offset(base.operands[2], base.defs[2]) {
        SourceHonestIfTagged(c, b, k, i, BasePos(ins.opcode), n, 2);
      }
    }
  }

  lemma FoldedIsHonest(c: Ctx, b: BblId, k: nat, i: InsId, n: nat)
    requires Stands(c, b, k, i) && Executes(c, n, i)
    requires Folds(c.f.code, TagsHere(c.f, c.defsIn, b, k), InsAt(c.f.code, i))
    ensures HonestIns(c, n, SimplifyLoadStore(c.f.code, TagsHere(c.f, c.defsIn, b, k), InsAt(c.f.code, i)))
  {
    var ins, tags := InsAt(c.f.code, i), TagsHere(c.f, c.defsIn, b, k);
    var ins' := SimplifyLoadStore(c.f.code, tags, ins);
    StandsWf(c, b, k, i);
    FoldedShape(c.f.code, tags, ins);
    OffsetHonest(c, b, k, i, n);
    SourceHonestIfTagged(c, b, k, i, BasePos(ins.opcode), n, 1);
    var own := if ins.opcode.St? then 2 else 0;
    OwnHonestIfTagged(c, i, n, own);
    assert ThreePositions(BasePos(ins.opcode), OffsetPos(ins.opcode), own);
    assert ins'.operands[own] == ins.operands[own] && ins'.defs[own] == ins.defs[own];
    hide *;
    HonestByThree(c, n, ins', BasePos(ins.opcode), OffsetPos(ins.opcode), own);
  }

  predicate ThreePositions(p: nat, q: nat, r: nat) {
    p < 3 && q < 3 && r < 3 && p != q && q != r && r != p
  }

  lemma HonestByThree(c: Ctx, n: nat, ins: Ins, p: nat, q: nat, r: nat)
    requires |ins.operands| == 3 && |ins.defs| == 3 && ThreePositions(p, q, r)
    requires p < 3 && q < 3 && r < 3
    requires HonestIfTagged(c, n, ins.operands[p], ins.defs[p])
    requires HonestIfTagged(c, n, ins.operands[q], ins.defs[q])
    requires HonestIfTagged(c, n, ins.operands[r], ins.defs[r])
    ensures HonestIns(c, n, ins)
  {
    hide HonestOperand;
    forall l: nat | l < 3 && ins.defs[l].Some? ensures HonestOperand(c, n, ins.operands[l], ins.defs[l].value) {
      assert l == p || l == q || l == r;
    }
  }

  /** A tagged combined offset is one of the two offsets. */
  lemma OffsetTags(ins: Ins, base: Ins)
    requires |ins.operands| == 3 && |ins.defs| == 3 && WfIns(base)
    requires FoldedOpcode(base.opcode, ins.opcode).Some? && CombinedOffset(ins, base).Some?
    requires CombinedOffset(ins, base).value.tag.Some?
    ensures CombinedOffset(ins, base).value == Offset(ins.operands[OffsetPos(ins.opcode)], ins.defs[OffsetPos(ins.opcode)]) ||
            (!base.opcode.Mov? && CombinedOffset(ins, base).value == Offset(base.operands[2], base.defs[2]))
  {
  }

  lemma FoldMayReplace(c: Ctx, b: BblId, k: nat, i: InsId)
    requires Stands(c, b, k, i) && Folds(c.f.code, TagsHere(c.f, c.defsIn, b, k), InsAt(c.f.code, i))
    ensures var ins' := SimplifyLoadStore(c.f.code, TagsHere(c.f, c.defsIn, b, k), InsAt(c.f.code, i));
      MayReplace(c, i, ins') && WfTags(ins')
  {
    var ins, tags := InsAt(c.f.code, i), TagsHere(c.f, c.defsIn, b, k);
    var ins' := SimplifyLoadStore(c.f.code, tags, ins);
    StandsWf(c, b, k, i);
    FoldedShape(c.f.code, tags, ins);
    FoldedTags(c.f.code, tags, ins);
    assert !IsTerminator(ins.opcode);
    hide Stands, Folds, SimplifyLoadStore, TagsHere, Executes, ExecIns, HonestIns, UseVals, ConfigAt, SameControl, WfIns, WfTags;
    forall n: nat | Executes(c, n, i)
      ensures ExecIns(c.m, ins', ConfigAt(c, n).state) == ExecIns(c.m, ins, ConfigAt(c, n).state) && HonestIns(c, n, ins')
    {
      FoldedExec(c, b, k, i, n);
      FoldedIsHonest(c, b, k, i, n);
    }
  }

  lemma SelfMayReplace(c: Ctx, b: BblId, k: nat, i: InsId)
    requires Stands(c, b, k, i)
    ensures MayReplace(c, i, InsAt(c.f.code, i)) && WfTags(InsAt(c.f.code, i))
  {
    StandsWf(c, b, k, i);
    SelfControl(InsAt(c.f.code, i));
    hide Stands, Executes, ExecIns, HonestIns, UseVals, ConfigAt, SameControl, WfIns, WfTags;
  }

  lemma SelfControl(ins: Ins)
    ensures SameControl(ins, ins)
  {
  }

  /** Each step of each pass may be taken, on any run. */
  lemma StepMayReplace(c: Ctx, pass: Pass, b: BblId, k: nat, i: InsId, l: nat)
    requires Stands(c, b, k, i)
    ensures var ins' := RewriteAt(pass, c.f.code, TagsHere(c.f, c.defsIn, b, k), InsAt(c.f.code, i), l);
      MayReplace(c, i, ins') && WfTags(ins')
  {
    var ins, tags := InsAt(c.f.code, i), TagsHere(c.f, c.defsIn, b, k);
    SelfMayReplace(c, b, k, i);
    hide Stands, MayReplace, TagsHere, WfTags, InsAt;
    match pass {
      case PropagateRegs(cpuRegs) =>
        if PropagateRegAt(c.f.code, cpuRegs, tags, ins, l) != ins {
          MovShape(c.f.code, i, l);
          MovSourceMayReplace(c, b, k, i, l);
        }
      case PropagateConsts =>
        if PropagateConstAt(c.f.code, ins, l) != ins {
          MovShape(c.f.code, i, l);
          MovSourceMayReplace(c, b, k, i, l);
        }
      case LoadStoreSimplify =>
        hide SimplifyLoadStore, Folds;
        FoldsOrNot(c.f.code, tags, ins);
        if Folds(c.f.code, tags, ins) { FoldMayReplace(c, b, k, i); }
    }
  }

  // ---------------------------------------------------------------- whole passes

  /** g came from f by rewriting: it runs like f from any state on any machine, and its operand
      tags are honest on all those runs. */
  ghost predicate Rewritten(f: Fn, g: Fn, live: set<RegId>, defsIn: map<BblId, DefMap>) {
    && SameShape(f, g) && AllWfIns(g.code)
    && (forall m: Machine, s0: State :: RewrittenOn(f, g, live, defsIn, m, s0))
  }

  ghost predicate RewrittenOn(f: Fn, g: Fn, live: set<RegId>, defsIn: map<BblId, DefMap>, m: Machine, s0: State) {
    SameSteps(m, f, g, s0) && WfCtx(Ctx(m, g, s0, live, defsIn)) && Honest(Ctx(m, g, s0, live, defsIn))
  }

  /** One step on one instruction. */
  lemma RewrittenStep(f: Fn, g: Fn, live: set<RegId>, defsIn: map<BblId, DefMap>, pass: Pass, b: BblId, k: nat, l: nat)
    requires Rewritten(f, g, live, defsIn)
    requires b in f.blocks && k < |BblAt(f, b).inss| && BblAt(f, b).inss[k] < |f.code|
    ensures var i := BblAt(f, b).inss[k];
      Rewritten(f, WithIns(g, i, RewriteAt(pass, g.code, TagsHere(g, defsIn, b, k), InsAt(g.code, i), l)), live, defsIn)
  {
    var i := BblAt(f, b).inss[k];
    var ins' := RewriteAt(pass, g.code, TagsHere(g, defsIn, b, k), InsAt(g.code, i), l);
    var h := WithIns(g, i, ins');
    forall m: Machine, s0: State ensures RewrittenOn(f, h, live, defsIn, m, s0) {
      RewrittenStepOn(f, g, live, defsIn, pass, b, k, l, m, s0);
    }
    var m0, s0 := AnyMachine(), State(map[], map[], []);
    assert RewrittenOn(f, g, live, defsIn, m0, s0);
    ShapeAfterStep(f, g, live, defsIn, pass, b, k, l, m0, s0);
    hide RewrittenOn, SameShape, AllWfIns, WithIns;
  }

  ghost function AnyMachine(): Machine {
    var m: Machine :| true; m
  }

  lemma StandsInRewritten(f: Fn, g: Fn, live: set<RegId>, defsIn: map<BblId, DefMap>, b: BblId, k: nat, m: Machine, s0: State)
    requires SameShape(f, g) && AllWfIns(g.code) && RewrittenOn(f, g, live, defsIn, m, s0)
    requires b in f.blocks && k < |BblAt(f, b).inss| && BblAt(f, b).inss[k] < |f.code|
    ensures BblAt(f, b) == BblAt(g, b) && Stands(Ctx(m, g, s0, live, defsIn), b, k, BblAt(f, b).inss[k])
  {
    hide AllWfIns, WfCtx, Honest, SameSteps;
    assert BblAt(f, b) == BblAt(g, b);
  }

  lemma RewrittenStepOn(f: Fn, g: Fn, live: set<RegId>, defsIn: map<BblId, DefMap>, pass: Pass, b: BblId, k: nat, l: nat, m: Machine, s0: State)
    requires SameShape(f, g) && AllWfIns(g.code) && RewrittenOn(f, g, live, defsIn, m, s0)
    requires b in f.blocks && k < |BblAt(f, b).inss| && BblAt(f, b).inss[k] < |f.code|
    ensures var i := BblAt(f, b).inss[k];
      RewrittenOn(f, WithIns(g, i, RewriteAt(pass, g.code, TagsHere(g, defsIn, b, k), InsAt(g.code, i), l)), live, defsIn, m, s0)
  {
    var i := BblAt(f, b).inss[k];
    var c := Ctx(m, g, s0, live, defsIn);
    var ins' := RewriteAt(pass, g.code, TagsHere(g, defsIn, b, k), InsAt(g.code, i), l);
    StandsInRewritten(f, g, live, defsIn, b, k, m, s0);
    StepMayReplace(c, pass, b, k, i, l);
    hide SameShape, AllWfIns, Stands, MayReplace, RewriteAt, TagsHere;
    ReplacedContext(f, c, i, ins');
  }

  lemma ReplacedContext(f: Fn, c: Ctx, i: InsId, ins': Ins)
    requires WfCtx(c) && Honest(c) && MayReplace(c, i, ins') && SameSteps(c.m, f, c.f, c.s0)
    ensures RewrittenOn(f, WithIns(c.f, i, ins'), c.live, c.defsIn, c.m, c.s0)
  {
    ReplacedIsAlike(c, i, ins');
    ReplacedIsHonest(c, i, ins');
    MayReplaceShape(c, i, ins');
    ReplacedIsWf(c.f, i, ins', c.live, c.defsIn);
    hide Honest, MayReplace, StepN, WfIns, SameControl, WfEdges, WfLayout, UniqueIds, Solution, SameShape, WithIns;
  }

  lemma MayReplaceShape(c: Ctx, i: InsId, ins': Ins)
    requires MayReplace(c, i, ins')
    ensures i < |c.f.code| && WfIns(c.f.code[i]) && WfIns(ins') && DstOf(ins') == DstOf(c.f.code[i]) && SameControl(c.f.code[i], ins')
  {
    hide Executes, ExecIns, HonestIns, UseVals, WfIns, SameControl;
  }

  lemma ShapeAfterStep(f: Fn, g: Fn, live: set<RegId>, defsIn: map<BblId, DefMap>, pass: Pass, b: BblId, k: nat, l: nat, m: Machine, s0: State)
    requires SameShape(f, g) && AllWfIns(g.code) && RewrittenOn(f, g, live, defsIn, m, s0)
    requires b in f.blocks && k < |BblAt(f, b).inss| && BblAt(f, b).inss[k] < |f.code|
    ensures var i := BblAt(f, b).inss[k];
      var h := WithIns(g, i, RewriteAt(pass, g.code, TagsHere(g, defsIn, b, k), InsAt(g.code, i), l));
      SameShape(f, h) && AllWfIns(h.code)
  {
    var i := BblAt(f, b).inss[k];
    var c := Ctx(m, g, s0, live, defsIn);
    var ins' := RewriteAt(pass, g.code, TagsHere(g, defsIn, b, k), InsAt(g.code, i), l);
    StandsInRewritten(f, g, live, defsIn, b, k, m, s0);
    StepMayReplace(c, pass, b, k, i, l);
    MayReplaceShape(c, i, ins');
    hide Stands, MayReplace, RewriteAt, TagsHere, WfIns, WfTags, RewrittenOn, DstOf;
  }

  lemma SameTagsInRewritten(f: Fn, g: Fn, h: Fn, live: set<RegId>, defsIn: map<BblId, DefMap>, b: BblId, k: nat)
    requires Rewritten(f, g, live, defsIn) && Rewritten(f, h, live, defsIn)
    ensures TagsHere(g, defsIn, b, k) == TagsHere(h, defsIn, b, k)
    ensures BblAt(g, b) == BblAt(f, b) == BblAt(h, b) && |g.code| == |f.code| == |h.code| && h == g.(code := h.code)
  {
    SameTagsHere(f, g, defsIn, b, k);
    SameTagsHere(f, h, defsIn, b, k);
    hide TagsHere, RewrittenOn, AllWfIns;
  }

  lemma {:induction false} RewriteInsKeeps(f: Fn, g: Fn, live: set<RegId>, defsIn: map<BblId, DefMap>, pass: Pass, b: BblId, k: nat, l: nat)
    requires Rewritten(f, g, live, defsIn)
    requires b in f.blocks && k < |BblAt(f, b).inss| && BblAt(f, b).inss[k] < |f.code|
    ensures Rewritten(f, g.(code := RewriteIns(pass, g.code, TagsHere(g, defsIn, b, k), BblAt(f, b).inss[k], l)), live, defsIn)
  {
    var i, tags := BblAt(f, b).inss[k], TagsHere(g, defsIn, b, k);
    if l > 0 {
      RewriteInsKeeps(f, g, live, defsIn, pass, b, k, l - 1);
      var h := g.(code := RewriteIns(pass, g.code, tags, i, l - 1));
      SameTagsInRewritten(f, g, h, live, defsIn, b, k);
      RewrittenStep(f, h, live, defsIn, pass, b, k, l - 1);
      hide Rewritten, RewriteAt, TagsHere, InsAt;
      assert WithIns(h, i, RewriteAt(pass, h.code, tags, InsAt(h.code, i), l - 1)) == g.(code := RewriteIns(pass, g.code, tags, i, l));
    } else {
      hide Rewritten, RewriteAt, TagsHere, InsAt;
      assert g.(code := RewriteIns(pass, g.code, tags, i, 0)) == g;
    }
  }

  lemma {:induction false} RewriteBblKeeps(f: Fn, g: Fn, live: set<RegId>, defsIn: map<BblId, DefMap>, pass: Pass, b: BblId, k: nat)
    requires Rewritten(f, g, live, defsIn) && WfCode(f)
    requires b in f.blocks && b in defsIn && k <= |BblAt(f, b).inss|
    ensures Rewritten(f, g.(code := RewriteBbl(pass, g.code, BblAt(f, b).inss, k, defsIn[b])), live, defsIn)
  {
    var ids := BblAt(f, b).inss;
    hide Rewritten, RewriteIns, InsAt, TagsAt;
    if k > 0 {
      RewriteBblKeeps(f, g, live, defsIn, pass, b, k - 1);
      var h := g.(code := RewriteBbl(pass, g.code, ids, k - 1, defsIn[b]));
      SameTagsInRewritten(f, g, h, live, defsIn, b, k - 1);
      assert ids[k - 1] in ids;
      RewriteInsKeeps(f, h, live, defsIn, pass, b, k - 1, |InsAt(h.code, ids[k - 1]).operands|);
      assert TagsAt(h.code, ids, k - 1, defsIn[b]) == TagsHere(h, defsIn, b, k - 1);
      hide TagsHere, WfCode;
    } else {
      hide TagsHere, WfCode;
      assert g.(code := RewriteBbl(pass, g.code, ids, 0, defsIn[b])) == g;
    }
  }

  lemma {:induction false} RewriteFunKeeps(f: Fn, g: Fn, live: set<RegId>, defsIn: map<BblId, DefMap>, pass: Pass, n: nat)
    requires Rewritten(f, g, live, defsIn) && WfCode(f) && g.order == f.order && n <= |f.order|
    requires forall j :: 0 <= j < |f.order| ==> f.order[j] in f.blocks && f.order[j] in defsIn
    ensures Rewritten(f, g.(code := RewriteFun(pass, g, defsIn, n)), live, defsIn)
  {
    if n > 0 {
      RewriteFunKeeps(f, g, live, defsIn, pass, n - 1);
      var h := g.(code := RewriteFun(pass, g, defsIn, n - 1));
      var b := f.order[n - 1];
      SameTagsInRewritten(f, g, h, live, defsIn, b, 0);
      RewriteBblKeeps(f, h, live, defsIn, pass, b, |BblAt(f, b).inss|);
      hide Rewritten, RewriteBbl, WfCode;
      assert BblAt(g, b) == BblAt(f, b);
    } else {
      hide Rewritten, RewriteBbl, WfCode;
      assert g.(code := RewriteFun(pass, g, defsIn, 0)) == g;
    }
  }

  /** Every run of the rewritten function is the run of the original, state for state. */
  lemma RewrittenRunsAlike(f: Fn, g: Fn, live: set<RegId>, defsIn: map<BblId, DefMap>)
    requires Rewritten(f, g, live, defsIn)
    ensures SameRuns(f, g)
  {
    forall m: Machine, s0: State ensures SameSteps(m, f, g, s0) {
      assert RewrittenOn(f, g, live, defsIn, m, s0);
    }
    hide RewrittenOn, AllWfIns, SameSteps, SameRuns;
    SameStepsSameRuns(f, g);
  }

  /** A whole pass keeps every run. */
  lemma RewriteKeepsRuns(f: Fn, g: Fn, live: set<RegId>, defsIn: map<BblId, DefMap>, pass: Pass)
    requires Rewritten(f, g, live, defsIn) && WfCode(f) && WfOrder(f)
    requires forall b :: b in f.blocks ==> b in defsIn
    ensures Rewritten(f, g.(code := RewriteFun(pass, g, defsIn, |g.order|)), live, defsIn)
    ensures SameRuns(f, g.(code := RewriteFun(pass, g, defsIn, |g.order|)))
  {
    assert forall j :: 0 <= j < |f.order| ==> f.order[j] in f.blocks;
    SameTagsInRewritten(f, g, g, live, defsIn, First(f), 0);
    assert g.order == f.order;
    hide Rewritten, WfCode, WfOrder, RewriteFun, SameRuns;
    RewriteFunKeeps(f, g, live, defsIn, pass, |g.order|);
    RewrittenRunsAlike(f, g.(code := RewriteFun(pass, g, defsIn, |g.order|)), live, defsIn);
  }

  /** Right after the analysis the function counts as rewritten from itself. */
  lemma AnalysedIsRewritten(f: Fn, g: Fn, defsIn: map<BblId, DefMap>)
    requires WfLayout(f) && WfCode(f) && (forall b :: b in f.blocks ==> WfEdges(f, b))
    requires forall b :: b in f.blocks ==> b in defsIn
    requires Solution(f, AllUses(f), defsIn) && TaggedBlocks(f, g, defsIn, f.blocks)
    requires forall i :: 0 <= i < |f.code| && i !in IdsOfBlocks(f, f.blocks) ==> WfTags(f.code[i])
    ensures Rewritten(f, g, AllUses(f), defsIn)
  {
    TaggedOnlyTagsDiffer(f, g, defsIn);
    TaggedShape(f, g);
    TaggedWfTags(f, g, defsIn);
    forall m: Machine, s0: State ensures RewrittenOn(f, g, AllUses(f), defsIn, m, s0) {
      AnalysedOn(f, g, defsIn, m, s0);
    }
    hide WfLayout, WfCode, WfEdges, Solution, TaggedBlocks, RewrittenOn, SameShape, AllWfIns, WfTags, OnlyTagsDiffer;
  }

  /** g is f but for operand tags. */
  ghost predicate OnlyTagsDiffer(f: Fn, g: Fn) {
    && g == f.(code := g.code) && |g.code| == |f.code|
    && forall i :: 0 <= i < |f.code| ==> g.code[i] == f.code[i].(defs := g.code[i].defs)
  }

  lemma TaggedOnlyTagsDiffer(f: Fn, g: Fn, defsIn: map<BblId, DefMap>)
    requires (forall b :: b in f.blocks ==> b in defsIn) && TaggedBlocks(f, g, defsIn, f.blocks)
    ensures OnlyTagsDiffer(f, g)
  {
    hide BblTagged, WfCode, IdsOfBlocks;
  }

  lemma OnlyTagsIns(f: Fn, g: Fn, i: InsId)
    requires OnlyTagsDiffer(f, g)
    ensures InsAt(g.code, i).opcode == InsAt(f.code, i).opcode && InsAt(g.code, i).operands == InsAt(f.code, i).operands
  {
    if i < |f.code| { assert g.code[i] == f.code[i].(defs := g.code[i].defs); }
  }

  lemma TaggedShape(f: Fn, g: Fn)
    requires OnlyTagsDiffer(f, g)
    ensures SameShape(f, g)
  {
    forall i: InsId ensures DstOf(InsAt(g.code, i)) == DstOf(InsAt(f.code, i)) { OnlyTagsIns(f, g, i); }
    hide InsAt;
  }

  lemma TaggedWfTags(f: Fn, g: Fn, defsIn: map<BblId, DefMap>)
    requires (forall b :: b in f.blocks ==> b in defsIn) && TaggedBlocks(f, g, defsIn, f.blocks)
    requires forall i :: 0 <= i < |f.code| && i !in IdsOfBlocks(f, f.blocks) ==> WfTags(f.code[i])
    ensures AllWfIns(g.code)
  {
    forall i | 0 <= i < |g.code| ensures WfIns(g.code[i]) && WfTags(g.code[i]) {
      if i in IdsOfBlocks(f, f.blocks) {
        var b :| b in f.blocks && i in BblAt(f, b).inss;
        var k :| 0 <= k < |BblAt(f, b).inss| && BblAt(f, b).inss[k] == i;
        assert BblTagged(f, g, b, defsIn[b], |BblAt(f, b).inss|);
        TagInsIsWf(InsAt(f.code, i), TagsAt(f.code, BblAt(f, b).inss, k, defsIn[b]));
      } else {
        assert g.code[i] == f.code[i];
      }
    }
  }

  lemma TagInsIsWf(ins: Ins, tags: DefMap)
    ensures WfTags(TagIns(ins, tags))
  {
  }

  lemma {:induction false} StepsIgnoreTags(f: Fn, g: Fn, m: Machine, s0: State, n: nat)
    requires OnlyTagsDiffer(f, g)
    ensures StepN(m, g, s0, n) == StepN(m, f, s0, n)
  {
    hide *;
    if n == 0 {
      StartIgnoresTags(f, g, m, s0);
    } else {
      StepsIgnoreTags(f, g, m, s0, n - 1);
      NextIgnoresTags(f, g, m, StepN(m, f, s0, n - 1));
      StepsUnfold(m, f, s0, n - 1);
      StepsUnfold(m, g, s0, n - 1);
    }
  }

  lemma StartIgnoresTags(f: Fn, g: Fn, m: Machine, s0: State)
    requires OnlyTagsDiffer(f, g)
    ensures StepN(m, g, s0, 0) == StepN(m, f, s0, 0)
  {
  }

  lemma NextIgnoresTags(f: Fn, g: Fn, m: Machine, cfg: Config)
    requires OnlyTagsDiffer(f, g)
    ensures NextConfig(m, g, cfg) == NextConfig(m, f, cfg)
  {
    if cfg.Pt? {
      var ids := BblAt(f, cfg.bbl).inss;
      assert BblAt(g, cfg.bbl) == BblAt(f, cfg.bbl);
      if cfg.k < |ids| {
        OnlyTagsIns(f, g, ids[cfg.k]);
        hide Effect, OnlyTagsDiffer;
      } else {
        if ids != [] { OnlyTagsIns(f, g, ids[|ids| - 1]); }
        hide OnlyTagsDiffer, ExecIns, Vals;
      }
    }
  }

  lemma TaggedEdges(f: Fn, g: Fn, b: BblId)
    requires OnlyTagsDiffer(f, g) && WfEdges(f, b)
    ensures WfEdges(g, b)
  {
    assert BblAt(g, b) == BblAt(f, b);
    var ids := BblAt(f, b).inss;
    if ids != [] { OnlyTagsIns(f, g, ids[|ids| - 1]); }
  }

  lemma {:induction false} UpUsesIgnoreTags(f: Fn, g: Fn, ids: seq<InsId>, k: nat)
    requires OnlyTagsDiffer(f, g) && k <= |ids|
    ensures UpUses(g.code, ids, k) == UpUses(f.code, ids, k)
  {
    hide *;
    UpUsesNext(f.code, ids, k);
    UpUsesNext(g.code, ids, k);
    if k > 0 {
      UpUsesIgnoreTags(f, g, ids, k - 1);
      TaggedShape(f, g);
      DefsIgnoreTags(f, g, ids, k - 1);
      UsesIgnoreTags(f, g, ids[k - 1]);
    }
  }

  lemma UpUsesNext(code: seq<Ins>, ids: seq<InsId>, k: nat)
    requires k <= |ids|
    ensures UpUses(code, ids, k) ==
      if k == 0 then {} else UpUses(code, ids, k - 1) + (UsesOf(InsAt(code, ids[k - 1])) - DefsUpTo(code, ids, k - 1).Keys)
  {
    hide UsesOf, InsAt;
  }

  lemma DefsIgnoreTags(f: Fn, g: Fn, ids: seq<InsId>, k: nat)
    requires SameShape(f, g) && k <= |ids|
    ensures DefsUpTo(g.code, ids, k) == DefsUpTo(f.code, ids, k)
  {
    TagsIgnoreDefs(f.code, g.code, ids, k, map[]);
  }

  lemma UsesIgnoreTags(f: Fn, g: Fn, i: InsId)
    requires OnlyTagsDiffer(f, g)
    ensures UsesOf(InsAt(g.code, i)) == UsesOf(InsAt(f.code, i))
  {
    OnlyTagsIns(f, g, i);
    hide InsAt, OnlyTagsDiffer;
  }

  lemma AllUsesIgnoreTags(f: Fn, g: Fn)
    requires OnlyTagsDiffer(f, g)
    ensures AllUses(g) == AllUses(f)
  {
    forall b ensures ExposedUses(g, b) == ExposedUses(f, b) {
      assert BblAt(g, b) == BblAt(f, b);
      UpUsesIgnoreTags(f, g, BblAt(f, b).inss, |BblAt(f, b).inss|);
    }
    hide ExposedUses;
  }

  lemma TaggedIsFresh(f: Fn, g: Fn, defsIn: map<BblId, DefMap>)
    requires (forall b :: b in f.blocks ==> b in defsIn) && TaggedBlocks(f, g, defsIn, f.blocks)
    requires SameShape(f, g)
    ensures Fresh(g, defsIn)
  {
    forall b, k: nat | b in g.blocks && k < |BblAt(g, b).inss|
      ensures FreshIns(g, defsIn, b, k, InsAt(g.code, BblAt(g, b).inss[k]))
    {
      assert BblTagged(f, g, b, defsIn[b], |BblAt(f, b).inss|);
      SameTagsHere(f, g, defsIn, b, k);
      hide TaggedBlocks, SameShape, InsAt, TagsAt;
    }
  }

  lemma AnalysedOn(f: Fn, g: Fn, defsIn: map<BblId, DefMap>, m: Machine, s0: State)
    requires WfLayout(f) && WfCode(f) && (forall b :: b in f.blocks ==> WfEdges(f, b))
    requires (forall b :: b in f.blocks ==> b in defsIn)
    requires Solution(f, AllUses(f), defsIn) && TaggedBlocks(f, g, defsIn, f.blocks)
    requires OnlyTagsDiffer(f, g) && SameShape(f, g)
    ensures RewrittenOn(f, g, AllUses(f), defsIn, m, s0)
  {
    var c := Ctx(m, g, s0, AllUses(f), defsIn);
    forall n: nat ensures StepN(m, f, s0, n) == StepN(m, g, s0, n) { StepsIgnoreTags(f, g, m, s0, n); }
    forall b | b in g.blocks ensures WfEdges(g, b) { TaggedEdges(f, g, b); }
    SolutionIgnoresUses(f, g, AllUses(f), defsIn);
    AllUsesIgnoreTags(f, g);
    TaggedIsFresh(f, g, defsIn);
    assert WfLayout(g) && UniqueIds(g) by {
      forall b ensures BblAt(g, b) == BblAt(f, b) {}
      hide Solution, TaggedBlocks, WfEdges;
    }
    hide Solution, TaggedBlocks, WfEdges, OnlyTagsDiffer, SameShape, WfLayout, WfCode, UniqueIds, Fresh, StepN, AllUses, Honest;
    FreshIsHonest(c);
  }
}
