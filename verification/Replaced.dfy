/** What a rewrite pass leaves behind, said over operands and tags alone: which operands are replaced,
    by what, and that nothing else is. */
module Replaced {
  import opened IR
  import opened ReachingDefs
  import opened Rewrites

  // ---------------------------------------------------------------- one instruction

  /** Operand l was set by an instruction `mov _ op`, which has the tag t on its source. */
  predicate SetByMov(code: seq<Ins>, ins: Ins, l: nat, op: Operand, t: Option<Tag>) {
    l < |ins.operands| && l < |ins.defs| && ins.defs[l].Some? && ins.defs[l].value.DefIns? &&
    var d := ins.defs[l].value.ins;
    d < |code| && code[d].opcode == Mov && |code[d].operands| == 2 && |code[d].defs| == 2 && code[d].operands[1] == op && code[d].defs[1] == t
  }

  predicate SameOperand(ins: Ins, ins': Ins, l: nat) {
    && l < |ins.operands| && l < |ins'.operands| && l < |ins.defs| && l < |ins'.defs|
    && ins'.operands[l] == ins.operands[l] && ins'.defs[l] == ins.defs[l]
  }

  predicate OperandIs(ins: Ins, l: nat, op: Operand, t: Option<Tag>) {
    l < |ins.operands| && l < |ins.defs| && ins.operands[l] == op && ins.defs[l] == t
  }

  /** Operand l was copied from register r, which is not bound to the machine and has the tag t now as then. */
  predicate CopyOf(code: seq<Ins>, cpuRegs: set<RegId>, tags: DefMap, ins: Ins, l: nat, r: RegId, t: Tag) {
    SetByMov(code, ins, l, RegOp(r), Some(t)) && r !in cpuRegs && r in tags && tags[r] == t
  }

  predicate SameSize(ins: Ins, ins': Ins) { |ins'.operands| == |ins.operands| && |ins'.defs| == |ins.defs| }

  ghost predicate CopyReplacedAt(code: seq<Ins>, cpuRegs: set<RegId>, tags: DefMap, ins: Ins, ins': Ins, l: nat) {
    && (forall r, t :: CopyOf(code, cpuRegs, tags, ins, l, r, t) ==> OperandIs(ins', l, RegOp(r), Some(t)))
    && ((forall r, t :: !CopyOf(code, cpuRegs, tags, ins, l, r, t)) ==> SameOperand(ins, ins', l))
  }

  /** An operand that is a copy becomes the register it is a copy of, with its tag; any other stays. */
  ghost predicate CopiesReplaced(code: seq<Ins>, cpuRegs: set<RegId>, tags: DefMap, ins: Ins, ins': Ins) {
    && ins'.opcode == ins.opcode && SameSize(ins, ins')
    && forall l :: 0 <= l < |ins.operands| ==> CopyReplacedAt(code, cpuRegs, tags, ins, ins', l)
  }

  ghost predicate ConstReplacedAt(code: seq<Ins>, ins: Ins, ins': Ins, l: nat) {
    && (forall v, t :: SetByMov(code, ins, l, ConstOp(v), t) ==> OperandIs(ins', l, ConstOp(v), None))
    && ((forall v, t :: !SetByMov(code, ins, l, ConstOp(v), t)) ==> SameOperand(ins, ins', l))
  }

  /** An operand that a mov set to a constant becomes that constant, without a tag; any other stays. */
  ghost predicate ConstsReplaced(code: seq<Ins>, ins: Ins, ins': Ins) {
    && ins'.opcode == ins.opcode && SameSize(ins, ins')
    && forall l :: 0 <= l < |ins.operands| ==> ConstReplacedAt(code, ins, ins', l)
  }

  // -- folding

  predicate Plain(op: Operand) { op.RegOp? || op.ConstOp? }

  datatype Access = Loads | Stores | Computes

  /** What an opcode with base and offset does at the address, whatever its base is. */
  function AccessOf(opc: Opcode): Option<Access> {
    match opc
    case Ld | LdMem | LdStk => Some(Loads)
    case St | StMem | StStk => Some(Stores)
    case Lea | LeaMem | LeaStk => Some(Computes)
    case _ => None
  }

  function BaseAt(opc: Opcode): nat { if AccessOf(opc) == Some(Stores) then 0 else 1 }

  /** Operands are of the kinds the opcode asks for: a global, a stack slot, or neither as base. */
  predicate FormFits(ins: Ins) {
    var p := BaseAt(ins.opcode);
    && (AccessOf(ins.opcode).Some? ==> |ins.operands| == 3 && Plain(ins.operands[p + 1]))
    && (ins.opcode.LdMem? || ins.opcode.StMem? || ins.opcode.LeaMem? ==> ins.operands[p].MemOp?)
    && (ins.opcode.LdStk? || ins.opcode.StStk? || ins.opcode.LeaStk? ==> ins.operands[p].StkOp?)
    && (ins.opcode.Ld? || ins.opcode.St? || ins.opcode.Lea? ==> Plain(ins.operands[p]))
    && (ins.opcode.Mov? ==> |ins.operands| == 2 && Plain(ins.operands[1]))
  }

  ghost predicate AllForms(code: seq<Ins>) { forall i :: 0 <= i < |code| ==> FormFits(code[i]) }

  /** An operand with its tag. */
  datatype Place = Place(op: Operand, tag: Option<Tag>)

  /** Usable here: not a register, or a register that still has its tag. */
  predicate Usable(p: Place, tags: DefMap) {
    p.op.RegOp? ==> p.tag.Some? && p.op.reg in tags && tags[p.op.reg] == p.tag.value
  }

  /** q is the sum of two offsets, as far as one operand can be. */
  predicate IsSum(a: Place, b: Place, q: Place) {
    || (a.op.ConstOp? && b.op.ConstOp? && q.op.ConstOp? && q.op.value == a.op.value + b.op.value && q.tag == None)
    || (a.op.RegOp? && b.op == ConstOp(0) && q == a)
    || (b.op.RegOp? && a.op == ConstOp(0) && q == b)
  }

  /** The base of ins was set by `from`: a mov, or the sum of a base and an offset. */
  predicate BaseSetBy(code: seq<Ins>, ins: Ins, from: Ins, base: Place, off: Place) {
    var p := BaseAt(ins.opcode);
    p < |ins.defs| && ins.defs[p].Some? && ins.defs[p].value.DefIns? && ins.defs[p].value.ins < |code| && code[ins.defs[p].value.ins] == from &&
    ((from.opcode.Mov? && |from.operands| == 2 == |from.defs| && base == Place(from.operands[1], from.defs[1]) && off == Place(ConstOp(0), None)) ||
     (AccessOf(from.opcode) == Some(Computes) && |from.operands| == 3 == |from.defs| &&
      base == Place(from.operands[1], from.defs[1]) && off == Place(from.operands[2], from.defs[2])))
  }

  /** ins may take over the base of its base, with offset q. */
  predicate CanFold(code: seq<Ins>, tags: DefMap, ins: Ins, from: Ins, base: Place, off: Place, q: Place) {
    && (ins.opcode.Ld? || ins.opcode.St? || ins.opcode.Lea?)
    && |ins.operands| == 3 == |ins.defs|
    && BaseSetBy(code, ins, from, base, off) && Usable(base, tags)
    && IsSum(Place(ins.operands[BaseAt(ins.opcode) + 1], ins.defs[BaseAt(ins.opcode) + 1]), off, q) && Usable(q, tags)
  }

  /** ins' accesses in the same way from the new base and offset, in the form that base asks for. */
  predicate TakesOver(ins: Ins, ins': Ins, base: Place, q: Place) {
    var p := BaseAt(ins.opcode);
    && AccessOf(ins'.opcode) == AccessOf(ins.opcode) && FormFits(ins') && |ins'.operands| == 3 == |ins'.defs|
    && OperandIs(ins', p, base.op, base.tag) && OperandIs(ins', p + 1, q.op, q.tag) && SameOperand(ins, ins', if p == 0 then 2 else 0)
  }

  ghost predicate Folded(code: seq<Ins>, tags: DefMap, ins: Ins, ins': Ins) {
    && (forall from, base, off, q :: CanFold(code, tags, ins, from, base, off, q) ==> TakesOver(ins, ins', base, q))
    && ((forall from, base, off, q :: !CanFold(code, tags, ins, from, base, off, q)) ==> ins' == ins)
  }

  /** What a pass makes of one instruction. */
  ghost predicate InsDone(pass: Pass, code: seq<Ins>, tags: DefMap, ins: Ins, ins': Ins) {
    match pass
    case PropagateRegs(cpuRegs) => CopiesReplaced(code, cpuRegs, tags, ins, ins')
    case PropagateConsts => ConstsReplaced(code, ins, ins')
    case LoadStoreSimplify => Folded(code, tags, ins, ins')
  }

  // ---------------------------------------------------------------- the rewrite of one instruction does that

  /** Instruction i in the middle of its rewrite: operands from l on and all other code as they were. */
  ghost predicate From(code: seq<Ins>, now: seq<Ins>, i: InsId, l: nat) {
    && i < |code| && |now| == |code| && (forall j :: 0 <= j < |code| && j != i ==> now[j] == code[j])
    && now[i].opcode == code[i].opcode && SameSize(code[i], now[i])
    && forall k :: l <= k < |code[i].operands| ==> SameOperand(code[i], now[i], k)
  }

  lemma FromStart(code: seq<Ins>, i: InsId)
    requires i < |code| && |code[i].defs| == |code[i].operands|
    ensures From(code, code, i, 0)
  {
  }

  /** A mov that sets one of its own operands is looked at before it changes. */
  lemma SetByMovFrom(code: seq<Ins>, now: seq<Ins>, i: InsId, l: nat, op: Operand, t: Option<Tag>)
    requires From(code, now, i, l) && l < |code[i].operands|
    ensures SetByMov(now, now[i], l, op, t) <==> SetByMov(code, code[i], l, op, t)
  {
    assert SameOperand(code[i], now[i], l);
    if |code[i].operands| == 2 { assert SameOperand(code[i], now[i], 1); }
  }

  predicate SameBefore(ins: Ins, ins': Ins, l: nat) { forall k :: 0 <= k < l ==> SameOperand(ins, ins', k) }

  ghost predicate CopiesBefore(code: seq<Ins>, cpuRegs: set<RegId>, tags: DefMap, ins: Ins, ins': Ins, l: nat) {
    forall k :: 0 <= k < l ==> CopyReplacedAt(code, cpuRegs, tags, ins, ins', k)
  }

  ghost predicate ConstsBefore(code: seq<Ins>, ins: Ins, ins': Ins, l: nat) {
    forall k :: 0 <= k < l ==> ConstReplacedAt(code, ins, ins', k)
  }

  /** One operand at most changes. */
  predicate OnlyAt(ins: Ins, ins': Ins, l: nat) {
    && ins'.opcode == ins.opcode && SameSize(ins, ins')
    && forall k :: 0 <= k < |ins.operands| && k != l ==> SameOperand(ins, ins', k)
  }

  lemma CopyAt(code: seq<Ins>, cpuRegs: set<RegId>, tags: DefMap, ins: Ins, l: nat)
    requires l < |ins.operands| == |ins.defs|
    ensures var ins' := PropagateRegAt(code, cpuRegs, tags, ins, l);
      CopyReplacedAt(code, cpuRegs, tags, ins, ins', l) && OnlyAt(ins, ins', l)
  {
    if MovOf(code, ins, l).Some? {
      var mov := MovOf(code, ins, l).value;
      if mov.operands[1].RegOp? && mov.defs[1].Some? {
        var r, t := mov.operands[1].reg, mov.defs[1].value;
        assert CopyOf(code, cpuRegs, tags, ins, l, r, t) || PropagateRegAt(code, cpuRegs, tags, ins, l) == ins;
      }
    }
  }

  lemma ConstAt(code: seq<Ins>, ins: Ins, l: nat)
    requires l < |ins.operands| == |ins.defs|
    ensures var ins' := PropagateConstAt(code, ins, l);
      ConstReplacedAt(code, ins, ins', l) && OnlyAt(ins, ins', l)
  {
    if MovOf(code, ins, l).Some? {
      var mov := MovOf(code, ins, l).value;
      assert SetByMov(code, ins, l, mov.operands[1], mov.defs[1]);
    }
  }

  lemma FromNext(code: seq<Ins>, now: seq<Ins>, i: InsId, l: nat, ins': Ins)
    requires From(code, now, i, l) && l < |code[i].operands| && OnlyAt(now[i], ins', l)
    ensures From(code, now[i := ins'], i, l + 1) && SameBefore(now[i], ins', l)
  {
    forall k | l + 1 <= k < |code[i].operands| ensures SameOperand(code[i], ins', k) {
      assert SameOperand(code[i], now[i], k) && SameOperand(now[i], ins', k);
    }
    hide SameOperand;
  }

  lemma FromWidth(code: seq<Ins>, now: seq<Ins>, i: InsId, l: nat)
    requires From(code, now, i, l) && |code[i].operands| == |code[i].defs|
    ensures i < |code| == |now| && |now[i].operands| == |now[i].defs| == |code[i].operands|
  {
  }

  lemma CopyStep(code: seq<Ins>, now: seq<Ins>, cpuRegs: set<RegId>, tags: DefMap, i: InsId, l: nat)
    requires From(code, now, i, l) && l < |code[i].operands| == |code[i].defs|
    ensures var ins' := PropagateRegAt(now, cpuRegs, tags, now[i], l);
      && CopyReplacedAt(code, cpuRegs, tags, code[i], ins', l) && From(code, now[i := ins'], i, l + 1)
      && SameBefore(now[i], ins', l)
  {
    var ins' := PropagateRegAt(now, cpuRegs, tags, now[i], l);
    assert SameOperand(code[i], now[i], l);
    FromWidth(code, now, i, l);
    CopyAt(now, cpuRegs, tags, now[i], l);
    hide PropagateRegAt;
    FromNext(code, now, i, l, ins');
    hide From, OnlyAt;
    forall r, t ensures CopyOf(now, cpuRegs, tags, now[i], l, r, t) <==> CopyOf(code, cpuRegs, tags, code[i], l, r, t) {
      SetByMovFrom(code, now, i, l, RegOp(r), Some(t));
      hide SetByMov;
    }
    hide CopyOf;
  }

  lemma ConstStep(code: seq<Ins>, now: seq<Ins>, i: InsId, l: nat)
    requires From(code, now, i, l) && l < |code[i].operands| == |code[i].defs|
    ensures var ins' := PropagateConstAt(now, now[i], l);
      && ConstReplacedAt(code, code[i], ins', l) && From(code, now[i := ins'], i, l + 1)
      && SameBefore(now[i], ins', l)
  {
    var ins' := PropagateConstAt(now, now[i], l);
    assert SameOperand(code[i], now[i], l);
    FromWidth(code, now, i, l);
    ConstAt(now, now[i], l);
    hide PropagateConstAt;
    FromNext(code, now, i, l, ins');
    hide From, OnlyAt;
    forall v, t ensures SetByMov(now, now[i], l, ConstOp(v), t) <==> SetByMov(code, code[i], l, ConstOp(v), t) {
      SetByMovFrom(code, now, i, l, ConstOp(v), t);
    }
    hide SetByMov;
  }

  lemma {:induction false} CopiesUpTo(code: seq<Ins>, cpuRegs: set<RegId>, tags: DefMap, i: InsId, l: nat)
    requires i < |code| && |code[i].defs| == |code[i].operands| && l <= |code[i].operands|
    ensures var now := RewriteIns(PropagateRegs(cpuRegs), code, tags, i, l);
      From(code, now, i, l) && CopiesBefore(code, cpuRegs, tags, code[i], now[i], l)
  {
    hide CopyReplacedAt, From, PropagateRegAt, SameOperand;
    if l == 0 {
      FromStart(code, i);
    } else {
      CopiesUpTo(code, cpuRegs, tags, i, l - 1);
      var before := RewriteIns(PropagateRegs(cpuRegs), code, tags, i, l - 1);
      FromSize(code, before, i, l - 1);
      var ins' := PropagateRegAt(before, cpuRegs, tags, before[i], l - 1);
      CopyStep(code, before, cpuRegs, tags, i, l - 1);
      forall k | 0 <= k < l - 1 ensures CopyReplacedAt(code, cpuRegs, tags, code[i], ins', k) {
        CopyReplacedStays(code, cpuRegs, tags, code[i], before[i], ins', k);
      }
    }
  }

  lemma FromSize(code: seq<Ins>, now: seq<Ins>, i: InsId, l: nat)
    requires From(code, now, i, l)
    ensures i < |code| == |now|
  {
  }

  lemma CopyReplacedStays(code: seq<Ins>, cpuRegs: set<RegId>, tags: DefMap, ins: Ins, ins1: Ins, ins2: Ins, k: nat)
    requires CopyReplacedAt(code, cpuRegs, tags, ins, ins1, k) && SameOperand(ins1, ins2, k)
    ensures CopyReplacedAt(code, cpuRegs, tags, ins, ins2, k)
  {
    hide CopyOf;
  }

  lemma {:induction false} ConstsUpTo(code: seq<Ins>, tags: DefMap, i: InsId, l: nat)
    requires i < |code| && |code[i].defs| == |code[i].operands| && l <= |code[i].operands|
    ensures var now := RewriteIns(PropagateConsts, code, tags, i, l);
      From(code, now, i, l) && ConstsBefore(code, code[i], now[i], l)
  {
    hide ConstReplacedAt, From, PropagateConstAt, SameOperand;
    if l == 0 {
      FromStart(code, i);
    } else {
      ConstsUpTo(code, tags, i, l - 1);
      var before := RewriteIns(PropagateConsts, code, tags, i, l - 1);
      FromSize(code, before, i, l - 1);
      var ins' := PropagateConstAt(before, before[i], l - 1);
      ConstStep(code, before, i, l - 1);
      forall k | 0 <= k < l - 1 ensures ConstReplacedAt(code, code[i], ins', k) {
        ConstReplacedStays(code, code[i], before[i], ins', k);
      }
    }
  }

  lemma ConstReplacedStays(code: seq<Ins>, ins: Ins, ins1: Ins, ins2: Ins, k: nat)
    requires ConstReplacedAt(code, ins, ins1, k) && SameOperand(ins1, ins2, k)
    ensures ConstReplacedAt(code, ins, ins2, k)
  {
    hide SetByMov;
  }

  // -- folding

  lemma SumIs(tags: DefMap, ins: Ins, from: Ins, q: Place)
    requires |ins.operands| == 3 == |ins.defs| && WfTags(ins) && FormFits(ins) && (ins.opcode.Ld? || ins.opcode.St? || ins.opcode.Lea?)
    requires WfIns(from) && WfTags(from) && FormFits(from) && (from.opcode.Mov? || AccessOf(from.opcode) == Some(Computes))
    ensures var p := BaseAt(ins.opcode) + 1;
      var off := if from.opcode.Mov? then Place(ConstOp(0), None) else Place(from.operands[2], from.defs[2]);
      IsSum(Place(ins.operands[p], ins.defs[p]), off, q) <==>
        CombinedOffset(ins, from).Some? && CombinedOffset(ins, from).value == Offset(q.op, q.tag)
  {
  }

  lemma FoldableIs(base: Opcode, opc: Opcode)
    ensures FoldedOpcode(base, opc).Some? <==> (opc.Ld? || opc.St? || opc.Lea?) && (base.Mov? || AccessOf(base) == Some(Computes))
  {
  }

  lemma UsableIs(op: Operand, tag: Option<Tag>, tags: DefMap)
    requires Plain(op) || op.MemOp? || op.StkOp?
    ensures DefAvailable(op, tag, tags) <==> Usable(Place(op, tag), tags)
  {
  }

  ghost predicate FoldSetting(code: seq<Ins>, ins: Ins) {
    AllWfIns(code) && AllForms(code) && WfIns(ins) && WfTags(ins) && FormFits(ins)
  }

  lemma BaseIsWf(code: seq<Ins>, d: InsId)
    requires AllWfIns(code) && AllForms(code) && d < |code|
    ensures WfIns(code[d]) && WfTags(code[d]) && FormFits(code[d])
  {
    hide WfIns, WfTags, FormFits;
  }

  lemma FoldIsDone(code: seq<Ins>, tags: DefMap, ins: Ins)
    requires FoldSetting(code, ins)
    ensures Folded(code, tags, ins, SimplifyLoadStore(code, tags, ins)) && FormFits(SimplifyLoadStore(code, tags, ins))
  {
    forall from, base, off, q | CanFold(code, tags, ins, from, base, off, q)
      ensures TakesOver(ins, SimplifyLoadStore(code, tags, ins), base, q)
    {
      CanFoldFolds(code, tags, ins, from, base, off, q);
      FoldTakesOver(code, tags, ins);
    }
    FoldsOrNot(code, tags, ins);
    if Folds(code, tags, ins) {
      FoldTakesOver(code, tags, ins);
      var from, base, off, q := FoldsCan(code, tags, ins);
    }
    hide CanFold, TakesOver, SimplifyLoadStore, Folds, FoldSetting;
  }

  /** A fold happens if base and combined offset are there to be used... */
  lemma CanFoldFolds(code: seq<Ins>, tags: DefMap, ins: Ins, from: Ins, base: Place, off: Place, q: Place)
    requires FoldSetting(code, ins) && CanFold(code, tags, ins, from, base, off, q)
    ensures Folds(code, tags, ins) && from == BaseOf(code, ins) && |from.operands| > 1 && |from.defs| > 1
    ensures base == Place(from.operands[1], from.defs[1]) && WfIns(from) && FoldedOpcode(from.opcode, ins.opcode).Some?
    ensures CombinedOffset(ins, from) == Some(Offset(q.op, q.tag))
  {
    BaseIsWf(code, ins.defs[BaseAt(ins.opcode)].value.ins);
    FoldableIs(from.opcode, ins.opcode);
    SumIs(tags, ins, from, q);
    UsableIs(base.op, base.tag, tags);
    UsableIs(q.op, q.tag, tags);
    hide FoldedOpcode, CombinedOffset, IsSum, Usable, DefAvailable, WfTags;
  }

  /** ... and only then. */
  lemma FoldsCan(code: seq<Ins>, tags: DefMap, ins: Ins) returns (from: Ins, base: Place, off: Place, q: Place)
    requires FoldSetting(code, ins) && Folds(code, tags, ins)
    ensures CanFold(code, tags, ins, from, base, off, q)
  {
    from := BaseOf(code, ins);
    FoldableIs(from.opcode, ins.opcode);
    BaseIsWf(code, ins.defs[BaseAt(ins.opcode)].value.ins);
    base := Place(from.operands[1], from.defs[1]);
    off := if from.opcode.Mov? then Place(ConstOp(0), None) else Place(from.operands[2], from.defs[2]);
    var sum := CombinedOffset(ins, from).value;
    q := Place(sum.op, sum.tag);
    SumIs(tags, ins, from, q);
    UsableIs(base.op, base.tag, tags);
    assert Plain(q.op);
    UsableIs(q.op, q.tag, tags);
    hide FoldedOpcode, CombinedOffset, IsSum, Usable, DefAvailable, WfTags;
  }

  lemma FoldTakesOver(code: seq<Ins>, tags: DefMap, ins: Ins)
    requires FoldSetting(code, ins) && Folds(code, tags, ins)
    ensures var from := BaseOf(code, ins);
      && WfIns(from) && FoldedOpcode(from.opcode, ins.opcode).Some? && CombinedOffset(ins, from).Some?
      && TakesOver(ins, SimplifyLoadStore(code, tags, ins), Place(from.operands[1], from.defs[1]),
                   Place(CombinedOffset(ins, from).value.op, CombinedOffset(ins, from).value.tag))
      && FormFits(SimplifyLoadStore(code, tags, ins))
  {
    var from, ins' := BaseOf(code, ins), SimplifyLoadStore(code, tags, ins);
    FoldableIs(from.opcode, ins.opcode);
    BaseIsWf(code, ins.defs[BaseAt(ins.opcode)].value.ins);
    FoldedShape(code, tags, ins);
    hide SimplifyLoadStore, Folds;
    FoldedForm(from.opcode, ins.opcode);
    assert Plain(CombinedOffset(ins, from).value.op);
    hide CombinedOffset, WfTags;
  }

  /** The folded opcode does the same, in the form of the base that is folded in. */
  lemma FoldedForm(base: Opcode, opc: Opcode)
    requires FoldedOpcode(base, opc).Some?
    ensures var opc' := FoldedOpcode(base, opc).value;
      && AccessOf(opc') == AccessOf(opc)
      && (base.LeaMem? <==> opc'.LdMem? || opc'.StMem? || opc'.LeaMem?)
      && (base.LeaStk? <==> opc'.LdStk? || opc'.StStk? || opc'.LeaStk?)
  {
  }

  // -- all passes

  /** Folding is done in one go, with the first operand. */
  lemma {:induction false} FoldIsOneStep(code: seq<Ins>, tags: DefMap, i: InsId, l: nat)
    requires i < |code| && 0 < l
    ensures RewriteIns(LoadStoreSimplify, code, tags, i, l) == code[i := SimplifyLoadStore(code, tags, code[i])]
  {
    hide SimplifyLoadStore;
    assert RewriteIns(LoadStoreSimplify, code, tags, i, 0) == code;
    if l > 1 {
      FoldIsOneStep(code, tags, i, l - 1);
      var c := RewriteIns(LoadStoreSimplify, code, tags, i, l - 1);
      assert c[i := c[i]] == c;
    }
  }

  /** What a pass counts on when it comes to an instruction. */
  ghost predicate Ready(pass: Pass, code: seq<Ins>) { AllWfIns(code) && (pass.LoadStoreSimplify? ==> AllForms(code)) }

  lemma InsIsDone(pass: Pass, code: seq<Ins>, tags: DefMap, i: InsId)
    requires i < |code| && Ready(pass, code)
    ensures var now := RewriteIns(pass, code, tags, i, |code[i].operands|);
      |now| == |code| && now == code[i := now[i]] && InsDone(pass, code, tags, code[i], now[i])
  {
    assert WfIns(code[i]) && WfTags(code[i]);
    match pass {
      case PropagateRegs(cpuRegs) => CopiesAreDone(code, cpuRegs, tags, i);
      case PropagateConsts => ConstsAreDone(code, tags, i);
      case LoadStoreSimplify => FoldsAreDone(code, tags, i);
    }
    hide RewriteIns, CopiesReplaced, ConstsReplaced, Folded, AllForms;
  }

  lemma FoldIsDoneAt(code: seq<Ins>, tags: DefMap, i: InsId)
    requires i < |code| && AllWfIns(code) && AllForms(code)
    ensures var now := RewriteIns(LoadStoreSimplify, code, tags, i, |code[i].operands|);
      |now| == |code| && now == code[i := now[i]] && Folded(code, tags, code[i], now[i]) && FormFits(now[i])
  {
    BaseIsWf(code, i);
    FoldIsDone(code, tags, code[i]);
    hide Folded, FormFits, SimplifyLoadStore, WfIns, WfTags;
    if |code[i].operands| > 0 {
      FoldIsOneStep(code, tags, i, |code[i].operands|);
    } else {
      NothingToFold(code, tags, code[i]);
      assert code[i := code[i]] == code;
    }
  }

  lemma NothingToFold(code: seq<Ins>, tags: DefMap, ins: Ins)
    requires |ins.operands| != 3
    ensures SimplifyLoadStore(code, tags, ins) == ins
  {
    hide FoldedOpcode, DefAvailable, CombinedOffset, WfIns;
  }

  lemma CopiesAreDone(code: seq<Ins>, cpuRegs: set<RegId>, tags: DefMap, i: InsId)
    requires i < |code| && |code[i].defs| == |code[i].operands|
    ensures var now := RewriteIns(PropagateRegs(cpuRegs), code, tags, i, |code[i].operands|);
      |now| == |code| && now == code[i := now[i]] && CopiesReplaced(code, cpuRegs, tags, code[i], now[i])
  {
    CopiesUpTo(code, cpuRegs, tags, i, |code[i].operands|);
    hide CopyReplacedAt, RewriteIns, SameOperand;
  }

  lemma ConstsAreDone(code: seq<Ins>, tags: DefMap, i: InsId)
    requires i < |code| && |code[i].defs| == |code[i].operands|
    ensures var now := RewriteIns(PropagateConsts, code, tags, i, |code[i].operands|);
      |now| == |code| && now == code[i := now[i]] && ConstsReplaced(code, code[i], now[i])
  {
    ConstsUpTo(code, tags, i, |code[i].operands|);
    hide ConstReplacedAt, RewriteIns, SameOperand;
  }

  lemma FoldsAreDone(code: seq<Ins>, tags: DefMap, i: InsId)
    requires i < |code| && AllWfIns(code) && AllForms(code)
    ensures var now := RewriteIns(LoadStoreSimplify, code, tags, i, |code[i].operands|);
      && |now| == |code| && now == code[i := now[i]] && Folded(code, tags, code[i], now[i]) && AllForms(now)
  {
    FoldIsDoneAt(code, tags, i);
    hide RewriteIns, Folded, FormFits;
  }

  /** No pass leaves an opcode with operands that are not for it. */
  lemma FormsStay(pass: Pass, code: seq<Ins>, tags: DefMap, i: InsId)
    requires i < |code| && AllWfIns(code) && AllForms(code)
    ensures var now := RewriteIns(pass, code, tags, i, |code[i].operands|); |now| == |code| && AllForms(now)
  {
    var now := RewriteIns(pass, code, tags, i, |code[i].operands|);
    InsIsDone(pass, code, tags, i);
    BaseIsWf(code, i);
    if pass.LoadStoreSimplify? {
      FoldIsDoneAt(code, tags, i);
    } else {
      forall l | 0 <= l < |code[i].operands|
        ensures now[i].operands[l] == code[i].operands[l] || (Plain(code[i].operands[l]) && Plain(now[i].operands[l]))
      {
        ReplacedIsPlain(pass, code, tags, code[i], now[i], l);
      }
    }
    hide RewriteIns, InsDone, WfTags, WfIns;
  }

  lemma ReplacedIsPlain(pass: Pass, code: seq<Ins>, tags: DefMap, ins: Ins, ins': Ins, l: nat)
    requires !pass.LoadStoreSimplify? && InsDone(pass, code, tags, ins, ins') && WfTags(ins) && l < |ins.operands|
    ensures ins'.opcode == ins.opcode && |ins'.operands| == |ins.operands|
    ensures ins'.operands[l] == ins.operands[l] || (Plain(ins.operands[l]) && Plain(ins'.operands[l]))
  {
    match pass {
      case PropagateRegs(cpuRegs) => assert CopyReplacedAt(code, cpuRegs, tags, ins, ins', l);
      case PropagateConsts => assert ConstReplacedAt(code, ins, ins', l);
    }
  }

  // ---------------------------------------------------------------- a whole pass

  /** Instruction j stands in the layout before position k of block n. */
  ghost predicate StandsBefore(f: Fn, n: nat, k: nat, j: InsId) {
    || (exists m :: 0 <= m < n && m < |f.order| && j in BblAt(f, f.order[m]).inss)
    || (n < |f.order| && k <= |BblAt(f, f.order[n]).inss| && j in BblAt(f, f.order[n]).inss[..k])
  }

  /** The code when a pass that leads from `code` to `code'` has come to position k of block n. */
  ghost function Partway(f: Fn, code: seq<Ins>, code': seq<Ins>, n: nat, k: nat): (now: seq<Ins>)
    requires |code'| == |code|
    ensures |now| == |code| && forall j :: 0 <= j < |now| ==> now[j] == if StandsBefore(f, n, k, j) then code'[j] else code[j]
  {
    seq(|code|, j requires 0 <= j < |code| => if StandsBefore(f, n, k, j) then code'[j] else code[j])
  }

  ghost predicate DoneAt(pass: Pass, f: Fn, defsIn: map<BblId, DefMap>, code: seq<Ins>, code': seq<Ins>, n: nat, k: nat)
    requires |code'| == |code| && n < |f.order| && k < |BblAt(f, f.order[n]).inss|
  {
    var ids, now := BblAt(f, f.order[n]).inss, Partway(f, code, code', n, k);
    ids[k] < |code| && f.order[n] in defsIn && InsDone(pass, now, TagsAt(now, ids, k, defsIn[f.order[n]]), code[ids[k]], code'[ids[k]])
  }

  /** Instructions are taken one by one in layout order, each with the tags that hold where it stands
      and the code as it is by then; nothing else changes. */
  ghost predicate PassDone(pass: Pass, f: Fn, defsIn: map<BblId, DefMap>, code: seq<Ins>, code': seq<Ins>) {
    && |code'| == |code|
    && (forall j :: 0 <= j < |code| && !StandsBefore(f, |f.order|, 0, j) ==> code'[j] == code[j])
    && forall n, k :: 0 <= n < |f.order| && 0 <= k < |BblAt(f, f.order[n]).inss| ==> DoneAt(pass, f, defsIn, code, code', n, k)
  }

  /** The code after k instructions of block n. */
  function Stage(pass: Pass, f: Fn, defsIn: map<BblId, DefMap>, n: nat, k: nat): seq<Ins>
    requires n < |f.order| && k <= |BblAt(f, f.order[n]).inss|
  {
    var b := f.order[n];
    RewriteBbl(pass, RewriteFun(pass, f, defsIn, n), BblAt(f, b).inss, k, if b in defsIn then defsIn[b] else map[])
  }

  predicate IsStage(f: Fn, n: nat, k: nat) { n < |f.order| && k <= |BblAt(f, f.order[n]).inss| }

  /** Every instruction stands in one place, and each stage of the pass finds the code as it needs it. */
  ghost predicate PassSetting(pass: Pass, f: Fn, defsIn: map<BblId, DefMap>) {
    && UniqueIds(f) && WfOrder(f)
    && (forall b :: b in f.order ==> b in defsIn)
    && (forall b, i :: b in f.blocks && i in BblAt(f, b).inss ==> i < |f.code|)
    && forall n, k :: IsStage(f, n, k) ==> Ready(pass, Stage(pass, f, defsIn, n, k)) && |Stage(pass, f, defsIn, n, k)| == |f.code|
  }

  lemma IdsAre(f: Fn, n: nat, k: nat)
    requires WfOrder(f) && (forall b, i :: b in f.blocks && i in BblAt(f, b).inss ==> i < |f.code|)
    requires n < |f.order| && k < |BblAt(f, f.order[n]).inss|
    ensures BblAt(f, f.order[n]).inss[k] < |f.code|
  {
    assert f.order[n] in f.order && BblAt(f, f.order[n]).inss[k] in BblAt(f, f.order[n]).inss;
  }

  /** From one instruction to the next. */
  lemma StageStep(pass: Pass, f: Fn, defsIn: map<BblId, DefMap>, n: nat, k: nat)
    requires PassSetting(pass, f, defsIn) && IsStage(f, n, k) && k < |BblAt(f, f.order[n]).inss|
    ensures var ids, now, next := BblAt(f, f.order[n]).inss, Stage(pass, f, defsIn, n, k), Stage(pass, f, defsIn, n, k + 1);
      && f.order[n] in defsIn && ids[k] < |f.code| == |now| == |next| && next == now[ids[k] := next[ids[k]]]
      && InsDone(pass, now, TagsAt(now, ids, k, defsIn[f.order[n]]), now[ids[k]], next[ids[k]])
  {
    var ids, now := BblAt(f, f.order[n]).inss, Stage(pass, f, defsIn, n, k);
    IdsAre(f, n, k);
    assert f.order[n] in f.order && IsStage(f, n, k + 1);
    var tags := TagsAt(now, ids, k, defsIn[f.order[n]]);
    assert InsAt(now, ids[k]) == now[ids[k]] && Ready(pass, now);
    assert Stage(pass, f, defsIn, n, k + 1) == RewriteIns(pass, now, tags, ids[k], |now[ids[k]].operands|);
    hide Stage, TagsAt, Ready, InsDone, RewriteIns;
    InsIsDone(pass, now, tags, ids[k]);
  }

  lemma StageEnds(pass: Pass, f: Fn, defsIn: map<BblId, DefMap>, n: nat)
    requires n < |f.order|
    ensures IsStage(f, n, 0) && Stage(pass, f, defsIn, n, 0) == RewriteFun(pass, f, defsIn, n)
    ensures IsStage(f, n, |BblAt(f, f.order[n]).inss|)
    ensures Stage(pass, f, defsIn, n, |BblAt(f, f.order[n]).inss|) == RewriteFun(pass, f, defsIn, n + 1)
  {
    hide RewriteIns;
  }

  lemma BeforeStarts(f: Fn, n: nat, j: InsId)
    requires n < |f.order|
    ensures StandsBefore(f, 0, 0, j) == false
    ensures StandsBefore(f, n, |BblAt(f, f.order[n]).inss|, j) <==> StandsBefore(f, n + 1, 0, j)
  {
    var ids := BblAt(f, f.order[n]).inss;
    assert ids[..|ids|] == ids;
    if n + 1 < |f.order| { assert BblAt(f, f.order[n + 1]).inss[..0] == []; }
    assert f.order == [] || BblAt(f, f.order[0]).inss[..0] == [];
  }

  lemma BeforeNext(f: Fn, n: nat, k: nat, j: InsId)
    requires n < |f.order| && k < |BblAt(f, f.order[n]).inss|
    ensures StandsBefore(f, n, k + 1, j) <==> StandsBefore(f, n, k, j) || j == BblAt(f, f.order[n]).inss[k]
  {
    var ids := BblAt(f, f.order[n]).inss;
    assert ids[..k + 1] == ids[..k] + [ids[k]];
  }

  lemma NotBeforeItself(f: Fn, n: nat, k: nat)
    requires UniqueIds(f) && WfOrder(f) && n < |f.order| && k < |BblAt(f, f.order[n]).inss|
    ensures !StandsBefore(f, n, k, BblAt(f, f.order[n]).inss[k])
  {
    var i := BblAt(f, f.order[n]).inss[k];
    assert f.order[n] in f.order && i in BblAt(f, f.order[n]).inss;
    forall m | 0 <= m < n ensures i !in BblAt(f, f.order[m]).inss {
      assert f.order[m] in f.order && f.order[m] != f.order[n];
    }
  }

  lemma StageStarts(pass: Pass, f: Fn, defsIn: map<BblId, DefMap>)
    requires f.order != []
    ensures Stage(pass, f, defsIn, 0, 0) == f.code
  {
    hide RewriteIns;
  }

  lemma StageSize(pass: Pass, f: Fn, defsIn: map<BblId, DefMap>, n: nat, k: nat)
    requires PassSetting(pass, f, defsIn) && IsStage(f, n, k)
    ensures |Stage(pass, f, defsIn, n, k)| == |f.code|
  {
    hide Stage, Ready, UniqueIds, WfOrder;
  }

  lemma StageBounds(f: Fn, n: nat, k: nat)
    requires IsStage(f, n, k)
    ensures n < |f.order| && k <= |BblAt(f, f.order[n]).inss|
    ensures k > 0 ==> IsStage(f, n, k - 1)
    ensures k < |BblAt(f, f.order[n]).inss| ==> IsStage(f, n, k + 1)
  {
  }

  /** What has not been reached is as it was. */
  lemma {:induction false} NotReached(pass: Pass, f: Fn, defsIn: map<BblId, DefMap>, n: nat, k: nat, j: InsId)
    requires PassSetting(pass, f, defsIn) && IsStage(f, n, k) && j < |f.code| && !StandsBefore(f, n, k, j)
    ensures |Stage(pass, f, defsIn, n, k)| == |f.code| && Stage(pass, f, defsIn, n, k)[j] == f.code[j]
    decreases n, k
  {
    hide *;
    StageBounds(f, n, k);
    if k > 0 {
      BeforeNext(f, n, k - 1, j);
      StageStep(pass, f, defsIn, n, k - 1);
      NotReached(pass, f, defsIn, n, k - 1, j);
    } else if n > 0 {
      StageEnds(pass, f, defsIn, n - 1);
      StageEnds(pass, f, defsIn, n);
      BeforeStarts(f, n - 1, j);
      NotReached(pass, f, defsIn, n - 1, |BblAt(f, f.order[n - 1]).inss|, j);
    } else {
      StageStarts(pass, f, defsIn);
    }
  }

  /** What has been dealt with stays as it is. */
  lemma {:induction false} Settled(pass: Pass, f: Fn, defsIn: map<BblId, DefMap>, n: nat, k: nat, j: InsId)
    requires PassSetting(pass, f, defsIn) && IsStage(f, n, k) && j < |f.code| && StandsBefore(f, n, k, j)
    ensures var last := RewriteFun(pass, f, defsIn, |f.order|);
      |Stage(pass, f, defsIn, n, k)| == |f.code| == |last| && last[j] == Stage(pass, f, defsIn, n, k)[j]
    decreases |f.order| - n, |BblAt(f, f.order[n]).inss| - k
  {
    hide *;
    StageBounds(f, n, k);
    SettingIds(pass, f, defsIn);
    StageSize(pass, f, defsIn, n, k);
    if k < |BblAt(f, f.order[n]).inss| {
      BeforeNext(f, n, k, j);
      NotBeforeItself(f, n, k);
      StageStep(pass, f, defsIn, n, k);
      Settled(pass, f, defsIn, n, k + 1, j);
    } else if n + 1 < |f.order| {
      StageEnds(pass, f, defsIn, n);
      StageEnds(pass, f, defsIn, n + 1);
      BeforeStarts(f, n, j);
      Settled(pass, f, defsIn, n + 1, 0, j);
    } else {
      StageEnds(pass, f, defsIn, n);
    }
  }

  lemma SettingIds(pass: Pass, f: Fn, defsIn: map<BblId, DefMap>)
    requires PassSetting(pass, f, defsIn)
    ensures UniqueIds(f) && WfOrder(f)
  {
    hide UniqueIds, WfOrder, Stage, Ready;
  }

  lemma StageIsPartway(pass: Pass, f: Fn, defsIn: map<BblId, DefMap>, n: nat, k: nat)
    requires PassSetting(pass, f, defsIn) && IsStage(f, n, k)
    ensures var last := RewriteFun(pass, f, defsIn, |f.order|);
      |last| == |f.code| && Stage(pass, f, defsIn, n, k) == Partway(f, f.code, last, n, k)
  {
    var last, now := RewriteFun(pass, f, defsIn, |f.order|), Stage(pass, f, defsIn, n, k);
    LastSize(pass, f, defsIn);
    hide RewriteFun, Stage, StandsBefore;
    assert |now| == |f.code|;
    hide PassSetting;
    forall j: InsId | j < |f.code| ensures now[j] == Partway(f, f.code, last, n, k)[j] {
      if StandsBefore(f, n, k, j) { Settled(pass, f, defsIn, n, k, j); } else { NotReached(pass, f, defsIn, n, k, j); }
    }
  }

  lemma LastSize(pass: Pass, f: Fn, defsIn: map<BblId, DefMap>)
    requires PassSetting(pass, f, defsIn)
    ensures |RewriteFun(pass, f, defsIn, |f.order|)| == |f.code| && f.order != []
  {
    var n := |f.order| - 1;
    StageEnds(pass, f, defsIn, n);
    hide Stage, RewriteFun;
  }

  /** The code after a pass, instruction by instruction. */
  lemma PassIsDone(pass: Pass, f: Fn, defsIn: map<BblId, DefMap>)
    requires PassSetting(pass, f, defsIn)
    ensures PassDone(pass, f, defsIn, f.code, RewriteFun(pass, f, defsIn, |f.order|))
  {
    var last := RewriteFun(pass, f, defsIn, |f.order|);
    LastSize(pass, f, defsIn);
    forall n, k | 0 <= n < |f.order| && 0 <= k < |BblAt(f, f.order[n]).inss| ensures DoneAt(pass, f, defsIn, f.code, last, n, k) {
      PassIsDoneAt(pass, f, defsIn, n, k);
    }
    forall j | 0 <= j < |f.code| && !StandsBefore(f, |f.order|, 0, j) ensures last[j] == f.code[j] {
      var n := |f.order| - 1;
      StageEnds(pass, f, defsIn, n);
      BeforeStarts(f, n, j);
      NotReached(pass, f, defsIn, n, |BblAt(f, f.order[n]).inss|, j);
    }
    hide RewriteFun, DoneAt, StandsBefore, Stage, PassSetting;
  }

  lemma PassIsDoneAt(pass: Pass, f: Fn, defsIn: map<BblId, DefMap>, n: nat, k: nat)
    requires PassSetting(pass, f, defsIn) && n < |f.order| && k < |BblAt(f, f.order[n]).inss|
    ensures |RewriteFun(pass, f, defsIn, |f.order|)| == |f.code|
    ensures DoneAt(pass, f, defsIn, f.code, RewriteFun(pass, f, defsIn, |f.order|), n, k)
  {
    var i, last := BblAt(f, f.order[n]).inss[k], RewriteFun(pass, f, defsIn, |f.order|);
    assert IsStage(f, n, k) && IsStage(f, n, k + 1);
    StageIsPartway(pass, f, defsIn, n, k);
    StageStep(pass, f, defsIn, n, k);
    NotBeforeItself(f, n, k);
    BeforeNext(f, n, k, i);
    Settled(pass, f, defsIn, n, k + 1, i);
    hide RewriteFun, Stage, StandsBefore, PassSetting, InsDone, TagsAt;
  }
}
