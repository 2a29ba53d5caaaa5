/** The passes look registers up in the tags of the place they are at, for operands of instructions
    that stand elsewhere. Such a lookup never fails: where a definition is still the one that counts,
    what it read has been tagged all the way from there (`PassNeverMissesKey`). */
module Lookup {
  import opened IR
  import opened ReachingDefs
  import opened Steps
  import opened Avail
  import opened Rewrites

  /** Tags sit on the register operands an instruction reads, say what holds there, and none is missing. */
  ghost predicate OperandGrounded(f: Fn, defsIn: map<BblId, DefMap>, b: BblId, k: nat, ins: Ins, l: nat) {
    l < |ins.operands| && l < |ins.defs| ==>
      && (ins.defs[l].Some? ==> NumDefs(ins.opcode) <= l && FreshOperand(f, defsIn, b, k, ins.operands[l], ins.defs[l].value))
      && (NumDefs(ins.opcode) <= l && ins.operands[l].RegOp? ==> ins.defs[l].Some?)
  }

  ghost predicate InsGrounded(f: Fn, defsIn: map<BblId, DefMap>, b: BblId, k: nat, ins: Ins) {
    |ins.defs| == |ins.operands| && forall l: nat :: OperandGrounded(f, defsIn, b, k, ins, l)
  }

  ghost predicate Grounded(f: Fn, g: Fn, defsIn: map<BblId, DefMap>) {
    forall b, k: nat :: b in f.blocks && k < |BblAt(f, b).inss| ==> InsGrounded(f, defsIn, b, k, InsAt(g.code, BblAt(f, b).inss[k]))
  }

  /** What the analysis established for f, and the shape g still has in common with it. */
  ghost predicate Analysed(f: Fn, g: Fn, live: set<RegId>, defsIn: map<BblId, DefMap>) {
    && WfLayout(f) && UniqueIds(f) && Solution(f, live, defsIn) && AllJustified(f, live, defsIn) && SameShape(f, g)
  }

  // ---------------------------------------------------------------- tags do not get lost

  lemma {:induction false} KeysGrowInBlock(code: seq<Ins>, ids: seq<InsId>, j: nat, k: nat, tags: DefMap, r: RegId)
    requires j <= k <= |ids| && r in TagsAt(code, ids, j, tags)
    ensures r in TagsAt(code, ids, k, tags)
  {
    hide InsAt, DstOf;
    if j < k { KeysGrowInBlock(code, ids, j, k - 1, tags, r); }
  }

  lemma KeysGrowOnEdge(f: Fn, live: set<RegId>, defsIn: map<BblId, DefMap>, b: BblId, s: BblId, k: nat, r: RegId)
    requires WfLayout(f) && Solution(f, live, defsIn) && b in f.blocks && Edge(f, b, s)
    requires k <= |BblAt(f, b).inss| && r in TagsAt(f.code, BblAt(f, b).inss, k, defsIn[b])
    ensures s in f.blocks && r in defsIn[s]
  {
    var ids := BblAt(f, b).inss;
    KeysGrowInBlock(f.code, ids, k, |ids|, defsIn[b], r);
    TagsAtIsUpdate(f.code, ids, |ids|, defsIn[b]);
    assert ArrivesAt(s, defsIn[b] + BlockDefs(f, b), defsIn[s]);
    hide TagsAt;
  }

  lemma {:induction false} PathInside(f: Fn, p: seq<BblId>, b: BblId, n: nat)
    requires WfLayout(f) && PathTo(f, p, b) && n < |p|
    ensures p[n] in f.blocks
  {
    if n > 0 { PathInside(f, p, b, n - 1); }
  }

  lemma {:induction false} KeysGrowOnPath(f: Fn, live: set<RegId>, defsIn: map<BblId, DefMap>, p: seq<BblId>, b: BblId, m: nat, n: nat, r: RegId)
    requires WfLayout(f) && Solution(f, live, defsIn) && PathTo(f, p, b) && m <= n < |p|
    requires p[m] in f.blocks && r in defsIn[p[m]]
    ensures p[n] in f.blocks && r in defsIn[p[n]]
  {
    if m < n {
      KeysGrowOnPath(f, live, defsIn, p, b, m, n - 1, r);
      assert Edge(f, p[n - 1], p[n - 1 + 1]);
      hide Solution, WfLayout, Edge;
      KeysGrowOnEdge(f, live, defsIn, p[n - 1], p[n], 0, r);
    }
  }

  lemma {:induction false} DefOnPath(f: Fn, live: set<RegId>, p: seq<BblId>, n: nat, x: RegId, d: InsId) returns (m: nat, j: nat)
    requires n < |p| && LastDefAt(f, live, p, n, x) == Some(ByIns(d))
    ensures m < n && j < |BblAt(f, p[m]).inss| && BblAt(f, p[m]).inss[j] == d
  {
    hide BlockDefs;
    var defs := BlockDefs(f, p[n - 1]);
    if x in defs && defs[x].DefIns? {
      m := n - 1;
      assert DefsUpTo(f.code, BblAt(f, p[m]).inss, |BblAt(f, p[m]).inss|) == defs by { BlockDefsIs(f, p[m]); }
      j := LocalDefIsIns(f.code, BblAt(f, p[m]).inss, |BblAt(f, p[m]).inss|, x);
    } else {
      m, j := DefOnPath(f, live, p, n - 1, x, d);
    }
  }

  lemma BlockDefsIs(f: Fn, b: BblId)
    ensures BlockDefs(f, b) == DefsUpTo(f.code, BblAt(f, b).inss, |BblAt(f, b).inss|)
  {
  }

  /** Whatever was tagged where d stands is tagged where d is the definition that counts. */
  lemma TaggedSinceDef(f: Fn, live: set<RegId>, defsIn: map<BblId, DefMap>, b: BblId, k: nat, x: RegId, d: InsId)
    returns (c: BblId, j: nat)
    requires WfLayout(f) && Solution(f, live, defsIn) && AllJustified(f, live, defsIn) && b in f.blocks && k <= |BblAt(f, b).inss|
    requires x in TagsHere(f, defsIn, b, k) && TagsHere(f, defsIn, b, k)[x] == DefIns(d)
    ensures c in f.blocks && j < |BblAt(f, c).inss| && BblAt(f, c).inss[j] == d
    ensures forall y :: y in TagsHere(f, defsIn, c, j) ==> y in TagsHere(f, defsIn, b, k)
  {
    var ids := BblAt(f, b).inss;
    TagsAtIsUpdate(f.code, ids, k, defsIn[b]);
    if x in DefsUpTo(f.code, ids, k) {
      c := b;
      j := LocalDefIsIns(f.code, ids, k, x);
      forall y | y in TagsHere(f, defsIn, b, j) ensures y in TagsHere(f, defsIn, b, k) { KeysGrowInBlock(f.code, ids, j, k, defsIn[b], y); }
    } else {
      assert Justified(f, live, b, x, DefIns(d));
      c, j := TaggedOnPath(f, live, defsIn, b, k, x, d);
    }
  }

  lemma TaggedOnPath(f: Fn, live: set<RegId>, defsIn: map<BblId, DefMap>, b: BblId, k: nat, x: RegId, d: InsId)
    returns (c: BblId, j: nat)
    requires WfLayout(f) && Solution(f, live, defsIn) && b in f.blocks && k <= |BblAt(f, b).inss| && SomePathDefines(f, live, b, x, d)
    ensures c in f.blocks && j < |BblAt(f, c).inss| && BblAt(f, c).inss[j] == d
    ensures forall y :: y in TagsHere(f, defsIn, c, j) ==> y in TagsHere(f, defsIn, b, k)
  {
    var p :| PathTo(f, p, b) && LastDef(f, live, p, x) == Some(ByIns(d));
    var m: nat;
    m, j := DefOnPath(f, live, p, |p| - 1, x, d);
    c := p[m];
    PathInside(f, p, b, m);
    assert Edge(f, p[m], p[m + 1]) && b in defsIn && c in defsIn;
    hide LastDef, Edge, WfLayout, Solution;
    forall y | y in TagsHere(f, defsIn, c, j) ensures y in TagsHere(f, defsIn, b, k) {
      KeysGrowOnEdge(f, live, defsIn, c, p[m + 1], j, y);
      KeysGrowOnPath(f, live, defsIn, p, b, m + 1, |p| - 1, y);
      KeysGrowInBlock(f.code, BblAt(f, b).inss, 0, k, defsIn[b], y);
    }
  }

  // ---------------------------------------------------------------- the lookup

  /** An operand that instruction d, which tags operand l here, reads. */
  lemma SourceIsTagged(f: Fn, g: Fn, live: set<RegId>, defsIn: map<BblId, DefMap>, b: BblId, k: nat, l: nat, n: nat)
    requires Analysed(f, g, live, defsIn) && Grounded(f, g, defsIn) && b in f.blocks && k < |BblAt(f, b).inss|
    requires var ins := InsAt(g.code, BblAt(f, b).inss[k]);
      && l < |ins.operands| && l < |ins.defs| && ins.defs[l].Some? && ins.defs[l].value.DefIns?
      && var d := InsAt(g.code, ins.defs[l].value.ins); NumDefs(d.opcode) <= n < |d.operands| && d.operands[n].RegOp?
    ensures var ins := InsAt(g.code, BblAt(f, b).inss[k]);
      InsAt(g.code, ins.defs[l].value.ins).operands[n].reg in TagsHere(f, defsIn, b, k)
  {
    var ins := InsAt(g.code, BblAt(f, b).inss[k]);
    var i := ins.defs[l].value.ins;
    assert InsGrounded(f, defsIn, b, k, ins);
    assert OperandGrounded(f, defsIn, b, k, ins, l);
    var x := ins.operands[l].reg;
    var c, j := TaggedSinceDef(f, live, defsIn, b, k, x, i);
    hide Analysed, TagsHere, InsAt, FreshOperand;
    assert InsGrounded(f, defsIn, c, j, InsAt(g.code, i));
    assert OperandGrounded(f, defsIn, c, j, InsAt(g.code, i), n);
    assert InsAt(g.code, i).operands[n].reg in TagsHere(f, defsIn, c, j) by { FreshIsTagged(f, defsIn, c, j, InsAt(g.code, i), n); }
  }

  lemma FreshIsTagged(f: Fn, defsIn: map<BblId, DefMap>, b: BblId, k: nat, ins: Ins, l: nat)
    requires l < |ins.operands| && l < |ins.defs| && ins.defs[l].Some? && FreshOperand(f, defsIn, b, k, ins.operands[l], ins.defs[l].value)
    ensures ins.operands[l].RegOp? && ins.operands[l].reg in TagsHere(f, defsIn, b, k)
  {
  }

  /** `defs[op]` has an entry if it is looked at. */
  predicate Found(op: Operand, t: Option<Tag>, tags: DefMap) { op.RegOp? && t.Some? ==> op.reg in tags }

  /** No step of a pass looks up a register that is not there. */
  predicate NoKeyMissing(pass: Pass, code: seq<Ins>, tags: DefMap, ins: Ins, l: nat) {
    match pass
    case PropagateRegs(cpuRegs) =>
      MovOf(code, ins, l).Some? && MovOf(code, ins, l).value.operands[1].RegOp? ==> MovOf(code, ins, l).value.operands[1].reg in tags
    case PropagateConsts => true
    case LoadStoreSimplify => FoldLooksUp(code, tags, ins)
  }

  predicate FoldLooksUp(code: seq<Ins>, tags: DefMap, ins: Ins) {
    var p := BasePos(ins.opcode);
    (ins.opcode.St? || ins.opcode.Ld? || ins.opcode.Lea?) && |ins.operands| == 3 && |ins.defs| == 3 && ins.defs[p].Some? && ins.defs[p].value.DefIns? ==>
      var base := InsAt(code, ins.defs[p].value.ins);
      FoldedOpcode(base.opcode, ins.opcode).Some? && WfIns(base) ==>
        && Found(base.operands[1], base.defs[1], tags)
        && (CombinedOffset(ins, base).Some? ==> Found(CombinedOffset(ins, base).value.op, CombinedOffset(ins, base).value.tag, tags))
  }

  lemma StepLooksUp(f: Fn, g: Fn, live: set<RegId>, defsIn: map<BblId, DefMap>, pass: Pass, b: BblId, k: nat, l: nat)
    requires Analysed(f, g, live, defsIn) && Grounded(f, g, defsIn) && b in f.blocks && k < |BblAt(f, b).inss|
    ensures NoKeyMissing(pass, g.code, TagsHere(f, defsIn, b, k), InsAt(g.code, BblAt(f, b).inss[k]), l)
  {
    var ins := InsAt(g.code, BblAt(f, b).inss[k]);
    hide Analysed, TagsHere, FreshOperand, BblAt, Grounded;
    match pass {
      case PropagateRegs(_) =>
        if MovOf(g.code, ins, l).Some? && MovOf(g.code, ins, l).value.operands[1].RegOp? { SourceIsTagged(f, g, live, defsIn, b, k, l, 1); }
      case PropagateConsts =>
      case LoadStoreSimplify => FoldStepLooksUp(f, g, live, defsIn, b, k);
    }
  }

  lemma FoldStepLooksUp(f: Fn, g: Fn, live: set<RegId>, defsIn: map<BblId, DefMap>, b: BblId, k: nat)
    requires Analysed(f, g, live, defsIn) && Grounded(f, g, defsIn) && b in f.blocks && k < |BblAt(f, b).inss|
    ensures FoldLooksUp(g.code, TagsHere(f, defsIn, b, k), InsAt(g.code, BblAt(f, b).inss[k]))
  {
    var ins, tags := InsAt(g.code, BblAt(f, b).inss[k]), TagsHere(f, defsIn, b, k);
    var p := BasePos(ins.opcode);
    if (ins.opcode.St? || ins.opcode.Ld? || ins.opcode.Lea?) && |ins.operands| == 3 && |ins.defs| == 3 && ins.defs[p].Some? && ins.defs[p].value.DefIns? {
      var base := InsAt(g.code, ins.defs[p].value.ins);
      if FoldedOpcode(base.opcode, ins.opcode).Some? && WfIns(base) {
        assert NumDefs(base.opcode) == 1;
        OwnIsFound(f, g, defsIn, b, k, OffsetPos(ins.opcode));
        hide Analysed, TagsHere, FreshOperand, BblAt, Grounded, InsAt;
        if base.operands[1].RegOp? { SourceIsTagged(f, g, live, defsIn, b, k, p, 1); }
        if |base.operands| == 3 && base.operands[2].RegOp? { SourceIsTagged(f, g, live, defsIn, b, k, p, 2); }
      }
    }
  }

  lemma OwnIsFound(f: Fn, g: Fn, defsIn: map<BblId, DefMap>, b: BblId, k: nat, l: nat)
    requires Grounded(f, g, defsIn) && b in f.blocks && k < |BblAt(f, b).inss|
    ensures var ins := InsAt(g.code, BblAt(f, b).inss[k]);
      l < |ins.operands| && l < |ins.defs| ==> Found(ins.operands[l], ins.defs[l], TagsHere(f, defsIn, b, k))
  {
    var ins := InsAt(g.code, BblAt(f, b).inss[k]);
    assert InsGrounded(f, defsIn, b, k, ins);
    assert OperandGrounded(f, defsIn, b, k, ins, l);
    hide TagsHere, InsAt;
  }

  // ---------------------------------------------------------------- the passes keep it so

  /** A register that is available has the tag that holds here. */
  lemma AvailableIsFresh(f: Fn, defsIn: map<BblId, DefMap>, b: BblId, k: nat, op: Operand, t: Option<Tag>)
    requires DefAvailable(op, t, TagsHere(f, defsIn, b, k))
    ensures op.RegOp? ==> t.Some? && FreshOperand(f, defsIn, b, k, op, t.value)
  {
    hide TagsHere;
  }

  lemma DefIsGrounded(f: Fn, g: Fn, live: set<RegId>, defsIn: map<BblId, DefMap>, b: BblId, k: nat, l: nat)
    requires Analysed(f, g, live, defsIn) && Grounded(f, g, defsIn) && b in f.blocks && k < |BblAt(f, b).inss|
    requires var ins := InsAt(g.code, BblAt(f, b).inss[k]);
      l < |ins.operands| && l < |ins.defs| && ins.defs[l].Some? && ins.defs[l].value.DefIns?
    ensures var ins := InsAt(g.code, BblAt(f, b).inss[k]); var d := InsAt(g.code, ins.defs[l].value.ins);
      |d.defs| == |d.operands| && forall n: nat :: n < |d.operands| && d.defs[n].Some? ==> d.operands[n].RegOp?
  {
    var ins := InsAt(g.code, BblAt(f, b).inss[k]);
    var i := ins.defs[l].value.ins;
    assert InsGrounded(f, defsIn, b, k, ins);
    assert OperandGrounded(f, defsIn, b, k, ins, l);
    var c, j := TaggedSinceDef(f, live, defsIn, b, k, ins.operands[l].reg, i);
    hide Analysed, TagsHere, InsAt;
    var d := InsAt(g.code, i);
    assert InsGrounded(f, defsIn, c, j, d);
    forall n: nat | n < |d.operands| && d.defs[n].Some? ensures d.operands[n].RegOp? { assert OperandGrounded(f, defsIn, c, j, d, n); }
  }

  /** What a replaced operand must bring along. */
  predicate Fits(f: Fn, defsIn: map<BblId, DefMap>, b: BblId, k: nat, op: Operand, t: Option<Tag>) {
    DefAvailable(op, t, TagsHere(f, defsIn, b, k)) && (t.Some? ==> op.RegOp?)
  }

  lemma FitsIsGrounded(f: Fn, defsIn: map<BblId, DefMap>, b: BblId, k: nat, ins: Ins, l: nat)
    requires l < |ins.operands| && l < |ins.defs| && NumDefs(ins.opcode) <= l && Fits(f, defsIn, b, k, ins.operands[l], ins.defs[l])
    ensures OperandGrounded(f, defsIn, b, k, ins, l)
  {
    AvailableIsFresh(f, defsIn, b, k, ins.operands[l], ins.defs[l]);
    hide TagsHere, DefAvailable, FreshOperand;
  }

  lemma WithOperandGrounded(f: Fn, defsIn: map<BblId, DefMap>, b: BblId, k: nat, ins: Ins, l: nat, op: Operand, t: Option<Tag>)
    requires InsGrounded(f, defsIn, b, k, ins) && NumDefs(ins.opcode) <= l < |ins.operands| && Fits(f, defsIn, b, k, op, t)
    ensures InsGrounded(f, defsIn, b, k, WithOperand(ins, l, op, t))
  {
    var ins' := WithOperand(ins, l, op, t);
    FitsIsGrounded(f, defsIn, b, k, ins', l);
    hide Fits, FreshOperand;
    forall n: nat ensures OperandGrounded(f, defsIn, b, k, ins', n) { assert OperandGrounded(f, defsIn, b, k, ins, n); }
  }

  lemma TagMeansReg(f: Fn, defsIn: map<BblId, DefMap>, b: BblId, k: nat, ins: Ins)
    requires InsGrounded(f, defsIn, b, k, ins)
    ensures forall l: nat :: l < |ins.operands| && ins.defs[l].Some? ==> ins.operands[l].RegOp?
  {
    forall l: nat | l < |ins.operands| && ins.defs[l].Some? ensures ins.operands[l].RegOp? { assert OperandGrounded(f, defsIn, b, k, ins, l); }
    hide TagsHere;
  }

  lemma FoldGrounded(f: Fn, defsIn: map<BblId, DefMap>, b: BblId, k: nat, code: seq<Ins>, ins: Ins)
    requires InsGrounded(f, defsIn, b, k, ins)
    requires forall l: nat :: l < |ins.defs| && ins.defs[l].Some? && ins.defs[l].value.DefIns? ==>
               var d := InsAt(code, ins.defs[l].value.ins);
               |d.defs| == |d.operands| && forall n: nat :: n < |d.operands| && d.defs[n].Some? ==> d.operands[n].RegOp?
    ensures InsGrounded(f, defsIn, b, k, SimplifyLoadStore(code, TagsHere(f, defsIn, b, k), ins))
  {
    var ins' := SimplifyLoadStore(code, TagsHere(f, defsIn, b, k), ins);
    TagMeansReg(f, defsIn, b, k, ins);
    hide TagsHere, DefAvailable, FreshOperand, InsAt;
    assert OperandGrounded(f, defsIn, b, k, ins, 0) && OperandGrounded(f, defsIn, b, k, ins, 1) && OperandGrounded(f, defsIn, b, k, ins, 2);
    if ins' != ins {
      var p := BasePos(ins.opcode);
      var base := InsAt(code, ins.defs[p].value.ins);
      var off := CombinedOffset(ins, base).value;
      assert off.tag.Some? ==> off.op.RegOp?;
      assert Fits(f, defsIn, b, k, base.operands[1], base.defs[1]) && Fits(f, defsIn, b, k, off.op, off.tag);
      FitsIsGrounded(f, defsIn, b, k, ins', p);
      FitsIsGrounded(f, defsIn, b, k, ins', p + 1);
      hide Fits, SimplifyLoadStore, CombinedOffset;
      forall n: nat ensures OperandGrounded(f, defsIn, b, k, ins', n) {
        if n == 2 && ins.opcode.St? { assert ins'.operands[2] == ins.operands[2] && ins'.defs[2] == ins.defs[2]; }
        if n == 0 && !ins.opcode.St? { assert ins'.operands[0] == ins.operands[0] && ins'.defs[0] == ins.defs[0]; }
      }
    }
  }

  lemma StepIsGrounded(f: Fn, g: Fn, live: set<RegId>, defsIn: map<BblId, DefMap>, pass: Pass, b: BblId, k: nat, l: nat)
    requires Analysed(f, g, live, defsIn) && Grounded(f, g, defsIn) && b in f.blocks && k < |BblAt(f, b).inss|
    ensures InsGrounded(f, defsIn, b, k, RewriteAt(pass, g.code, TagsHere(f, defsIn, b, k), InsAt(g.code, BblAt(f, b).inss[k]), l))
  {
    var ins, tags := InsAt(g.code, BblAt(f, b).inss[k]), TagsHere(f, defsIn, b, k);
    assert InsGrounded(f, defsIn, b, k, ins);
    forall n: nat | n < |ins.defs| && ins.defs[n].Some? && ins.defs[n].value.DefIns?
      ensures var d := InsAt(g.code, ins.defs[n].value.ins);
        |d.defs| == |d.operands| && forall x: nat :: x < |d.operands| && d.defs[x].Some? ==> d.operands[x].RegOp?
    {
      DefIsGrounded(f, g, live, defsIn, b, k, n);
      hide Analysed, Grounded, InsAt;
    }
    hide Analysed, Grounded, TagsHere, InsAt, FreshOperand, SimplifyLoadStore;
    match pass {
      case PropagateRegs(cpuRegs) => MovGrounded(f, g, defsIn, b, k, cpuRegs, ins, l);
      case PropagateConsts => MovGrounded(f, g, defsIn, b, k, {}, ins, l);
      case LoadStoreSimplify => FoldGrounded(f, defsIn, b, k, g.code, ins);
    }
  }

  lemma MovGrounded(f: Fn, g: Fn, defsIn: map<BblId, DefMap>, b: BblId, k: nat, cpuRegs: set<RegId>, ins: Ins, l: nat)
    requires InsGrounded(f, defsIn, b, k, ins)
    ensures InsGrounded(f, defsIn, b, k, PropagateRegAt(g.code, cpuRegs, TagsHere(f, defsIn, b, k), ins, l))
    ensures InsGrounded(f, defsIn, b, k, PropagateConstAt(g.code, ins, l))
  {
    var tags := TagsHere(f, defsIn, b, k);
    hide TagsHere, InsAt, FreshOperand, InsGrounded;
    if MovOf(g.code, ins, l).Some? {
      var mov := MovOf(g.code, ins, l).value;
      ReadsAreTagged(f, defsIn, b, k, ins, l);
      var op, t := mov.operands[1], mov.defs[1];
      if op.RegOp? && DefAvailable(op, t, tags) { WithOperandGrounded(f, defsIn, b, k, ins, l, op, t); }
      if op.ConstOp? { WithOperandGrounded(f, defsIn, b, k, ins, l, op, None); }
    }
    hide WithOperand, MovOf;
  }

  lemma ReadsAreTagged(f: Fn, defsIn: map<BblId, DefMap>, b: BblId, k: nat, ins: Ins, l: nat)
    requires InsGrounded(f, defsIn, b, k, ins) && l < |ins.operands| && ins.defs[l].Some?
    ensures NumDefs(ins.opcode) <= l
  {
    assert OperandGrounded(f, defsIn, b, k, ins, l);
    hide FreshOperand;
  }

  /** One step on one instruction. */
  lemma StepKeepsGrounded(f: Fn, g: Fn, live: set<RegId>, defsIn: map<BblId, DefMap>, pass: Pass, b: BblId, k: nat, l: nat)
    requires Analysed(f, g, live, defsIn) && Grounded(f, g, defsIn) && b in f.blocks && k < |BblAt(f, b).inss|
    ensures var i := BblAt(f, b).inss[k];
      Grounded(f, g.(code := Put(g.code, i, RewriteAt(pass, g.code, TagsHere(f, defsIn, b, k), InsAt(g.code, i), l))), defsIn)
  {
    var i := BblAt(f, b).inss[k];
    var ins' := RewriteAt(pass, g.code, TagsHere(f, defsIn, b, k), InsAt(g.code, i), l);
    var h := g.(code := Put(g.code, i, ins'));
    StepIsGrounded(f, g, live, defsIn, pass, b, k, l);
    assert UniqueIds(f) by { hide WfLayout, Solution, AllJustified, SameShape; }
    hide Analysed, RewriteAt, TagsHere, InsGrounded;
    forall c, j: nat | c in f.blocks && j < |BblAt(f, c).inss| ensures InsGrounded(f, defsIn, c, j, InsAt(h.code, BblAt(f, c).inss[j])) {
      assert InsGrounded(f, defsIn, c, j, InsAt(g.code, BblAt(f, c).inss[j]));
      if BblAt(f, c).inss[j] == i { OnePlace(f, b, k, c, j); }
    }
  }

  lemma OnePlace(f: Fn, b: BblId, k: nat, c: BblId, j: nat)
    requires UniqueIds(f) && b in f.blocks && c in f.blocks && k < |BblAt(f, b).inss| && j < |BblAt(f, c).inss|
    requires BblAt(f, b).inss[k] == BblAt(f, c).inss[j]
    ensures b == c && k == j
  {
    assert BblAt(f, b).inss[k] in BblAt(f, b).inss && BblAt(f, c).inss[j] in BblAt(f, c).inss;
  }

  // ---------------------------------------------------------------- whole passes

  /** g is on the way: it came from f by rewriting, and its tags are complete. */
  ghost predicate OnTheWay(f: Fn, g: Fn, live: set<RegId>, defsIn: map<BblId, DefMap>) {
    Analysed(f, f, live, defsIn) && Rewritten(f, g, live, defsIn) && Grounded(f, g, defsIn) && WfCode(f)
  }

  lemma ShapeOnTheWay(f: Fn, g: Fn, live: set<RegId>, defsIn: map<BblId, DefMap>)
    requires OnTheWay(f, g, live, defsIn)
    ensures Analysed(f, g, live, defsIn) && Grounded(f, g, defsIn) && Rewritten(f, g, live, defsIn) && WfCode(f)
    ensures g.order == f.order && forall b :: BblAt(g, b) == BblAt(f, b)
    ensures forall b :: b in f.blocks ==> b in defsIn
  {
    hide Grounded, WfLayout, UniqueIds, AllJustified, RewrittenOn, AllWfIns, WfCode;
  }

  lemma IdInCode(f: Fn, b: BblId, k: nat)
    requires WfCode(f) && b in f.blocks && k < |BblAt(f, b).inss|
    ensures BblAt(f, b).inss[k] < |f.code|
  {
    assert BblAt(f, b).inss[k] in BblAt(f, b).inss;
    hide WfIns, UniqueIds;
  }

  lemma OnTheWayIs(f: Fn, g: Fn, h: Fn, live: set<RegId>, defsIn: map<BblId, DefMap>)
    requires OnTheWay(f, g, live, defsIn) && Rewritten(f, h, live, defsIn) && Grounded(f, h, defsIn)
    ensures OnTheWay(f, h, live, defsIn)
  {
    hide Analysed, Rewritten, Grounded, WfCode;
  }

  lemma {:induction false} InsOnTheWay(f: Fn, g: Fn, live: set<RegId>, defsIn: map<BblId, DefMap>, pass: Pass, b: BblId, k: nat, l: nat)
    requires OnTheWay(f, g, live, defsIn) && b in f.blocks && k < |BblAt(f, b).inss|
    ensures OnTheWay(f, g.(code := RewriteIns(pass, g.code, TagsHere(f, defsIn, b, k), BblAt(f, b).inss[k], l)), live, defsIn)
  {
    hide *;
    var i, tags := BblAt(f, b).inss[k], TagsHere(f, defsIn, b, k);
    ShapeOnTheWay(f, g, live, defsIn);
    SameTags(f, g, live, defsIn, b, k);
    IdInCode(f, b, k);
    RewriteInsKeeps(f, g, live, defsIn, pass, b, k, l);
    RewriteInsIs(pass, g, tags, i, l);
    if l > 0 {
      InsOnTheWay(f, g, live, defsIn, pass, b, k, l - 1);
      var h := g.(code := RewriteIns(pass, g.code, tags, i, l - 1));
      ShapeOnTheWay(f, h, live, defsIn);
      StepKeepsGrounded(f, h, live, defsIn, pass, b, k, l - 1);
    }
    OnTheWayIs(f, g, g.(code := RewriteIns(pass, g.code, tags, i, l)), live, defsIn);
  }

  lemma SameTags(f: Fn, g: Fn, live: set<RegId>, defsIn: map<BblId, DefMap>, b: BblId, k: nat)
    requires Analysed(f, g, live, defsIn)
    ensures TagsHere(g, defsIn, b, k) == TagsHere(f, defsIn, b, k)
  {
    SameTagsHere(f, g, defsIn, b, k);
  }

  lemma RewriteInsIs(pass: Pass, g: Fn, tags: DefMap, i: InsId, l: nat)
    ensures g.(code := RewriteIns(pass, g.code, tags, i, l)) ==
      if l == 0 then g
      else
        var h := g.(code := RewriteIns(pass, g.code, tags, i, l - 1));
        h.(code := Put(h.code, i, RewriteAt(pass, h.code, tags, InsAt(h.code, i), l - 1)))
  {
    hide RewriteAt, Put, InsAt;
  }

  lemma {:induction false} BblOnTheWay(f: Fn, g: Fn, live: set<RegId>, defsIn: map<BblId, DefMap>, pass: Pass, b: BblId, k: nat)
    requires OnTheWay(f, g, live, defsIn) && b in f.blocks && b in defsIn && k <= |BblAt(f, b).inss|
    ensures OnTheWay(f, g.(code := RewriteBbl(pass, g.code, BblAt(f, b).inss, k, defsIn[b])), live, defsIn)
  {
    hide *;
    var ids := BblAt(f, b).inss;
    RewriteBblIs(pass, g, ids, k, defsIn[b]);
    if k > 0 {
      BblOnTheWay(f, g, live, defsIn, pass, b, k - 1);
      var h := g.(code := RewriteBbl(pass, g.code, ids, k - 1, defsIn[b]));
      ShapeOnTheWay(f, h, live, defsIn);
      TagsOnTheWay(f, h, live, defsIn, b, k - 1);
      InsOnTheWay(f, h, live, defsIn, pass, b, k - 1, |InsAt(h.code, ids[k - 1]).operands|);
    }
  }

  lemma TagsOnTheWay(f: Fn, h: Fn, live: set<RegId>, defsIn: map<BblId, DefMap>, b: BblId, k: nat)
    requires Analysed(f, h, live, defsIn) && b in f.blocks && b in defsIn && k <= |BblAt(f, b).inss|
    ensures TagsAt(h.code, BblAt(f, b).inss, k, defsIn[b]) == TagsHere(f, defsIn, b, k)
  {
    TagsIgnoreDefs(f.code, h.code, BblAt(f, b).inss, k, defsIn[b]);
  }

  lemma RewriteBblIs(pass: Pass, g: Fn, ids: seq<InsId>, k: nat, tags: DefMap)
    requires k <= |ids|
    ensures g.(code := RewriteBbl(pass, g.code, ids, k, tags)) ==
      if k == 0 then g
      else
        var h := g.(code := RewriteBbl(pass, g.code, ids, k - 1, tags));
        h.(code := RewriteIns(pass, h.code, TagsAt(h.code, ids, k - 1, tags), ids[k - 1], |InsAt(h.code, ids[k - 1]).operands|))
  {
    hide RewriteIns, TagsAt, InsAt;
  }

  lemma {:induction false} FunOnTheWay(f: Fn, g: Fn, live: set<RegId>, defsIn: map<BblId, DefMap>, pass: Pass, n: nat)
    requires OnTheWay(f, g, live, defsIn) && WfOrder(f) && n <= |f.order| == |g.order|
    ensures OnTheWay(f, g.(code := RewriteFun(pass, g, defsIn, n)), live, defsIn)
  {
    hide *;
    ShapeOnTheWay(f, g, live, defsIn);
    RewriteFunIs(pass, g, defsIn, n);
    if n > 0 {
      FunOnTheWay(f, g, live, defsIn, pass, n - 1);
      OrderInside(f, n - 1);
      BblOnTheWay(f, g.(code := RewriteFun(pass, g, defsIn, n - 1)), live, defsIn, pass, f.order[n - 1], |BblAt(f, f.order[n - 1]).inss|);
    }
  }

  lemma OrderInside(f: Fn, n: nat)
    requires WfOrder(f) && n < |f.order|
    ensures f.order[n] in f.blocks
  {
    assert f.order[n] in f.order;
  }

  lemma RewriteFunIs(pass: Pass, g: Fn, defsIn: map<BblId, DefMap>, n: nat)
    requires n <= |g.order|
    ensures g.(code := RewriteFun(pass, g, defsIn, n)) ==
      if n == 0 then g
      else
        var h, b := g.(code := RewriteFun(pass, g, defsIn, n - 1)), g.order[n - 1];
        h.(code := RewriteBbl(pass, h.code, BblAt(g, b).inss, |BblAt(g, b).inss|, if b in defsIn then defsIn[b] else map[]))
  {
    hide RewriteBbl, BblAt;
  }

  /** The code when step l on instruction k of the n-th block is about to be taken. */
  function CodeAt(pass: Pass, f: Fn, g: Fn, defsIn: map<BblId, DefMap>, n: nat, k: nat, l: nat): seq<Ins>
    requires n < |f.order| == |g.order| && f.order[n] in defsIn && k < |BblAt(f, f.order[n]).inss|
  {
    var b := f.order[n];
    var code := RewriteBbl(pass, RewriteFun(pass, g, defsIn, n), BblAt(f, b).inss, k, defsIn[b]);
    RewriteIns(pass, code, TagsHere(f, defsIn, b, k), BblAt(f, b).inss[k], l)
  }

  /** In a function all of whose blocks can be reached, no pass ever looks up a register that has no tag. */
  lemma PassNeverMissesKey(f: Fn, g: Fn, live: set<RegId>, defsIn: map<BblId, DefMap>, pass: Pass, n: nat, k: nat, l: nat)
    requires OnTheWay(f, g, live, defsIn) && WfOrder(f) && n < |f.order| == |g.order| && f.order[n] in defsIn && k < |BblAt(f, f.order[n]).inss|
    ensures var code, i := CodeAt(pass, f, g, defsIn, n, k, l), BblAt(f, f.order[n]).inss[k];
      NoKeyMissing(pass, code, TagsHere(f, defsIn, f.order[n], k), InsAt(code, i), l)
  {
    var b := f.order[n];
    var c := g.(code := RewriteFun(pass, g, defsIn, n));
    var d := c.(code := RewriteBbl(pass, c.code, BblAt(f, b).inss, k, defsIn[b]));
    var e := d.(code := RewriteIns(pass, d.code, TagsHere(f, defsIn, b, k), BblAt(f, b).inss[k], l));
    assert e.code == CodeAt(pass, f, g, defsIn, n, k, l) by { hide RewriteFun, RewriteBbl, RewriteIns; }
    hide *;
    OrderInside(f, n);
    FunOnTheWay(f, g, live, defsIn, pass, n);
    BblOnTheWay(f, c, live, defsIn, pass, b, k);
    InsOnTheWay(f, d, live, defsIn, pass, b, k, l);
    ShapeOnTheWay(f, e, live, defsIn);
    StepLooksUp(f, e, live, defsIn, pass, b, k, l);
  }

  /** Right after the analysis. */
  lemma AnalysisIsOnTheWay(f: Fn, g: Fn, defsIn: map<BblId, DefMap>)
    requires Wf(f) && AllReachable(f) && Solution(f, AllUses(f), defsIn) && AllJustified(f, AllUses(f), defsIn)
    requires (forall b :: b in f.blocks ==> b in defsIn) && TaggedBlocks(f, g, defsIn, f.blocks)
    requires forall i :: 0 <= i < |f.code| && i !in IdsOfBlocks(f, f.blocks) ==> WfTags(f.code[i])
    ensures OnTheWay(f, g, AllUses(f), defsIn)
  {
    hide WfLayout, WfOrder, WfEdges, Solution, AllJustified, WfTags, AllUses, Rewritten, AllReachable;
    AnalysedIsRewritten(f, g, defsIn);
    AnalysisIsGrounded(f, g, defsIn);
    assert UniqueIds(f) by { hide UniqueIds, WfIns, TaggedBlocks; }
    hide UniqueIds, WfCode, TaggedBlocks, Grounded;
    assert SameShape(f, f);
  }

  lemma AnalysisIsGrounded(f: Fn, g: Fn, defsIn: map<BblId, DefMap>)
    requires WfLayout(f) && WfCode(f) && AllReachable(f) && Solution(f, AllUses(f), defsIn)
    requires (forall b :: b in f.blocks ==> b in defsIn) && TaggedBlocks(f, g, defsIn, f.blocks)
    ensures Grounded(f, g, defsIn)
  {
    forall b, k: nat | b in f.blocks && k < |BblAt(f, b).inss| ensures InsGrounded(f, defsIn, b, k, InsAt(g.code, BblAt(f, b).inss[k])) {
      assert Reachable(f, b) && BblTagged(f, g, b, defsIn[b], |BblAt(f, b).inss|) by { hide WfLayout, WfCode, Solution, Reachable, BblTagged; }
      UseIsTagged(f, defsIn, b) by { hide TaggedBlocks, WfCode, BblTagged; }
      hide WfLayout, WfCode, Solution, AllReachable, TaggedBlocks, Reachable;
      TaggedInsIsGrounded(f, g, defsIn, b, k);
    }
  }

  lemma TaggedInsIsGrounded(f: Fn, g: Fn, defsIn: map<BblId, DefMap>, b: BblId, k: nat)
    requires b in defsIn && k < |BblAt(f, b).inss| && BblTagged(f, g, b, defsIn[b], |BblAt(f, b).inss|)
    requires Covered(f.code, BblAt(f, b).inss, defsIn[b])
    ensures InsGrounded(f, defsIn, b, k, InsAt(g.code, BblAt(f, b).inss[k]))
  {
    var ids := BblAt(f, b).inss;
    var ins, tags := InsAt(f.code, ids[k]), TagsAt(f.code, ids, k, defsIn[b]);
    assert InsAt(g.code, ids[k]) == TagIns(ins, tags);
    assert TagsHere(f, defsIn, b, k) == tags;
    hide InsAt, TagsAt, TagsHere, BblTagged;
    forall l: nat ensures OperandGrounded(f, defsIn, b, k, TagIns(ins, tags), l) {
      if l < |ins.operands| && NumDefs(ins.opcode) <= l && ins.operands[l].RegOp? {
        assert ins.operands[l] == RegOp(ins.operands[l].reg) && UsesReg(ins, ins.operands[l].reg);
      }
      hide Covered;
    }
  }
}
