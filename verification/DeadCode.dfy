/** Removal of instructions whose result nobody reads. The pruned function takes the same path
    through the same blocks with the same memory and the same events, whatever the run
    (`PrunedRunsAgree`). */
module DeadCode {
  import opened IR
  import opened Liveness

  // ---------------------------------------------------------------- what stays

  predicate Useful(ins: Ins, after: set<RegId>) {
    HasSideEffect(ins.opcode) || exists r :: r in DefsOf(ins) && r in after
  }

  /** What the instructions from position k on need, given what is live at the end of the block. */
  function Needed(code: seq<Ins>, ids: seq<InsId>, k: nat, out: set<RegId>): set<RegId>
    requires k <= |ids|
    decreases |ids| - k
  {
    if k == |ids| then out
    else
      var after := Needed(code, ids, k + 1, out);
      if Useful(InsAt(code, ids[k]), after) then LiveBefore(InsAt(code, ids[k]), after) else after
  }

  predicate UsefulAt(code: seq<Ins>, ids: seq<InsId>, k: nat, out: set<RegId>)
    requires k < |ids|
  {
    Useful(InsAt(code, ids[k]), Needed(code, ids, k + 1, out))
  }

  /** The useful ones among the first k instructions. */
  function Kept(code: seq<Ins>, ids: seq<InsId>, k: nat, out: set<RegId>): seq<InsId>
    requires k <= |ids|
  {
    if k == 0 then []
    else Kept(code, ids, k - 1, out) + if UsefulAt(code, ids, k - 1, out) then [ids[k - 1]] else []
  }

  /** Needs of the pruned block never exceed liveness in the original. */
  lemma {:induction false} NeededIsLive(code: seq<Ins>, ids: seq<InsId>, k: nat, out: set<RegId>)
    requires k <= |ids|
    ensures Needed(code, ids, k, out) <= LiveAt(code, ids, k, out)
    decreases |ids| - k
  {
    if k < |ids| {
      NeededIsLive(code, ids, k + 1, out);
      UselessKeepsLive(InsAt(code, ids[k]), Needed(code, ids, k + 1, out), LiveAt(code, ids, k + 1, out));
    }
  }

  lemma UselessKeepsLive(ins: Ins, a: set<RegId>, b: set<RegId>)
    requires a <= b
    ensures LiveBefore(ins, a) <= LiveBefore(ins, b)
    ensures !Useful(ins, a) ==> a <= LiveBefore(ins, b)
  {
    hide HasSideEffect, UsesOf;
  }

  // ---------------------------------------------------------------- which ones stay

  /** What an instruction does besides setting its register, by the attributes of its opcode: a call,
      a terminator, a read or a write of memory, or one of the special opcodes. */
  predicate HasAttribute(opc: Opcode) {
    match opc
    case Call(_) => true
    case CondBra(_) | Bra | Switch | Ret | Trap => true
    case Ld | LdMem | LdStk | St | StMem | StStk | Bulk(_) => true
    case PushArg | PopArg | Nop1 => true
    case Alu(_) | Mov | Lea | LeaMem | LeaStk | Nop => false
  }

  /** No instruction at the positions `at` from k up to n sets r. */
  ghost predicate SetByNone(code: seq<Ins>, ids: seq<InsId>, at: set<nat>, k: nat, n: nat, r: RegId) {
    forall l :: k <= l < n && l < |ids| && l in at ==> DstOf(InsAt(code, ids[l])) != Some(r)
  }

  /** The one at position l reads r before any of the others, from k on, sets it. */
  ghost predicate ReadAt(code: seq<Ins>, ids: seq<InsId>, at: set<nat>, k: nat, l: nat, r: RegId) {
    k <= l < |ids| && l in at && UsesReg(InsAt(code, ids[l]), r) && SetByNone(code, ids, at, k, l, r)
  }

  /** The value of r before position k is read by an instruction at one of the positions `at`, or by
      whatever follows the block. */
  ghost predicate Wanted(code: seq<Ins>, ids: seq<InsId>, at: set<nat>, k: nat, r: RegId, out: set<RegId>) {
    || (exists l: nat :: ReadAt(code, ids, at, k, l, r))
    || (r in out && SetByNone(code, ids, at, k, |ids|, r))
  }

  /** An instruction stays at position k. */
  ghost predicate HasToStay(code: seq<Ins>, ids: seq<InsId>, at: set<nat>, k: nat, out: set<RegId>)
    requires k < |ids|
  {
    var ins := InsAt(code, ids[k]);
    HasAttribute(ins.opcode) || (DstOf(ins).Some? && Wanted(code, ids, at, k + 1, DstOf(ins).value, out))
  }

  /** The positions `at` hold an instruction exactly if it does something besides setting its register,
      or another one of them, or what follows the block, reads what it sets. */
  ghost predicate StayAt(code: seq<Ins>, ids: seq<InsId>, at: set<nat>, out: set<RegId>) {
    forall k :: 0 <= k < |ids| ==> (k in at <==> HasToStay(code, ids, at, k, out))
  }

  /** The instructions at the positions `at` among the first k, in order. */
  ghost function PickedFrom(ids: seq<InsId>, at: set<nat>, k: nat): seq<InsId>
    requires k <= |ids|
  {
    if k == 0 then [] else PickedFrom(ids, at, k - 1) + if k - 1 in at then [ids[k - 1]] else []
  }

  /** `keep` are the instructions that have to stay, in their order. */
  ghost predicate OnlyUselessGone(code: seq<Ins>, ids: seq<InsId>, out: set<RegId>, keep: seq<InsId>) {
    exists at: set<nat> :: StayAt(code, ids, at, out) && keep == PickedFrom(ids, at, |ids|)
  }

  ghost function UsefulPositions(code: seq<Ins>, ids: seq<InsId>, out: set<RegId>): set<nat> {
    set k: nat | k < |ids| && UsefulAt(code, ids, k, out)
  }

  lemma AttributesIff(opc: Opcode)
    ensures HasSideEffect(opc) <==> HasAttribute(opc)
  {
  }

  lemma WantedStep(code: seq<Ins>, ids: seq<InsId>, at: set<nat>, k: nat, r: RegId, out: set<RegId>)
    requires k < |ids|
    ensures k !in at ==> (Wanted(code, ids, at, k, r, out) <==> Wanted(code, ids, at, k + 1, r, out))
    ensures k in at ==> (Wanted(code, ids, at, k, r, out) <==>
      UsesReg(InsAt(code, ids[k]), r) || (DstOf(InsAt(code, ids[k])) != Some(r) && Wanted(code, ids, at, k + 1, r, out)))
  {
    hide UsesReg, DstOf, InsAt;
    var next := k + 1;
    if Wanted(code, ids, at, k, r, out) {
      if l: nat :| ReadAt(code, ids, at, k, l, r) {
        assert l > k ==> ReadAt(code, ids, at, next, l, r);
      }
    }
    if Wanted(code, ids, at, k + 1, r, out) && (k in at ==> DstOf(InsAt(code, ids[k])) != Some(r)) {
      if l: nat :| ReadAt(code, ids, at, next, l, r) {
        assert ReadAt(code, ids, at, k, l, r);
      }
    }
    if k in at && UsesReg(InsAt(code, ids[k]), r) { assert ReadAt(code, ids, at, k, k, r); }
  }

  lemma {:induction false} NeededIff(code: seq<Ins>, ids: seq<InsId>, k: nat, r: RegId, out: set<RegId>)
    requires k <= |ids|
    ensures r in Needed(code, ids, k, out) <==> Wanted(code, ids, UsefulPositions(code, ids, out), k, r, out)
    decreases |ids| - k
  {
    hide UsesReg, DstOf, InsAt, Useful;
    var at := UsefulPositions(code, ids, out);
    if k < |ids| {
      NeededIff(code, ids, k + 1, r, out);
      WantedStep(code, ids, at, k, r, out);
      var ins, after := InsAt(code, ids[k]), Needed(code, ids, k + 1, out);
      LiveBeforeHas(ins, after, r);
      hide Wanted, LiveBefore;
    }
  }

  lemma LiveBeforeHas(ins: Ins, after: set<RegId>, r: RegId)
    ensures r in LiveBefore(ins, after) <==> UsesReg(ins, r) || (DstOf(ins) != Some(r) && r in after)
  {
  }

  lemma {:induction false} KeptIsPicked(code: seq<Ins>, ids: seq<InsId>, k: nat, out: set<RegId>)
    requires k <= |ids|
    ensures Kept(code, ids, k, out) == PickedFrom(ids, UsefulPositions(code, ids, out), k)
  {
    hide UsefulAt;
    if k > 0 { KeptIsPicked(code, ids, k - 1, out); }
  }

  /** The instructions kept are those that have to stay. */
  lemma KeptHasToStay(code: seq<Ins>, ids: seq<InsId>, out: set<RegId>)
    ensures OnlyUselessGone(code, ids, out, Kept(code, ids, |ids|, out))
  {
    var at := UsefulPositions(code, ids, out);
    KeptIsPicked(code, ids, |ids|, out);
    forall k | 0 <= k < |ids| ensures k in at <==> HasToStay(code, ids, at, k, out) {
      UsefulIffStays(code, ids, k, out);
      hide HasToStay;
    }
    hide UsefulAt, HasToStay, PickedFrom, Kept;
    assert StayAt(code, ids, at, out);
  }

  lemma UsefulIffStays(code: seq<Ins>, ids: seq<InsId>, k: nat, out: set<RegId>)
    requires k < |ids|
    ensures UsefulAt(code, ids, k, out) <==> HasToStay(code, ids, UsefulPositions(code, ids, out), k, out)
  {
    hide Wanted, Needed, HasSideEffect, HasAttribute, UsefulPositions;
    var ins := InsAt(code, ids[k]);
    AttributesIff(ins.opcode);
    if DstOf(ins).Some? { NeededIff(code, ids, k + 1, DstOf(ins).value, out); }
  }

  // ---------------------------------------------------------------- the pass

  /** Is the instruction needed? If so its operands become live; either way its result is not. */
  method InsUpdateLiveness(ins: Ins, liveOut: set<RegId>) returns (isLive: bool, live: set<RegId>)
    requires WfIns(ins)
    ensures isLive == Useful(ins, liveOut)
    ensures live == if isLive then LiveBefore(ins, liveOut) else liveOut
  {
    live := liveOut;
    isLive := HasSideEffect(ins.opcode);
    var n := 0;
    while n < |ins.operands| && (n < NumDefs(ins.opcode) || isLive)
      invariant n <= |ins.operands|
      invariant n == 0 ==> isLive == HasSideEffect(ins.opcode) && live == liveOut
      invariant n > 0 ==> isLive == Useful(ins, liveOut)
      invariant n > 0 ==> live == (liveOut - DefsOf(ins)) + ReadBefore(ins, n)
      invariant n > NumDefs(ins.opcode) ==> isLive
    {
      var op := ins.operands[n];
      ReadOneMore(ins, n);
      if op.RegOp? {
        if n < NumDefs(ins.opcode) {
          if op.reg in live { isLive := true; }
          live := live - {op.reg};
        } else {
          live := live + {op.reg};
        }
      }
      n := n + 1;
    }
    ReadBeforeEnd(ins);
    if !isLive && n > 0 { StoppedEarly(ins, liveOut, n); }
  }

  lemma StoppedEarly(ins: Ins, liveOut: set<RegId>, n: nat)
    requires WfIns(ins) && n <= |ins.operands| && !Useful(ins, liveOut) && n <= NumDefs(ins.opcode)
    ensures ReadBefore(ins, n) == {} && liveOut - DefsOf(ins) == liveOut
  {
  }

  /** Walks a block backwards and keeps what is useful, in the original order. */
  method BblRemoveUselessInstructions(code: seq<Ins>, ids: seq<InsId>, liveOut: set<RegId>) returns (keep: seq<InsId>)
    requires forall i :: i in ids ==> WfIns(InsAt(code, i))
    ensures keep == Kept(code, ids, |ids|, liveOut)
    ensures OnlyUselessGone(code, ids, liveOut, keep)
  {
    keep := [];
    KeptHasToStay(code, ids, liveOut);
    hide OnlyUselessGone;
    var live := liveOut;
    for k := |ids| downto 0
      invariant live == Needed(code, ids, k, liveOut)
      invariant Kept(code, ids, k, liveOut) + keep == Kept(code, ids, |ids|, liveOut)
    {
      assert ids[k] in ids;
      var isLive;
      isLive, live := InsUpdateLiveness(InsAt(code, ids[k]), live);
      if isLive {
        assert Kept(code, ids, k + 1, liveOut) + keep == Kept(code, ids, k, liveOut) + ([ids[k]] + keep);
        keep := [ids[k]] + keep;
      }
    }
  }

  function PrunedBbl(f: Fn, b: BblId, liveOut: LiveMap): Bbl
    requires b in liveOut
  {
    BblAt(f, b).(inss := Kept(f.code, Ids(f, b), |Ids(f, b)|, liveOut[b]))
  }

  /** g is f with the blocks in `done` pruned. */
  ghost predicate Pruned(f: Fn, g: Fn, liveOut: LiveMap, done: set<BblId>) {
    && g == f.(bbls := g.bbls) && |g.bbls| == |f.bbls|
    && forall b :: BblAt(g, b) == if b in done && b in liveOut then PrunedBbl(f, b, liveOut) else BblAt(f, b)
  }

  lemma PruneOneMore(f: Fn, g: Fn, h: Fn, liveOut: LiveMap, done: set<BblId>, b: BblId)
    requires b in liveOut && b !in done && b.no < |f.bbls| && Pruned(f, g, liveOut, done)
    requires h == g.(bbls := g.bbls[b.no := PrunedBbl(f, b, liveOut)])
    ensures Pruned(f, h, liveOut, done + {b})
  {
    hide PrunedBbl;
    forall c ensures BblAt(h, c) == if c in done + {b} && c in liveOut then PrunedBbl(f, c, liveOut) else BblAt(f, c) {
      assert c.no == b.no <==> c == b;
    }
  }

  method FunRemoveUselessInstructions(fun: Fun)
    requires WfLayout(fun.View()) && WfOrder(fun.View()) && WfCode(fun.View())
    requires forall b :: b in fun.blocks ==> b in fun.liveOut
    modifies fun`bbls
    ensures Pruned(old(fun.View()), fun.View(), fun.liveOut, fun.blocks)
    ensures UselessGone(old(fun.View()), fun.View(), fun.liveOut)
  {
    ghost var f := fun.View();
    ghost var done: set<BblId> := {};
    hide Kept, Pruned, WfCode, WfLayout, UselessGone;
    PruneStarts(f, fun.liveOut);
    for k := 0 to |fun.order|
      invariant forall j :: 0 <= j < |f.order| ==> (f.order[j] in done <==> j < k)
      invariant done <= f.blocks
      invariant Pruned(f, fun.View(), fun.liveOut, done)
    {
      var b := fun.order[k];
      assert b in f.blocks;
      PrunedSoFar(f, fun.View(), fun.liveOut, done, b);
      var bbl := fun.bbls[b.no];
      ghost var g := fun.View();
      var keep := BblRemoveUselessInstructions(fun.code, bbl.inss, fun.liveOut[b]);
      fun.bbls := fun.bbls[b.no := bbl.(inss := keep)];
      PruneOneMore(f, g, fun.View(), fun.liveOut, done, b);
      done := done + {b};
    }
    assert done == f.blocks;
    PrunedIsExact(f, fun.View(), fun.liveOut);
  }

  /** Every block lost the instructions that do not have to stay, and nothing else changed. */
  ghost predicate UselessGone(f: Fn, g: Fn, liveOut: LiveMap) {
    && g == f.(bbls := g.bbls) && |g.bbls| == |f.bbls|
    && (forall b :: b in f.blocks && b in liveOut ==>
      OnlyUselessGone(f.code, BblAt(f, b).inss, liveOut[b], BblAt(g, b).inss)
      && BblAt(g, b) == BblAt(f, b).(inss := BblAt(g, b).inss))
    && (forall b :: !(b in f.blocks && b in liveOut) ==> BblAt(g, b) == BblAt(f, b))
  }

  lemma PrunedIsExact(f: Fn, g: Fn, liveOut: LiveMap)
    requires Pruned(f, g, liveOut, f.blocks)
    ensures UselessGone(f, g, liveOut)
  {
    forall b | b in f.blocks && b in liveOut
      ensures OnlyUselessGone(f.code, BblAt(f, b).inss, liveOut[b], BblAt(g, b).inss)
    {
      KeptHasToStay(f.code, Ids(f, b), liveOut[b]);
    }
    hide OnlyUselessGone, Kept;
  }

  lemma PruneStarts(f: Fn, liveOut: LiveMap)
    ensures Pruned(f, f, liveOut, {})
  {
    hide PrunedBbl;
  }

  lemma PrunedSoFar(f: Fn, g: Fn, liveOut: LiveMap, done: set<BblId>, b: BblId)
    requires WfLayout(f) && WfCode(f) && b in f.blocks && b !in done && Pruned(f, g, liveOut, done)
    ensures b.no < |g.bbls| == |f.bbls| && g.code == f.code && g.bbls[b.no] == BblAt(f, b)
    ensures forall i :: i in BblAt(f, b).inss ==> WfIns(InsAt(f.code, i))
  {
    WfInBlock(f, b);
    assert BblAt(g, b) == BblAt(f, b);
    hide WfIns, InsAt, PrunedBbl, UniqueIds;
  }

  // ---------------------------------------------------------------- runs

  /** The two states differ at most in registers outside `live`. */
  ghost predicate Agree(live: set<RegId>, s: State, t: State) {
    && s.mem == t.mem && s.trace == t.trace
    && forall r :: r in live ==> ReadReg(s.regs, r) == ReadReg(t.regs, r)
  }

  lemma SameUses(m: Machine, ins: Ins, s: State, t: State)
    requires Agree(UsesOf(ins), s, t)
    ensures UseVals(m, ins, s.regs) == UseVals(m, ins, t.regs)
  {
    if NumDefs(ins.opcode) <= |ins.operands| {
      var ops := ins.operands[NumDefs(ins.opcode)..];
      forall n | 0 <= n < |ops| ensures Eval(m, ops[n], s.regs) == Eval(m, ops[n], t.regs) {
        if ops[n].RegOp? {
          assert ins.operands[n + NumDefs(ins.opcode)] == RegOp(ops[n].reg);
          assert ops[n].reg in UsesOf(ins);
        }
        hide UsesOf;
      }
    }
  }

  /** A kept instruction turns agreement on what it needs into agreement on what comes after. */
  lemma KeptStep(m: Machine, ins: Ins, after: set<RegId>, s: State, t: State)
    requires Agree(LiveBefore(ins, after), s, t)
    ensures Agree(after, ExecIns(m, ins, s), ExecIns(m, ins, t))
  {
    assert UsesOf(ins) <= LiveBefore(ins, after);
    assert after - DefsOf(ins) <= LiveBefore(ins, after);
    SameUses(m, ins, s, t);
    forall r | r in after && DstOf(ins) != Some(r) ensures ReadReg(s.regs, r) == ReadReg(t.regs, r) {
      assert r in after - DefsOf(ins);
    }
    hide UseVals, Effect, LiveBefore, UsesOf, DefsOf;
  }

  /** A removed instruction only sets a register nobody needs. */
  lemma UselessStep(m: Machine, ins: Ins, after: set<RegId>, s: State, t: State)
    requires Agree(after, s, t) && !Useful(ins, after)
    ensures Agree(after, ExecIns(m, ins, s), t)
  {
    hide UseVals;
  }

  lemma {:induction false} ExecPrefix(m: Machine, code: seq<Ins>, xs: seq<InsId>, ys: seq<InsId>, k: nat, s: State)
    requires k <= |xs|
    ensures ExecIds(m, code, xs + ys, k, s) == ExecIds(m, code, xs, k, s)
  {
    hide ExecIns;
    if k > 0 { ExecPrefix(m, code, xs, ys, k - 1, s); }
  }

  lemma ExecOneMore(m: Machine, code: seq<Ins>, xs: seq<InsId>, i: InsId, s: State)
    ensures ExecIds(m, code, xs + [i], |xs + [i]|, s) == ExecIns(m, InsAt(code, i), ExecIds(m, code, xs, |xs|, s))
  {
    ExecPrefix(m, code, xs, [i], |xs|, s);
    hide ExecIns;
    assert |xs + [i]| - 1 == |xs| && (xs + [i])[|xs|] == i;
  }

  /** Within a block: after k instructions, respectively those kept of them. */
  lemma {:induction false} PrunedInBlock(m: Machine, code: seq<Ins>, ids: seq<InsId>, out: set<RegId>, k: nat, s: State, t: State)
    requires k <= |ids| && Agree(Needed(code, ids, 0, out), s, t)
    ensures var xs := Kept(code, ids, k, out);
      Agree(Needed(code, ids, k, out), ExecIds(m, code, ids, k, s), ExecIds(m, code, xs, |xs|, t))
  {
    KeptNext(m, code, ids, k, out, s, t);
    hide *;
    if k > 0 {
      PrunedInBlock(m, code, ids, out, k - 1, s, t);
      var xs := Kept(code, ids, k - 1, out);
      var ins, after := InsAt(code, ids[k - 1]), Needed(code, ids, k, out);
      var s', t' := ExecIds(m, code, ids, k - 1, s), ExecIds(m, code, xs, |xs|, t);
      if Useful(ins, after) {
        KeptStep(m, ins, after, s', t');
        ExecOneMore(m, code, xs, ids[k - 1], t);
      } else {
        UselessStep(m, ins, after, s', t');
      }
    }
  }

  lemma KeptNext(m: Machine, code: seq<Ins>, ids: seq<InsId>, k: nat, out: set<RegId>, s: State, t: State)
    requires k <= |ids|
    ensures k == 0 ==> Kept(code, ids, k, out) == [] && ExecIds(m, code, ids, k, s) == s && ExecIds(m, code, [], 0, t) == t
    ensures k > 0 ==>
      var ins, after := InsAt(code, ids[k - 1]), Needed(code, ids, k, out);
      && ExecIds(m, code, ids, k, s) == ExecIns(m, ins, ExecIds(m, code, ids, k - 1, s))
      && Needed(code, ids, k - 1, out) == (if Useful(ins, after) then LiveBefore(ins, after) else after)
      && Kept(code, ids, k, out) == (if Useful(ins, after) then Kept(code, ids, k - 1, out) + [ids[k - 1]] else Kept(code, ids, k - 1, out))
  {
    hide ExecIns, Useful, LiveBefore, InsAt;
  }

  /** Terminators stand at the end of blocks. */
  ghost predicate TerminatorsLast(f: Fn) {
    forall b, k :: b in f.blocks && 0 <= k < |Ids(f, b)| - 1 ==> !IsTerminator(InsAt(f.code, Ids(f, b)[k]).opcode)
  }

  lemma TerminatorIsUseful(ins: Ins, after: set<RegId>)
    requires IsTerminator(ins.opcode)
    ensures Useful(ins, after) && DefsOf(ins) == {}
  {
  }

  lemma {:induction false} KeptFromBlock(code: seq<Ins>, ids: seq<InsId>, k: nat, out: set<RegId>)
    requires k <= |ids|
    ensures forall i :: i in Kept(code, ids, k, out) ==> i in ids[..k]
  {
    if k > 0 {
      KeptFromBlock(code, ids, k - 1, out);
      assert ids[..k] == ids[..k - 1] + [ids[k - 1]];
      hide UsefulAt;
    }
  }

  /** Either both blocks end in the same terminator or in none. */
  lemma LastKept(f: Fn, g: Fn, liveOut: LiveMap, b: BblId)
    requires Pruned(f, g, liveOut, f.blocks) && TerminatorsLast(f) && b in f.blocks && b in liveOut
    ensures LastIns(f, b) == LastIns(g, b) ||
            (!IsTerminator(LastIns(f, b).opcode) && !IsTerminator(LastIns(g, b).opcode))
  {
    var ids := Ids(f, b);
    var keep := Kept(f.code, ids, |ids|, liveOut[b]);
    assert BblAt(g, b).inss == keep;
    if ids != [] {
      KeptFromBlock(f.code, ids, |ids| - 1, liveOut[b]);
      var last := InsAt(f.code, ids[|ids| - 1]);
      hide Needed;
      if IsTerminator(last.opcode) {
        TerminatorIsUseful(last, Needed(f.code, ids, |ids|, liveOut[b]));
        assert keep[|keep| - 1] == ids[|ids| - 1];
      } else if keep != [] {
        assert keep[|keep| - 1] in ids[..|ids| - 1] + [ids[|ids| - 1]];
      }
    }
  }

  /** At the end of a block the two states also agree on what its terminator reads. */
  lemma AgreeAtTerminator(m: Machine, f: Fn, g: Fn, liveOut: LiveMap, b: BblId, s: State, t: State)
    requires Pruned(f, g, liveOut, f.blocks) && b in f.blocks && b in liveOut
    requires Agree(LiveInOf(f, b, liveOut[b]), s, t)
    ensures Agree(liveOut[b], ExecBbl(m, f, b, s), ExecBbl(m, g, b, t))
    ensures IsTerminator(LastIns(f, b).opcode) ==> Agree(UsesOf(LastIns(f, b)), ExecBbl(m, f, b, s), ExecBbl(m, g, b, t))
  {
    var ids, out := Ids(f, b), liveOut[b];
    NeededIsLive(f.code, ids, 0, out);
    assert Agree(Needed(f.code, ids, 0, out), s, t);
    PrunedInBlock(m, f.code, ids, out, |ids|, s, t);
    assert BblAt(g, b).inss == Kept(f.code, ids, |ids|, out);
    if IsTerminator(LastIns(f, b).opcode) {
      TerminatorReads(m, f.code, ids, out, s, t);
    }
  }

  lemma TerminatorReads(m: Machine, code: seq<Ins>, ids: seq<InsId>, out: set<RegId>, s: State, t: State)
    requires ids != [] && IsTerminator(InsAt(code, ids[|ids| - 1]).opcode) && Agree(Needed(code, ids, 0, out), s, t)
    ensures var xs := Kept(code, ids, |ids|, out);
      Agree(UsesOf(InsAt(code, ids[|ids| - 1])), ExecIds(m, code, ids, |ids|, s), ExecIds(m, code, xs, |xs|, t))
  {
    var k := |ids| - 1;
    var ins, xs := InsAt(code, ids[k]), Kept(code, ids, k, out);
    PrunedInBlock(m, code, ids, out, k, s, t);
    TerminatorIsUseful(ins, out);
    assert Needed(code, ids, |ids|, out) == out;
    assert Needed(code, ids, k, out) == LiveBefore(ins, out);
    ExecOneMore(m, code, xs, ids[k], t);
    TerminatorChanges(m, ins, out, ExecIds(m, code, ids, k, s), ExecIds(m, code, xs, |xs|, t));
    hide Agree, ExecIns, Useful, LiveBefore, InsAt, Needed, UsesOf;
  }

  lemma TerminatorChanges(m: Machine, ins: Ins, out: set<RegId>, s: State, t: State)
    requires IsTerminator(ins.opcode) && Agree(LiveBefore(ins, out), s, t)
    ensures Agree(UsesOf(ins), ExecIns(m, ins, s), ExecIns(m, ins, t))
  {
    KeptStep(m, ins, out, s, t);
    hide UseVals;
  }

  /** Two runs keep step: same block with agreement on what is live there, or both over. */
  ghost predicate InStep(f: Fn, liveOut: LiveMap, v: Visit, w: Visit) {
    match (v, w)
    case (At(b, s), At(c, t)) => b == c && b in f.blocks && b in liveOut && Agree(LiveInOf(f, b, liveOut[b]), s, t)
    case (Done(s), Done(t)) => Agree({}, s, t)
    case _ => false
  }

  /** What a block needs at its start, its predecessors keep alive. */
  ghost predicate LiveSolution(f: Fn, liveOut: LiveMap) {
    && (forall b :: b in f.blocks ==> b in liveOut)
    && (forall b, s :: b in f.blocks && s in f.blocks && s in BblAt(f, b).edgeOut ==> LiveInOf(f, s, liveOut[s]) <= liveOut[b])
  }

  lemma ExactIsSolution(f: Fn, liveOut: LiveMap)
    requires ExactlyLive(f, liveOut)
    ensures LiveSolution(f, liveOut)
  {
    forall b, s, r | b in f.blocks && s in f.blocks && s in BblAt(f, b).edgeOut && r in LiveInOf(f, s, liveOut[s]) ensures r in liveOut[b] {
      LiveInIff(f, s, liveOut[s], r);
      ReadFromUnfolds(f, s, r);
      hide LiveInOf, Exposes, Defines, ReadFrom;
    }
  }

  lemma SameNext(m: Machine, f: Fn, g: Fn, liveOut: LiveMap, b: BblId, s: State, t: State)
    requires Pruned(f, g, liveOut, f.blocks) && TerminatorsLast(f) && b in f.blocks && b in liveOut
    requires IsTerminator(LastIns(f, b).opcode) ==> Agree(UsesOf(LastIns(f, b)), s, t)
    ensures EdgeNext(m, g, b, t) == EdgeNext(m, f, b, s)
  {
    LastKept(f, g, liveOut, b);
    assert BblAt(g, b).edgeOut == BblAt(f, b).edgeOut;
    if IsTerminator(LastIns(f, b).opcode) { SameUses(m, LastIns(f, b), s, t); }
    hide LastIns, UseVals, Pruned, TerminatorsLast, Agree;
  }

  lemma StepKeepsStep(m: Machine, f: Fn, g: Fn, liveOut: LiveMap, v: Visit, w: Visit)
    requires WfLayout(f) && TerminatorsLast(f) && LiveSolution(f, liveOut) && (forall b :: b in f.blocks ==> WfEdges(f, b))
    requires Pruned(f, g, liveOut, f.blocks) && InStep(f, liveOut, v, w)
    ensures InStep(f, liveOut, RunStep(m, f, v), RunStep(m, g, w))
  {
    if v.At? {
      var b, s, t := v.bbl, v.state, w.state;
      AgreeAtTerminator(m, f, g, liveOut, b, s, t);
      var s', t' := ExecBbl(m, f, b, s), ExecBbl(m, g, b, t);
      SameNext(m, f, g, liveOut, b, s', t');
      NextIsEdge(m, f, b, s');
      NextInside(m, f, b, s');
      hide EdgeNext, ExecBbl, LiveInOf, WfLayout, TerminatorsLast, Pruned, WfEdges, BblAt;
    }
  }

  lemma StartsInStep(f: Fn, g: Fn, m: Machine, liveOut: LiveMap, s0: State)
    requires WfLayout(f) && LiveSolution(f, liveOut) && Pruned(f, g, liveOut, f.blocks)
    ensures InStep(f, liveOut, Run(m, f, s0, 0), Run(m, g, s0, 0))
  {
    hide LiveInOf, PrunedBbl;
  }

  lemma RunUnfolds(m: Machine, f: Fn, s0: State, n: nat)
    requires n > 0
    ensures Run(m, f, s0, n) == RunStep(m, f, Run(m, f, s0, n - 1))
  {
    hide RunStep;
  }

  lemma {:induction false} PrunedRunsInStep(m: Machine, f: Fn, g: Fn, liveOut: LiveMap, s0: State, n: nat)
    requires WfLayout(f) && TerminatorsLast(f) && LiveSolution(f, liveOut) && (forall b :: b in f.blocks ==> WfEdges(f, b))
    requires Pruned(f, g, liveOut, f.blocks)
    ensures InStep(f, liveOut, Run(m, f, s0, n), Run(m, g, s0, n))
  {
    hide *;
    if n > 0 {
      PrunedRunsInStep(m, f, g, liveOut, s0, n - 1);
      StepKeepsStep(m, f, g, liveOut, Run(m, f, s0, n - 1), Run(m, g, s0, n - 1));
      RunUnfolds(m, f, s0, n);
      RunUnfolds(m, g, s0, n);
    } else {
      StartsInStep(f, g, m, liveOut, s0);
    }
  }

  /** The pruned function cannot be told apart: at every step of every run it is at the same block
      (or over as well) with the same memory and the same events behind it, and every register
      that may still be read holds the same value. */
  ghost predicate SameButForDead(f: Fn, g: Fn) {
    forall m: Machine, s0: State, n: nat :: VisitsMatch(f, Run(m, f, s0, n), Run(m, g, s0, n))
  }

  ghost predicate VisitsMatch(f: Fn, v: Visit, w: Visit) {
    && (v.At? <==> w.At?)
    && v.state.mem == w.state.mem && v.state.trace == w.state.trace
    && (v.At? ==> v.bbl == w.bbl && forall r :: ReadFrom(f, v.bbl, r) ==> ReadReg(v.state.regs, r) == ReadReg(w.state.regs, r))
  }

  lemma InStepMatches(f: Fn, liveOut: LiveMap, v: Visit, w: Visit)
    requires ExactlyLive(f, liveOut) && InStep(f, liveOut, v, w)
    ensures VisitsMatch(f, v, w)
  {
    if v.At? {
      forall r | ReadFrom(f, v.bbl, r) ensures ReadReg(v.state.regs, r) == ReadReg(w.state.regs, r) {
        LiveInIff(f, v.bbl, liveOut[v.bbl], r);
        ReadFromUnfolds(f, v.bbl, r);
        hide LiveInOf, Exposes, Defines, ReadFrom, ReadAfter;
      }
    }
  }

  lemma PrunedRunsAgree(f: Fn, g: Fn, liveOut: LiveMap)
    requires WfLayout(f) && TerminatorsLast(f) && (forall b :: b in f.blocks ==> WfEdges(f, b))
    requires ExactlyLive(f, liveOut) && Pruned(f, g, liveOut, f.blocks)
    ensures SameButForDead(f, g)
  {
    ExactIsSolution(f, liveOut);
    hide WfLayout, TerminatorsLast, WfEdges, ExactlyLive, Pruned, InStep, Run, LiveSolution;
    forall m: Machine, s0: State, n: nat ensures VisitsMatch(f, Run(m, f, s0, n), Run(m, g, s0, n)) {
      PrunedRunsInStep(m, f, g, liveOut, s0, n);
      InStepMatches(f, liveOut, Run(m, f, s0, n), Run(m, g, s0, n));
    }
  }

  /** Liveness and dead-instruction removal as the optimizer runs them, one after the other. */
  method ComputeLivenessAndRemoveUseless(fun: Fun)
    requires Wf(fun.View()) && MutualEdges(fun.View()) && TerminatorsLast(fun.View())
    modifies fun`bbls, fun`liveOut
    ensures SameButForDead(old(fun.View()), fun.View())
    ensures ExactlyLive(old(fun.View()), fun.liveOut) && UselessGone(old(fun.View()), fun.View(), fun.liveOut)
  {
    ghost var f := fun.View();
    hide UselessGone, WfLayout, WfOrder, WfCode, WfEdges, TerminatorsLast, SameButForDead, MutualEdges, ReadAfter, PrunedBbl;
    FunComputeLivenessInfo(fun);
    FunRemoveUselessInstructions(fun);
    PrunedRunsAgree(f, fun.View(), fun.liveOut);
  }
}
