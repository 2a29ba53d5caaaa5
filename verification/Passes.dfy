/** The rewrite passes as they run: in place, block by block and instruction by instruction,
    each against the function it computes in module Rewrites. */
module Passes {
  import opened IR
  import opened ReachingDefs
  import opened Avail
  import opened Rewrites
  import opened Replaced

  lemma {:induction false} RewriteInsSize(pass: Pass, code: seq<Ins>, tags: DefMap, i: InsId, l: nat)
    requires i < |code| && |code[i].defs| == |code[i].operands|
    ensures var code' := RewriteIns(pass, code, tags, i, l);
      |code'| == |code| && |code'[i].operands| == |code[i].operands| == |code'[i].defs|
  {
    if l > 0 {
      RewriteInsSize(pass, code, tags, i, l - 1);
      RewriteAtSize(pass, RewriteIns(pass, code, tags, i, l - 1), tags, RewriteIns(pass, code, tags, i, l - 1)[i], l - 1);
      hide RewriteAt;
    }
  }

  lemma RewriteAtSize(pass: Pass, code: seq<Ins>, tags: DefMap, ins: Ins, l: nat)
    requires |ins.defs| == |ins.operands|
    ensures var ins' := RewriteAt(pass, code, tags, ins, l);
      |ins'.operands| == |ins.operands| == |ins'.defs|
  {
    hide DefAvailable, WfIns, FoldedOpcode, CombinedOffset, InsAt;
  }

  /** Every operand a mov set is replaced by the source of that mov, if the source is still there. */
  method InsPropagateRegs(fun: Fun, i: InsId, tags: DefMap)
    requires i < |fun.code| && |fun.code[i].defs| == |fun.code[i].operands|
    modifies fun`code
    ensures fun.code == RewriteIns(PropagateRegs(fun.cpuRegs), old(fun.code), tags, i, |old(fun.code)[i].operands|)
    ensures |fun.code| == |old(fun.code)| && fun.code == old(fun.code)[i := fun.code[i]]
    ensures CopiesReplaced(old(fun.code), fun.cpuRegs, tags, old(fun.code)[i], fun.code[i])
  {
    CopiesAreDone(fun.code, fun.cpuRegs, tags, i);
    hide CopiesReplaced;
    ghost var code0 := fun.code;
    ghost var pass := PropagateRegs(fun.cpuRegs);
    for l := 0 to |fun.code[i].operands|
      invariant fun.code == RewriteIns(pass, code0, tags, i, l)
      invariant |fun.code| == |code0| && |fun.code[i].operands| == |code0[i].operands| == |fun.code[i].defs|
    {
      RewriteInsSize(pass, code0, tags, i, l + 1);
      ghost var before := fun.code;
      var ins := fun.code[i];
      if ins.defs[l].Some? && ins.defs[l].value.DefIns? {
        var mov := InsAt(fun.code, ins.defs[l].value.ins);
        if mov.opcode.Mov? && |mov.operands| == 2 && |mov.defs| == 2 {
          var src, srcDef := mov.operands[1], mov.defs[1];
          if src.RegOp? && src.reg !in fun.cpuRegs && srcDef.Some? && src.reg in tags && tags[src.reg] == srcDef.value {
            fun.code := fun.code[i := ins.(operands := ins.operands[l := src], defs := ins.defs[l := srcDef])];
          }
        }
      }
      assert fun.code == before[i := RewriteAt(pass, before, tags, before[i], l)];
    }
  }

  /** Every operand a mov set to a constant becomes that constant. */
  method InsPropagateConsts(fun: Fun, i: InsId, ghost tags: DefMap)
    requires i < |fun.code| && |fun.code[i].defs| == |fun.code[i].operands|
    modifies fun`code
    ensures fun.code == RewriteIns(PropagateConsts, old(fun.code), tags, i, |old(fun.code)[i].operands|)
    ensures |fun.code| == |old(fun.code)| && fun.code == old(fun.code)[i := fun.code[i]]
    ensures ConstsReplaced(old(fun.code), old(fun.code)[i], fun.code[i])
  {
    ConstsAreDone(fun.code, tags, i);
    hide ConstsReplaced;
    ghost var code0 := fun.code;
    for l := 0 to |fun.code[i].operands|
      invariant fun.code == RewriteIns(PropagateConsts, code0, tags, i, l)
      invariant |fun.code| == |code0| && |fun.code[i].operands| == |code0[i].operands| == |fun.code[i].defs|
    {
      RewriteInsSize(PropagateConsts, code0, tags, i, l + 1);
      ghost var before := fun.code;
      var ins := fun.code[i];
      if ins.defs[l].Some? && ins.defs[l].value.DefIns? {
        var mov := InsAt(fun.code, ins.defs[l].value.ins);
        if mov.opcode.Mov? && |mov.operands| == 2 && |mov.defs| == 2 && mov.operands[1].ConstOp? {
          fun.code := fun.code[i := ins.(operands := ins.operands[l := mov.operands[1]], defs := ins.defs[l := None])];
        }
      }
      assert fun.code == before[i := RewriteAt(PropagateConsts, before, tags, before[i], l)];
    }
  }

  /** A ld, st or lea takes over base and offset of the lea or mov that set its base. */
  method InsTryLoadStoreSimplify(fun: Fun, i: InsId, tags: DefMap)
    requires i < |fun.code| && WfIns(fun.code[i])
    modifies fun`code
    ensures fun.code == RewriteIns(LoadStoreSimplify, old(fun.code), tags, i, |old(fun.code)[i].operands|)
    ensures AllWfIns(old(fun.code)) && AllForms(old(fun.code)) ==>
      && |fun.code| == |old(fun.code)| && fun.code == old(fun.code)[i := fun.code[i]]
      && Folded(old(fun.code), tags, old(fun.code)[i], fun.code[i]) && AllForms(fun.code)
  {
    ghost var code0 := fun.code;
    if |fun.code[i].operands| > 0 { FoldIsOneStep(code0, tags, i, |fun.code[i].operands|); }
    if AllWfIns(code0) && AllForms(code0) { FoldsAreDone(code0, tags, i); }
    hide RewriteIns, AllWfIns, AllForms, Folded;
    var ins := fun.code[i];
    if ins.opcode.St? || ins.opcode.Ld? || ins.opcode.Lea? {
      var basePos := if ins.opcode.St? then 0 else 1;
      if ins.defs[basePos].Some? && ins.defs[basePos].value.DefIns? {
        var insBase := InsAt(fun.code, ins.defs[basePos].value.ins);
        var newOpc := FoldedOpcode(insBase.opcode, ins.opcode);
        if newOpc.Some? && WfIns(insBase) && DefAvailable(insBase.operands[1], insBase.defs[1], tags) {
          var offset := CombinedOffset(ins, insBase);
          if offset.Some? && DefAvailable(offset.value.op, offset.value.tag, tags) {
            var base, baseDef := insBase.operands[1], insBase.defs[1];
            if basePos == 0 {
              fun.code := fun.code[i := Ins(newOpc.value, [base, offset.value.op, ins.operands[2]],
                                                          [baseDef, offset.value.tag, ins.defs[2]])];
            } else {
              fun.code := fun.code[i := Ins(newOpc.value, [ins.operands[0], base, offset.value.op],
                                                          [ins.defs[0], baseDef, offset.value.tag])];
            }
          }
        }
      }
      assert fun.code == code0[i := SimplifyLoadStore(code0, tags, code0[i])];
    } else {
      OtherOpcode(code0, tags, i);
    }
  }

  lemma OtherOpcode(code: seq<Ins>, tags: DefMap, i: InsId)
    requires i < |code| && !(code[i].opcode.St? || code[i].opcode.Ld? || code[i].opcode.Lea?)
    ensures RewriteIns(LoadStoreSimplify, code, tags, i, |code[i].operands|) == code
  {
    if |code[i].operands| > 0 { FoldIsOneStep(code, tags, i, |code[i].operands|); }
    hide RewriteIns;
    assert code[i := code[i]] == code;
  }

  method InsRewrite(fun: Fun, pass: Pass, i: InsId, tags: DefMap)
    requires i < |fun.code| && WfIns(fun.code[i]) && (pass.PropagateRegs? ==> pass.cpuRegs == fun.cpuRegs)
    modifies fun`code
    ensures fun.code == RewriteIns(pass, old(fun.code), tags, i, |old(fun.code)[i].operands|)
  {
    match pass {
      case PropagateRegs(_) => InsPropagateRegs(fun, i, tags);
      case PropagateConsts => InsPropagateConsts(fun, i, tags);
      case LoadStoreSimplify => InsTryLoadStoreSimplify(fun, i, tags);
    }
  }

  lemma RewrittenIns(f: Fn, g: Fn, live: set<RegId>, defsIn: map<BblId, DefMap>, i: InsId)
    requires Rewritten(f, g, live, defsIn)
    ensures |g.code| == |f.code| && (i < |g.code| ==> WfIns(g.code[i])) && DstOf(InsAt(g.code, i)) == DstOf(InsAt(f.code, i))
    ensures g == f.(code := g.code)
  {
    hide WfIns, DstOf, RewrittenOn, WfTags;
  }

  lemma TagsMoveOn(f: Fn, g: Fn, h: Fn, live: set<RegId>, defsIn: map<BblId, DefMap>, b: BblId, k: nat)
    requires Rewritten(f, g, live, defsIn) && Rewritten(f, h, live, defsIn)
    requires b in defsIn && k < |BblAt(f, b).inss|
    ensures var ids := BblAt(f, b).inss;
      TagsAt(h.code, ids, k + 1, defsIn[b]) == WithDst(InsAt(h.code, ids[k]), ids[k], TagsAt(g.code, ids, k, defsIn[b]))
  {
    SameTagsInRewritten(f, g, h, live, defsIn, b, k);
    hide Rewritten, InsAt, WithDst;
  }

  /** What holds of the code after the first k instructions of block b. */
  ghost predicate Halfway(f: Fn, g: Fn, h: Fn, live: set<RegId>, defsIn: map<BblId, DefMap>, pass: Pass, b: BblId, k: nat)
    requires b in defsIn && k <= |BblAt(f, b).inss|
  {
    && h == g.(code := RewriteBbl(pass, g.code, BblAt(f, b).inss, k, defsIn[b]))
    && Rewritten(f, g, live, defsIn) && Rewritten(f, h, live, defsIn)
  }

  lemma HalfwayIns(f: Fn, g: Fn, h: Fn, live: set<RegId>, defsIn: map<BblId, DefMap>, pass: Pass, b: BblId, k: nat)
    requires WfCode(f) && b in f.blocks && b in defsIn && k < |BblAt(f, b).inss| && Halfway(f, g, h, live, defsIn, pass, b, k)
    ensures var i := BblAt(f, b).inss[k]; i < |h.code| && WfIns(h.code[i]) && InsAt(h.code, i) == h.code[i]
  {
    var i := BblAt(f, b).inss[k];
    assert i in BblAt(f, b).inss;
    RewrittenIns(f, h, live, defsIn, i);
    hide Rewritten, WfIns, RewriteBbl;
  }

  lemma HalfwayOn(f: Fn, g: Fn, h: Fn, h': Fn, live: set<RegId>, defsIn: map<BblId, DefMap>, pass: Pass, b: BblId, k: nat)
    requires WfCode(f) && b in f.blocks && b in defsIn && k < |BblAt(f, b).inss| && Halfway(f, g, h, live, defsIn, pass, b, k)
    requires var i := BblAt(f, b).inss[k];
      h' == h.(code := RewriteIns(pass, h.code, TagsAt(h.code, BblAt(f, b).inss, k, defsIn[b]), i, |InsAt(h.code, i).operands|))
    ensures Halfway(f, g, h', live, defsIn, pass, b, k + 1)
    ensures BblAt(f, b).inss[k] < |h'.code|
    ensures InsAt(h'.code, BblAt(f, b).inss[k]) == h'.code[BblAt(f, b).inss[k]]
    ensures TagsAt(h'.code, BblAt(f, b).inss, k + 1, defsIn[b]) ==
      WithDst(InsAt(h'.code, BblAt(f, b).inss[k]), BblAt(f, b).inss[k], TagsAt(h.code, BblAt(f, b).inss, k, defsIn[b]))
  {
    var i := BblAt(f, b).inss[k];
    assert i in BblAt(f, b).inss;
    hide RewriteIns, TagsAt, WfIns, Rewritten, WithDst;
    RewriteBblKeeps(f, g, live, defsIn, pass, b, k + 1);
    assert Rewritten(f, h', live, defsIn);
    TagsMoveOn(f, h, h', live, defsIn, b, k);
    RewrittenIns(f, h', live, defsIn, i);
  }

  lemma HalfwayStarts(f: Fn, g: Fn, live: set<RegId>, defsIn: map<BblId, DefMap>, pass: Pass, b: BblId)
    requires Rewritten(f, g, live, defsIn) && b in defsIn
    ensures Halfway(f, g, g, live, defsIn, pass, b, 0) && BblAt(g, b) == BblAt(f, b)
    ensures TagsAt(g.code, BblAt(f, b).inss, 0, defsIn[b]) == defsIn[b]
  {
    RewrittenIns(f, g, live, defsIn, 0);
    hide Rewritten;
  }

  lemma HalfwayParts(f: Fn, g: Fn, h: Fn, live: set<RegId>, defsIn: map<BblId, DefMap>, pass: Pass, b: BblId, k: nat)
    requires b in defsIn && k <= |BblAt(f, b).inss| && Halfway(f, g, h, live, defsIn, pass, b, k)
    ensures h == g.(code := RewriteBbl(pass, g.code, BblAt(f, b).inss, k, defsIn[b])) && Rewritten(f, h, live, defsIn)
  {
    hide Rewritten, RewriteBbl;
  }

  /** One block, tracking what its registers are tagged with while going through it. */
  method BblRewrite(fun: Fun, pass: Pass, b: BblId, ghost f: Fn, ghost live: set<RegId>)
    requires Rewritten(f, fun.View(), live, fun.defsIn) && WfCode(f)
    requires b in f.blocks && b in fun.defsIn && (pass.PropagateRegs? ==> pass.cpuRegs == fun.cpuRegs)
    modifies fun`code
    ensures fun.code == RewriteBbl(pass, old(fun.code), BblAt(f, b).inss, |BblAt(f, b).inss|, fun.defsIn[b])
    ensures Rewritten(f, fun.View(), live, fun.defsIn)
  {
    ghost var g := fun.View();
    hide Rewritten, RewriteIns, WfIns, TagsAt, Halfway, RewriteBbl, InsAt;
    HalfwayStarts(f, g, live, fun.defsIn, pass, b);
    var ids := BblAt(fun.View(), b).inss;
    var tags := fun.defsIn[b];
    for k := 0 to |ids|
      invariant Halfway(f, g, fun.View(), live, fun.defsIn, pass, b, k)
      invariant tags == TagsAt(fun.code, ids, k, fun.defsIn[b])
    {
      ghost var h := fun.View();
      var i := ids[k];
      HalfwayIns(f, g, h, live, fun.defsIn, pass, b, k);
      InsRewrite(fun, pass, i, tags);
      HalfwayOn(f, g, h, fun.View(), live, fun.defsIn, pass, b, k);
      tags := WithDst(fun.code[i], i, tags);
    }
    HalfwayParts(f, g, fun.View(), live, fun.defsIn, pass, b, |ids|);
  }

  lemma StageKeeps(f: Fn, g: Fn, live: set<RegId>, defsIn: map<BblId, DefMap>, pass: Pass, n: nat, k: nat)
    requires Rewritten(f, g, live, defsIn) && WfCode(f) && WfOrder(f) && (forall b :: b in f.blocks ==> b in defsIn)
    requires IsStage(g, n, k)
    ensures Rewritten(f, g.(code := Stage(pass, g, defsIn, n, k)), live, defsIn)
  {
    RewrittenIns(f, g, live, defsIn, 0);
    assert forall j :: 0 <= j < |f.order| ==> f.order[j] in f.blocks;
    hide Rewritten, WfCode, WfOrder, RewriteBbl, RewriteFun;
    RewriteFunKeeps(f, g, live, defsIn, pass, n);
    var b, h := g.order[n], g.(code := RewriteFun(pass, g, defsIn, n));
    assert BblAt(g, b) == BblAt(f, b);
    RewriteBblKeeps(f, h, live, defsIn, pass, b, k);
  }

  lemma RewrittenSize(f: Fn, g: Fn, live: set<RegId>, defsIn: map<BblId, DefMap>)
    requires Rewritten(f, g, live, defsIn)
    ensures AllWfIns(g.code) && |g.code| == |f.code|
  {
    RewrittenIns(f, g, live, defsIn, 0);
    hide AllWfIns, RewrittenOn;
  }

  lemma {:induction false} StageForms(f: Fn, g: Fn, live: set<RegId>, defsIn: map<BblId, DefMap>, pass: Pass, n: nat, k: nat)
    requires Rewritten(f, g, live, defsIn) && WfCode(f) && WfOrder(f) && (forall b :: b in f.blocks ==> b in defsIn)
    requires AllForms(g.code) && IsStage(g, n, k)
    ensures AllForms(Stage(pass, g, defsIn, n, k))
    decreases n, k
  {
    hide *;
    StageBounds(g, n, k);
    if k > 0 {
      StageForms(f, g, live, defsIn, pass, n, k - 1);
      StageKeeps(f, g, live, defsIn, pass, n, k - 1);
      StageFormsNext(f, g, live, defsIn, pass, n, k - 1);
    } else if n > 0 {
      StageEnds(pass, g, defsIn, n - 1);
      StageEnds(pass, g, defsIn, n);
      StageForms(f, g, live, defsIn, pass, n - 1, |BblAt(g, g.order[n - 1]).inss|);
    } else {
      StageStarts(pass, g, defsIn);
    }
  }

  lemma StageFormsNext(f: Fn, g: Fn, live: set<RegId>, defsIn: map<BblId, DefMap>, pass: Pass, n: nat, k: nat)
    requires IsStage(g, n, k) && k < |BblAt(g, g.order[n]).inss| && AllForms(Stage(pass, g, defsIn, n, k))
    requires Rewritten(f, g, live, defsIn) && WfCode(f) && WfOrder(f)
    requires Rewritten(f, g.(code := Stage(pass, g, defsIn, n, k)), live, defsIn)
    ensures AllForms(Stage(pass, g, defsIn, n, k + 1))
  {
    var b, ids, now := g.order[n], BblAt(g, g.order[n]).inss, Stage(pass, g, defsIn, n, k);
    RewrittenIns(f, g, live, defsIn, 0);
    RewrittenSize(f, g.(code := now), live, defsIn);
    IdsAre(f, n, k);
    hide Rewritten, WfCode, WfOrder, AllForms, AllWfIns, RewriteIns, RewriteFun, TagsAt;
    FormsStay(pass, now, TagsAt(now, ids, k, if b in defsIn then defsIn[b] else map[]), ids[k]);
  }

  lemma SameLayout(f: Fn, g: Fn)
    requires g == f.(code := g.code) && |g.code| == |f.code| && WfCode(f) && WfOrder(f)
    ensures UniqueIds(g) && WfOrder(g) && g.blocks == f.blocks && (forall b :: b in g.order ==> b in f.blocks)
    ensures forall b, i :: b in g.blocks && i in BblAt(g, b).inss ==> i < |g.code|
  {
    assert forall b :: BblAt(g, b) == BblAt(f, b);
    hide BblAt;
  }

  /** What one pass leaves behind; folding relies on operands that are of the kinds their opcodes ask for. */
  ghost predicate PassLeft(pass: Pass, f: Fn, defsIn: map<BblId, DefMap>, code': seq<Ins>) {
    && ((pass.LoadStoreSimplify? ==> AllForms(f.code)) ==> PassDone(pass, f, defsIn, f.code, code'))
    && (AllForms(f.code) ==> AllForms(code'))
  }

  lemma PassLeaves(f: Fn, g: Fn, live: set<RegId>, defsIn: map<BblId, DefMap>, pass: Pass)
    requires Rewritten(f, g, live, defsIn) && WfCode(f) && WfOrder(f) && (forall b :: b in f.blocks ==> b in defsIn)
    ensures PassLeft(pass, g, defsIn, RewriteFun(pass, g, defsIn, |g.order|))
  {
    RewrittenIns(f, g, live, defsIn, 0);
    SameLayout(f, g);
    hide Rewritten, WfCode, WfOrder, UniqueIds, AllForms, Stage, RewriteFun, PassDone, AllWfIns;
    if pass.LoadStoreSimplify? ==> AllForms(g.code) {
      forall n, k | IsStage(g, n, k) ensures Ready(pass, Stage(pass, g, defsIn, n, k)) && |Stage(pass, g, defsIn, n, k)| == |g.code| {
        StageKeeps(f, g, live, defsIn, pass, n, k);
        RewrittenSize(f, g.(code := Stage(pass, g, defsIn, n, k)), live, defsIn);
        if pass.LoadStoreSimplify? { StageForms(f, g, live, defsIn, pass, n, k); }
      }
      PassIsDone(pass, g, defsIn);
    }
    if AllForms(g.code) { LastForms(f, g, live, defsIn, pass); }
  }

  lemma LastForms(f: Fn, g: Fn, live: set<RegId>, defsIn: map<BblId, DefMap>, pass: Pass)
    requires Rewritten(f, g, live, defsIn) && WfCode(f) && WfOrder(f) && (forall b :: b in f.blocks ==> b in defsIn)
    requires AllForms(g.code)
    ensures AllForms(RewriteFun(pass, g, defsIn, |g.order|))
  {
    RewrittenIns(f, g, live, defsIn, 0);
    var n := |g.order| - 1;
    assert n >= 0;
    StageEnds(pass, g, defsIn, n);
    hide *;
    StageForms(f, g, live, defsIn, pass, n, |BblAt(g, g.order[n]).inss|);
  }

  /** One pass over all blocks. It may be run after others, as the optimizer does: every run of the
      function it is given is still, state for state, a run of the function that was analysed. */
  method FunRewrite(fun: Fun, pass: Pass, ghost f: Fn, ghost live: set<RegId>)
    requires Rewritten(f, fun.View(), live, fun.defsIn) && WfCode(f) && WfOrder(f)
    requires (forall b :: b in f.blocks ==> b in fun.defsIn) && (pass.PropagateRegs? ==> pass.cpuRegs == fun.cpuRegs)
    modifies fun`code
    ensures fun.code == RewriteFun(pass, old(fun.View()), fun.defsIn, |fun.order|)
    ensures Rewritten(f, fun.View(), live, fun.defsIn)
    ensures SameRuns(f, fun.View())
    ensures PassLeft(pass, old(fun.View()), fun.defsIn, fun.code)
  {
    ghost var g := fun.View();
    hide Rewritten, RewriteBbl, RewriteFun, BblAt, WfCode, WfOrder, SameRuns, PassLeft;
    RewriteFunStarts(pass, g, fun.defsIn);
    for n := 0 to |fun.order|
      invariant fun.code == RewriteFun(pass, g, fun.defsIn, n)
      invariant Rewritten(f, fun.View(), live, fun.defsIn)
    {
      BlockInBoth(f, g, live, fun.defsIn, n);
      RewriteFunNext(pass, g, fun.defsIn, n);
      BblRewrite(fun, pass, fun.order[n], f, live);
    }
    PassLeaves(f, g, live, fun.defsIn, pass);
    RewrittenRunsAlike(f, fun.View(), live, fun.defsIn);
  }

  lemma RewriteFunStarts(pass: Pass, f: Fn, defsIn: map<BblId, DefMap>)
    ensures RewriteFun(pass, f, defsIn, 0) == f.code
  {
  }

  lemma RewriteFunNext(pass: Pass, f: Fn, defsIn: map<BblId, DefMap>, n: nat)
    requires n < |f.order| && f.order[n] in defsIn
    ensures var ids := BblAt(f, f.order[n]).inss;
      RewriteFun(pass, f, defsIn, n + 1) == RewriteBbl(pass, RewriteFun(pass, f, defsIn, n), ids, |ids|, defsIn[f.order[n]])
  {
    hide RewriteBbl;
  }

  lemma BlockInBoth(f: Fn, g: Fn, live: set<RegId>, defsIn: map<BblId, DefMap>, n: nat)
    requires Rewritten(f, g, live, defsIn) && WfOrder(f) && n < |g.order|
    ensures g.order[n] in f.blocks && BblAt(g, g.order[n]) == BblAt(f, g.order[n])
  {
    RewrittenIns(f, g, live, defsIn, 0);
    hide Rewritten;
  }

  /** What the three passes make of a function, one after the other. */
  ghost predicate Optimized(cpuRegs: set<RegId>, tagged: Fn, defsIn: map<BblId, DefMap>, copied: seq<Ins>, constant: seq<Ins>, code': seq<Ins>) {
    && PassDone(PropagateRegs(cpuRegs), tagged, defsIn, tagged.code, copied)
    && PassDone(PropagateConsts, tagged.(code := copied), defsIn, copied, constant)
    && (AllForms(tagged.code) ==> PassDone(LoadStoreSimplify, tagged.(code := constant), defsIn, constant, code') && AllForms(code'))
  }

  lemma OptimizedIs(cpuRegs: set<RegId>, tagged: Fn, defsIn: map<BblId, DefMap>, copied: seq<Ins>, constant: seq<Ins>, code': seq<Ins>)
    requires PassLeft(PropagateRegs(cpuRegs), tagged, defsIn, copied)
    requires PassLeft(PropagateConsts, tagged.(code := copied), defsIn, constant)
    requires PassLeft(LoadStoreSimplify, tagged.(code := constant), defsIn, code')
    ensures Optimized(cpuRegs, tagged, defsIn, copied, constant, code')
  {
    hide PassDone, AllForms;
  }

  /** The part of the basic optimization that rests on reaching definitions, in the order the
      optimizer runs it: afterwards no run can be told apart from before, and every operand that
      could be replaced when its turn came has been. */
  method OptimizeWithReachingDefs(fun: Fun) returns (ghost tagged: Fn, ghost copied: seq<Ins>, ghost constant: seq<Ins>)
    requires Wf(fun.View()) && AllReachable(fun.View())
    requires forall i :: 0 <= i < |fun.code| && i !in IdsOfBlocks(fun.View(), fun.blocks) ==> WfTags(fun.code[i])
    modifies fun`code, fun`defsIn
    ensures SameRuns(old(fun.View()), fun.View())
    ensures Solution(old(fun.View()), AllUses(old(fun.View())), fun.defsIn)
    ensures TaggedBlocks(old(fun.View()), tagged, fun.defsIn, fun.blocks) && Optimized(fun.cpuRegs, tagged, fun.defsIn, copied, constant, fun.code)
    ensures AllForms(old(fun.code)) ==> AllForms(tagged.code)
  {
    ghost var f := fun.View();
    ghost var live := AllUses(f);
    hide AllReachable, WfLayout, WfCode, WfOrder, WfEdges, Solution, AllJustified, TaggedBlocks, SameRuns, Rewritten, AllUses;
    hide PassLeft, Optimized, AllForms;
    FunComputeReachingDefs(fun);
    tagged := fun.View();
    SolutionCovers(f, live, fun.defsIn);
    AnalysedIsRewritten(f, fun.View(), fun.defsIn);
    TaggedForms(f, tagged, fun.defsIn);
    FunRewrite(fun, PropagateRegs(fun.cpuRegs), f, live);
    copied := fun.code;
    FunRewrite(fun, PropagateConsts, f, live);
    constant := fun.code;
    FunRewrite(fun, LoadStoreSimplify, f, live);
    OptimizedIs(fun.cpuRegs, tagged, fun.defsIn, copied, constant, fun.code);
  }

  lemma TaggedForms(f: Fn, g: Fn, defsIn: map<BblId, DefMap>)
    requires (forall b :: b in f.blocks ==> b in defsIn) && TaggedBlocks(f, g, defsIn, f.blocks)
    ensures AllForms(f.code) ==> AllForms(g.code)
  {
    TaggedOnlyTagsDiffer(f, g, defsIn);
    hide TaggedBlocks;
    if AllForms(f.code) { FormsIgnoreTags(f, g); }
  }

  lemma FormIgnoresTags(ins: Ins, ins': Ins)
    requires ins'.opcode == ins.opcode && ins'.operands == ins.operands && FormFits(ins)
    ensures FormFits(ins')
  {
  }

  lemma FormsIgnoreTags(f: Fn, g: Fn)
    requires OnlyTagsDiffer(f, g) && AllForms(f.code)
    ensures AllForms(g.code)
  {
    hide FormFits;
    forall i | 0 <= i < |g.code| ensures FormFits(g.code[i]) {
      OnlyTagsIns(f, g, i);
      FormIgnoresTags(f.code[i], g.code[i]);
    }
  }

  lemma SolutionCovers(f: Fn, live: set<RegId>, defsIn: map<BblId, DefMap>)
    requires Solution(f, live, defsIn)
    ensures forall b :: b in f.blocks ==> b in defsIn
  {
  }
}
