/** Surgery on the control-flow graph: edges between blocks, their redirection, and the removal of
    empty blocks. The run of the result is the run of the original without the visits to removed
    blocks (`EmptyBblsDontMatter`). */
module Cfg {
  import opened IR

  // ---------------------------------------------------------------- redirecting edges

  function Subst(x: BblId, src: BblId, dst: BblId): BblId { if x == src then dst else x }

  function SubstSeq(xs: seq<BblId>, src: BblId, dst: BblId): (ys: seq<BblId>)
    ensures |ys| == |xs| && forall k :: 0 <= k < |xs| ==> ys[k] == Subst(xs[k], src, dst)
  {
    seq(|xs|, k requires 0 <= k < |xs| => Subst(xs[k], src, dst))
  }

  function SubstOp(op: Operand, src: BblId, dst: BblId): Operand {
    if op == BblOp(src) then BblOp(dst) else op
  }

  /** Where the branch target stands among the operands. */
  function TargetPos(opc: Opcode): Option<nat> {
    match opc
    case Bra => Some(0)
    case CondBra(_) => Some(2)
    case _ => None
  }

  function SubstIns(ins: Ins, src: BblId, dst: BblId): Ins {
    match TargetPos(ins.opcode)
    case Some(p) => if p < |ins.operands| then ins.(operands := ins.operands[p := SubstOp(ins.operands[p], src, dst)]) else ins
    case None => ins
  }

  function SubstTab(tab: seq<Case>, src: BblId, dst: BblId): (tab': seq<Case>)
    ensures |tab'| == |tab| && forall k :: 0 <= k < |tab| ==> tab'[k] == tab[k].(bbl := Subst(tab[k].bbl, src, dst))
  {
    seq(|tab|, k requires 0 <= k < |tab| => tab[k].(bbl := Subst(tab[k].bbl, src, dst)))
  }

  function SubstJtb(j: Jtb, src: BblId, dst: BblId): Jtb {
    Jtb(Subst(j.defBbl, src, dst), SubstTab(j.tab, src, dst))
  }

  function SwitchTable(ins: Ins): Option<JtbId> {
    if ins.opcode.Switch? && |ins.operands| == 2 && ins.operands[1].JtbOp? then Some(ins.operands[1].jtb) else None
  }

  function PatchedJtbs(jtbs: seq<Jtb>, ins: Ins, src: BblId, dst: BblId): seq<Jtb> {
    match SwitchTable(ins)
    case Some(j) => if j < |jtbs| then jtbs[j := SubstJtb(jtbs[j], src, dst)] else jtbs
    case None => jtbs
  }

  /** Points the branch or jump table of an instruction from one block to another; edges are not touched. */
  method InsMaybePatchNewSuccessor(fun: Fun, i: InsId, src: BblId, dst: BblId)
    requires i < |fun.code| && WfIns(fun.code[i])
    modifies fun`code, fun`jtbs
    ensures fun.code == old(fun.code)[i := SubstIns(old(fun.code)[i], src, dst)]
    ensures fun.jtbs == PatchedJtbs(old(fun.jtbs), old(fun.code)[i], src, dst)
  {
    var ins := fun.code[i];
    if ins.opcode.Bra? {
      if ins.operands[0] == BblOp(src) { fun.code := fun.code[i := ins.(operands := ins.operands[0 := BblOp(dst)])]; }
    } else if ins.opcode.CondBra? {
      if ins.operands[2] == BblOp(src) { fun.code := fun.code[i := ins.(operands := ins.operands[2 := BblOp(dst)])]; }
    } else if ins.opcode.Switch? {
      var t := ins.operands[1].jtb;
      if t < |fun.jtbs| {
        var jtb := fun.jtbs[t];
        if jtb.defBbl == src { jtb := jtb.(defBbl := dst); }
        for k := 0 to |jtb.tab|
          invariant |jtb.tab| == |fun.jtbs[t].tab| && jtb.defBbl == Subst(fun.jtbs[t].defBbl, src, dst)
          invariant forall x :: 0 <= x < |jtb.tab| ==>
            jtb.tab[x] == if x < k then fun.jtbs[t].tab[x].(bbl := Subst(fun.jtbs[t].tab[x].bbl, src, dst)) else fun.jtbs[t].tab[x]
        {
          if jtb.tab[k].bbl == src { jtb := jtb.(tab := jtb.tab[k := jtb.tab[k].(bbl := dst)]); }
        }
        assert jtb == SubstJtb(fun.jtbs[t], src, dst);
        fun.jtbs := fun.jtbs[t := jtb];
      }
    }
    assert fun.code[i].operands == SubstIns(ins, src, dst).operands;
    assert fun.code == old(fun.code)[i := fun.code[i]];
  }

  function SetBbl(f: Fn, b: BblId, bbl: Bbl): Fn {
    if b.no < |f.bbls| then f.(bbls := f.bbls[b.no := bbl]) else f
  }

  /** One edge from p to `src` turned into an edge to `dst`, in the predecessor lists. */
  function MoveEdgeIn(f: Fn, p: BblId, src: BblId, dst: BblId): Fn {
    var f1 := SetBbl(f, src, BblAt(f, src).(edgeIn := BblAt(f, src).edgeIn - multiset{p}));
    SetBbl(f1, dst, BblAt(f1, dst).(edgeIn := BblAt(f1, dst).edgeIn + multiset{p}))
  }

  /** How many of the first k edges lead to x. */
  function Count(xs: seq<BblId>, x: BblId, k: nat): nat
    requires k <= |xs|
  {
    if k == 0 then 0 else Count(xs, x, k - 1) + if xs[k - 1] == x then 1 else 0
  }

  lemma {:induction false} CountIsMultiplicity(xs: seq<BblId>, x: BblId, k: nat)
    requires k <= |xs|
    ensures Count(xs, x, k) == multiset(xs[..k])[x]
  {
    if k > 0 {
      CountIsMultiplicity(xs, x, k - 1);
      assert xs[..k] == xs[..k - 1] + [xs[k - 1]];
    } else {
      assert xs[..0] == [];
    }
  }

  lemma {:induction false} CountSubst(xs: seq<BblId>, src: BblId, dst: BblId, x: BblId, k: nat)
    requires k <= |xs| && src != dst
    ensures Count(SubstSeq(xs, src, dst), x, k) ==
      if x == src then 0 else if x == dst then Count(xs, dst, k) + Count(xs, src, k) else Count(xs, x, k)
  {
    if k > 0 { CountSubst(xs, src, dst, x, k - 1); }
  }

  /** Edges of p lead elsewhere and the predecessor lists of `src` and `dst` know; nothing else changed. */
  ghost predicate EdgesReplaced(f: Fn, g: Fn, p: BblId, src: BblId, dst: BblId, k: nat)
    requires k <= |BblAt(f, p).edgeOut|
  {
    && g == f.(bbls := g.bbls) && |g.bbls| == |f.bbls|
    && (forall b :: BblAt(g, b).inss == BblAt(f, b).inss)
    && (forall b :: b != p ==> BblAt(g, b).edgeOut == BblAt(f, b).edgeOut)
    && |BblAt(g, p).edgeOut| == |BblAt(f, p).edgeOut|
    && (forall x :: 0 <= x < |BblAt(f, p).edgeOut| ==>
          BblAt(g, p).edgeOut[x] == if x < k then Subst(BblAt(f, p).edgeOut[x], src, dst) else BblAt(f, p).edgeOut[x])
    && (forall b, q :: BblAt(g, b).edgeIn[q] == EdgeInAfter(f, p, src, dst, k, b, q))
  }

  function EdgeInAfter(f: Fn, p: BblId, src: BblId, dst: BblId, k: nat, b: BblId, q: BblId): nat
    requires k <= |BblAt(f, p).edgeOut|
  {
    var before := BblAt(f, b).edgeIn[q];
    var n := Count(BblAt(f, p).edgeOut, src, k);
    if q != p then before
    else if b == src then (if n <= before then before - n else 0)
    else if b == dst then before + n
    else before
  }

  lemma MovedBbl(g: Fn, p: BblId, e: seq<BblId>, src: BblId, dst: BblId, b: BblId)
    requires p.no < |g.bbls| && src.no < |g.bbls| && dst.no < |g.bbls| && src != dst
    ensures var h := MoveEdgeIn(SetBbl(g, p, BblAt(g, p).(edgeOut := e)), p, src, dst);
      && h == g.(bbls := h.bbls) && |h.bbls| == |g.bbls|
      && BblAt(h, b) == Bbl(BblAt(g, b).inss, if b == p then e else BblAt(g, b).edgeOut,
           if b == src then BblAt(g, b).edgeIn - multiset{p} else if b == dst then BblAt(g, b).edgeIn + multiset{p} else BblAt(g, b).edgeIn)
  {
    assert b.no == p.no <==> b == p;
    assert b.no == src.no <==> b == src;
    assert b.no == dst.no <==> b == dst;
  }

  lemma OneEdgeReplaced(f: Fn, g: Fn, p: BblId, src: BblId, dst: BblId, k: nat)
    requires k < |BblAt(f, p).edgeOut| && p.no < |f.bbls| && src.no < |f.bbls| && dst.no < |f.bbls| && src != dst
    requires EdgesReplaced(f, g, p, src, dst, k) && BblAt(f, p).edgeOut[k] == src
    ensures k < |BblAt(g, p).edgeOut| && BblAt(g, p).edgeOut[k] == src
    ensures EdgesReplaced(f, MoveEdgeIn(SetBbl(g, p, BblAt(g, p).(edgeOut := BblAt(g, p).edgeOut[k := dst])), p, src, dst), p, src, dst, k + 1)
  {
    var e := BblAt(g, p).edgeOut[k := dst];
    var h := MoveEdgeIn(SetBbl(g, p, BblAt(g, p).(edgeOut := e)), p, src, dst);
    forall b ensures BblAt(h, b) == Bbl(BblAt(g, b).inss, if b == p then e else BblAt(g, b).edgeOut,
           if b == src then BblAt(g, b).edgeIn - multiset{p} else if b == dst then BblAt(g, b).edgeIn + multiset{p} else BblAt(g, b).edgeIn) {
      MovedBbl(g, p, e, src, dst, b);
    }
    MovedBbl(g, p, e, src, dst, p);
    hide MoveEdgeIn, SetBbl, BblAt;
    forall b, q ensures BblAt(h, b).edgeIn[q] == EdgeInAfter(f, p, src, dst, k + 1, b, q) {
      assert BblAt(g, b).edgeIn[q] == EdgeInAfter(f, p, src, dst, k, b, q);
      InAfterNext(f, g, h, p, src, dst, k, b, q);
    }
    hide EdgeInAfter;
  }

  lemma InAfterNext(f: Fn, g: Fn, h: Fn, p: BblId, src: BblId, dst: BblId, k: nat, b: BblId, q: BblId)
    requires k < |BblAt(f, p).edgeOut| && BblAt(f, p).edgeOut[k] == src && src != dst
    requires BblAt(g, b).edgeIn[q] == EdgeInAfter(f, p, src, dst, k, b, q)
    requires BblAt(h, b).edgeIn ==
      if b == src then BblAt(g, b).edgeIn - multiset{p} else if b == dst then BblAt(g, b).edgeIn + multiset{p} else BblAt(g, b).edgeIn
    ensures BblAt(h, b).edgeIn[q] == EdgeInAfter(f, p, src, dst, k + 1, b, q)
  {
    hide BblAt;
  }

  lemma NoEdgeReplaced(f: Fn, g: Fn, p: BblId, src: BblId, dst: BblId, k: nat)
    requires k < |BblAt(f, p).edgeOut| && EdgesReplaced(f, g, p, src, dst, k) && BblAt(f, p).edgeOut[k] != src
    ensures k < |BblAt(g, p).edgeOut| && BblAt(g, p).edgeOut[k] != src && EdgesReplaced(f, g, p, src, dst, k + 1)
  {
  }

  method MoveEdge(fun: Fun, p: BblId, k: nat, src: BblId, dst: BblId)
    requires p.no < |fun.bbls| && src.no < |fun.bbls| && dst.no < |fun.bbls| && k < |fun.bbls[p.no].edgeOut|
    modifies fun`bbls
    ensures var g := old(fun.View());
      fun.View() == MoveEdgeIn(SetBbl(g, p, BblAt(g, p).(edgeOut := BblAt(g, p).edgeOut[k := dst])), p, src, dst)
  {
    fun.bbls := fun.bbls[p.no := fun.bbls[p.no].(edgeOut := fun.bbls[p.no].edgeOut[k := dst])];
    fun.bbls := fun.bbls[src.no := fun.bbls[src.no].(edgeIn := fun.bbls[src.no].edgeIn - multiset{p})];
    fun.bbls := fun.bbls[dst.no := fun.bbls[dst.no].(edgeIn := fun.bbls[dst.no].edgeIn + multiset{p})];
  }

  method ReplaceEdgeOut(fun: Fun, p: BblId, src: BblId, dst: BblId)
    requires p.no < |fun.bbls| && src.no < |fun.bbls| && dst.no < |fun.bbls| && src != dst
    modifies fun`bbls
    ensures EdgesReplaced(old(fun.View()), fun.View(), p, src, dst, |BblAt(old(fun.View()), p).edgeOut|)
  {
    ghost var f := fun.View();
    hide EdgesReplaced;
    NothingReplaced(f, p, src, dst);
    var n := |fun.bbls[p.no].edgeOut|;
    for k := 0 to n
      invariant |fun.bbls| == |f.bbls| && |fun.bbls[p.no].edgeOut| == n == |BblAt(f, p).edgeOut|
      invariant EdgesReplaced(f, fun.View(), p, src, dst, k)
    {
      ReplaceAt(fun, p, k, src, dst, f);
    }
  }

  method ReplaceAt(fun: Fun, p: BblId, k: nat, src: BblId, dst: BblId, ghost f: Fn)
    requires p.no < |fun.bbls| && src.no < |fun.bbls| && dst.no < |fun.bbls| && src != dst && |fun.bbls| == |f.bbls|
    requires k < |BblAt(f, p).edgeOut| == |fun.bbls[p.no].edgeOut| && EdgesReplaced(f, fun.View(), p, src, dst, k)
    modifies fun`bbls
    ensures |fun.bbls| == |f.bbls| && |fun.bbls[p.no].edgeOut| == |BblAt(f, p).edgeOut|
    ensures EdgesReplaced(f, fun.View(), p, src, dst, k + 1)
  {
    hide EdgesReplaced, MoveEdgeIn, SetBbl, Count, BblAt;
    ghost var g := fun.View();
    EdgeStillThere(f, g, p, src, dst, k);
    if fun.bbls[p.no].edgeOut[k] == src {
      OneEdgeReplaced(f, g, p, src, dst, k);
      MoveEdge(fun, p, k, src, dst);
    } else {
      NoEdgeReplaced(f, g, p, src, dst, k);
    }
    EdgeStillThere(f, fun.View(), p, src, dst, k + 1);
  }

  lemma NothingReplaced(f: Fn, p: BblId, src: BblId, dst: BblId)
    ensures EdgesReplaced(f, f, p, src, dst, 0)
  {
  }

  lemma EdgeStillThere(f: Fn, g: Fn, p: BblId, src: BblId, dst: BblId, k: nat)
    requires k <= |BblAt(f, p).edgeOut| && EdgesReplaced(f, g, p, src, dst, k) && p.no < |f.bbls|
    ensures |g.bbls| == |f.bbls| && |BblAt(g, p).edgeOut| == |BblAt(f, p).edgeOut| && BblAt(g, p) == g.bbls[p.no]
    ensures k < |BblAt(f, p).edgeOut| ==> BblAt(g, p).edgeOut[k] == BblAt(f, p).edgeOut[k]
  {
  }

  // ---------------------------------------------------------------- graphs that agree with themselves

  function CountOut(f: Fn, b: BblId, s: BblId): nat { Count(BblAt(f, b).edgeOut, s, |BblAt(f, b).edgeOut|) }

  /** s lists b as a predecessor as often as b lists s as a successor. */
  ghost predicate MutualCount(f: Fn) {
    forall b, s :: s in f.blocks ==> BblAt(f, s).edgeIn[b] == if b in f.blocks then CountOut(f, b, s) else 0
  }

  lemma {:induction false} CountsIffMember(xs: seq<BblId>, x: BblId, k: nat)
    requires k <= |xs|
    ensures Count(xs, x, k) > 0 <==> x in xs[..k]
  {
    if k > 0 {
      CountsIffMember(xs, x, k - 1);
      assert xs[..k] == xs[..k - 1] + [xs[k - 1]];
    }
  }

  lemma CountOutIff(f: Fn, b: BblId, s: BblId)
    ensures CountOut(f, b, s) > 0 <==> s in BblAt(f, b).edgeOut
  {
    var e := BblAt(f, b).edgeOut;
    CountsIffMember(e, s, |e|);
    assert e[..|e|] == e;
  }

  /** All that is asked of a graph; the layout may list removed blocks. */
  ghost predicate Graph(f: Fn) {
    && WfLayout(f) && WfCode(f) && MutualCount(f)
    && (forall b :: b in f.blocks ==> WfEdges(f, b))
  }

  // ---------------------------------------------------------------- one block fewer

  /** Block b of g is block b of f with every mention of src turned into dst. */
  ghost predicate Redirected(f: Fn, g: Fn, src: BblId, dst: BblId, b: BblId) {
    && BblAt(g, b).inss == BblAt(f, b).inss
    && BblAt(g, b).edgeOut == SubstSeq(BblAt(f, b).edgeOut, src, dst)
    && (forall k :: 0 <= k < |BblAt(f, b).inss| - 1 ==> InsAt(g.code, BblAt(f, b).inss[k]) == InsAt(f.code, BblAt(f, b).inss[k]))
    && LastIns(g, b) == SubstIns(LastIns(f, b), src, dst)
    && TableRedirected(f, g, src, dst, LastIns(f, b))
  }

  predicate TableRedirected(f: Fn, g: Fn, src: BblId, dst: BblId, last: Ins) {
    var t := SwitchTable(last);
    t.Some? && t.value < |f.jtbs| ==> t.value < |g.jtbs| && g.jtbs[t.value] == SubstJtb(f.jtbs[t.value], src, dst)
  }

  lemma {:induction false} SubstLookup(tab: seq<Case>, index: int, default: BblId, src: BblId, dst: BblId)
    ensures TabLookup(SubstTab(tab, src, dst), index, Subst(default, src, dst)) == Subst(TabLookup(tab, index, default), src, dst)
  {
    var tab' := SubstTab(tab, src, dst);
    if tab != [] {
      assert tab'[..|tab| - 1] == SubstTab(tab[..|tab| - 1], src, dst);
      SubstLookup(tab[..|tab| - 1], index, default, src, dst);
    }
  }

  lemma SameEvals(m: Machine, ins: Ins, ins': Ins, regs: map<RegId, int>)
    requires ins'.opcode == ins.opcode && |ins'.operands| == |ins.operands|
    requires forall n :: 0 <= n < |ins.operands| ==> Eval(m, ins'.operands[n], regs) == Eval(m, ins.operands[n], regs)
    ensures UseVals(m, ins', regs) == UseVals(m, ins, regs)
  {
    hide Eval;
    if NumDefs(ins.opcode) <= |ins.operands| {
      var d := NumDefs(ins.opcode);
      forall n | 0 <= n < |ins.operands| - d ensures Eval(m, ins'.operands[d..][n], regs) == Eval(m, ins.operands[d..][n], regs) {
        assert ins'.operands[d..][n] == ins'.operands[n + d] && ins.operands[d..][n] == ins.operands[n + d];
      }
    }
  }

  lemma SubstVals(m: Machine, ins: Ins, src: BblId, dst: BblId, regs: map<RegId, int>)
    ensures UseVals(m, SubstIns(ins, src, dst), regs) == UseVals(m, ins, regs)
    ensures SubstIns(ins, src, dst).opcode == ins.opcode && DstOf(SubstIns(ins, src, dst)) == DstOf(ins)
  {
    var ins' := SubstIns(ins, src, dst);
    assert forall n :: 0 <= n < |ins.operands| ==> ins'.operands[n] == ins.operands[n] || (ins'.operands[n].BblOp? && ins.operands[n].BblOp?);
    SameEvals(m, ins, ins', regs);
    hide UseVals;
  }

  function MapNext(t: Option<BblId>, src: BblId, dst: BblId): Option<BblId> {
    match t case None => None case Some(x) => Some(Subst(x, src, dst))
  }

  /** A redirected block goes where the block went, but to dst instead of src. */
  lemma RedirectedNext(m: Machine, f: Fn, g: Fn, src: BblId, dst: BblId, b: BblId, s: State)
    requires WfEdges(f, b) && Redirected(f, g, src, dst, b)
    ensures EdgeNext(m, g, b, s) == MapNext(EdgeNext(m, f, b, s), src, dst)
  {
    var last := LastIns(f, b);
    SubstVals(m, last, src, dst, s.regs);
    if last.opcode.Switch? {
      var j := f.jtbs[last.operands[1].jtb];
      SubstLookup(j.tab, Nth(UseVals(m, last, s.regs), 0), j.defBbl, src, dst);
    }
    hide UseVals, TabLookup, SubstTab, Holds;
  }

  lemma RedirectedIns(m: Machine, f: Fn, g: Fn, src: BblId, dst: BblId, b: BblId, k: nat, s: State)
    requires Redirected(f, g, src, dst, b) && k < |BblAt(f, b).inss|
    ensures ExecIns(m, InsAt(g.code, BblAt(f, b).inss[k]), s) == ExecIns(m, InsAt(f.code, BblAt(f, b).inss[k]), s)
  {
    var ins := InsAt(f.code, BblAt(f, b).inss[k]);
    SubstVals(m, ins, src, dst, s.regs);
    assert k == |BblAt(f, b).inss| - 1 ==> InsAt(g.code, BblAt(f, b).inss[k]) == SubstIns(ins, src, dst);
    hide UseVals, Effect, DstOf, SubstIns, TableRedirected;
  }

  lemma {:induction false} RedirectedExec(m: Machine, f: Fn, g: Fn, src: BblId, dst: BblId, b: BblId, k: nat, s: State)
    requires Redirected(f, g, src, dst, b) && k <= |BblAt(f, b).inss|
    ensures ExecIds(m, g.code, BblAt(f, b).inss, k, s) == ExecIds(m, f.code, BblAt(f, b).inss, k, s)
  {
    hide Redirected, ExecIns, InsAt;
    if k > 0 {
      RedirectedExec(m, f, g, src, dst, b, k - 1, s);
      RedirectedIns(m, f, g, src, dst, b, k - 1, ExecIds(m, f.code, BblAt(f, b).inss, k - 1, s));
    }
  }

  lemma SubstCounts(xs: seq<BblId>, ys: seq<BblId>, src: BblId, dst: BblId)
    requires multiset(xs) == multiset(ys) && src != dst
    ensures multiset(SubstSeq(xs, src, dst)) == multiset(SubstSeq(ys, src, dst))
  {
    var xs', ys' := SubstSeq(xs, src, dst), SubstSeq(ys, src, dst);
    forall x ensures multiset(xs')[x] == multiset(ys')[x] {
      MultiplicitySubst(xs, src, dst, x);
      MultiplicitySubst(ys, src, dst, x);
    }
  }

  lemma MultiplicitySubst(xs: seq<BblId>, src: BblId, dst: BblId, x: BblId)
    requires src != dst
    ensures multiset(SubstSeq(xs, src, dst))[x] ==
      if x == src then 0 else if x == dst then multiset(xs)[dst] + multiset(xs)[src] else multiset(xs)[x]
  {
    CountSubst(xs, src, dst, x, |xs|);
    CountIsMultiplicity(SubstSeq(xs, src, dst), x, |xs|);
    CountIsMultiplicity(xs, x, |xs|);
    CountIsMultiplicity(xs, src, |xs|);
    assert xs[..|xs|] == xs && SubstSeq(xs, src, dst)[..|xs|] == SubstSeq(xs, src, dst);
  }

  lemma SubstTargets(j: Jtb, src: BblId, dst: BblId)
    ensures JtbTargets(SubstJtb(j, src, dst)) == SubstSeq(JtbTargets(j), src, dst)
  {
    var a, b := JtbTargets(SubstJtb(j, src, dst)), SubstSeq(JtbTargets(j), src, dst);
    forall k | 0 <= k < |a| ensures a[k] == b[k] {
      if k > 0 { assert a[(k - 1) + 1] == SubstJtb(j, src, dst).tab[k - 1].bbl && JtbTargets(j)[(k - 1) + 1] == j.tab[k - 1].bbl; }
    }
  }

  lemma RedirectedEdges(f: Fn, g: Fn, src: BblId, dst: BblId, b: BblId)
    requires WfEdges(f, b) && Redirected(f, g, src, dst, b) && src != dst && |g.jtbs| == |f.jtbs|
    ensures WfEdges(g, b)
  {
    var last, e := LastIns(f, b), BblAt(f, b).edgeOut;
    var e' := BblAt(g, b).edgeOut;
    match last.opcode {
      case Switch =>
        SubstCounts(e, JtbTargets(f.jtbs[last.operands[1].jtb]), src, dst);
        SubstTargets(f.jtbs[last.operands[1].jtb], src, dst);
      case CondBra(_) =>
        var k :| 0 <= k < 2 && e[k] == last.operands[2].bbl;
        assert e'[k] == Subst(e[k], src, dst);
      case Bra =>
        assert LastIns(g, b).operands == [BblOp(e'[0])];
      case _ =>
    }
    hide SubstJtb;
  }

  /** The number of the last instruction of block p, if it has any. */
  function LastId(f: Fn, p: BblId): Option<InsId> {
    var ids := BblAt(f, p).inss;
    if ids == [] then None else Some(ids[|ids| - 1])
  }

  ghost predicate IsPatched(f: Fn, done: set<BblId>, i: InsId) {
    exists p :: p in done && LastId(f, p) == Some(i)
  }

  ghost predicate IsPatchedTable(f: Fn, done: set<BblId>, j: JtbId) {
    exists p :: p in done && SwitchTable(LastIns(f, p)) == Some(j)
  }

  ghost predicate SameFrame(f: Fn, d: Fn, e: BblId) {
    && d.order == f.order && d.blocks == f.blocks - {e} && |d.bbls| == |f.bbls| && |d.code| == |f.code| && |d.jtbs| == |f.jtbs|
    && forall b :: b in d.blocks ==> BblAt(d, b).inss == BblAt(f, b).inss
  }

  ghost predicate CodePatched(f: Fn, d: Fn, e: BblId, dst: BblId, done: set<BblId>) {
    && |d.code| == |f.code|
    && forall i :: 0 <= i < |f.code| ==> d.code[i] == if IsPatched(f, done, i) then SubstIns(f.code[i], e, dst) else f.code[i]
  }

  ghost predicate TablesPatched(f: Fn, d: Fn, e: BblId, dst: BblId, done: set<BblId>) {
    && |d.jtbs| == |f.jtbs|
    && forall j :: 0 <= j < |f.jtbs| ==> d.jtbs[j] == if IsPatchedTable(f, done, j) then SubstJtb(f.jtbs[j], e, dst) else f.jtbs[j]
  }

  ghost predicate OutPatched(f: Fn, d: Fn, e: BblId, dst: BblId, done: set<BblId>) {
    forall b :: b in d.blocks ==> BblAt(d, b).edgeOut == if b in done then SubstSeq(BblAt(f, b).edgeOut, e, dst) else BblAt(f, b).edgeOut
  }

  ghost predicate InPatched(f: Fn, d: Fn, e: BblId, dst: BblId, done: set<BblId>) {
    forall s, q :: s in d.blocks ==> BblAt(d, s).edgeIn[q] == InEdges(f, e, dst, done, s, q)
  }

  /** d is f in the course of removing block e: the blocks in `done` already go to `dst` instead. */
  ghost predicate Redirecting(f: Fn, d: Fn, e: BblId, dst: BblId, done: set<BblId>) {
    && SameFrame(f, d, e) && done <= d.blocks
    && CodePatched(f, d, e, dst, done) && TablesPatched(f, d, e, dst, done)
    && OutPatched(f, d, e, dst, done) && InPatched(f, d, e, dst, done)
  }

  function InEdges(f: Fn, e: BblId, dst: BblId, done: set<BblId>, s: BblId, q: BblId): nat {
    if s != dst then BblAt(f, s).edgeIn[q]
    else if q == e then 0
    else BblAt(f, s).edgeIn[q] + if q in done then CountOut(f, q, e) else 0
  }

  lemma SubstTwice(j: Jtb, src: BblId, dst: BblId)
    requires src != dst
    ensures SubstJtb(SubstJtb(j, src, dst), src, dst) == SubstJtb(j, src, dst)
  {
    assert SubstTab(SubstTab(j.tab, src, dst), src, dst) == SubstTab(j.tab, src, dst);
  }

  lemma PatchedOneMore(f: Fn, done: set<BblId>, p: BblId, i: InsId)
    ensures IsPatched(f, done + {p}, i) <==> IsPatched(f, done, i) || LastId(f, p) == Some(i)
    ensures IsPatchedTable(f, done + {p}, i) <==> IsPatchedTable(f, done, i) || SwitchTable(LastIns(f, p)) == Some(i)
  {
    hide LastId, LastIns, SwitchTable;
    if IsPatched(f, done, i) {
      var q :| q in done && LastId(f, q) == Some(i);
      assert q in done + {p};
    }
    if IsPatchedTable(f, done, i) {
      var q :| q in done && SwitchTable(LastIns(f, q)) == Some(i);
      assert q in done + {p};
    }
    assert p in done + {p};
  }

  lemma OnlyItsBlock(f: Fn, p: BblId, q: BblId, i: InsId)
    requires UniqueIds(f) && p in f.blocks && q in f.blocks && LastId(f, p) == Some(i) && i in BblAt(f, q).inss
    ensures p == q
  {
    assert i in BblAt(f, p).inss;
  }

  lemma NotPatchedYet(f: Fn, d: Fn, e: BblId, dst: BblId, done: set<BblId>, p: BblId)
    requires WfCode(f) && CodePatched(f, d, e, dst, done) && done <= f.blocks && p in f.blocks && p !in done && BblAt(f, p).inss != []
    ensures LastId(f, p).Some? && LastId(f, p).value < |d.code| && d.code[LastId(f, p).value] == f.code[LastId(f, p).value] == LastIns(f, p)
    ensures WfIns(LastIns(f, p))
  {
    var i := LastId(f, p).value;
    assert i in BblAt(f, p).inss;
    if IsPatched(f, done, i) {
      var q :| q in done && LastId(f, q) == Some(i);
      OnlyItsBlock(f, q, p, i);
    }
    hide WfIns, SubstIns;
  }

  /** The code after one more block: its last instruction is patched. */
  function CodeWith(d: Fn, f: Fn, p: BblId, e: BblId, dst: BblId): Fn {
    match LastId(f, p)
    case None => d
    case Some(i) =>
      if i < |d.code| then d.(code := d.code[i := SubstIns(LastIns(f, p), e, dst)], jtbs := PatchedJtbs(d.jtbs, LastIns(f, p), e, dst)) else d
  }

  lemma CodeOneMore(f: Fn, d: Fn, e: BblId, dst: BblId, done: set<BblId>, p: BblId)
    requires WfCode(f) && CodePatched(f, d, e, dst, done) && done <= f.blocks && p in f.blocks && p !in done
    ensures CodePatched(f, CodeWith(d, f, p, e, dst), e, dst, done + {p})
  {
    var d1 := CodeWith(d, f, p, e, dst);
    if BblAt(f, p).inss != [] { NotPatchedYet(f, d, e, dst, done, p); }
    hide SubstIns, IsPatched, WfCode, PatchedJtbs;
    forall i | 0 <= i < |f.code| ensures d1.code[i] == if IsPatched(f, done + {p}, i) then SubstIns(f.code[i], e, dst) else f.code[i] {
      PatchedOneMore(f, done, p, i);
    }
  }

  lemma TablesOneMore(f: Fn, d: Fn, e: BblId, dst: BblId, done: set<BblId>, p: BblId)
    requires TablesPatched(f, d, e, dst, done) && e != dst && (LastId(f, p).Some? ==> LastId(f, p).value < |d.code|)
    ensures TablesPatched(f, CodeWith(d, f, p, e, dst), e, dst, done + {p})
  {
    var d1 := CodeWith(d, f, p, e, dst);
    assert LastId(f, p) == None ==> SwitchTable(LastIns(f, p)) == None;
    hide SubstIns, IsPatchedTable, LastIns, SwitchTable;
    forall j | 0 <= j < |f.jtbs| ensures d1.jtbs[j] == if IsPatchedTable(f, done + {p}, j) then SubstJtb(f.jtbs[j], e, dst) else f.jtbs[j] {
      PatchedOneMore(f, done, p, j);
      SubstTwice(f.jtbs[j], e, dst);
      hide SubstJtb;
    }
  }

  lemma OutOneMore(f: Fn, d: Fn, d2: Fn, e: BblId, dst: BblId, done: set<BblId>, p: BblId)
    requires OutPatched(f, d, e, dst, done) && p in d.blocks && p !in done && d2.blocks == d.blocks
    requires EdgesReplaced(d, d2, p, e, dst, |BblAt(d, p).edgeOut|)
    ensures OutPatched(f, d2, e, dst, done + {p})
  {
    hide EdgeInAfter;
    assert BblAt(d2, p).edgeOut == SubstSeq(BblAt(f, p).edgeOut, e, dst);
  }

  lemma InOneMore(f: Fn, d: Fn, d2: Fn, e: BblId, dst: BblId, done: set<BblId>, p: BblId)
    requires InPatched(f, d, e, dst, done) && OutPatched(f, d, e, dst, done) && p in d.blocks && p !in done && d2.blocks == d.blocks && e !in d.blocks && p != e
    requires EdgesReplaced(d, d2, p, e, dst, |BblAt(d, p).edgeOut|)
    ensures InPatched(f, d2, e, dst, done + {p})
  {
    assert BblAt(d, p).edgeOut == BblAt(f, p).edgeOut;
    hide OutPatched;
    forall s, q | s in d2.blocks ensures BblAt(d2, s).edgeIn[q] == InEdges(f, e, dst, done + {p}, s, q) {
      assert BblAt(d2, s).edgeIn[q] == EdgeInAfter(d, p, e, dst, |BblAt(d, p).edgeOut|, s, q);
      assert BblAt(d, s).edgeIn[q] == InEdges(f, e, dst, done, s, q);
    }
  }

  lemma RedirectOne(f: Fn, d: Fn, d2: Fn, e: BblId, dst: BblId, done: set<BblId>, p: BblId)
    requires WfCode(f) && Redirecting(f, d, e, dst, done) && p in d.blocks && p !in done && dst in d.blocks && e in f.blocks
    requires var d1 := CodeWith(d, f, p, e, dst); EdgesReplaced(d1, d2, p, e, dst, |BblAt(d1, p).edgeOut|)
    ensures Redirecting(f, d2, e, dst, done + {p})
  {
    var d1 := CodeWith(d, f, p, e, dst);
    if BblAt(f, p).inss != [] { NotPatchedYet(f, d, e, dst, done, p); }
    assert LastId(f, p).Some? ==> LastId(f, p).value < |d.code|;
    CodeOneMore(f, d, e, dst, done, p);
    TablesOneMore(f, d, e, dst, done, p);
    SameBbls(f, d, d1, e, dst, done, p);
    EdgesKeepFrame(f, d1, d2, e, dst, p);
    hide CodeWith, WfCode, CodePatched, TablesPatched, OutPatched, InPatched, EdgesReplaced, SameFrame;
    OutOneMore(f, d1, d2, e, dst, done, p);
    InOneMore(f, d1, d2, e, dst, done, p);
  }

  lemma SameBbls(f: Fn, d: Fn, d1: Fn, e: BblId, dst: BblId, done: set<BblId>, p: BblId)
    requires d1 == CodeWith(d, f, p, e, dst) && Redirecting(f, d, e, dst, done)
    ensures d1 == d.(code := d1.code, jtbs := d1.jtbs) && |d1.code| == |d.code| && |d1.jtbs| == |d.jtbs|
    ensures SameFrame(f, d1, e) && OutPatched(f, d1, e, dst, done) && InPatched(f, d1, e, dst, done)
  {
    hide SubstIns, SubstJtb, InEdges, CodePatched, TablesPatched, LastIns;
    assert forall b :: BblAt(d1, b) == BblAt(d, b);
  }

  lemma EdgesKeepFrame(f: Fn, d1: Fn, d2: Fn, e: BblId, dst: BblId, p: BblId)
    requires SameFrame(f, d1, e) && EdgesReplaced(d1, d2, p, e, dst, |BblAt(d1, p).edgeOut|)
    ensures SameFrame(f, d2, e) && d2.blocks == d1.blocks && d2.code == d1.code && d2.jtbs == d1.jtbs
    ensures forall done :: CodePatched(f, d1, e, dst, done) ==> CodePatched(f, d2, e, dst, done)
    ensures forall done :: TablesPatched(f, d1, e, dst, done) ==> TablesPatched(f, d2, e, dst, done)
  {
    hide EdgeInAfter, SubstIns, SubstJtb, IsPatched, IsPatchedTable;
  }

  // ---------------------------------------------------------------- when all predecessors are done

  lemma NothingToSubst(xs: seq<BblId>, src: BblId, dst: BblId)
    requires src !in xs
    ensures SubstSeq(xs, src, dst) == xs
  {
  }

  lemma NoMention(f: Fn, b: BblId, e: BblId, dst: BblId)
    requires WfEdges(f, b) && e !in BblAt(f, b).edgeOut
    ensures SubstIns(LastIns(f, b), e, dst) == LastIns(f, b)
    ensures var t := SwitchTable(LastIns(f, b)); t.Some? && t.value < |f.jtbs| ==> SubstJtb(f.jtbs[t.value], e, dst) == f.jtbs[t.value]
  {
    var last := LastIns(f, b);
    var t := SwitchTable(last);
    if last.opcode.Switch? {
      var j := f.jtbs[last.operands[1].jtb];
      assert e !in multiset(BblAt(f, b).edgeOut);
      assert e !in JtbTargets(j) by { assert e !in multiset(JtbTargets(j)); }
      assert JtbTargets(j)[0] == j.defBbl;
      forall k | 0 <= k < |j.tab| ensures j.tab[k].bbl != e { assert JtbTargets(j)[k + 1] == j.tab[k].bbl && JtbTargets(j)[k + 1] in JtbTargets(j); }
      assert SubstTab(j.tab, e, dst) == j.tab;
    }
    assert last.opcode.CondBra? ==> last.operands[2] != BblOp(e);
    assert last.opcode.Bra? ==> last.operands[0] == BblOp(BblAt(f, b).edgeOut[0]);
    assert SubstIns(last, e, dst).operands == last.operands;
  }

  lemma BlockDone(f: Fn, d: Fn, e: BblId, dst: BblId, done: set<BblId>, b: BblId)
    requires WfCode(f) && WfEdges(f, b) && Redirecting(f, d, e, dst, done) && b in d.blocks && (b in done || e !in BblAt(f, b).edgeOut)
    ensures Redirected(f, d, e, dst, b)
  {
    InssDone(f, d, e, dst, done, b);
    TableDone(f, d, e, dst, done, b);
    if b !in done { NothingToSubst(BblAt(f, b).edgeOut, e, dst); }
    hide SubstIns, SubstJtb, WfCode, WfEdges, TableRedirected, CodePatched, TablesPatched, InPatched;
  }

  lemma InssDone(f: Fn, d: Fn, e: BblId, dst: BblId, done: set<BblId>, b: BblId)
    requires WfCode(f) && WfEdges(f, b) && Redirecting(f, d, e, dst, done) && b in d.blocks && (b in done || e !in BblAt(f, b).edgeOut)
    ensures forall k :: 0 <= k < |BblAt(f, b).inss| - 1 ==> InsAt(d.code, BblAt(f, b).inss[k]) == InsAt(f.code, BblAt(f, b).inss[k])
    ensures LastIns(d, b) == SubstIns(LastIns(f, b), e, dst)
  {
    var ids := BblAt(f, b).inss;
    if b !in done { NoMention(f, b, e, dst); }
    NopIsKept(e, dst);
    forall k | 0 <= k < |ids| ensures ids[k] < |f.code| && (IsPatched(f, done, ids[k]) <==> b in done && k == |ids| - 1) {
      assert ids[k] in ids;
      PatchedHere(f, done, b, k);
    }
    hide SubstIns, IsPatched, WfEdges, TablesPatched, OutPatched, InPatched, WfCode;
  }

  lemma NopIsKept(e: BblId, dst: BblId)
    ensures SubstIns(NOP_INS, e, dst) == NOP_INS
  {
  }

  lemma PatchedHere(f: Fn, done: set<BblId>, b: BblId, k: nat)
    requires WfCode(f) && done <= f.blocks && b in f.blocks && k < |BblAt(f, b).inss|
    ensures IsPatched(f, done, BblAt(f, b).inss[k]) <==> b in done && k == |BblAt(f, b).inss| - 1
  {
    var ids := BblAt(f, b).inss;
    if IsPatched(f, done, ids[k]) {
      var q :| q in done && LastId(f, q) == Some(ids[k]);
      assert ids[k] in ids;
      OnlyItsBlock(f, q, b, ids[k]);
    }
    if b in done && k == |ids| - 1 { assert LastId(f, b) == Some(ids[k]); }
    hide WfIns;
  }

  lemma TableDone(f: Fn, d: Fn, e: BblId, dst: BblId, done: set<BblId>, b: BblId)
    requires WfEdges(f, b) && Redirecting(f, d, e, dst, done) && b in d.blocks && (b in done || e !in BblAt(f, b).edgeOut)
    ensures TableRedirected(f, d, e, dst, LastIns(f, b))
  {
    var t := SwitchTable(LastIns(f, b));
    if b !in done {
      NoMention(f, b, e, dst);
    } else if t.Some? {
      assert IsPatchedTable(f, done, t.value);
    }
    hide SubstJtb, SubstIns, WfEdges, CodePatched, OutPatched, InPatched;
  }

  lemma CountsDone(f: Fn, d: Fn, e: BblId, dst: BblId, done: set<BblId>)
    requires MutualCount(f) && Redirecting(f, d, e, dst, done) && e in f.blocks && dst in d.blocks && BblAt(f, e).edgeOut == [dst]
    requires forall b :: b in d.blocks && e in BblAt(f, b).edgeOut ==> b in done
    ensures MutualCount(d)
  {
    hide SubstIns, SubstJtb, CodePatched, TablesPatched, SubstSeq, CountOut;
    forall b, s | s in d.blocks ensures BblAt(d, s).edgeIn[b] == if b in d.blocks then CountOut(d, b, s) else 0 {
      assert BblAt(f, s).edgeIn[b] == if b in f.blocks then CountOut(f, b, s) else 0;
      assert BblAt(d, s).edgeIn[b] == InEdges(f, e, dst, done, s, b);
      hide MutualCount, InPatched;
      CountOutIff(f, b, e);
      if b == e {
        OnlyEdgeCounts(f, e, dst, s);
      } else if b in d.blocks {
        CountsAfter(f, d, e, dst, done, b, s);
      }
    }
  }

  lemma CountsAfter(f: Fn, d: Fn, e: BblId, dst: BblId, done: set<BblId>, b: BblId, s: BblId)
    requires OutPatched(f, d, e, dst, done) && b in d.blocks && e != dst && s != e
    ensures CountOut(d, b, s) == CountOut(f, b, s) + if s == dst && b in done then CountOut(f, b, e) else 0
  {
    CountSubst(BblAt(f, b).edgeOut, e, dst, s, |BblAt(f, b).edgeOut|);
  }

  lemma OnlyEdgeCounts(f: Fn, e: BblId, dst: BblId, s: BblId)
    requires BblAt(f, e).edgeOut == [dst]
    ensures s != dst ==> CountOut(f, e, s) == 0
  {
    if s != dst { assert Count([dst], s, 1) == Count([dst], s, 0); }
  }

  lemma CodeDone(f: Fn, d: Fn, e: BblId, dst: BblId, done: set<BblId>)
    requires WfCode(f) && Redirecting(f, d, e, dst, done)
    ensures WfCode(d)
  {
    forall i | 0 <= i < |d.code| ensures WfIns(d.code[i]) {
      assert WfIns(f.code[i]);
      SubstWf(f.code[i], e, dst);
    }
    hide WfIns, SubstIns, SubstJtb;
  }

  lemma SubstWf(ins: Ins, e: BblId, dst: BblId)
    requires WfIns(ins)
    ensures WfIns(SubstIns(ins, e, dst))
  {
  }

  lemma LayoutDone(f: Fn, d: Fn, e: BblId, dst: BblId)
    requires WfLayout(f) && SameFrame(f, d, e) && dst in d.blocks && e != First(f) && forall b :: b in d.blocks ==> Redirected(f, d, e, dst, b)
    ensures WfLayout(d)
  {
    hide SubstIns, SubstJtb, TableRedirected;
    forall b, t | b in d.blocks && t in BblAt(d, b).edgeOut ensures t in d.blocks {
      var k :| 0 <= k < |BblAt(d, b).edgeOut| && BblAt(d, b).edgeOut[k] == t;
      assert BblAt(f, b).edgeOut[k] in BblAt(f, b).edgeOut;
      assert Redirected(f, d, e, dst, b);
    }
    hide Redirected;
  }

  lemma GraphDone(f: Fn, d: Fn, e: BblId, dst: BblId, done: set<BblId>)
    requires Graph(f) && Redirecting(f, d, e, dst, done) && e in f.blocks && dst in d.blocks && BblAt(f, e).edgeOut == [dst] && e != First(f)
    requires forall b :: b in d.blocks && e in BblAt(f, b).edgeOut ==> b in done
    ensures Graph(d) && forall b :: b in d.blocks ==> Redirected(f, d, e, dst, b)
  {
    forall b | b in d.blocks ensures Redirected(f, d, e, dst, b) && WfEdges(d, b) {
      BlockDone(f, d, e, dst, done, b);
      RedirectedEdges(f, d, e, dst, b);
      hide Redirected, WfEdges, WfCode, MutualCount, CodePatched, TablesPatched, OutPatched, InPatched;
    }
    CountsDone(f, d, e, dst, done);
    CodeDone(f, d, e, dst, done);
    assert WfLayout(f) && SameFrame(f, d, e) by {
      hide CodePatched, TablesPatched, OutPatched, InPatched, WfEdges, MutualCount, WfCode, Redirected, WfLayout, SameFrame;
    }
    hide Redirected, WfEdges, MutualCount, WfCode, Redirecting, SameFrame;
    LayoutDone(f, d, e, dst);
    hide WfLayout;
  }

  // ---------------------------------------------------------------- removing empty blocks

  /** One predecessor of a removed block goes on to where that block went. */
  method RedirectPred(fun: Fun, e: BblId, dst: BblId, p: BblId, ghost f: Fn, ghost done: set<BblId>)
    requires WfLayout(f) && WfCode(f) && Redirecting(f, fun.View(), e, dst, done)
    requires p in fun.blocks && p !in done && dst in fun.blocks && e in f.blocks
    modifies fun`code, fun`jtbs, fun`bbls
    ensures Redirecting(f, fun.View(), e, dst, done + {p})
  {
    ghost var d := fun.View();
    SameHere(f, d, e, dst, done, p);
    if BblAt(f, p).inss != [] { NotPatchedYet(f, d, e, dst, done, p); }
    hide Redirecting, WfCode, EdgesReplaced, SubstIns, PatchedJtbs;
    var bbl := fun.bbls[p.no];
    if bbl.inss != [] {
      InsMaybePatchNewSuccessor(fun, bbl.inss[|bbl.inss| - 1], e, dst);
    }
    assert fun.View() == CodeWith(d, f, p, e, dst);
    ReplaceEdgeOut(fun, p, e, dst);
    RedirectOne(f, d, fun.View(), e, dst, done, p);
  }

  lemma SameHere(f: Fn, d: Fn, e: BblId, dst: BblId, done: set<BblId>, p: BblId)
    requires WfLayout(f) && Redirecting(f, d, e, dst, done) && p in d.blocks && dst in d.blocks && e in f.blocks
    ensures p.no < |d.bbls| && e.no < |d.bbls| && dst.no < |d.bbls| && e != dst && d.bbls[p.no].inss == BblAt(f, p).inss
    ensures CodePatched(f, d, e, dst, done) && done <= f.blocks && p in f.blocks
  {
    assert BblAt(d, p) == d.bbls[p.no];
    hide CodePatched, TablesPatched, OutPatched, InPatched;
  }

  /** Takes an empty block out: whoever came to it goes on to its successor. */
  method RemoveEmptyBbl(fun: Fun, e: BblId)
    requires Graph(fun.View()) && e in fun.blocks && e != First(fun.View()) && BblAt(fun.View(), e).inss == []
    requires BblAt(fun.View(), e).edgeOut != [e]
    modifies fun`blocks, fun`bbls, fun`code, fun`jtbs
    ensures fun.order == old(fun.order) && fun.blocks == old(fun.blocks) - {e} && |BblAt(old(fun.View()), e).edgeOut| == 1
    ensures Graph(fun.View()) && BblAt(old(fun.View()), e).edgeOut[0] in fun.blocks
    ensures forall b :: b in fun.blocks ==> Redirected(old(fun.View()), fun.View(), e, BblAt(old(fun.View()), e).edgeOut[0], b)
  {
    ghost var f := fun.View();
    EmptyHasOneEdge(f, e);
    hide Redirecting, Graph, Redirected, MutualCount, WfCode, WfEdges, WfLayout;
    var dst := fun.bbls[e.no].edgeOut[0];
    assert BblAt(f, e).edgeOut == [dst];
    Detach(fun, e, dst);
    var preds := set p | p in fun.blocks && p in fun.bbls[e.no].edgeIn;
    PredsAreAll(f, fun.View(), e, dst, preds);
    RedirectPreds(fun, e, dst, preds, f);
    RedirectingFrame(f, fun.View(), e, dst, preds);
    GraphDone(f, fun.View(), e, dst, preds);
  }

  /** The block leaves the graph; its predecessors still point to it. */
  method Detach(fun: Fun, e: BblId, dst: BblId)
    requires Graph(fun.View()) && e in fun.blocks && dst in fun.blocks && BblAt(fun.View(), e).edgeOut == [dst] && dst != e
    requires e.no < |fun.bbls| && dst.no < |fun.bbls|
    modifies fun`blocks, fun`bbls
    ensures fun.blocks == old(fun.blocks) - {e} && Redirecting(old(fun.View()), fun.View(), e, dst, {})
    ensures e.no < |fun.bbls| && fun.bbls[e.no].edgeIn == BblAt(old(fun.View()), e).edgeIn
  {
    ghost var f := fun.View();
    fun.blocks := fun.blocks - {e};
    fun.bbls := fun.bbls[dst.no := fun.bbls[dst.no].(edgeIn := fun.bbls[dst.no].edgeIn - multiset{e})];
    fun.bbls := fun.bbls[e.no := fun.bbls[e.no].(edgeOut := [])];
    assert dst.no != e.no;
    RemovalStarts(f, fun.View(), e, dst);
    hide Redirecting, Graph;
  }

  method RedirectPreds(fun: Fun, e: BblId, dst: BblId, preds: set<BblId>, ghost f: Fn)
    requires WfLayout(f) && WfCode(f) && Redirecting(f, fun.View(), e, dst, {}) && fun.blocks == f.blocks - {e}
    requires preds <= fun.blocks && dst in fun.blocks && e in f.blocks
    modifies fun`code, fun`jtbs, fun`bbls
    ensures Redirecting(f, fun.View(), e, dst, preds)
  {
    var todo := preds;
    ghost var done: set<BblId> := {};
    hide Redirecting, WfLayout, WfCode;
    while todo != {}
      invariant todo <= preds && done == preds - todo && Redirecting(f, fun.View(), e, dst, done)
      decreases |todo|
    {
      var p :| p in todo;
      RedirectPred(fun, e, dst, p, f, done);
      todo, done := todo - {p}, done + {p};
    }
    assert done == preds;
  }

  lemma RedirectingFrame(f: Fn, d: Fn, e: BblId, dst: BblId, done: set<BblId>)
    requires Redirecting(f, d, e, dst, done)
    ensures d.order == f.order
  {
    hide CodePatched, TablesPatched, OutPatched, InPatched;
  }

  lemma EmptyHasOneEdge(f: Fn, e: BblId)
    requires Graph(f) && e in f.blocks && BblAt(f, e).inss == []
    ensures WfLayout(f) && WfCode(f) && |BblAt(f, e).edgeOut| == 1 && BblAt(f, e).edgeOut[0] in f.blocks
    ensures e.no < |f.bbls| && BblAt(f, e).edgeOut[0].no < |f.bbls|
  {
    assert WfEdges(f, e);
    hide WfCode, MutualCount;
    assert BblAt(f, e).edgeOut[0] in BblAt(f, e).edgeOut;
  }

  lemma OneEdgeIn(f: Fn, e: BblId, dst: BblId)
    requires Graph(f) && e in f.blocks && BblAt(f, e).edgeOut == [dst] && dst in f.blocks
    ensures CountOut(f, e, dst) == 1 && BblAt(f, dst).edgeIn[e] == 1
  {
    hide WfLayout, WfCode, WfEdges;
    assert CountOut(f, e, dst) == 1 by { assert Count([dst], dst, 1) == Count([dst], dst, 0) + 1; }
  }

  lemma NothingPatched(f: Fn, d: Fn, e: BblId, dst: BblId)
    requires d.code == f.code && d.jtbs == f.jtbs
    ensures CodePatched(f, d, e, dst, {}) && TablesPatched(f, d, e, dst, {})
  {
  }

  /** Only the edge from e to dst is gone. */
  ghost predicate EdgeGone(f: Fn, d: Fn, e: BblId, dst: BblId) {
    forall b :: b != e ==> BblAt(d, b) == if b == dst then BblAt(f, b).(edgeIn := BblAt(f, b).edgeIn - multiset{e}) else BblAt(f, b)
  }

  lemma OthersStand(f: Fn, d: Fn, e: BblId, dst: BblId)
    requires dst != e && e.no < |f.bbls| && dst.no < |f.bbls|
    requires d.bbls == f.bbls[dst.no := f.bbls[dst.no].(edgeIn := f.bbls[dst.no].edgeIn - multiset{e})]
                            [e.no := f.bbls[e.no].(edgeOut := [])]
    ensures EdgeGone(f, d, e, dst)
  {
    forall b | b != e ensures BblAt(d, b) == if b == dst then BblAt(f, b).(edgeIn := BblAt(f, b).edgeIn - multiset{e}) else BblAt(f, b) {
      assert b.no != e.no && (b.no == dst.no <==> b == dst);
    }
  }

  lemma EdgesStand(f: Fn, d: Fn, e: BblId, dst: BblId)
    requires EdgeGone(f, d, e, dst) && d.blocks == f.blocks - {e} && BblAt(f, dst).edgeIn[e] == 1
    ensures OutPatched(f, d, e, dst, {}) && InPatched(f, d, e, dst, {})
    ensures forall b :: b in d.blocks ==> BblAt(d, b).inss == BblAt(f, b).inss
  {
    hide CountOut;
  }

  lemma RemovalStarts(f: Fn, d: Fn, e: BblId, dst: BblId)
    requires Graph(f) && e in f.blocks && BblAt(f, e).edgeOut == [dst] && dst in f.blocks && dst != e && e.no < |f.bbls| && dst.no < |f.bbls|
    requires d.blocks == f.blocks - {e} && d == f.(blocks := d.blocks, bbls := d.bbls)
    requires d.bbls == f.bbls[dst.no := f.bbls[dst.no].(edgeIn := f.bbls[dst.no].edgeIn - multiset{e})]
                            [e.no := f.bbls[e.no].(edgeOut := [])]
    ensures Redirecting(f, d, e, dst, {})
  {
    hide Graph, CodePatched, TablesPatched, OutPatched, InPatched, EdgeGone;
    OneEdgeIn(f, e, dst);
    NothingPatched(f, d, e, dst);
    OthersStand(f, d, e, dst);
    EdgesStand(f, d, e, dst);
  }

  lemma PredsAreAll(f: Fn, d: Fn, e: BblId, dst: BblId, preds: set<BblId>)
    requires Graph(f) && Redirecting(f, d, e, dst, {}) && e in f.blocks && e.no < |d.bbls| && d.bbls[e.no].edgeIn == BblAt(f, e).edgeIn
    requires preds == set p | p in d.blocks && p in d.bbls[e.no].edgeIn
    ensures preds <= d.blocks && forall b :: b in d.blocks && e in BblAt(f, b).edgeOut ==> b in preds
  {
    hide WfLayout, WfCode, WfEdges, CodePatched, TablesPatched, OutPatched, InPatched;
    forall b | b in d.blocks && e in BblAt(f, b).edgeOut ensures b in preds {
      CountOutIff(f, b, e);
      assert BblAt(f, e).edgeIn[b] == CountOut(f, b, e);
    }
  }

  /** No cycle of empty blocks: along edges between them the rank falls. */
  ghost predicate Ranked(f: Fn, rank: map<BblId, nat>) {
    forall b, x :: b in f.blocks && x in BblAt(f, b).edgeOut && BblAt(f, b).inss == [] && BblAt(f, x).inss == [] ==>
      b in rank && x in rank && rank[x] < rank[b]
  }

  ghost predicate NoEmptyCycle(f: Fn) {
    exists rank: map<BblId, nat> :: Ranked(f, rank)
  }

  type Resolution = map<BblId, BblId>

  function Resolve(res: Resolution, x: BblId): BblId { if x in res then res[x] else x }

  function ResolveNext(res: Resolution, t: Option<BblId>): Option<BblId> {
    match t case None => None case Some(x) => Some(Resolve(res, x))
  }

  /** A block of c does what it does in f and goes to where f's next block leads. */
  ghost predicate BehavesLike(f: Fn, c: Fn, res: Resolution, b: BblId) {
    && BblAt(c, b).inss == BblAt(f, b).inss
    && forall m: Machine, s: State ::
         ExecBbl(m, c, b, s) == ExecBbl(m, f, b, s) && EdgeNext(m, c, b, s) == ResolveNext(res, EdgeNext(m, f, b, s))
  }

  ghost predicate EmptyOneWay(f: Fn, t: BblId) { BblAt(f, t).inss == [] && |BblAt(f, t).edgeOut| == 1 }

  /** c is f without some empty blocks; res says where each block of f leads now. */
  ghost predicate Contracted(f: Fn, c: Fn, res: Resolution) {
    && c.blocks <= f.blocks && res.Keys == f.blocks
    && (forall t :: t in f.blocks ==> res[t] in c.blocks)
    && (forall t :: t in c.blocks ==> res[t] == t)
    && (forall t :: t in f.blocks - c.blocks ==> EmptyOneWay(f, t) && Resolve(res, BblAt(f, t).edgeOut[0]) == res[t])
    && (forall b :: b in c.blocks ==> BehavesLike(f, c, res, b))
  }

  ghost predicate RankFalls(f: Fn, res: Resolution, rank: map<BblId, nat>) {
    forall t :: t in res && res[t] != t && BblAt(f, res[t]).inss == [] ==> t in rank && res[t] in rank && rank[res[t]] < rank[t]
  }

  lemma StartContracted(f: Fn, rank: map<BblId, nat>)
    requires WfLayout(f) && forall b :: b in f.blocks ==> WfEdges(f, b)
    ensures var res := map b | b in f.blocks :: b; Contracted(f, f, res) && RankFalls(f, res, rank)
  {
    var res: Resolution := map b | b in f.blocks :: b;
    forall b | b in f.blocks ensures BehavesLike(f, f, res, b) {
      forall m: Machine, s: State ensures EdgeNext(m, f, b, s) == ResolveNext(res, EdgeNext(m, f, b, s)) { NextInside(m, f, b, s); }
      hide EdgeNext, ExecBbl;
    }
    hide BehavesLike;
  }

  lemma EmptyNext(m: Machine, f: Fn, e: BblId, s: State)
    requires BblAt(f, e).inss == []
    ensures EdgeNext(m, f, e, s) == OnlyEdge(BblAt(f, e).edgeOut) && ExecBbl(m, f, e, s) == s
  {
  }

  ghost function SomeMachine(): Machine {
    var m: Machine :| true; m
  }

  /** The successor of an empty block in c is where its successor in f leads. */
  lemma SuccessorResolves(f: Fn, c: Fn, res: Resolution, e: BblId)
    requires WfLayout(f) && Contracted(f, c, res) && e in c.blocks && BblAt(f, e).inss == [] && WfEdges(f, e) && WfEdges(c, e)
    ensures |BblAt(f, e).edgeOut| == 1 && |BblAt(c, e).edgeOut| == 1 && BblAt(f, e).edgeOut[0] in f.blocks
    ensures BblAt(c, e).edgeOut[0] == res[BblAt(f, e).edgeOut[0]]
  {
    assert BehavesLike(f, c, res, e);
    var m, s := SomeMachine(), State(map[], map[], []);
    EmptyNext(m, f, e, s);
    EmptyNext(m, c, e, s);
    assert EdgeNext(m, c, e, s) == ResolveNext(res, EdgeNext(m, f, e, s));
    assert BblAt(f, e).edgeOut[0] in BblAt(f, e).edgeOut;
  }

  lemma NotItself(f: Fn, c: Fn, res: Resolution, rank: map<BblId, nat>, e: BblId)
    requires Contracted(f, c, res) && Ranked(f, rank) && RankFalls(f, res, rank) && e in c.blocks && BblAt(f, e).inss == []
    requires |BblAt(f, e).edgeOut| == 1 && BblAt(f, e).edgeOut[0] in f.blocks
    ensures res[BblAt(f, e).edgeOut[0]] != e
  {
    var x := BblAt(f, e).edgeOut[0];
    assert x in BblAt(f, e).edgeOut;
    if x !in c.blocks {
      assert EmptyOneWay(f, x);
      assert rank[x] < rank[e];
    }
    hide BehavesLike;
  }

  lemma ContractOne(f: Fn, c: Fn, d: Fn, res: Resolution, rank: map<BblId, nat>, e: BblId, dst: BblId)
    requires WfLayout(f) && (forall b :: b in f.blocks ==> WfEdges(f, b)) && (forall b :: b in c.blocks ==> WfEdges(c, b))
    requires Contracted(f, c, res) && Ranked(f, rank) && RankFalls(f, res, rank)
    requires e in c.blocks && BblAt(f, e).inss == [] && BblAt(c, e).edgeOut == [dst]
    requires d.blocks == c.blocks - {e} && dst in d.blocks && forall b :: b in d.blocks ==> Redirected(c, d, e, dst, b)
    ensures var res' := map x | x in res :: Subst(res[x], e, dst); Contracted(f, d, res') && RankFalls(f, res', rank)
  {
    hide BehavesLike, Redirected, WfEdges, Ranked, RankFalls, WfLayout;
    var res': Resolution := map x | x in res :: Subst(res[x], e, dst);
    ContractedEdges(f, c, e);
    SuccessorResolves(f, c, res, e);
    var x := BblAt(f, e).edgeOut[0];
    AllBehave(f, c, d, res, res', e, dst);
    AllPass(f, c, res, res', e, dst);
    RankStillFalls(f, c, res, rank, e, dst, x);
  }

  lemma ContractedEdges(f: Fn, c: Fn, e: BblId)
    requires c.blocks <= f.blocks && e in c.blocks
    requires (forall b :: b in f.blocks ==> WfEdges(f, b)) && (forall b :: b in c.blocks ==> WfEdges(c, b))
    ensures WfEdges(f, e) && WfEdges(c, e)
  {
  }

  lemma AllBehave(f: Fn, c: Fn, d: Fn, res: Resolution, res': Resolution, e: BblId, dst: BblId)
    requires WfLayout(f) && (forall b :: b in f.blocks ==> WfEdges(f, b)) && (forall b :: b in c.blocks ==> WfEdges(c, b))
    requires c.blocks <= f.blocks && d.blocks <= c.blocks && res.Keys == f.blocks && res' == map x | x in res :: Subst(res[x], e, dst)
    requires (forall b :: b in c.blocks ==> BehavesLike(f, c, res, b)) && (forall b :: b in d.blocks ==> Redirected(c, d, e, dst, b))
    ensures forall b :: b in d.blocks ==> BehavesLike(f, d, res', b)
  {
    hide BehavesLike, Redirected, WfEdges, WfLayout;
    forall b | b in d.blocks ensures BehavesLike(f, d, res', b) {
      BehavesOn(f, c, d, res, res', e, dst, b);
    }
  }

  lemma AllPass(f: Fn, c: Fn, res: Resolution, res': Resolution, e: BblId, dst: BblId)
    requires WfLayout(f) && Contracted(f, c, res) && res' == map x | x in res :: Subst(res[x], e, dst)
    requires e in c.blocks && EmptyOneWay(f, e) && res[e] == e && Resolve(res, BblAt(f, e).edgeOut[0]) == dst && dst != e
    ensures forall t :: t in f.blocks - (c.blocks - {e}) ==> EmptyOneWay(f, t) && Resolve(res', BblAt(f, t).edgeOut[0]) == res'[t]
  {
    hide BehavesLike;
    forall t | t in f.blocks - (c.blocks - {e}) ensures EmptyOneWay(f, t) && Resolve(res', BblAt(f, t).edgeOut[0]) == res'[t] {
      if t != e { assert EmptyOneWay(f, t) && Resolve(res, BblAt(f, t).edgeOut[0]) == res[t]; }
      StaysInFn(f, t);
      hide WfLayout, Contracted;
    }
  }

  lemma StaysInFn(f: Fn, t: BblId)
    requires WfLayout(f) && t in f.blocks && |BblAt(f, t).edgeOut| == 1
    ensures BblAt(f, t).edgeOut[0] in f.blocks
  {
    assert BblAt(f, t).edgeOut[0] in BblAt(f, t).edgeOut;
  }

  lemma TargetFalls(f: Fn, c: Fn, res: Resolution, rank: map<BblId, nat>, e: BblId, dst: BblId, x: BblId)
    requires Ranked(f, rank) && RankFalls(f, res, rank) && Contracted(f, c, res)
    requires e in f.blocks && BblAt(f, e).inss == [] && BblAt(f, e).edgeOut == [x] && x in res && res[x] == dst
    ensures BblAt(f, dst).inss == [] ==> e in rank && dst in rank && rank[dst] < rank[e]
  {
    hide BehavesLike;
    assert x in BblAt(f, e).edgeOut;
    if x !in c.blocks { assert EmptyOneWay(f, x); }
    hide BblAt;
  }

  lemma OneStillFalls(f: Fn, res: Resolution, rank: map<BblId, nat>, e: BblId, dst: BblId, t: BblId)
    requires RankFalls(f, res, rank) && BblAt(f, e).inss == [] && t in res
    requires BblAt(f, dst).inss == [] ==> e in rank && dst in rank && rank[dst] < rank[e]
    ensures var s := Subst(res[t], e, dst); s != t && BblAt(f, s).inss == [] ==> t in rank && s in rank && rank[s] < rank[t]
  {
    hide BblAt;
  }

  lemma RankStillFalls(f: Fn, c: Fn, res: Resolution, rank: map<BblId, nat>, e: BblId, dst: BblId, x: BblId)
    requires Ranked(f, rank) && RankFalls(f, res, rank) && Contracted(f, c, res)
    requires e in f.blocks && BblAt(f, e).inss == [] && BblAt(f, e).edgeOut == [x] && x in res && res[x] == dst
    ensures RankFalls(f, map y | y in res :: Subst(res[y], e, dst), rank)
  {
    var res': Resolution := map y | y in res :: Subst(res[y], e, dst);
    TargetFalls(f, c, res, rank, e, dst, x);
    hide Contracted, Ranked, BblAt;
    forall t | t in res' && res'[t] != t && BblAt(f, res'[t]).inss == [] ensures t in rank && res'[t] in rank && rank[res'[t]] < rank[t] {
      OneStillFalls(f, res, rank, e, dst, t);
      hide RankFalls;
    }
  }

  lemma BehavesOn(f: Fn, c: Fn, d: Fn, res: Resolution, res': Resolution, e: BblId, dst: BblId, b: BblId)
    requires WfLayout(f) && b in f.blocks && WfEdges(f, b) && WfEdges(c, b) && BehavesLike(f, c, res, b) && Redirected(c, d, e, dst, b)
    requires res.Keys == f.blocks && res' == map x | x in res :: Subst(res[x], e, dst)
    ensures BehavesLike(f, d, res', b)
  {
    forall m: Machine, s: State
      ensures ExecBbl(m, d, b, s) == ExecBbl(m, f, b, s) && EdgeNext(m, d, b, s) == ResolveNext(res', EdgeNext(m, f, b, s))
    {
      RedirectedNext(m, c, d, e, dst, b, s);
      RedirectedExec(m, c, d, e, dst, b, |BblAt(c, b).inss|, s);
      NextInside(m, f, b, s);
      assert EdgeNext(m, c, b, s) == ResolveNext(res, EdgeNext(m, f, b, s));
      hide EdgeNext, ExecIds, WfEdges, WfLayout, TableRedirected, SubstIns;
    }
    hide EdgeNext, ExecBbl, WfEdges, TableRedirected, SubstIns;
  }

  // ---------------------------------------------------------------- runs without the removed blocks

  predicate Shown(g: Fn, v: Visit) { v.Done? || v.bbl in g.blocks }

  /** How many of the first n visits of f are to blocks that g still has. */
  function ShownBefore(m: Machine, f: Fn, g: Fn, s0: State, n: nat): nat {
    if n == 0 then 0 else ShownBefore(m, f, g, s0, n - 1) + if Shown(g, Run(m, f, s0, n - 1)) then 1 else 0
  }

  /** Leaving out the visits to blocks that are gone, the run of f is the run of g; nothing of the
      run of g is missing. */
  ghost predicate RunWithout(m: Machine, f: Fn, g: Fn, s0: State) {
    && (forall n: nat :: Shown(g, Run(m, f, s0, n)) ==> Run(m, g, s0, ShownBefore(m, f, g, s0, n)) == Run(m, f, s0, n))
    && (forall k: nat :: ShowsUp(m, f, g, s0, k))
  }

  ghost predicate ShowsUp(m: Machine, f: Fn, g: Fn, s0: State, k: nat) {
    exists n: nat :: Shown(g, Run(m, f, s0, n)) && ShownBefore(m, f, g, s0, n) == k
  }

  ghost predicate SameButForEmptyBbls(f: Fn, g: Fn) {
    forall m: Machine, s0: State :: RunWithout(m, f, g, s0)
  }

  function LeadsTo(res: Resolution, v: Visit): Visit {
    match v case At(t, s) => At(Resolve(res, t), s) case Done(s) => Done(s)
  }

  lemma StepLeads(m: Machine, f: Fn, g: Fn, res: Resolution, v: Visit)
    requires Contracted(f, g, res) && (v.At? ==> v.bbl in f.blocks)
    ensures Shown(g, v) ==> LeadsTo(res, RunStep(m, f, v)) == RunStep(m, g, LeadsTo(res, v))
    ensures !Shown(g, v) ==> LeadsTo(res, RunStep(m, f, v)) == LeadsTo(res, v)
  {
    if v.At? {
      if v.bbl in g.blocks {
        assert BehavesLike(f, g, res, v.bbl);
        assert ExecBbl(m, g, v.bbl, v.state) == ExecBbl(m, f, v.bbl, v.state);
        var s' := ExecBbl(m, f, v.bbl, v.state);
        assert EdgeNext(m, g, v.bbl, s') == ResolveNext(res, EdgeNext(m, f, v.bbl, s'));
      } else {
        assert EmptyOneWay(f, v.bbl) && Resolve(res, BblAt(f, v.bbl).edgeOut[0]) == res[v.bbl];
        EmptyNext(m, f, v.bbl, v.state);
      }
    }
    hide EdgeNext, ExecBbl, BehavesLike;
  }

  lemma {:induction false} RunLeads(m: Machine, f: Fn, g: Fn, res: Resolution, s0: State, n: nat)
    requires WfLayout(f) && (forall b :: b in f.blocks ==> WfEdges(f, b)) && Contracted(f, g, res)
    requires First(g) == First(f) && First(f) in g.blocks
    ensures Run(m, g, s0, ShownBefore(m, f, g, s0, n)) == LeadsTo(res, Run(m, f, s0, n))
  {
    hide *;
    if n > 0 {
      RunLeads(m, f, g, res, s0, n - 1);
      RunStaysInside(m, f, s0, n - 1);
      StepLeads(m, f, g, res, Run(m, f, s0, n - 1));
      RunUnfolds(m, f, g, s0, n - 1);
      if Shown(g, Run(m, f, s0, n - 1)) { RunUnfolds(m, g, g, s0, ShownBefore(m, f, g, s0, n - 1)); }
    } else {
      RunStarts(m, f, g, res, s0);
    }
  }

  lemma RunUnfolds(m: Machine, f: Fn, g: Fn, s0: State, n: nat)
    ensures Run(m, f, s0, n + 1) == RunStep(m, f, Run(m, f, s0, n))
    ensures ShownBefore(m, f, g, s0, n + 1) == ShownBefore(m, f, g, s0, n) + if Shown(g, Run(m, f, s0, n)) then 1 else 0
  {
    hide RunStep, Shown;
  }

  lemma RunStarts(m: Machine, f: Fn, g: Fn, res: Resolution, s0: State)
    requires Contracted(f, g, res) && First(g) == First(f) && First(f) in g.blocks
    ensures Run(m, g, s0, ShownBefore(m, f, g, s0, 0)) == LeadsTo(res, Run(m, f, s0, 0))
  {
    hide BehavesLike;
  }

  /** From a removed block the run soon comes to one that is still there. */
  lemma {:induction false} ComesOut(m: Machine, f: Fn, g: Fn, res: Resolution, rank: map<BblId, nat>, s0: State, n: nat) returns (n': nat)
    requires WfLayout(f) && (forall b :: b in f.blocks ==> WfEdges(f, b)) && Contracted(f, g, res) && Ranked(f, rank)
    ensures n <= n' && Shown(g, Run(m, f, s0, n')) && ShownBefore(m, f, g, s0, n') == ShownBefore(m, f, g, s0, n)
    decreases Distance(g, rank, Run(m, f, s0, n))
  {
    hide *;
    n' := n;
    if !Shown(g, Run(m, f, s0, n)) {
      OneOut(m, f, g, res, rank, s0, n);
      n' := ComesOut(m, f, g, res, rank, s0, n + 1);
    }
  }

  /** How far a visit is from showing. */
  function Distance(g: Fn, rank: map<BblId, nat>, v: Visit): nat {
    if Shown(g, v) then 0 else if v.At? && v.bbl in rank then rank[v.bbl] + 1 else 1
  }

  /** A block that was removed leads one way, and not back. */
  lemma NextFalls(f: Fn, g: Fn, res: Resolution, rank: map<BblId, nat>, b: BblId)
    requires WfLayout(f) && Contracted(f, g, res) && Ranked(f, rank) && b in f.blocks && b !in g.blocks
    ensures EmptyOneWay(f, b)
    ensures var x := BblAt(f, b).edgeOut[0]; x in f.blocks && (x !in g.blocks ==> b in rank && x in rank && rank[x] < rank[b])
  {
    hide BehavesLike;
    assert EmptyOneWay(f, b);
    var x := BblAt(f, b).edgeOut[0];
    assert x in BblAt(f, b).edgeOut;
    if x !in g.blocks { assert EmptyOneWay(f, x); }
  }

  lemma OneOut(m: Machine, f: Fn, g: Fn, res: Resolution, rank: map<BblId, nat>, s0: State, n: nat)
    requires WfLayout(f) && (forall b :: b in f.blocks ==> WfEdges(f, b)) && Contracted(f, g, res) && Ranked(f, rank)
    requires !Shown(g, Run(m, f, s0, n))
    ensures Distance(g, rank, Run(m, f, s0, n + 1)) < Distance(g, rank, Run(m, f, s0, n))
    ensures ShownBefore(m, f, g, s0, n + 1) == ShownBefore(m, f, g, s0, n)
  {
    RunStaysInside(m, f, s0, n);
    RunUnfolds(m, f, g, s0, n);
    var v := Run(m, f, s0, n);
    hide Run, WfEdges;
    NextFalls(f, g, res, rank, v.bbl);
    hide Contracted, Ranked, EdgeNext, ExecBbl;
    EmptyNext(m, f, v.bbl, v.state);
  }

  lemma {:induction false} AllShowUp(m: Machine, f: Fn, g: Fn, res: Resolution, rank: map<BblId, nat>, s0: State, k: nat)
    requires WfLayout(f) && (forall b :: b in f.blocks ==> WfEdges(f, b)) && Contracted(f, g, res) && Ranked(f, rank)
    ensures ShowsUp(m, f, g, s0, k)
  {
    hide Contracted, WfEdges, WfLayout, Ranked, Run, Shown;
    if k == 0 {
      var n := ComesOut(m, f, g, res, rank, s0, 0);
    } else {
      AllShowUp(m, f, g, res, rank, s0, k - 1);
      var n: nat :| Shown(g, Run(m, f, s0, n)) && ShownBefore(m, f, g, s0, n) == k - 1;
      var n' := ComesOut(m, f, g, res, rank, s0, n + 1);
      assert ShownBefore(m, f, g, s0, n + 1) == k;
    }
  }

  lemma EmptyBblsDontMatter(f: Fn, g: Fn, res: Resolution)
    requires WfLayout(f) && (forall b :: b in f.blocks ==> WfEdges(f, b)) && Contracted(f, g, res) && NoEmptyCycle(f)
    requires First(g) == First(f) && First(f) in g.blocks
    ensures SameButForEmptyBbls(f, g)
  {
    var rank: map<BblId, nat> :| Ranked(f, rank);
    forall m: Machine, s0: State ensures RunWithout(m, f, g, s0) {
      forall n: nat | Shown(g, Run(m, f, s0, n)) ensures Run(m, g, s0, ShownBefore(m, f, g, s0, n)) == Run(m, f, s0, n) {
        RunLeads(m, f, g, res, s0, n);
        hide BehavesLike, Run, ShownBefore;
      }
      hide Contracted, WfEdges, WfLayout, Ranked, Run, Shown, ShownBefore;
      forall k: nat ensures ShowsUp(m, f, g, s0, k) { AllShowUp(m, f, g, res, rank, s0, k); }
    }
  }

  // ---------------------------------------------------------------- the pass

  /** The state after the first n blocks of the layout: the empty ones among them are gone. */
  ghost predicate Shrunk(f: Fn, c: Fn, keep: seq<BblId>, n: nat, res: Resolution, rank: map<BblId, nat>)
    requires n <= |f.order|
  {
    && Graph(c) && c.order == f.order && Contracted(f, c, res) && RankFalls(f, res, rank)
    && LeftOver(f, c, n) && Keeps(f, keep, n)
  }

  /** The first n blocks of the layout without the empty ones. */
  function NonEmpty(f: Fn, n: nat): seq<BblId>
    requires n <= |f.order|
  {
    if n == 0 then [] else NonEmpty(f, n - 1) + if BblAt(f, f.order[n - 1]).inss != [] then [f.order[n - 1]] else []
  }

  /** keep lists the nonempty blocks among the first n, in order. */
  ghost predicate Keeps(f: Fn, keep: seq<BblId>, n: nat)
    requires n <= |f.order|
  {
    && keep == NonEmpty(f, n)
    && (forall k :: 0 <= k < n && BblAt(f, f.order[k]).inss != [] ==> f.order[k] in keep)
    && (forall b :: b in keep ==> InLayoutBefore(f, b, n) && BblAt(f, b).inss != [])
    && (forall i, j :: 0 <= i < j < |keep| ==> keep[i] != keep[j])
    && (n > 0 && BblAt(f, f.order[0]).inss != [] ==> keep != [] && keep[0] == f.order[0])
  }

  predicate InLayoutBefore(f: Fn, b: BblId, n: nat)
    requires n <= |f.order|
  {
    exists k :: 0 <= k < n && f.order[k] == b
  }

  lemma KeepOneMore(f: Fn, keep: seq<BblId>, n: nat)
    requires WfOrder(f) && n < |f.order| && Keeps(f, keep, n)
    ensures BblAt(f, f.order[n]).inss != [] ==> Keeps(f, keep + [f.order[n]], n + 1)
    ensures BblAt(f, f.order[n]).inss == [] ==> Keeps(f, keep, n + 1)
  {
    hide BblAt;
    forall b | b in keep ensures InLayoutBefore(f, b, n + 1) && b != f.order[n] {
      assert InLayoutBefore(f, b, n);
    }
    if keep != [] { assert InLayoutBefore(f, keep[0], n); }
    var x := f.order[n];
    assert InLayoutBefore(f, x, n + 1);
    if BblAt(f, x).inss != [] {
      var keep' := keep + [x];
      forall k | 0 <= k < n + 1 && BblAt(f, f.order[k]).inss != [] ensures f.order[k] in keep' {
        if k < n { assert f.order[k] in keep; } else { assert keep'[|keep|] == x; }
      }
    }
  }

  lemma BlocksShrink(f: Fn, c: Fn, d: Fn, n: nat)
    requires WfOrder(f) && n < |f.order| && d.blocks == c.blocks - {f.order[n]} && BblAt(f, f.order[n]).inss == []
    requires LeftOver(f, c, n)
    ensures LeftOver(f, d, n + 1)
    ensures f.order[n] in c.blocks
  {
    hide BblAt;
    forall k | 0 <= k < |f.order| ensures f.order[k] in d.blocks <==> BblAt(f, f.order[k]).inss != [] || n + 1 <= k {
      assert f.order[k] == f.order[n] <==> k == n;
    }
  }

  lemma ShrinkEmpty(f: Fn, c: Fn, d: Fn, keep: seq<BblId>, n: nat, res: Resolution, rank: map<BblId, nat>, dst: BblId) returns (res': Resolution)
    requires WfLayout(f) && WfOrder(f) && (forall b :: b in f.blocks ==> WfEdges(f, b)) && Ranked(f, rank) && n < |f.order|
    requires Shrunk(f, c, keep, n, res, rank) && BblAt(f, f.order[n]).inss == []
    requires d.order == c.order && d.blocks == c.blocks - {f.order[n]} && Graph(d) && dst in d.blocks && BblAt(c, f.order[n]).edgeOut == [dst]
    requires forall b :: b in d.blocks ==> Redirected(c, d, f.order[n], dst, b)
    ensures Shrunk(f, d, keep, n + 1, res', rank)
  {
    hide *;
    var e := f.order[n];
    ShrunkParts(f, c, keep, n, res, rank);
    KeepOneMore(f, keep, n);
    BlocksShrink(f, c, d, n);
    GraphEdges(c);
    ContractOne(f, c, d, res, rank, e, dst);
    res' := map x | x in res :: Subst(res[x], e, dst);
    ShrunkByParts(f, d, keep, n + 1, res', rank);
  }

  ghost predicate LeftOver(f: Fn, c: Fn, n: nat)
    requires n <= |f.order|
  {
    forall k :: 0 <= k < |f.order| ==> (f.order[k] in c.blocks <==> BblAt(f, f.order[k]).inss != [] || n <= k)
  }

  lemma ShrunkParts(f: Fn, c: Fn, keep: seq<BblId>, n: nat, res: Resolution, rank: map<BblId, nat>)
    requires n <= |f.order| && Shrunk(f, c, keep, n, res, rank)
    ensures Graph(c) && c.order == f.order && Contracted(f, c, res) && RankFalls(f, res, rank) && LeftOver(f, c, n) && Keeps(f, keep, n)
  {
    hide Graph, Contracted, RankFalls, LeftOver, Keeps;
  }

  lemma ShrunkByParts(f: Fn, c: Fn, keep: seq<BblId>, n: nat, res: Resolution, rank: map<BblId, nat>)
    requires n <= |f.order| && Graph(c) && c.order == f.order && Contracted(f, c, res) && RankFalls(f, res, rank) && LeftOver(f, c, n) && Keeps(f, keep, n)
    ensures Shrunk(f, c, keep, n, res, rank)
  {
    hide Graph, Contracted, RankFalls, LeftOver, Keeps;
  }

  lemma GraphEdges(c: Fn)
    requires Graph(c)
    ensures forall b :: b in c.blocks ==> WfEdges(c, b)
  {
    hide WfEdges, WfLayout, WfCode, MutualCount;
  }

  lemma ShrinkKept(f: Fn, c: Fn, keep: seq<BblId>, n: nat, res: Resolution, rank: map<BblId, nat>)
    requires WfOrder(f) && n < |f.order| && Shrunk(f, c, keep, n, res, rank) && BblAt(f, f.order[n]).inss != []
    ensures Shrunk(f, c, keep + [f.order[n]], n + 1, res, rank)
  {
    hide BblAt, Graph, Contracted, RankFalls, Keeps;
    KeepOneMore(f, keep, n);
  }

  lemma ReadyToRemove(f: Fn, c: Fn, keep: seq<BblId>, n: nat, res: Resolution, rank: map<BblId, nat>)
    requires WfLayout(f) && WfOrder(f) && (forall b :: b in f.blocks ==> WfEdges(f, b)) && Ranked(f, rank) && n < |f.order|
    requires Shrunk(f, c, keep, n, res, rank)
    ensures var e := f.order[n]; e in c.blocks && e.no < |c.bbls| && c.bbls[e.no].inss == BblAt(f, e).inss && Graph(c) && c.order == f.order
    ensures var e := f.order[n]; BblAt(f, e).inss == [] ==> BblAt(c, e).inss == [] && BblAt(c, e).edgeOut != [e]
    ensures First(c) == First(f)
  {
    var e := f.order[n];
    assert e in c.blocks && e in f.order;
    InsKept(f, c, res, e);
    hide WfCode, MutualCount, BehavesLike;
    if BblAt(f, e).inss == [] {
      ContractedEdges(f, c, e);
      SuccessorResolves(f, c, res, e);
      NotItself(f, c, res, rank, e);
    }
  }

  lemma InsKept(f: Fn, c: Fn, res: Resolution, e: BblId)
    requires Contracted(f, c, res) && e in c.blocks
    ensures BblAt(c, e).inss == BblAt(f, e).inss
  {
    assert BehavesLike(f, c, res, e);
    hide EdgeNext, ExecBbl;
  }

  /** One block of the layout: kept, or removed if it is empty. */
  method ShrinkStep(fun: Fun, n: nat, keep0: seq<BblId>, ghost f: Fn, ghost res0: Resolution, ghost rank: map<BblId, nat>)
    returns (keep: seq<BblId>, ghost res: Resolution)
    requires WfLayout(f) && WfOrder(f) && (forall b :: b in f.blocks ==> WfEdges(f, b)) && Ranked(f, rank) && BblAt(f, First(f)).inss != []
    requires n < |f.order| && fun.order == f.order && Shrunk(f, fun.View(), keep0, n, res0, rank)
    modifies fun`blocks, fun`bbls, fun`code, fun`jtbs
    ensures Shrunk(f, fun.View(), keep, n + 1, res, rank)
  {
    ghost var c := fun.View();
    var b := fun.order[n];
    keep, res := keep0, res0;
    ReadyToRemove(f, c, keep, n, res, rank);
    FirstStays(f, n);
    hide Graph, Shrunk, WfLayout, WfEdges, WfOrder, Ranked, Redirected;
    if fun.bbls[b.no].inss != [] {
      ShrinkKept(f, c, keep, n, res, rank);
      keep := keep + [b];
    } else {
      RemoveEmptyBbl(fun, b);
      ghost var dst := BblAt(c, b).edgeOut[0];
      assert BblAt(c, b).edgeOut == [dst];
      res := ShrinkEmpty(f, c, fun.View(), keep, n, res, rank, dst);
    }
  }

  lemma FirstStays(f: Fn, n: nat)
    requires WfOrder(f) && n < |f.order| && BblAt(f, First(f)).inss != []
    ensures BblAt(f, f.order[n]).inss == [] ==> f.order[n] != First(f)
  {
  }

  /** Every empty block goes; afterwards runs are the same but for the visits to those. */
  method FunRemoveEmptyBbls(fun: Fun)
    requires Graph(fun.View()) && WfOrder(fun.View()) && NoEmptyCycle(fun.View())
    requires BblAt(fun.View(), First(fun.View())).inss != []
    modifies fun`order, fun`blocks, fun`bbls, fun`code, fun`jtbs
    ensures Graph(fun.View()) && WfOrder(fun.View()) && First(fun.View()) == First(old(fun.View()))
    ensures forall b :: b in fun.blocks <==> b in old(fun.blocks) && BblAt(old(fun.View()), b).inss != []
    ensures InOldOrder(old(fun.order), fun.order) && forall b :: b in fun.blocks ==> BblAt(fun.View(), b).inss == BblAt(old(fun.View()), b).inss
    ensures SameButForEmptyBbls(old(fun.View()), fun.View())
  {
    hide InOldOrder, Graph, Shrunk, WfLayout, WfEdges, WfOrder, Ranked, Redirected, NoEmptyCycle, BblAt, First, SameButForEmptyBbls, MutualCount, WfCode;
    ghost var f := fun.View();
    ghost var rank := RankOf(f);
    var keep: seq<BblId> := [];
    ghost var res := ShrinkStarts(f, rank);
    GraphParts(f);
    for n := 0 to |fun.order|
      invariant fun.order == f.order && Shrunk(f, fun.View(), keep, n, res, rank)
    {
      keep, res := ShrinkStep(fun, n, keep, f, res, rank);
    }
    ghost var c := fun.View();
    fun.order := keep;
    ShrinkEnds(f, c, keep, res, rank);
    NonEmptyInOrder(f, |f.order|);
    SameBodies(f, c, keep, res, rank);
  }

  /** The blocks of `less` stand in the order they have in `order`. */
  ghost predicate InOldOrder(order: seq<BblId>, less: seq<BblId>) {
    forall i, j :: 0 <= i < j < |less| ==> exists p, q :: 0 <= p < q < |order| && order[p] == less[i] && order[q] == less[j]
  }

  lemma {:induction false} NonEmptyInOrder(f: Fn, n: nat)
    requires n <= |f.order|
    ensures InOldOrder(f.order, NonEmpty(f, n))
    ensures forall i :: 0 <= i < |NonEmpty(f, n)| ==> exists p :: 0 <= p < n && f.order[p] == NonEmpty(f, n)[i]
  {
    hide BblAt;
    if n > 0 {
      NonEmptyInOrder(f, n - 1);
      var less, now := NonEmpty(f, n - 1), NonEmpty(f, n);
      forall i | 0 <= i < |now| ensures exists p :: 0 <= p < n && f.order[p] == now[i] {
        if i < |less| { var p :| 0 <= p < n - 1 && f.order[p] == less[i]; } else { assert f.order[n - 1] == now[i]; }
      }
      forall i, j | 0 <= i < j < |now| ensures exists p, q :: 0 <= p < q < |f.order| && f.order[p] == now[i] && f.order[q] == now[j] {
        if j == |less| {
          var p :| 0 <= p < n - 1 && f.order[p] == less[i];
          assert f.order[n - 1] == now[j];
        } else {
          assert now[i] == less[i] && now[j] == less[j];
        }
      }
    }
  }

  lemma SameBodies(f: Fn, c: Fn, keep: seq<BblId>, res: Resolution, rank: map<BblId, nat>)
    requires Shrunk(f, c, keep, |f.order|, res, rank)
    ensures forall b :: b in c.blocks ==> BblAt(c.(order := keep), b).inss == BblAt(f, b).inss
  {
    ShrunkParts(f, c, keep, |f.order|, res, rank);
    hide Shrunk, BblAt, Graph, RankFalls, LeftOver, Keeps;
    forall b | b in c.blocks ensures BblAt(c, b).inss == BblAt(f, b).inss {
      assert BehavesLike(f, c, res, b) by { hide BehavesLike; }
      hide ExecBbl, EdgeNext, Contracted;
    }
    OrderAside(c, keep);
  }

  lemma OrderAside(c: Fn, keep: seq<BblId>)
    ensures forall b :: BblAt(c.(order := keep), b) == BblAt(c, b)
  {
  }

  lemma RankOf(f: Fn) returns (rank: map<BblId, nat>)
    requires NoEmptyCycle(f)
    ensures Ranked(f, rank)
  {
    hide Ranked;
    rank :| Ranked(f, rank);
  }

  lemma GraphParts(f: Fn)
    requires Graph(f)
    ensures WfLayout(f) && forall b :: b in f.blocks ==> WfEdges(f, b)
  {
  }

  lemma ShrinkStarts(f: Fn, rank: map<BblId, nat>) returns (res: Resolution)
    requires Graph(f) && WfOrder(f)
    ensures Shrunk(f, f, [], 0, res, rank)
  {
    StartContracted(f, rank);
    res := map b | b in f.blocks :: b;
    hide WfEdges, WfCode, WfLayout, MutualCount, Contracted, RankFalls;
  }

  lemma ShrinkEnds(f: Fn, c: Fn, keep: seq<BblId>, res: Resolution, rank: map<BblId, nat>)
    requires Graph(f) && WfOrder(f) && NoEmptyCycle(f) && BblAt(f, First(f)).inss != [] && Shrunk(f, c, keep, |f.order|, res, rank)
    ensures var g := c.(order := keep);
      && Graph(g) && WfOrder(g) && First(g) == First(f) && SameButForEmptyBbls(f, g) && keep == NonEmpty(f, |f.order|)
      && forall b :: b in g.blocks <==> b in f.blocks && BblAt(f, b).inss != []
  {
    var g := c.(order := keep);
    hide WfEdges, WfCode, MutualCount, RankFalls, NoEmptyCycle, BehavesLike;
    forall b ensures b in g.blocks <==> b in f.blocks && BblAt(f, b).inss != [] {
      assert b in f.blocks ==> b in f.order;
      hide WfLayout;
    }
    forall b ensures b in keep <==> b in g.blocks {
      if b in g.blocks { assert b in f.order; }
      if b in keep { assert InLayoutBefore(f, b, |f.order|); }
      hide WfLayout, Contracted;
    }
    SameGraph(c, g);
    assert Contracted(f, g, res) by { SameContracted(f, c, g, res); }
    hide Contracted, Graph, Keeps;
    GraphParts(f);
    EmptyBblsDontMatter(f, g, res);
  }

  lemma SameGraph(c: Fn, g: Fn)
    requires Graph(c) && g == c.(order := g.order) && First(g) in g.blocks
    ensures Graph(g)
  {
    assert forall b :: BblAt(g, b) == BblAt(c, b) && LastIns(g, b) == LastIns(c, b);
    hide LastIns, BblAt, Count, WfIns;
    forall b | b in g.blocks ensures WfEdges(g, b) { assert WfEdges(c, b); }
    forall b, s ensures CountOut(g, b, s) == CountOut(c, b, s) {}
  }

  lemma SameContracted(f: Fn, c: Fn, g: Fn, res: Resolution)
    requires Contracted(f, c, res) && g == c.(order := g.order)
    ensures Contracted(f, g, res)
  {
    forall b | b in g.blocks ensures BehavesLike(f, g, res, b) {
      assert BehavesLike(f, c, res, b);
      assert BblAt(g, b) == BblAt(c, b) && LastIns(g, b) == LastIns(c, b);
      forall m: Machine, s: State ensures EdgeNext(m, g, b, s) == EdgeNext(m, c, b, s) && ExecBbl(m, g, b, s) == ExecBbl(m, c, b, s) {
        hide ExecIds, Holds, UseVals;
      }
      hide EdgeNext, ExecBbl;
    }
    hide BehavesLike;
  }
}
