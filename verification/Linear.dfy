/** Laying blocks out in a row. Without unconditional branches control lives in the edges; to run the
    blocks one after the other, branches are flipped or put back. Running by fall-through then does
    what following the edges did (`FunAddUnconditionalBranches`). */
module Linear {
  import opened IR
  import opened Cfg
  import DeadCode
  import Liveness

  // ---------------------------------------------------------------- running by fall-through

  function IndexIn(order: seq<BblId>, b: BblId): (i: nat)
    ensures b in order ==> i < |order| && order[i] == b
  {
    if order == [] || order[0] == b then 0 else IndexIn(order[1..], b) + 1
  }

  /** The block laid out after b. */
  function After(order: seq<BblId>, b: BblId): Option<BblId> {
    var i := IndexIn(order, b);
    if i + 1 < |order| then Some(order[i + 1]) else None
  }

  predicate Distinct(order: seq<BblId>) {
    forall i, j :: 0 <= i < j < |order| ==> order[i] != order[j]
  }

  lemma AfterAt(order: seq<BblId>, i: nat)
    requires Distinct(order) && i < |order|
    ensures After(order, order[i]) == if i + 1 < |order| then Some(order[i + 1]) else None
  {
    assert order[i] in order;
    assert IndexIn(order, order[i]) == i;
  }

  /** Where control goes from the end of b when `after` is what follows it. */
  function ExitWith(m: Machine, f: Fn, b: BblId, after: Option<BblId>, s: State): Option<BblId> {
    var last := LastIns(f, b);
    var vs := UseVals(m, last, s.regs);
    match last.opcode
    case Ret | Trap => None
    case Bra => Some(TargetOf(OperandAt(last, 0)))
    case CondBra(c) => if Holds(c, Nth(vs, 0), Nth(vs, 1)) then Some(TargetOf(OperandAt(last, 2))) else after
    case Switch => JtbLookup(f, OperandAt(last, 1), Nth(vs, 0))
    case _ => after
  }

  function LinearStep(m: Machine, f: Fn, v: Visit): Visit {
    match v
    case Done(_) => v
    case At(b, s) =>
      var s' := ExecBbl(m, f, b, s);
      match ExitWith(m, f, b, After(f.order, b), s')
      case None => Done(s')
      case Some(t) => At(t, s')
  }

  function LinearRun(m: Machine, f: Fn, s0: State, n: nat): Visit {
    if n == 0 then At(First(f), s0) else LinearStep(m, f, LinearRun(m, f, s0, n - 1))
  }

  // ---------------------------------------------------------------- taking unconditional branches out

  /** The bra at the end of a block, if any, is gone. */
  function WithoutBra(f: Fn, b: BblId): Bbl {
    var bbl := BblAt(f, b);
    if bbl.inss != [] && LastIns(f, b).opcode.Bra? then bbl.(inss := bbl.inss[..|bbl.inss| - 1]) else bbl
  }

  ghost predicate BrasGone(f: Fn, g: Fn, done: set<BblId>) {
    && g == f.(bbls := g.bbls) && |g.bbls| == |f.bbls|
    && forall b :: BblAt(g, b) == if b in done then WithoutBra(f, b) else BblAt(f, b)
  }

  lemma {:induction false} ExecFront(m: Machine, code: seq<Ins>, ids: seq<InsId>, n: nat, k: nat, s: State)
    requires k <= n <= |ids|
    ensures ExecIds(m, code, ids[..n], k, s) == ExecIds(m, code, ids, k, s)
  {
    hide ExecIns;
    if k > 0 { ExecFront(m, code, ids, n, k - 1, s); }
  }

  lemma BranchDoesNothing(m: Machine, ins: Ins, s: State)
    requires IsTerminator(ins.opcode) && !ins.opcode.Trap?
    ensures ExecIns(m, ins, s) == s
  {
    hide UseVals;
  }

  /** Following the edges needs no bra. */
  lemma BraIsEdge(m: Machine, f: Fn, g: Fn, b: BblId, s: State)
    requires BrasGone(f, g, f.blocks) && b in f.blocks && WfEdges(f, b) && DeadCode.TerminatorsLast(f)
    ensures ExecBbl(m, g, b, s) == ExecBbl(m, f, b, s)
    ensures EdgeNext(m, g, b, s) == EdgeNext(m, f, b, s)
  {
    var ids := BblAt(f, b).inss;
    if ids != [] && LastIns(f, b).opcode.Bra? {
      var n := |ids| - 1;
      ExecFront(m, f.code, ids, n, n, s);
      BranchDoesNothing(m, LastIns(f, b), ExecIds(m, f.code, ids, n, s));
      assert BblAt(g, b).inss == ids[..n];
      NotATerminator(f, g, b);
      hide ExecIns, UseVals, DeadCode.TerminatorsLast;
    } else {
      assert BblAt(g, b) == BblAt(f, b);
      hide ExecIds, UseVals, DeadCode.TerminatorsLast;
    }
  }

  lemma NotATerminator(f: Fn, g: Fn, b: BblId)
    requires BrasGone(f, g, f.blocks) && b in f.blocks && DeadCode.TerminatorsLast(f)
    requires BblAt(f, b).inss != [] && LastIns(f, b).opcode.Bra?
    ensures !IsTerminator(LastIns(g, b).opcode)
  {
    var ids := BblAt(f, b).inss;
    assert BblAt(g, b).inss == ids[..|ids| - 1];
    if |ids| > 1 { assert !IsTerminator(InsAt(f.code, Liveness.Ids(f, b)[|ids| - 2]).opcode); }
  }

  lemma {:induction false} SameRunWithoutBras(m: Machine, f: Fn, g: Fn, s0: State, n: nat)
    requires BrasGone(f, g, f.blocks) && DeadCode.TerminatorsLast(f) && WfLayout(f) && forall b :: b in f.blocks ==> WfEdges(f, b)
    ensures Run(m, g, s0, n) == Run(m, f, s0, n)
  {
    if n > 0 {
      SameRunWithoutBras(m, f, g, s0, n - 1);
      RunStaysInside(m, f, s0, n - 1);
      var v := Run(m, f, s0, n - 1);
      if v.At? {
        BraIsEdge(m, f, g, v.bbl, v.state);
        BraIsEdge(m, f, g, v.bbl, ExecBbl(m, f, v.bbl, v.state));
      }
      hide BrasGone, DeadCode.TerminatorsLast, WfLayout, WfEdges, EdgeNext, ExecBbl;
    }
  }

  method FunRemoveUnconditionalBranches(fun: Fun)
    requires WfLayout(fun.View()) && WfOrder(fun.View()) && DeadCode.TerminatorsLast(fun.View())
    requires forall b :: b in fun.blocks ==> WfEdges(fun.View(), b)
    modifies fun`bbls
    ensures BrasGone(old(fun.View()), fun.View(), fun.blocks)
    ensures SameRuns(old(fun.View()), fun.View())
    ensures forall b :: b in fun.blocks ==> !LastIns(fun.View(), b).opcode.Bra? && LosesBraOnly(old(fun.View()), fun.View(), b)
  {
    ghost var f := fun.View();
    ghost var done: set<BblId> := {};
    hide LosesBraOnly, LastIns;
    hide DeadCode.TerminatorsLast, WfEdges, WithoutBra, BrasGone;
    NoBrasGone(f);
    for k := 0 to |fun.order|
      invariant forall j :: 0 <= j < |f.order| ==> (f.order[j] in done <==> j < k)
      invariant done <= f.blocks && BrasGone(f, fun.View(), done)
    {
      var b := fun.order[k];
      assert b in f.blocks;
      ghost var g := fun.View();
      BraStillThere(f, g, done, b);
      var inss := fun.bbls[b.no].inss;
      if inss != [] && InsAt(fun.code, inss[|inss| - 1]).opcode.Bra? {
        fun.bbls := fun.bbls[b.no := fun.bbls[b.no].(inss := inss[..|inss| - 1])];
      }
      BraGone(f, g, fun.View(), done, b);
      done := done + {b};
    }
    assert done == f.blocks;
    forall b | b in fun.blocks ensures !LastIns(fun.View(), b).opcode.Bra? && LosesBraOnly(f, fun.View(), b) {
      BraIsLost(f, fun.View(), b);
    }
    forall m: Machine, s0: State, n: nat ensures Run(m, f, s0, n) == Run(m, fun.View(), s0, n) {
      SameRunWithoutBras(m, f, fun.View(), s0, n);
    }
  }

  /** A block that ends in a bra loses just that instruction; any other block stays. */
  predicate LosesBraOnly(f: Fn, g: Fn, b: BblId) {
    var ids := BblAt(f, b).inss;
    && BblAt(g, b).edgeOut == BblAt(f, b).edgeOut && BblAt(g, b).edgeIn == BblAt(f, b).edgeIn
    && if LastIns(f, b).opcode.Bra? then ids != [] && BblAt(g, b).inss + [ids[|ids| - 1]] == ids else BblAt(g, b).inss == ids
  }

  lemma BraIsLost(f: Fn, g: Fn, b: BblId)
    requires BrasGone(f, g, f.blocks) && b in f.blocks && DeadCode.TerminatorsLast(f)
    ensures !LastIns(g, b).opcode.Bra? && LosesBraOnly(f, g, b)
  {
    if BblAt(f, b).inss != [] && LastIns(f, b).opcode.Bra? { NotATerminator(f, g, b); }
    hide DeadCode.TerminatorsLast;
  }

  lemma NoBrasGone(f: Fn)
    ensures BrasGone(f, f, {})
  {
  }

  lemma BraStillThere(f: Fn, g: Fn, done: set<BblId>, b: BblId)
    requires WfLayout(f) && b in f.blocks && b !in done && BrasGone(f, g, done)
    ensures b.no < |g.bbls| && g.bbls[b.no] == BblAt(f, b) && g.code == f.code
  {
    assert BblAt(g, b) == BblAt(f, b);
  }

  lemma BraGone(f: Fn, g: Fn, h: Fn, done: set<BblId>, b: BblId)
    requires BrasGone(f, g, done) && b !in done && b.no < |f.bbls|
    requires h == g.(bbls := g.bbls[b.no := WithoutBra(f, b)])
    ensures BrasGone(f, h, done + {b})
  {
    hide WithoutBra;
    forall c ensures BblAt(h, c) == if c in done + {b} then WithoutBra(f, c) else BblAt(f, c) {
      assert c.no == b.no <==> c == b;
    }
  }

  // ---------------------------------------------------------------- putting branches back

  /** Where an inserted block branches to. */
  function BridgeTo(c: Fn, nb: BblId): Option<BblId> {
    var ids := BblAt(c, nb).inss;
    if |ids| == 1 && InsAt(c.code, ids[0]).opcode.Bra? && |InsAt(c.code, ids[0]).operands| == 1 && InsAt(c.code, ids[0]).operands[0].BblOp?
    then Some(InsAt(c.code, ids[0]).operands[0].bbl) else None
  }

  /** Control arrives where it should, directly or over an inserted block. */
  predicate Arrives(f: Fn, c: Fn, t: Option<BblId>, want: Option<BblId>) {
    if t == None then want == None
    else if t.value in f.blocks then want == t
    else t.value in c.blocks && want.Some? && BridgeTo(c, t.value) == want
  }

  /** Block b of c, followed in the layout by `after`, does what b does in f. */
  ghost predicate Realizes(f: Fn, c: Fn, b: BblId, after: Option<BblId>) {
    forall m: Machine, s: State ::
      ExecBbl(m, c, b, s) == ExecBbl(m, f, b, s) && Arrives(f, c, ExitWith(m, c, b, after, s), EdgeNext(m, f, b, s))
  }

  /** Block b is as it was. */
  ghost predicate Untouched(f: Fn, c: Fn, b: BblId) {
    && BblAt(c, b).inss == BblAt(f, b).inss && BblAt(c, b).edgeOut == BblAt(f, b).edgeOut && c.jtbs == f.jtbs
    && forall k :: 0 <= k < |BblAt(f, b).inss| ==> InsAt(c.code, BblAt(f, b).inss[k]) == InsAt(f.code, BblAt(f, b).inss[k])
  }

  lemma {:induction false} SameCodeSameExec(m: Machine, code: seq<Ins>, code': seq<Ins>, ids: seq<InsId>, k: nat, s: State)
    requires k <= |ids| && forall j :: 0 <= j < k ==> InsAt(code', ids[j]) == InsAt(code, ids[j])
    ensures ExecIds(m, code', ids, k, s) == ExecIds(m, code, ids, k, s)
  {
    hide ExecIns, InsAt;
    if k > 0 { SameCodeSameExec(m, code, code', ids, k - 1, s); }
  }

  lemma SameBlockSameExec(m: Machine, f: Fn, c: Fn, b: BblId, s: State)
    requires Untouched(f, c, b)
    ensures ExecBbl(m, c, b, s) == ExecBbl(m, f, b, s) && LastIns(c, b) == LastIns(f, b)
  {
    SameCodeSameExec(m, f.code, c.code, BblAt(f, b).inss, |BblAt(f, b).inss|, s);
    hide ExecIds, InsAt;
  }

  /** The block does not fall through. */
  lemma NoFallthroughRealizes(f: Fn, c: Fn, b: BblId, after: Option<BblId>)
    requires WfLayout(f) && b in f.blocks && WfEdges(f, b) && Untouched(f, c, b) && !HasFallthrough(LastIns(f, b).opcode)
    ensures Realizes(f, c, b, after)
  {
    forall m: Machine, s: State
      ensures ExecBbl(m, c, b, s) == ExecBbl(m, f, b, s) && Arrives(f, c, ExitWith(m, c, b, after, s), EdgeNext(m, f, b, s))
    {
      SameBlockSameExec(m, f, c, b, s);
      NextInside(m, f, b, s);
      hide ExecBbl, UseVals, LastIns, Untouched, WfLayout, WfEdges, BridgeTo, Holds;
    }
    hide ExecBbl, Arrives, ExitWith, EdgeNext;
  }

  /** One way out, and that is the next block. */
  lemma FallsThrough(f: Fn, c: Fn, b: BblId, t: BblId)
    requires WfLayout(f) && b in f.blocks && WfEdges(f, b) && Untouched(f, c, b) && HasFallthrough(LastIns(f, b).opcode)
    requires BblAt(f, b).edgeOut == [t]
    ensures Realizes(f, c, b, Some(t))
  {
    assert t in BblAt(f, b).edgeOut;
    forall m: Machine, s: State
      ensures ExecBbl(m, c, b, s) == ExecBbl(m, f, b, s) && Arrives(f, c, ExitWith(m, c, b, Some(t), s), EdgeNext(m, f, b, s))
    {
      SameBlockSameExec(m, f, c, b, s);
      hide ExecBbl, UseVals, LastIns, Untouched, WfLayout, BridgeTo, Holds;
    }
    hide ExecBbl, Arrives, ExitWith, EdgeNext;
  }

  function BraIns(t: BblId): Ins { Ins(Bra, [BblOp(t)], [None]) }

  /** A bra appended to block b; the block must not have it yet. */
  function WithBra(c: Fn, b: BblId, t: BblId): Fn {
    SetBbl(c.(code := c.code + [BraIns(t)]), b, BblAt(c, b).(inss := BblAt(c, b).inss + [|c.code|]))
  }

  lemma BraRealizes(f: Fn, c: Fn, b: BblId, t: BblId, after: Option<BblId>)
    requires WfLayout(f) && b in f.blocks && WfEdges(f, b) && Untouched(f, c, b) && HasFallthrough(LastIns(f, b).opcode)
    requires BblAt(f, b).edgeOut == [t] && b.no < |c.bbls| && forall k :: 0 <= k < |BblAt(f, b).inss| ==> BblAt(f, b).inss[k] < |c.code|
    ensures Realizes(f, WithBra(c, b, t), b, after)
  {
    var d := WithBra(c, b, t);
    assert t in BblAt(f, b).edgeOut;
    BraShape(f, c, b, t);
    forall m: Machine, s: State
      ensures ExecBbl(m, d, b, s) == ExecBbl(m, f, b, s) && Arrives(f, d, ExitWith(m, d, b, after, s), EdgeNext(m, f, b, s))
    {
      BraExec(m, f, c, b, t, s);
      BraArrives(m, f, d, b, t, after, s);
      hide *;
    }
    hide ExecBbl, Arrives, ExitWith, EdgeNext, WithBra;
  }

  lemma BraArrives(m: Machine, f: Fn, d: Fn, b: BblId, t: BblId, after: Option<BblId>, s: State)
    requires WfEdges(f, b) && HasFallthrough(LastIns(f, b).opcode) && BblAt(f, b).edgeOut == [t] && t in f.blocks
    requires LastIns(d, b) == BraIns(t)
    ensures Arrives(f, d, ExitWith(m, d, b, after, s), EdgeNext(m, f, b, s))
  {
    OneWayNext(m, f, b, t, s);
    hide UseVals, BridgeTo, LastIns, EdgeNext;
  }

  lemma OneWayNext(m: Machine, f: Fn, b: BblId, t: BblId, s: State)
    requires WfEdges(f, b) && HasFallthrough(LastIns(f, b).opcode) && BblAt(f, b).edgeOut == [t]
    ensures EdgeNext(m, f, b, s) == Some(t)
  {
    hide UseVals;
  }

  lemma BraShape(f: Fn, c: Fn, b: BblId, t: BblId)
    requires Untouched(f, c, b) && b.no < |c.bbls|
    requires forall k :: 0 <= k < |BblAt(f, b).inss| ==> BblAt(f, b).inss[k] < |c.code|
    ensures var d := WithBra(c, b, t);
      && BblAt(d, b).inss == BblAt(f, b).inss + [|c.code|] && LastIns(d, b) == BraIns(t)
      && forall k :: 0 <= k < |BblAt(f, b).inss| ==> InsAt(d.code, BblAt(f, b).inss[k]) == InsAt(f.code, BblAt(f, b).inss[k])
  {
    var d, ids := WithBra(c, b, t), BblAt(f, b).inss;
    assert BblAt(d, b).inss == ids + [|c.code|];
    forall k | 0 <= k < |ids| ensures InsAt(d.code, ids[k]) == InsAt(c.code, ids[k]) {}
  }

  lemma BraExec(m: Machine, f: Fn, c: Fn, b: BblId, t: BblId, s: State)
    requires Untouched(f, c, b) && b.no < |c.bbls|
    requires forall k :: 0 <= k < |BblAt(f, b).inss| ==> BblAt(f, b).inss[k] < |c.code|
    ensures ExecBbl(m, WithBra(c, b, t), b, s) == ExecBbl(m, f, b, s)
  {
    hide *;
    var d, ids := WithBra(c, b, t), BblAt(f, b).inss;
    BraShape(f, c, b, t);
    OneMoreIns(m, d, b, s);
    assert (ids + [|c.code|])[..|ids|] == ids;
    ExecFront(m, d.code, ids + [|c.code|], |ids|, |ids|, s);
    SameCodeSameExec(m, f.code, d.code, ids, |ids|, s);
    BraIsTerminator(t);
    BranchDoesNothing(m, BraIns(t), ExecIds(m, d.code, ids, |ids|, s));
    BblExec(m, f, b, s);
  }

  lemma BraIsTerminator(t: BblId)
    ensures IsTerminator(BraIns(t).opcode) && !BraIns(t).opcode.Trap?
  {
  }

  lemma BblExec(m: Machine, f: Fn, b: BblId, s: State)
    ensures ExecBbl(m, f, b, s) == ExecIds(m, f.code, BblAt(f, b).inss, |BblAt(f, b).inss|, s)
  {
    hide ExecIds;
  }

  lemma OneMoreIns(m: Machine, d: Fn, b: BblId, s: State)
    requires BblAt(d, b).inss != []
    ensures ExecBbl(m, d, b, s) == ExecIns(m, LastIns(d, b), ExecIds(m, d.code, BblAt(d, b).inss, |BblAt(d, b).inss| - 1, s))
  {
    hide ExecIns;
  }

  // ---------------------------------------------------------------- conditional branches

  function Inverted(c: Cond): Cond {
    match c
    case Bne => Beq
    case Beq => Bne
    case Ble => Blt
    case Blt => Ble
  }

  predicate MustSwap(c: Cond) { c == Ble || c == Blt }

  function SwapOps(ins: Ins): Ins
    requires |ins.operands| >= 2 && |ins.defs| >= 2
  {
    ins.(operands := ins.operands[0 := ins.operands[1]][1 := ins.operands[0]], defs := ins.defs[0 := ins.defs[1]][1 := ins.defs[0]])
  }

  /** Branches where it did not, and the other way round. */
  function Flipped(ins: Ins, t: BblId): Ins
    requires WfIns(ins) && ins.opcode.CondBra?
  {
    var ins' := ins.(opcode := CondBra(Inverted(ins.opcode.cond)), operands := ins.operands[2 := BblOp(t)]);
    if MustSwap(ins.opcode.cond) then SwapOps(ins') else ins'
  }

  /** The flipped condition holds exactly when the original does not. */
  lemma FlippedHolds(m: Machine, ins: Ins, t: BblId, regs: map<RegId, int>)
    requires WfIns(ins) && ins.opcode.CondBra?
    ensures var ins' := Flipped(ins, t);
      && ins'.opcode.CondBra? && |ins'.operands| == 3 && ins'.operands[2] == BblOp(t) && WfIns(ins')
      && Holds(ins'.opcode.cond, Nth(UseVals(m, ins', regs), 0), Nth(UseVals(m, ins', regs), 1)) ==
         !Holds(ins.opcode.cond, Nth(UseVals(m, ins, regs), 0), Nth(UseVals(m, ins, regs), 1))
  {
    var ins' := Flipped(ins, t);
    assert ins.operands[0..] == ins.operands && ins'.operands[0..] == ins'.operands;
  }

  /** Only the last instruction of b differs, and it is a conditional branch before and after. */
  ghost predicate BranchChanged(f: Fn, d: Fn, b: BblId) {
    && BblAt(d, b).inss == BblAt(f, b).inss && BblAt(f, b).inss != [] && d.jtbs == f.jtbs
    && (forall k :: 0 <= k < |BblAt(f, b).inss| - 1 ==> InsAt(d.code, BblAt(f, b).inss[k]) == InsAt(f.code, BblAt(f, b).inss[k]))
    && LastIns(f, b).opcode.CondBra? && LastIns(d, b).opcode.CondBra? && WfIns(LastIns(f, b)) && WfIns(LastIns(d, b))
  }

  lemma BranchChangedExec(m: Machine, f: Fn, d: Fn, b: BblId, s: State)
    requires BranchChanged(f, d, b)
    ensures ExecBbl(m, d, b, s) == ExecBbl(m, f, b, s)
  {
    hide ExecBbl, ExecIns, ExecIds, LastIns, InsAt, WfIns;
    var ids := BblAt(f, b).inss;
    SameCodeSameExec(m, f.code, d.code, ids, |ids| - 1, s);
    OneMoreIns(m, f, b, s);
    OneMoreIns(m, d, b, s);
    var s1 := ExecIds(m, f.code, ids, |ids| - 1, s);
    BranchDoesNothing(m, LastIns(f, b), s1);
    BranchDoesNothing(m, LastIns(d, b), s1);
    hide ExecBbl, ExecIns, ExecIds, LastIns, InsAt;
  }

  /** The two ways out of a conditional branch. */
  ghost predicate TwoWays(f: Fn, b: BblId, target: BblId, other: BblId) {
    && LastIns(f, b).opcode.CondBra? && |LastIns(f, b).operands| == 3 && LastIns(f, b).operands[2] == BblOp(target)
    && (BblAt(f, b).edgeOut == [target, other] || BblAt(f, b).edgeOut == [other, target])
  }

  lemma TwoWaysNext(m: Machine, f: Fn, b: BblId, target: BblId, other: BblId, s: State)
    requires TwoWays(f, b, target, other)
    ensures var last := LastIns(f, b);
      EdgeNext(m, f, b, s) == Some(if Holds(last.opcode.cond, Nth(UseVals(m, last, s.regs), 0), Nth(UseVals(m, last, s.regs), 1)) then target else other)
  {
    hide UseVals, Holds;
  }

  lemma FlipRealizes(f: Fn, d: Fn, b: BblId, target: BblId, other: BblId)
    requires BranchChanged(f, d, b) && TwoWays(f, b, target, other) && target in f.blocks && other in f.blocks
    requires LastIns(d, b) == Flipped(LastIns(f, b), other)
    ensures Realizes(f, d, b, Some(target))
  {
    forall m: Machine, s: State
      ensures ExecBbl(m, d, b, s) == ExecBbl(m, f, b, s) && Arrives(f, d, ExitWith(m, d, b, Some(target), s), EdgeNext(m, f, b, s))
    {
      BranchChangedExec(m, f, d, b, s);
      TwoWaysNext(m, f, b, target, other, s);
      FlippedHolds(m, LastIns(f, b), other, s.regs);
      hide ExecBbl, UseVals, Holds, Flipped, BranchChanged, LastIns, EdgeNext;
    }
    hide ExecBbl, Arrives, ExitWith, EdgeNext, BranchChanged, TwoWays;
  }

  /** Falling through to `after`, which is or leads to the other way. */
  lemma BranchRealizes(f: Fn, d: Fn, b: BblId, target: BblId, other: BblId, target': BblId, after: BblId)
    requires BranchChanged(f, d, b) && TwoWays(f, b, target, other) && target in f.blocks && other in f.blocks
    requires LastIns(d, b) == LastIns(f, b).(operands := LastIns(f, b).operands[2 := BblOp(target')])
    requires target' == target || (target' == after && target == other)
    requires after == other || (after !in f.blocks && after in d.blocks && BridgeTo(d, after) == Some(other))
    ensures Realizes(f, d, b, Some(after))
  {
    forall m: Machine, s: State
      ensures ExecBbl(m, d, b, s) == ExecBbl(m, f, b, s) && Arrives(f, d, ExitWith(m, d, b, Some(after), s), EdgeNext(m, f, b, s))
    {
      BranchChangedExec(m, f, d, b, s);
      BranchArrives(m, f, d, b, target, other, target', after, s);
      hide *;
    }
    hide ExecBbl, Arrives, ExitWith, EdgeNext, BranchChanged, TwoWays;
  }

  lemma BranchArrives(m: Machine, f: Fn, d: Fn, b: BblId, target: BblId, other: BblId, target': BblId, after: BblId, s: State)
    requires TwoWays(f, b, target, other) && target in f.blocks && other in f.blocks
    requires LastIns(d, b) == LastIns(f, b).(operands := LastIns(f, b).operands[2 := BblOp(target')])
    requires target' == target || (target' == after && target == other)
    requires after == other || (after !in f.blocks && after in d.blocks && BridgeTo(d, after) == Some(other))
    ensures Arrives(f, d, ExitWith(m, d, b, Some(after), s), EdgeNext(m, f, b, s))
  {
    TwoWaysNext(m, f, b, target, other, s);
    assert forall n :: 0 <= n < 3 ==> Eval(m, LastIns(d, b).operands[n], s.regs) == Eval(m, LastIns(f, b).operands[n], s.regs);
    SameEvals(m, LastIns(f, b), LastIns(d, b), s.regs);
    hide UseVals, Holds, LastIns, EdgeNext, BridgeTo;
  }

  // ---------------------------------------------------------------- one block at a time

  /** What follows position i of the layout under way: `out` and then the rest of the old layout. */
  function Nxt(l: seq<BblId>, i: nat): Option<BblId> { if i + 1 < |l| then Some(l[i + 1]) else None }

  function LayoutSoFar(f: Fn, out: seq<BblId>, n: nat): seq<BblId>
    requires n <= |f.order|
  {
    out + f.order[n..]
  }

  /** c holds everything f has, and blocks use their own instructions or new ones. */
  ghost predicate Grown(f: Fn, c: Fn) {
    && f.blocks <= c.blocks && |f.code| <= |c.code| && |f.bbls| <= |c.bbls| && c.order == f.order && c.jtbs == f.jtbs
    && (forall x :: x in c.blocks ==> x.no < |c.bbls|)
    && (forall x, i :: x in c.blocks && i in BblAt(c, x).inss ==> OwnOrNew(f, c, x, i))
  }

  predicate OwnOrNew(f: Fn, c: Fn, x: BblId, i: InsId) {
    i < |c.code| && (i < |f.code| ==> x in f.blocks && i in BblAt(f, x).inss)
  }

  /** The edge a block takes by falling through. */
  function FallEdge(c: Fn, x: BblId): Option<BblId> {
    var e, last := BblAt(c, x).edgeOut, LastIns(c, x);
    if last.opcode.CondBra? then OtherEdge(e, TargetOf(OperandAt(last, 2))) else OnlyEdge(e)
  }

  /** The edges of block x are what its end asks for, and falling through to `after` follows one. */
  ghost predicate EdgesFit(c: Fn, x: BblId, after: Option<BblId>) {
    && WfEdges(c, x) && (forall t :: t in BblAt(c, x).edgeOut ==> t in c.blocks)
    && (HasFallthrough(LastIns(c, x).opcode) ==> after == FallEdge(c, x))
  }

  /** Nothing is done that is not needed: a bra is appended only if the one way on is not the next
      block, a block is inserted only if neither way is, a branch is flipped only if its target is. */
  ghost predicate Sparing(f: Fn, c: Fn, x: BblId, after: Option<BblId>) {
    var e, last, next := BblAt(f, x).edgeOut, LastIns(f, x), After(f.order, x);
    if !HasFallthrough(last.opcode) then
      after == next && BblAt(c, x).inss == BblAt(f, x).inss && LastIns(c, x) == last
    else if |e| == 1 then
      after == next && (if next == Some(e[0]) then BblAt(c, x).inss == BblAt(f, x).inss else |BblAt(c, x).inss| == |BblAt(f, x).inss| + 1)
    else
      && BblAt(c, x).inss == BblAt(f, x).inss
      && (LastIns(c, x).opcode != last.opcode ==> next == Some(TargetOf(OperandAt(last, 2))) && next != OtherEdge(e, next.value))
      && (after != next ==> after.Some? && after.value !in f.blocks && (next.Some? ==> next.value !in e))
  }

  ghost predicate Placed(f: Fn, c: Fn, x: BblId, after: Option<BblId>) {
    && EdgesFit(c, x, after)
    && if x in f.blocks then Realizes(f, c, x, after) && Sparing(f, c, x, after) else BridgeTo(c, x).Some? && BridgeTo(c, x).value in f.blocks
  }

  ghost predicate AllPlaced(f: Fn, c: Fn, out: seq<BblId>, l: seq<BblId>) {
    forall i :: 0 <= i < |out| && i < |l| ==> Placed(f, c, out[i], Nxt(l, i))
  }

  ghost predicate RestUntouched(f: Fn, c: Fn, n: nat) {
    forall j :: n <= j < |f.order| ==> Untouched(f, c, f.order[j])
  }

  ghost predicate GoodLayout(f: Fn, c: Fn, l: seq<BblId>) {
    && Distinct(l) && (forall x :: x in l <==> x in c.blocks)
    && f.order != [] && l != [] && l[0] == f.order[0]
  }

  /** The layout without inserted blocks. */
  function OldOnes(l: seq<BblId>, old': set<BblId>): seq<BblId> {
    if l == [] then []
    else OldOnes(l[..|l| - 1], old') + if l[|l| - 1] in old' then [l[|l| - 1]] else []
  }

  /** The state after the first n blocks. */
  ghost predicate Laid(f: Fn, c: Fn, out: seq<BblId>, n: nat)
    requires n <= |f.order|
  {
    && Grown(f, c) && RestUntouched(f, c, n)
    && GoodLayout(f, c, LayoutSoFar(f, out, n)) && AllPlaced(f, c, out, LayoutSoFar(f, out, n))
    && OldOnes(out, f.blocks) == f.order[..n]
  }

  /** From c to d only block b changed, and new things were added. */
  ghost predicate OnlyBlock(f: Fn, c: Fn, d: Fn, b: BblId) {
    && |c.code| <= |d.code| && |c.bbls| <= |d.bbls| && d.jtbs == c.jtbs && d.order == c.order && c.blocks <= d.blocks
    && (forall i :: 0 <= i < |c.code| && i !in BblAt(f, b).inss ==> d.code[i] == c.code[i])
    && (forall x: BblId :: x != b && x.no < |c.bbls| ==> BblAt(d, x).inss == BblAt(c, x).inss && BblAt(d, x).edgeOut == BblAt(c, x).edgeOut)
  }

  lemma SameIds(f: Fn, c: Fn, d: Fn, b: BblId, x: BblId)
    requires WfCode(f) && Grown(f, c) && OnlyBlock(f, c, d, b) && b in f.blocks && x in c.blocks && x != b
    ensures BblAt(d, x).inss == BblAt(c, x).inss && BblAt(d, x).edgeOut == BblAt(c, x).edgeOut && LastIns(d, x) == LastIns(c, x)
    ensures forall k :: 0 <= k < |BblAt(c, x).inss| ==> InsAt(d.code, BblAt(c, x).inss[k]) == InsAt(c.code, BblAt(c, x).inss[k])
  {
    var ids := BblAt(c, x).inss;
    forall k | 0 <= k < |ids| ensures InsAt(d.code, ids[k]) == InsAt(c.code, ids[k]) {
      assert ids[k] in ids;
      assert OwnOrNew(f, c, x, ids[k]);
      assert ids[k] !in BblAt(f, b).inss by { NotOfBlock(f, c, b, x, ids[k]); }
    }
  }

  lemma NotOfBlock(f: Fn, c: Fn, b: BblId, x: BblId, i: InsId)
    requires WfCode(f) && OwnOrNew(f, c, x, i) && b in f.blocks && x != b
    ensures i !in BblAt(f, b).inss
  {
    hide WfIns;
  }

  lemma PlacedKept(f: Fn, c: Fn, d: Fn, b: BblId, x: BblId, after: Option<BblId>)
    requires WfCode(f) && Grown(f, c) && OnlyBlock(f, c, d, b) && b in f.blocks && x in c.blocks && x != b
    requires Placed(f, c, x, after)
    ensures Placed(f, d, x, after)
  {
    SameIds(f, c, d, b, x);
    var ids := BblAt(c, x).inss;
    EdgesFitKept(c, d, x, after);
    hide EdgesFit;
    if x in f.blocks {
      SparingKept(f, c, d, x, after);
      hide Sparing;
      forall m: Machine, s: State
        ensures ExecBbl(m, d, x, s) == ExecBbl(m, f, x, s) && Arrives(f, d, ExitWith(m, d, x, after, s), EdgeNext(m, f, x, s))
      {
        SameCodeSameExec(m, c.code, d.code, ids, |ids|, s);
        assert ExecBbl(m, c, x, s) == ExecBbl(m, f, x, s) && Arrives(f, c, ExitWith(m, c, x, after, s), EdgeNext(m, f, x, s));
        SameExit(m, c, d, x, after, s);
        ArrivesKept(f, c, d, b, ExitWith(m, c, x, after, s), EdgeNext(m, f, x, s));
        hide ExecIds, ExitWith, EdgeNext, LastIns, Arrives, InsAt, Grown, OnlyBlock, WfCode;
      }
    } else {
      BridgeKept(c, d, x);
    }
    hide Grown, OnlyBlock, WfCode, ExecBbl, ExitWith, EdgeNext, Arrives, BridgeTo;
  }

  lemma EdgesFitKept(c: Fn, d: Fn, x: BblId, after: Option<BblId>)
    requires EdgesFit(c, x, after) && LastIns(d, x) == LastIns(c, x) && BblAt(d, x).edgeOut == BblAt(c, x).edgeOut
    requires d.jtbs == c.jtbs && c.blocks <= d.blocks
    ensures EdgesFit(d, x, after)
  {
    hide LastIns, BblAt;
  }

  lemma SparingKept(f: Fn, c: Fn, d: Fn, x: BblId, after: Option<BblId>)
    requires Sparing(f, c, x, after) && LastIns(d, x) == LastIns(c, x) && BblAt(d, x).inss == BblAt(c, x).inss
    ensures Sparing(f, d, x, after)
  {
    hide LastIns, BblAt, After;
  }

  lemma SameExit(m: Machine, c: Fn, d: Fn, x: BblId, after: Option<BblId>, s: State)
    requires LastIns(d, x) == LastIns(c, x) && d.jtbs == c.jtbs
    ensures ExitWith(m, d, x, after, s) == ExitWith(m, c, x, after, s)
  {
    hide LastIns, UseVals, Holds;
  }

  lemma BridgeKept(c: Fn, d: Fn, x: BblId)
    requires BblAt(d, x).inss == BblAt(c, x).inss
    requires forall k :: 0 <= k < |BblAt(c, x).inss| ==> InsAt(d.code, BblAt(c, x).inss[k]) == InsAt(c.code, BblAt(c, x).inss[k])
    ensures BridgeTo(d, x) == BridgeTo(c, x)
  {
    hide InsAt;
  }

  lemma ArrivesKept(f: Fn, c: Fn, d: Fn, b: BblId, t: Option<BblId>, want: Option<BblId>)
    requires WfCode(f) && Grown(f, c) && OnlyBlock(f, c, d, b) && b in f.blocks && Arrives(f, c, t, want)
    ensures Arrives(f, d, t, want)
  {
    if t.Some? && t.value !in f.blocks {
      SameIds(f, c, d, b, t.value);
      BridgeKept(c, d, t.value);
    }
    hide WfCode, BridgeTo, BblAt;
  }

  lemma UntouchedKept(f: Fn, c: Fn, d: Fn, b: BblId, x: BblId)
    requires WfLayout(f) && WfCode(f) && Grown(f, c) && OnlyBlock(f, c, d, b) && b in f.blocks && x in f.blocks && x != b && Untouched(f, c, x)
    ensures Untouched(f, d, x)
  {
    SameIds(f, c, d, b, x);
    hide WfCode, InsAt;
  }

  /** The layout grows by block b and perhaps a block inserted after it. */
  function Grow(out: seq<BblId>, b: BblId, via: Option<BblId>): seq<BblId> {
    out + [b] + match via case None => [] case Some(nb) => [nb]
  }

  lemma LayoutGrows(f: Fn, c: Fn, d: Fn, out: seq<BblId>, n: nat, via: Option<BblId>)
    requires n < |f.order| && GoodLayout(f, c, LayoutSoFar(f, out, n))
    requires match via case None => d.blocks == c.blocks case Some(nb) => nb !in c.blocks && d.blocks == c.blocks + {nb}
    ensures var l, l' := LayoutSoFar(f, out, n), LayoutSoFar(f, Grow(out, f.order[n], via), n + 1);
      && GoodLayout(f, d, l')
      && (forall i :: 0 <= i < |out| ==> Nxt(l', i) == Nxt(l, i))
      && l'[|out|] == f.order[n]
      && Nxt(l', |out|) == (if via.Some? then via else if n + 1 < |f.order| then Some(f.order[n + 1]) else None)
      && (via.Some? ==> |out| + 1 < |l'| && l'[|out| + 1] == via.value)
  {
    var b := f.order[n];
    var l, l' := LayoutSoFar(f, out, n), LayoutSoFar(f, Grow(out, b, via), n + 1);
    assert f.order[n..] == [b] + f.order[n + 1..];
    match via {
      case None =>
        assert l' == l;
      case Some(nb) =>
        assert l == out + [b] + f.order[n + 1..];
        assert l' == out + [b] + [nb] + f.order[n + 1..];
        InsertedLayout(out + [b], nb, f.order[n + 1..]);
    }
  }

  lemma InsertedLayout(a: seq<BblId>, nb: BblId, z: seq<BblId>)
    requires Distinct(a + z) && nb !in a + z
    ensures Distinct(a + [nb] + z) && forall x :: x in a + [nb] + z <==> x in a + z || x == nb
  {
    var l := a + [nb] + z;
    forall i, j | 0 <= i < j < |l| ensures l[i] != l[j] {
      assert l[i] == if i < |a| then (a + z)[i] else if i == |a| then nb else (a + z)[i - 1];
      assert l[j] == if j < |a| then (a + z)[j] else if j == |a| then nb else (a + z)[j - 1];
    }
  }

  /** From one block to the next. */
  lemma LaidNext(f: Fn, c: Fn, d: Fn, out: seq<BblId>, n: nat, via: Option<BblId>)
    requires WfLayout(f) && WfOrder(f) && WfCode(f) && n < |f.order| && Laid(f, c, out, n)
    requires OnlyBlock(f, c, d, f.order[n]) && Grown(f, d)
    requires match via case None => d.blocks == c.blocks case Some(nb) => nb !in c.blocks && d.blocks == c.blocks + {nb}
    requires PlacedAs(f, d, f.order[n], if via.Some? then via else NextOf(f, n))
    requires via.Some? ==> IsBridge(f, d, via.value)
    ensures Laid(f, d, Grow(out, f.order[n], via), n + 1)
  {
    LayoutGrows(f, c, d, out, n, via);
    InOrder(f, n);
    hide *;
    LaidParts(f, c, out, n);
    RestStays(f, c, d, n);
    PlacedGrow(f, c, d, out, n, via);
    BlocksGrow(f, c);
    OldOnesGrow(f, c, out, n, via);
    LaidByParts(f, d, Grow(out, f.order[n], via), n + 1);
  }

  lemma OldOnesMore(out: seq<BblId>, old': set<BblId>, x: BblId)
    ensures OldOnes(out + [x], old') == OldOnes(out, old') + if x in old' then [x] else []
  {
    assert (out + [x])[..|out|] == out;
  }

  lemma OldOnesGrow(f: Fn, c: Fn, out: seq<BblId>, n: nat, via: Option<BblId>)
    requires n < |f.order| && f.order[n] in f.blocks && OldOnes(out, f.blocks) == f.order[..n]
    requires f.blocks <= c.blocks && (via.Some? ==> via.value !in c.blocks)
    ensures OldOnes(Grow(out, f.order[n], via), f.blocks) == f.order[..n + 1]
  {
    var b := f.order[n];
    OldOnesMore(out, f.blocks, b);
    if via.Some? { OldOnesMore(out + [b], f.blocks, via.value); }
    assert f.order[..n + 1] == f.order[..n] + [b];
    assert out + [b] + [] == out + [b];
    hide OldOnes;
  }

  function NextOf(f: Fn, n: nat): Option<BblId> { if n + 1 < |f.order| then Some(f.order[n + 1]) else None }

  /** A block of f, in its place. */
  ghost predicate PlacedAs(f: Fn, d: Fn, b: BblId, after: Option<BblId>) {
    EdgesFit(d, b, after) && Realizes(f, d, b, after) && Sparing(f, d, b, after)
  }

  /** An inserted block with its one way on. */
  ghost predicate IsBridge(f: Fn, d: Fn, nb: BblId) {
    && BridgeTo(d, nb).Some? && BridgeTo(d, nb).value in f.blocks
    && LastIns(d, nb).opcode.Bra? && EdgesFit(d, nb, None)
  }

  lemma InOrder(f: Fn, n: nat)
    requires WfOrder(f) && n < |f.order|
    ensures f.order[n] in f.blocks && forall j :: 0 <= j < |f.order| && j != n ==> f.order[j] != f.order[n]
  {
    assert f.order[n] in f.order;
  }

  lemma LaidParts(f: Fn, c: Fn, out: seq<BblId>, n: nat)
    requires n <= |f.order| && Laid(f, c, out, n)
    ensures Grown(f, c) && RestUntouched(f, c, n)
    ensures GoodLayout(f, c, LayoutSoFar(f, out, n)) && AllPlaced(f, c, out, LayoutSoFar(f, out, n))
    ensures OldOnes(out, f.blocks) == f.order[..n]
  {
    hide Grown, RestUntouched, GoodLayout, AllPlaced, OldOnes;
  }

  lemma LaidByParts(f: Fn, c: Fn, out: seq<BblId>, n: nat)
    requires n <= |f.order| && Grown(f, c) && RestUntouched(f, c, n)
    requires GoodLayout(f, c, LayoutSoFar(f, out, n)) && AllPlaced(f, c, out, LayoutSoFar(f, out, n))
    requires OldOnes(out, f.blocks) == f.order[..n]
    ensures Laid(f, c, out, n)
  {
    hide Grown, RestUntouched, GoodLayout, AllPlaced, OldOnes;
  }

  lemma RestStays(f: Fn, c: Fn, d: Fn, n: nat)
    requires WfLayout(f) && WfOrder(f) && WfCode(f) && n < |f.order| && Grown(f, c) && OnlyBlock(f, c, d, f.order[n]) && RestUntouched(f, c, n)
    ensures RestUntouched(f, d, n + 1)
  {
    assert f.order[n] in f.order;
    hide Untouched, WfCode, WfLayout, OnlyBlock, Grown;
    forall j | n + 1 <= j < |f.order| ensures Untouched(f, d, f.order[j]) {
      assert f.order[j] in f.order && f.order[j] != f.order[n];
      UntouchedKept(f, c, d, f.order[n], f.order[j]);
    }
  }

  lemma PlacedGrow(f: Fn, c: Fn, d: Fn, out: seq<BblId>, n: nat, via: Option<BblId>)
    requires WfCode(f) && n < |f.order| && f.order[n] in f.blocks && Grown(f, c) && OnlyBlock(f, c, d, f.order[n])
    requires GoodLayout(f, c, LayoutSoFar(f, out, n)) && AllPlaced(f, c, out, LayoutSoFar(f, out, n))
    requires via.Some? ==> via.value !in f.blocks && IsBridge(f, d, via.value)
    requires var l' := LayoutSoFar(f, Grow(out, f.order[n], via), n + 1);
      && (forall i :: 0 <= i < |out| ==> Nxt(l', i) == Nxt(LayoutSoFar(f, out, n), i))
      && PlacedAs(f, d, f.order[n], Nxt(l', |out|))
    ensures AllPlaced(f, d, Grow(out, f.order[n], via), LayoutSoFar(f, Grow(out, f.order[n], via), n + 1))
  {
    var b, l, out' := f.order[n], LayoutSoFar(f, out, n), Grow(out, f.order[n], via);
    var l' := LayoutSoFar(f, out', n + 1);
    assert l[|out|] == b && |l| > |out|;
    hide Realizes, BridgeTo, WfCode, OnlyBlock, Grown, LayoutSoFar, Nxt, WfEdges, Sparing, FallEdge;
    forall i | 0 <= i < |out'| && i < |l'| ensures Placed(f, d, out'[i], Nxt(l', i)) {
      if i < |out| {
        OldPlace(f, c, d, out, n, i);
        assert out'[i] == out[i];
      } else if i == |out| {
        assert out'[i] == b;
      } else {
        assert via.Some? && out'[i] == via.value;
      }
    }
  }

  lemma OldPlace(f: Fn, c: Fn, d: Fn, out: seq<BblId>, n: nat, i: nat)
    requires WfCode(f) && n < |f.order| && f.order[n] in f.blocks && Grown(f, c) && OnlyBlock(f, c, d, f.order[n])
    requires GoodLayout(f, c, LayoutSoFar(f, out, n)) && AllPlaced(f, c, out, LayoutSoFar(f, out, n)) && i < |out|
    ensures Placed(f, d, out[i], Nxt(LayoutSoFar(f, out, n), i))
  {
    var l := LayoutSoFar(f, out, n);
    assert l[i] == out[i] && l[i] in l && l[|out|] == f.order[n] && l[i] != l[|out|];
    assert Placed(f, c, out[i], Nxt(l, i));
    hide Placed, WfCode, OnlyBlock, Grown, AllPlaced, LayoutSoFar;
    PlacedKept(f, c, d, f.order[n], out[i], Nxt(l, i));
  }

  // ---------------------------------------------------------------- the four cases

  ghost predicate Source(f: Fn) {
    WfLayout(f) && WfOrder(f) && WfCode(f) && forall b :: b in f.blocks ==> WfEdges(f, b)
  }

  /** Nothing changes in a block that does not fall through or whose only way is the next block. */
  lemma LaidSame(f: Fn, c: Fn, out: seq<BblId>, n: nat)
    requires Source(f) && n < |f.order| && Laid(f, c, out, n)
    requires !HasFallthrough(LastIns(f, f.order[n]).opcode) ||
             (n + 1 < |f.order| && BblAt(f, f.order[n]).edgeOut == [f.order[n + 1]])
    ensures Laid(f, c, out + [f.order[n]], n + 1)
  {
    var b := f.order[n];
    InOrder(f, n);
    LaidParts(f, c, out, n);
    assert Untouched(f, c, b) && WfEdges(f, b);
    hide Laid, Untouched, WfEdges, WfCode, Realizes, RestUntouched, GoodLayout, AllPlaced, Grown;
    if HasFallthrough(LastIns(f, b).opcode) {
      FallsThrough(f, c, b, f.order[n + 1]);
    } else {
      NoFallthroughRealizes(f, c, b, NextOf(f, n));
    }
    SameFits(f, c, n);
    NothingElse(c, f, b);
    LaidNext(f, c, c, out, n, None);
    assert Grow(out, b, None) == out + [b];
  }

  lemma NextIsAfter(f: Fn, n: nat)
    requires WfOrder(f) && n < |f.order|
    ensures After(f.order, f.order[n]) == NextOf(f, n)
  {
    AfterAt(f.order, n);
  }

  lemma EdgesInside(f: Fn, c: Fn, b: BblId)
    requires WfLayout(f) && Grown(f, c) && b in f.blocks
    ensures forall t :: t in BblAt(f, b).edgeOut ==> t in f.blocks && t in c.blocks
  {
  }

  lemma SameFits(f: Fn, c: Fn, n: nat)
    requires Source(f) && n < |f.order| && Grown(f, c) && Untouched(f, c, f.order[n]) && f.order[n] in f.blocks
    requires !HasFallthrough(LastIns(f, f.order[n]).opcode) ||
             (n + 1 < |f.order| && BblAt(f, f.order[n]).edgeOut == [f.order[n + 1]])
    ensures EdgesFit(c, f.order[n], NextOf(f, n)) && Sparing(f, c, f.order[n], NextOf(f, n))
  {
    var b := f.order[n];
    assert WfEdges(f, b);
    SameBlockSameExec(SomeMachine(), f, c, b, State(map[], map[], []));
    NextIsAfter(f, n);
    EdgesInside(f, c, b);
    hide Source, Grown, LastIns, After, ExecBbl, WfOrder, WfLayout, WfCode;
  }

  lemma NothingElse(c: Fn, f: Fn, b: BblId)
    ensures OnlyBlock(f, c, c, b)
  {
  }

  lemma InRange(f: Fn, c: Fn, b: BblId)
    requires WfLayout(f) && WfCode(f) && Grown(f, c) && b in f.blocks
    ensures b.no < |f.bbls| <= |c.bbls| && forall k :: 0 <= k < |BblAt(f, b).inss| ==> BblAt(f, b).inss[k] < |f.code| <= |c.code|
  {
    forall k | 0 <= k < |BblAt(f, b).inss| ensures BblAt(f, b).inss[k] < |f.code| { assert BblAt(f, b).inss[k] in BblAt(f, b).inss; }
  }

  lemma BraGrows(f: Fn, c: Fn, b: BblId, t: BblId)
    requires WfLayout(f) && WfCode(f) && Grown(f, c) && b in f.blocks && Untouched(f, c, b)
    ensures Grown(f, WithBra(c, b, t)) && OnlyBlock(f, c, WithBra(c, b, t), b)
  {
    InRange(f, c, b);
    var d := WithBra(c, b, t);
    forall x: BblId | x != b ensures BblAt(d, x) == BblAt(c, x) { assert x.no != b.no; }
    forall x, i | x in d.blocks && i in BblAt(d, x).inss ensures OwnOrNew(f, d, x, i) {
      if x == b { assert BblAt(d, b).inss == BblAt(f, b).inss + [|c.code|]; } else { assert OwnOrNew(f, c, x, i); }
    }
    hide WfCode, WfLayout, Untouched;
  }

  lemma BraFits(f: Fn, c: Fn, n: nat, t: BblId)
    requires Source(f) && n < |f.order| && Grown(f, c) && Untouched(f, c, f.order[n]) && f.order[n] in f.blocks && NextOf(f, n) != Some(t)
    requires HasFallthrough(LastIns(f, f.order[n]).opcode) && BblAt(f, f.order[n]).edgeOut == [t]
    ensures EdgesFit(WithBra(c, f.order[n], t), f.order[n], NextOf(f, n)) && Sparing(f, WithBra(c, f.order[n], t), f.order[n], NextOf(f, n))
  {
    var b, d := f.order[n], WithBra(c, f.order[n], t);
    InRange(f, c, b);
    BraShape(f, c, b, t);
    NextIsAfter(f, n);
    EdgesInside(f, c, b);
    assert BblAt(d, b).edgeOut == [t] && d.blocks == c.blocks;
    assert t in BblAt(f, b).edgeOut;
    hide Source, Grown, LastIns, After, WfOrder, WfLayout, WfCode, WithBra, BblAt, Untouched;
  }

  /** A bra is appended. */
  lemma LaidBra(f: Fn, c: Fn, out: seq<BblId>, n: nat, t: BblId)
    requires Source(f) && n < |f.order| && Laid(f, c, out, n)
    requires HasFallthrough(LastIns(f, f.order[n]).opcode) && BblAt(f, f.order[n]).edgeOut == [t] && NextOf(f, n) != Some(t)
    ensures Laid(f, WithBra(c, f.order[n], t), out + [f.order[n]], n + 1)
  {
    var b := f.order[n];
    InOrder(f, n);
    LaidParts(f, c, out, n);
    assert Untouched(f, c, b) && WfEdges(f, b);
    InRange(f, c, b);
    hide Laid, Untouched, WfEdges, WfCode, Realizes, RestUntouched, GoodLayout, AllPlaced, Grown, WithBra, WfLayout;
    BraRealizes(f, c, b, t, NextOf(f, n));
    BraFits(f, c, n, t);
    BraGrows(f, c, b, t);
    BraBlocks(c, b, t);
    LaidNext(f, c, WithBra(c, b, t), out, n, None);
    assert Grow(out, b, None) == out + [b];
  }

  lemma BraBlocks(c: Fn, b: BblId, t: BblId)
    ensures WithBra(c, b, t).blocks == c.blocks
  {
  }

  /** The two ways of a block that ends in a conditional branch. */
  lemma BranchParts(f: Fn, c: Fn, b: BblId)
    requires Source(f) && Grown(f, c) && b in f.blocks && Untouched(f, c, b)
    requires HasFallthrough(LastIns(f, b).opcode) && |BblAt(f, b).edgeOut| != 1
    ensures LastId(f, b).Some? && LastId(f, b) == LastId(c, b) && LastId(f, b).value < |c.code|
    ensures c.code[LastId(f, b).value] == LastIns(f, b) == LastIns(c, b) && WfIns(LastIns(f, b)) && LastIns(f, b).opcode.CondBra?
    ensures |BblAt(f, b).edgeOut| == 2 && BblAt(c, b).edgeOut == BblAt(f, b).edgeOut
    ensures var e, target := BblAt(f, b).edgeOut, TargetOf(LastIns(f, b).operands[2]);
      var other := if target == e[1] then e[0] else e[1];
      TwoWays(f, b, target, other) && target in f.blocks && other in f.blocks && (target == other <==> e[0] == e[1] == target)
  {
    assert WfEdges(f, b);
    InRange(f, c, b);
    LastIsWf(f, b);
    var e := BblAt(f, b).edgeOut;
    assert |e| == 2 ==> e[0] in e && e[1] in e;
    hide WfCode, Grown;
  }

  lemma LastIsWf(f: Fn, b: BblId)
    requires WfCode(f) && b in f.blocks && BblAt(f, b).inss != []
    ensures WfIns(LastIns(f, b))
  {
    var ids := BblAt(f, b).inss;
    assert ids[|ids| - 1] in ids;
    hide WfIns;
  }

  function WithIns(c: Fn, i: InsId, ins: Ins): Fn {
    if i < |c.code| then c.(code := c.code[i := ins]) else c
  }

  lemma BranchGrows(f: Fn, c: Fn, b: BblId, ins: Ins)
    requires WfLayout(f) && WfCode(f) && Grown(f, c) && b in f.blocks && Untouched(f, c, b) && LastId(f, b).Some?
    requires LastIns(f, b).opcode.CondBra? && ins.opcode.CondBra? && WfIns(ins)
    ensures var d := WithIns(c, LastId(f, b).value, ins); Grown(f, d) && OnlyBlock(f, c, d, b) && BranchChanged(f, d, b) && LastIns(d, b) == ins
  {
    InRange(f, c, b);
    LastIsWf(f, b);
    var i := LastId(f, b).value;
    var d, ids := WithIns(c, i, ins), BblAt(f, b).inss;
    assert i in ids;
    assert forall x :: BblAt(d, x) == BblAt(c, x);
    forall x, j | x in d.blocks && j in BblAt(d, x).inss ensures OwnOrNew(f, d, x, j) { assert OwnOrNew(f, c, x, j); }
    forall k | 0 <= k < |ids| - 1 ensures ids[k] != i { UniqueInBlock(f, b, k); }
    hide WfCode, WfLayout, WfIns;
  }

  lemma UniqueInBlock(f: Fn, b: BblId, k: nat)
    requires WfCode(f) && b in f.blocks && k < |BblAt(f, b).inss| - 1
    ensures BblAt(f, b).inss[k] != BblAt(f, b).inss[|BblAt(f, b).inss| - 1]
  {
    hide WfIns;
  }

  /** The branch is flipped, or left as it is. */
  lemma LaidBranch(f: Fn, c: Fn, out: seq<BblId>, n: nat, target: BblId, other: BblId)
    requires Source(f) && n + 1 < |f.order| && Laid(f, c, out, n) && HasFallthrough(LastIns(f, f.order[n]).opcode)
    requires TwoWays(f, f.order[n], target, other) && target in f.blocks && other in f.blocks
    requires LastId(f, f.order[n]).Some? && WfIns(LastIns(f, f.order[n])) && (f.order[n + 1] == target || f.order[n + 1] == other)
    ensures var last := LastIns(f, f.order[n]);
      Laid(f, WithIns(c, LastId(f, f.order[n]).value, if f.order[n + 1] == target && target != other then Flipped(last, other) else last),
        out + [f.order[n]], n + 1)
  {
    var b, last := f.order[n], LastIns(f, f.order[n]);
    var ins := if f.order[n + 1] == target && target != other then Flipped(last, other) else last;
    var d := WithIns(c, LastId(f, b).value, ins);
    InOrder(f, n);
    LaidParts(f, c, out, n);
    assert Untouched(f, c, b);
    FlippedHolds(SomeMachine(), last, other, map[]);
    BranchGrows(f, c, b, ins);
    SameEdges(c, LastId(f, b).value, ins, b);
    hide EdgesFit, Sparing, BblAt, LastIns, LastId, HasFallthrough;
    BranchFits(f, c, d, n, target, other);
    hide Laid, Untouched, WfEdges, WfCode, Realizes, RestUntouched, GoodLayout, AllPlaced, Grown, WfLayout, Flipped, BranchChanged, TwoWays, OnlyBlock, WithIns, WfIns;
    if f.order[n + 1] == target && target != other {
      FlipRealizes(f, d, b, target, other);
    } else {
      SameOperands(f, b, target, other);
      BranchRealizes(f, d, b, target, other, target, f.order[n + 1]);
    }
    SameBlocks(c, LastId(f, b).value, ins);
    LaidNext(f, c, d, out, n, None);
    assert Grow(out, b, None) == out + [b];
  }

  lemma SameEdges(c: Fn, i: InsId, ins: Ins, b: BblId)
    ensures BblAt(WithIns(c, i, ins), b) == BblAt(c, b) && WithIns(c, i, ins).blocks == c.blocks
  {
  }

  lemma BranchFits(f: Fn, c: Fn, d: Fn, n: nat, target: BblId, other: BblId)
    requires Source(f) && n + 1 < |f.order| && Grown(f, c) && f.order[n] in f.blocks && HasFallthrough(LastIns(f, f.order[n]).opcode)
    requires TwoWays(f, f.order[n], target, other) && target in f.blocks && other in f.blocks && WfIns(LastIns(f, f.order[n]))
    requires f.order[n + 1] == target || f.order[n + 1] == other
    requires BblAt(d, f.order[n]).inss == BblAt(f, f.order[n]).inss && BblAt(d, f.order[n]).edgeOut == BblAt(f, f.order[n]).edgeOut && d.blocks == c.blocks
    requires var last := LastIns(f, f.order[n]);
      LastIns(d, f.order[n]) == if f.order[n + 1] == target && target != other then Flipped(last, other) else last
    ensures PlacedAs(f, d, f.order[n], NextOf(f, n)) <== Realizes(f, d, f.order[n], NextOf(f, n))
  {
    var b, last := f.order[n], LastIns(f, f.order[n]);
    FlippedHolds(SomeMachine(), last, other, map[]);
    NextIsAfter(f, n);
    EdgesInside(f, c, b);
    hide Source, Grown, LastIns, After, WfOrder, WfLayout, WfCode, Flipped, Realizes, BblAt;
  }

  lemma SameOperands(f: Fn, b: BblId, target: BblId, other: BblId)
    requires TwoWays(f, b, target, other)
    ensures |LastIns(f, b).operands| == 3
    ensures LastIns(f, b).(operands := LastIns(f, b).operands[2 := BblOp(target)]) == LastIns(f, b)
  {
    var ops := LastIns(f, b).operands;
    assert ops[2 := BblOp(target)] == ops;
  }

  lemma SameBlocks(c: Fn, i: InsId, ins: Ins)
    ensures WithIns(c, i, ins).blocks == c.blocks
  {
  }

  /** A block with a bra is inserted; edges of b are redirected to it. */
  lemma LaidInsert(f: Fn, c: Fn, d: Fn, out: seq<BblId>, n: nat, target: BblId, other: BblId, nb: BblId)
    requires Source(f) && n < |f.order| && Laid(f, c, out, n) && HasFallthrough(LastIns(f, f.order[n]).opcode)
    requires TwoWays(f, f.order[n], target, other) && target in f.blocks && other in f.blocks && LastId(f, f.order[n]).Some?
    requires Insertion(c, d, f.order[n], LastId(f, f.order[n]).value, LastIns(f, f.order[n]), other, nb)
    requires NextOf(f, n).Some? ==> NextOf(f, n).value !in BblAt(f, f.order[n]).edgeOut
    ensures Laid(f, d, out + [f.order[n], nb], n + 1)
  {
    hide *;
    var b := f.order[n];
    SourceParts(f);
    UntouchedNow(f, c, out, n);
    InsertionBlocks(f, c, d, b, LastId(f, b).value, LastIns(f, b), other, nb);
    InsertGrows(f, c, d, b, target, other, nb);
    BranchRealizes(f, d, b, target, other, if target == other then nb else target, nb);
    InsertFits(f, c, d, n, target, other, nb);
    LaidNext(f, c, d, out, n, Some(nb));
    GrowIs(out, b, nb);
  }

  lemma InsertFits(f: Fn, c: Fn, d: Fn, n: nat, target: BblId, other: BblId, nb: BblId)
    requires Source(f) && n < |f.order| && Grown(f, c) && f.order[n] in f.blocks && Untouched(f, c, f.order[n])
    requires TwoWays(f, f.order[n], target, other) && target in f.blocks && other in f.blocks && LastId(f, f.order[n]).Some? && nb !in f.blocks
    requires Insertion(c, d, f.order[n], LastId(f, f.order[n]).value, LastIns(f, f.order[n]), other, nb)
    requires NextOf(f, n).Some? ==> NextOf(f, n).value !in BblAt(f, f.order[n]).edgeOut
    requires LastIns(d, f.order[n]) == LastIns(f, f.order[n]).(operands := LastIns(f, f.order[n]).operands[2 := BblOp(if target == other then nb else target)])
    requires BridgeTo(d, nb) == Some(other) && Realizes(f, d, f.order[n], Some(nb))
    ensures PlacedAs(f, d, f.order[n], Some(nb)) && IsBridge(f, d, nb)
  {
    hide *;
    var b, last := f.order[n], LastIns(f, f.order[n]);
    NextIsAfter2(f, n);
    SourceParts(f);
    EdgesInside(f, c, b);
    InRange(f, c, b);
    InsertedEdges(f, c, d, b, LastId(f, b).value, last, other, nb);
    BridgeLast(d, nb);
    ThroughBridge(f, d, n, target, other, nb);
    BridgeFits(f, d, nb, other);
  }

  lemma NextIsAfter2(f: Fn, n: nat)
    requires Source(f) && n < |f.order|
    ensures After(f.order, f.order[n]) == NextOf(f, n)
  {
    NextIsAfter(f, n);
    hide WfLayout, WfCode, WfEdges, After;
  }

  lemma InsertedEdges(f: Fn, c: Fn, d: Fn, b: BblId, i: InsId, last: Ins, other: BblId, nb: BblId)
    requires Insertion(c, d, b, i, last, other, nb) && Untouched(f, c, b) && b.no < |c.bbls| && Grown(f, c)
    ensures BblAt(d, b).inss == BblAt(f, b).inss && BblAt(d, b).edgeOut == SubstSeq(BblAt(f, b).edgeOut, other, nb)
    ensures BblAt(d, nb).edgeOut == [other] && d.blocks == c.blocks + {nb} && f.blocks <= d.blocks
  {
    hide SubstIns, EdgesStayMutual, BblAt, OwnOrNew;
  }

  lemma BridgeFits(f: Fn, d: Fn, nb: BblId, other: BblId)
    requires BridgeTo(d, nb) == Some(other) && LastIns(d, nb).opcode.Bra? && LastIns(d, nb).operands == [BblOp(other)]
    requires BblAt(d, nb).edgeOut == [other] && other in d.blocks && other in f.blocks
    ensures IsBridge(f, d, nb)
  {
    hide LastIns, BridgeTo, BblAt;
  }

  lemma ThroughBridge(f: Fn, d: Fn, n: nat, target: BblId, other: BblId, nb: BblId)
    requires n < |f.order| && TwoWays(f, f.order[n], target, other) && nb in d.blocks && After(f.order, f.order[n]) == NextOf(f, n) && nb !in f.blocks
    requires forall t :: t in BblAt(f, f.order[n]).edgeOut ==> t in f.blocks && t in d.blocks
    requires BblAt(d, f.order[n]).inss == BblAt(f, f.order[n]).inss && BblAt(d, f.order[n]).edgeOut == SubstSeq(BblAt(f, f.order[n]).edgeOut, other, nb)
    requires NextOf(f, n).Some? ==> NextOf(f, n).value !in BblAt(f, f.order[n]).edgeOut
    requires LastIns(d, f.order[n]) == LastIns(f, f.order[n]).(operands := LastIns(f, f.order[n]).operands[2 := BblOp(if target == other then nb else target)])
    requires Realizes(f, d, f.order[n], Some(nb))
    ensures PlacedAs(f, d, f.order[n], Some(nb))
  {
    var e, e' := BblAt(f, f.order[n]).edgeOut, BblAt(d, f.order[n]).edgeOut;
    assert e'[0] == Subst(e[0], other, nb) && e'[1] == Subst(e[1], other, nb) && e[0] in e && e[1] in e;
    hide LastIns, BblAt, After, Realizes, NextOf;
  }

  lemma BridgeLast(d: Fn, nb: BblId)
    requires BridgeTo(d, nb).Some?
    ensures LastIns(d, nb).opcode.Bra? && LastIns(d, nb).operands == [BblOp(BridgeTo(d, nb).value)]
  {
  }

  lemma InsertionBlocks(f: Fn, c: Fn, d: Fn, b: BblId, i: InsId, last: Ins, other: BblId, nb: BblId)
    requires Grown(f, c) && Insertion(c, d, b, i, last, other, nb)
    ensures nb !in c.blocks && nb !in f.blocks && d.blocks == c.blocks + {nb}
  {
    hide OwnOrNew, BblAt, SubstIns;
  }

  lemma GrowIs(out: seq<BblId>, b: BblId, nb: BblId)
    ensures Grow(out, b, Some(nb)) == out + [b, nb]
  {
  }

  lemma InsertGrows(f: Fn, c: Fn, d: Fn, b: BblId, target: BblId, other: BblId, nb: BblId)
    requires WfLayout(f) && WfCode(f) && Grown(f, c) && b in f.blocks && Untouched(f, c, b) && LastId(f, b).Some? && TwoWays(f, b, target, other)
    requires nb !in c.blocks && Insertion(c, d, b, LastId(f, b).value, LastIns(f, b), other, nb)
    ensures Grown(f, d) && OnlyBlock(f, c, d, b) && BranchChanged(f, d, b) && BridgeTo(d, nb) == Some(other)
    ensures LastIns(d, b) == LastIns(f, b).(operands := LastIns(f, b).operands[2 := BblOp(if target == other then nb else target)])
  {
    hide SubstIns, EdgesStayMutual, SubstSeq, WfIns, UniqueIds;
    InRange(f, c, b);
    LastIsWf(f, b);
    var i, ids := LastId(f, b).value, BblAt(f, b).inss;
    assert i in ids;
    forall x, j | x in d.blocks && j in BblAt(d, x).inss ensures OwnOrNew(f, d, x, j) {
      if x != nb { assert OwnOrNew(f, c, x, j); }
    }
    forall k | 0 <= k < |ids| - 1 ensures ids[k] != i { UniqueInBlock(f, b, k); }
    SubstTarget(LastIns(f, b), target, other, nb);
    hide WfCode, WfLayout;
  }

  lemma SubstTarget(last: Ins, target: BblId, other: BblId, nb: BblId)
    requires last.opcode.CondBra? && |last.operands| == 3 && last.operands[2] == BblOp(target) && WfIns(last)
    ensures SubstIns(last, other, nb) == last.(operands := last.operands[2 := BblOp(if target == other then nb else target)])
    ensures WfIns(SubstIns(last, other, nb))
  {
  }

  // ---------------------------------------------------------------- the pass

  /** Instructions still stand in one place each, and predecessor lists still are what successor lists say. */
  ghost predicate StaysWf(c: Fn, d: Fn) { (WfCode(c) ==> WfCode(d)) && (MutualCount(c) ==> MutualCount(d)) }

  lemma StaysItself(c: Fn)
    ensures StaysWf(c, c)
  {
  }

  lemma StaysOn(a: Fn, b: Fn, c: Fn)
    requires StaysWf(a, b) && StaysWf(b, c)
    ensures StaysWf(a, c)
  {
    hide WfCode, MutualCount;
  }

  lemma SameEdgesStay(c: Fn, d: Fn)
    requires d.blocks == c.blocks && forall x :: BblAt(d, x).edgeOut == BblAt(c, x).edgeOut && BblAt(d, x).edgeIn == BblAt(c, x).edgeIn
    ensures MutualCount(c) ==> MutualCount(d)
  {
    assert forall b, s :: CountOut(d, b, s) == CountOut(c, b, s);
    hide BblAt, CountOut;
  }

  lemma BraStays(c: Fn, b: BblId, t: BblId)
    requires b.no < |c.bbls|
    ensures StaysWf(c, WithBra(c, b, t))
  {
    var d := WithBra(c, b, t);
    forall x ensures BblAt(d, x) == if x == b then BblAt(c, b).(inss := BblAt(c, b).inss + [|c.code|]) else BblAt(c, x) { assert x.no == b.no <==> x == b; }
    SameEdgesStay(c, d);
    hide MutualCount, WfIns;
    if WfCode(c) {
      forall i | 0 <= i < |d.code| ensures WfIns(d.code[i]) { BraIsWf(t); }
      NewIdStays(c, d, b);
    }
    hide BblAt;
  }

  lemma BraIsWf(t: BblId)
    ensures WfIns(BraIns(t))
  {
  }

  /** A new instruction at the end of one block. */
  lemma NewIdStays(c: Fn, d: Fn, b: BblId)
    requires WfCode(c) && d.blocks == c.blocks && |d.code| == |c.code| + 1
    requires forall x :: BblAt(d, x).inss == if x == b then BblAt(c, b).inss + [|c.code|] else BblAt(c, x).inss
    ensures UniqueIds(d) && forall x, i :: x in d.blocks && i in BblAt(d, x).inss ==> i < |d.code|
  {
    hide WfIns, BblAt;
    forall x, k, l | x in d.blocks && 0 <= k < l < |BblAt(d, x).inss| ensures BblAt(d, x).inss[k] != BblAt(d, x).inss[l] {
      if x == b && l == |BblAt(c, b).inss| { assert BblAt(c, b).inss[k] in BblAt(c, b).inss; }
    }
    forall x, y, i | x in d.blocks && y in d.blocks && i in BblAt(d, x).inss && i in BblAt(d, y).inss ensures x == y {
      assert i == |c.code| || (i in BblAt(c, x).inss && i in BblAt(c, y).inss);
    }
  }

  lemma InsStays(c: Fn, i: InsId, ins: Ins)
    requires WfIns(ins)
    ensures StaysWf(c, WithIns(c, i, ins))
  {
    var d := WithIns(c, i, ins);
    assert forall x :: BblAt(d, x) == BblAt(c, x);
    SameEdgesStay(c, d);
    hide MutualCount, WfIns, BblAt;
  }

  lemma InsertionStays(f: Fn, c: Fn, d: Fn, out: seq<BblId>, n: nat, i: InsId, last: Ins, other: BblId, nb: BblId)
    requires Source(f) && n < |f.order| && Laid(f, c, out, n) && other in f.blocks && Insertion(c, d, f.order[n], i, last, other, nb)
    requires WfIns(SubstIns(last, other, nb))
    ensures StaysWf(c, d)
  {
    hide *;
    var b := f.order[n];
    LaidClosed(f, c, out, n);
    UntouchedNow(f, c, out, n);
    BlocksGrow(f, c);
    InsertionMutual(c, d, b, i, last, other, nb);
    InsertionCode(c, d, b, i, last, other, nb);
    StaysByParts(c, d);
  }

  lemma BlocksGrow(f: Fn, c: Fn)
    requires Grown(f, c)
    ensures f.blocks <= c.blocks && forall x :: x in c.blocks ==> x.no < |c.bbls|
  {
    hide OwnOrNew;
  }

  lemma StaysByParts(c: Fn, d: Fn)
    requires (WfCode(c) ==> WfCode(d)) && (MutualCount(c) ==> MutualCount(d))
    ensures StaysWf(c, d)
  {
    hide WfCode, MutualCount;
  }

  lemma InsertionMutual(c: Fn, d: Fn, b: BblId, i: InsId, last: Ins, other: BblId, nb: BblId)
    requires Insertion(c, d, b, i, last, other, nb) && b in c.blocks && other in c.blocks && EdgesClosed(c)
    ensures MutualCount(c) ==> MutualCount(d)
  {
    hide MutualCount, EdgesClosed, SubstIns, BblAt;
  }

  lemma InsertionCode(c: Fn, d: Fn, b: BblId, i: InsId, last: Ins, other: BblId, nb: BblId)
    requires Insertion(c, d, b, i, last, other, nb) && WfIns(SubstIns(last, other, nb)) && forall x :: x in c.blocks ==> x.no < |c.bbls|
    ensures WfCode(c) ==> WfCode(d)
  {
    hide EdgesStayMutual, SubstIns, SubstSeq, WfIns, BblAt;
    if WfCode(c) {
      forall j | 0 <= j < |d.code| ensures WfIns(d.code[j]) { BraIsWf(other); }
    }
  }

  /** Every edge of the blocks laid out so far, and of those to come, stays inside. */
  lemma LaidClosed(f: Fn, c: Fn, out: seq<BblId>, n: nat)
    requires Source(f) && n <= |f.order| && Laid(f, c, out, n)
    ensures EdgesClosed(c)
  {
    var l := LayoutSoFar(f, out, n);
    forall x, t | x in c.blocks && t in BblAt(c, x).edgeOut ensures t in c.blocks {
      var k :| 0 <= k < |l| && l[k] == x;
      if k < |out| {
        assert Placed(f, c, out[k], Nxt(l, k));
        hide Realizes, Sparing, WfEdges;
      } else {
        assert Untouched(f, c, f.order[n + (k - |out|)]);
        assert f.order[n + (k - |out|)] in f.order;
      }
    }
    hide WfEdges, WfCode, Placed, Untouched, OwnOrNew, BblAt;
  }

  predicate FallsOffEnd(f: Fn, n: nat)
    requires n < |f.order|
  {
    n + 1 == |f.order| && HasFallthrough(LastIns(f, f.order[n]).opcode)
  }

  /** The new block with its bra; the branch of b is pointed to it if it went the same way. */
  method NewBraBbl(fun: Fun, i: InsId, other: BblId) returns (nb: BblId)
    requires i < |fun.code| && WfIns(fun.code[i]) && SwitchTable(fun.code[i]) == None
    modifies fun`blocks, fun`bbls, fun`code, fun`jtbs
    ensures nb == BblNo(|old(fun.bbls)|) && fun.blocks == old(fun.blocks) + {nb} && fun.jtbs == old(fun.jtbs)
    ensures fun.bbls == old(fun.bbls) + [Bbl([|old(fun.code)|], [], multiset{})]
    ensures fun.code == (old(fun.code) + [BraIns(other)])[i := SubstIns(old(fun.code)[i], other, nb)]
  {
    hide WfIns, SubstIns, SwitchTable;
    nb := BblNo(|fun.bbls|);
    var braId := |fun.code|;
    fun.code := fun.code + [BraIns(other)];
    fun.bbls := fun.bbls + [Bbl([braId], [], multiset{})];
    fun.blocks := fun.blocks + {nb};
    InsMaybePatchNewSuccessor(fun, i, other, nb);
  }

  /** Edges from b to `other` now go to nb, and from there on. */
  method ThreadEdges(fun: Fun, b: BblId, other: BblId, nb: BblId)
    requires b.no < |fun.bbls| && other.no < |fun.bbls| && nb.no < |fun.bbls| && other != nb
    modifies fun`bbls
    ensures |fun.bbls| == |old(fun.bbls)|
    ensures forall x :: BblAt(fun.View(), x).inss == BblAt(old(fun.View()), x).inss
    ensures forall x :: x != b && x != nb ==> BblAt(fun.View(), x).edgeOut == BblAt(old(fun.View()), x).edgeOut
    ensures b != nb ==> BblAt(fun.View(), b).edgeOut == SubstSeq(BblAt(old(fun.View()), b).edgeOut, other, nb)
    ensures BblAt(fun.View(), nb).edgeOut == [other]
    ensures forall x, q :: BblAt(fun.View(), x).edgeIn[q] == ThreadedIn(old(fun.View()), b, other, nb, x, q)
  {
    ghost var d1 := fun.View();
    hide EdgesReplaced, Count, BblAt, SubstSeq, ThreadedIn;
    ReplaceEdgeOut(fun, b, other, nb);
    ghost var d2 := fun.View();
    Replaced(d1, fun.View(), b, other, nb);
    fun.bbls := fun.bbls[other.no := fun.bbls[other.no].(edgeIn := fun.bbls[other.no].edgeIn + multiset{nb})];
    fun.bbls := fun.bbls[nb.no := fun.bbls[nb.no].(edgeOut := [other])];
    Threaded(d1, d2, fun.View(), b, other, nb);
  }

  /** How often x lists q as a predecessor once edges from b to `other` go over nb. */
  function ThreadedIn(c: Fn, b: BblId, other: BblId, nb: BblId, x: BblId, q: BblId): nat {
    EdgeInAfter(c, b, other, nb, |BblAt(c, b).edgeOut|, x, q) + if x == other && q == nb then 1 else 0
  }

  lemma Threaded(d1: Fn, d2: Fn, d: Fn, b: BblId, other: BblId, nb: BblId)
    requires EdgesReplaced(d1, d2, b, other, nb, |BblAt(d1, b).edgeOut|) && other.no < |d2.bbls| && nb.no < |d2.bbls| && other != nb
    requires d.bbls == d2.bbls[other.no := d2.bbls[other.no].(edgeIn := d2.bbls[other.no].edgeIn + multiset{nb})]
                              [nb.no := d2.bbls[nb.no].(edgeOut := [other])]
    ensures forall x, q :: BblAt(d, x).edgeIn[q] == ThreadedIn(d1, b, other, nb, x, q)
  {
    forall x, q ensures BblAt(d, x).edgeIn[q] == BblAt(d2, x).edgeIn[q] + if x == other && q == nb then 1 else 0 {
      assert x.no == other.no <==> x == other;
      assert x.no == nb.no <==> x == nb;
    }
    hide EdgeInAfter;
  }

  /** d is c with a new block nb that leads from b to `other`, where the branch i of b may now go. */
  ghost predicate Insertion(c: Fn, d: Fn, b: BblId, i: InsId, last: Ins, other: BblId, nb: BblId) {
    && nb == BblNo(|c.bbls|) && d.blocks == c.blocks + {nb} && d.jtbs == c.jtbs && d.order == c.order
    && i < |c.code| && d.code == (c.code + [BraIns(other)])[i := SubstIns(last, other, nb)]
    && |d.bbls| == |c.bbls| + 1 && BblAt(d, nb).inss == [|c.code|]
    && (forall x: BblId :: x.no < |c.bbls| ==> BblAt(d, x).inss == BblAt(c, x).inss)
    && (forall x: BblId :: x.no < |c.bbls| && x != b ==> BblAt(d, x).edgeOut == BblAt(c, x).edgeOut)
    && BblAt(d, b).edgeOut == SubstSeq(BblAt(c, b).edgeOut, other, nb) && BblAt(d, nb).edgeOut == [other]
    && EdgesStayMutual(c, d, b, other)
  }

  /** Predecessor lists stay what successor lists say. */
  ghost predicate EdgesStayMutual(c: Fn, d: Fn, b: BblId, other: BblId) {
    MutualCount(c) && b in c.blocks && other in c.blocks && EdgesClosed(c) ==> MutualCount(d)
  }

  method InsertBlock(fun: Fun, b: BblId, i: InsId, other: BblId) returns (nb: BblId)
    requires i < |fun.code| && WfIns(fun.code[i]) && SwitchTable(fun.code[i]) == None && b.no < |fun.bbls| && other.no < |fun.bbls|
    modifies fun`blocks, fun`bbls, fun`code, fun`jtbs
    ensures Insertion(old(fun.View()), fun.View(), b, i, old(fun.code)[i], other, nb)
  {
    ghost var c := fun.View();
    ghost var last := fun.code[i];
    hide *;
    ViewParts(fun);
    nb := NewBraBbl(fun, i, other);
    ViewParts(fun);
    ghost var d1 := fun.View();
    SpaceFor(c, other, nb);
    ThreadEdges(fun, b, other, nb);
    ViewParts(fun);
    Inserted(c, d1, fun.View(), b, nb);
    EdgesAreInserted(c, d1, fun.View(), b, other, nb);
    InsertionIsMutual(c, d1, fun.View(), b, other, nb);
    InsertionIs(c, fun.View(), b, i, last, other, nb);
  }

  lemma InsertionIs(c: Fn, d: Fn, b: BblId, i: InsId, last: Ins, other: BblId, nb: BblId)
    requires nb == BblNo(|c.bbls|) && d.blocks == c.blocks + {nb} && d.jtbs == c.jtbs && d.order == c.order
    requires i < |c.code| && d.code == (c.code + [BraIns(other)])[i := SubstIns(last, other, nb)]
    requires |d.bbls| == |c.bbls| + 1 && BblAt(d, nb).inss == [|c.code|]
    requires forall x: BblId :: x.no < |c.bbls| ==> BblAt(d, x).inss == BblAt(c, x).inss
    requires forall x: BblId :: x.no < |c.bbls| && x != b ==> BblAt(d, x).edgeOut == BblAt(c, x).edgeOut
    requires BblAt(d, b).edgeOut == SubstSeq(BblAt(c, b).edgeOut, other, nb) && BblAt(d, nb).edgeOut == [other] && EdgesStayMutual(c, d, b, other)
    ensures Insertion(c, d, b, i, last, other, nb)
  {
    hide BblAt, SubstIns, BraIns, SubstSeq, EdgesStayMutual;
  }

  /** What the edge bookkeeping does: b moves from `other` to the new block, and that leads to `other`. */
  ghost predicate EdgesInserted(c: Fn, d1: Fn, d: Fn, b: BblId, other: BblId, nb: BblId) {
    && nb == BblNo(|c.bbls|) && d1.bbls == c.bbls + [Bbl([|c.code|], [], multiset{})] && b.no < |c.bbls| && other.no < |c.bbls|
    && d.blocks == c.blocks + {nb} && BblAt(d, nb).edgeOut == [other]
    && (forall x: BblId :: x.no < |c.bbls| && x != b ==> BblAt(d, x).edgeOut == BblAt(c, x).edgeOut)
    && BblAt(d, b).edgeOut == SubstSeq(BblAt(c, b).edgeOut, other, nb)
    && (forall x, q :: BblAt(d, x).edgeIn[q] == ThreadedIn(d1, b, other, nb, x, q))
  }

  lemma EdgesAreInserted(c: Fn, d1: Fn, d: Fn, b: BblId, other: BblId, nb: BblId)
    requires nb == BblNo(|c.bbls|) && d1.bbls == c.bbls + [Bbl([|c.code|], [], multiset{})] && b.no < |c.bbls| && other.no < |c.bbls|
    requires d.blocks == c.blocks + {nb} && BblAt(d, nb).edgeOut == [other]
    requires forall x: BblId :: x.no < |c.bbls| && x != b ==> BblAt(d, x).edgeOut == BblAt(c, x).edgeOut
    requires BblAt(d, b).edgeOut == SubstSeq(BblAt(c, b).edgeOut, other, nb)
    requires forall x, q :: BblAt(d, x).edgeIn[q] == ThreadedIn(d1, b, other, nb, x, q)
    ensures EdgesInserted(c, d1, d, b, other, nb)
  {
    hide BblAt, ThreadedIn, SubstSeq;
  }

  ghost predicate EdgesClosed(c: Fn) {
    forall x, t :: x in c.blocks ==> x.no < |c.bbls| && (t in BblAt(c, x).edgeOut ==> t in c.blocks)
  }

  /** One entry of a predecessor list. */
  predicate CountsRight(d: Fn, p: BblId, s: BblId) { BblAt(d, s).edgeIn[p] == if p in d.blocks then CountOut(d, p, s) else 0 }

  lemma InsertionIsMutual(c: Fn, d1: Fn, d: Fn, b: BblId, other: BblId, nb: BblId)
    requires EdgesInserted(c, d1, d, b, other, nb)
    ensures EdgesStayMutual(c, d, b, other)
  {
    hide EdgesInserted, EdgesClosed, CountOut, BblAt;
    if MutualCount(c) && b in c.blocks && other in c.blocks && EdgesClosed(c) {
      forall p, s | s in d.blocks ensures BblAt(d, s).edgeIn[p] == if p in d.blocks then CountOut(d, p, s) else 0 {
        MutualAfter(c, d1, d, b, other, nb, p, s);
      }
    }
  }

  lemma MutualAfter(c: Fn, d1: Fn, d: Fn, b: BblId, other: BblId, nb: BblId, p: BblId, s: BblId)
    requires EdgesInserted(c, d1, d, b, other, nb) && b in c.blocks && other in c.blocks && s in d.blocks
    requires MutualCount(c) && EdgesClosed(c)
    ensures CountsRight(d, p, s)
  {
    var e := BblAt(c, b).edgeOut;
    assert nb !in c.blocks && BblAt(d1, nb).edgeIn == multiset{} && BblAt(d1, b) == BblAt(c, b);
    assert s in c.blocks ==> BblAt(d1, s) == BblAt(c, s) && CountsRight(c, p, s);
    assert BblAt(d, s).edgeIn[p] == ThreadedIn(d1, b, other, nb, s, p);
    hide MutualCount;
    NoneAmong(e, nb);
    CountSubst(e, other, nb, s, |e|);
    OneOf(other, s);
    if p in c.blocks { NoneAmong(BblAt(c, p).edgeOut, nb); }
    hide Count, BblAt, SubstSeq;
  }

  lemma NoneAmong(xs: seq<BblId>, x: BblId)
    ensures x !in xs ==> Count(xs, x, |xs|) == 0
  {
    CountsIffMember(xs, x, |xs|);
    assert xs[..|xs|] == xs;
  }

  lemma OneOf(a: BblId, x: BblId)
    ensures Count([a], x, 1) == if x == a then 1 else 0
  {
    assert Count([a], x, 0) == 0;
  }

  /** A conditional branch whose ways are both elsewhere: the second goes over a new block. */
  method InsertBra(fun: Fun, n: nat, out0: seq<BblId>, target: BblId, other: BblId, ghost f: Fn) returns (out: seq<BblId>)
    requires Source(f) && n < |f.order| && fun.order == f.order && Laid(f, fun.View(), out0, n) && HasFallthrough(LastIns(f, f.order[n]).opcode)
    requires TwoWays(f, f.order[n], target, other) && target in f.blocks && other in f.blocks
    requires LastId(f, f.order[n]).Some? && LastId(f, f.order[n]) == LastId(fun.View(), f.order[n]) && LastId(f, f.order[n]).value < |fun.code|
    requires fun.code[LastId(f, f.order[n]).value] == LastIns(f, f.order[n]) && WfIns(LastIns(f, f.order[n]))
    requires f.order[n].no < |fun.bbls| && other.no < |fun.bbls| && (NextOf(f, n).Some? ==> NextOf(f, n).value !in BblAt(f, f.order[n]).edgeOut)
    modifies fun`blocks, fun`bbls, fun`code, fun`jtbs
    ensures Laid(f, fun.View(), out, n + 1) && StaysWf(old(fun.View()), fun.View())
  {
    hide *;
    ghost var c := fun.View();
    ViewParts(fun);
    var b := fun.order[n];
    NotASwitch(f, b, target, other);
    LastIdIn(c, b);
    var i := fun.bbls[b.no].inss[|fun.bbls[b.no].inss| - 1];
    var nb := InsertBlock(fun, b, i, other);
    out := out0 + [b, nb];
    LaidInsert(f, c, fun.View(), out0, n, target, other, nb);
    BranchSubst(f, b, target, other, nb);
    InsertionStays(f, c, fun.View(), out0, n, i, LastIns(f, b), other, nb);
  }

  lemma BranchSubst(f: Fn, b: BblId, target: BblId, other: BblId, nb: BblId)
    requires TwoWays(f, b, target, other) && WfIns(LastIns(f, b))
    ensures WfIns(SubstIns(LastIns(f, b), other, nb))
  {
    SubstTarget(LastIns(f, b), target, other, nb);
    hide LastIns;
  }

  lemma LastIdIn(c: Fn, b: BblId)
    requires LastId(c, b).Some? && b.no < |c.bbls|
    ensures c.bbls[b.no].inss != [] && LastId(c, b).value == c.bbls[b.no].inss[|c.bbls[b.no].inss| - 1]
  {
  }

  lemma ViewParts(fun: Fun)
    ensures fun.View() == Fn(fun.order, fun.blocks, fun.bbls, fun.jtbs, fun.code)
  {
  }

  lemma SpaceFor(c: Fn, other: BblId, nb: BblId)
    requires nb == BblNo(|c.bbls|) && other.no < |c.bbls|
    ensures other != nb && nb.no == |c.bbls|
  {
  }

  lemma NotASwitch(f: Fn, b: BblId, target: BblId, other: BblId)
    requires TwoWays(f, b, target, other)
    ensures SwitchTable(LastIns(f, b)) == None
  {
  }

  lemma Replaced(d1: Fn, d2: Fn, b: BblId, src: BblId, dst: BblId)
    requires EdgesReplaced(d1, d2, b, src, dst, |BblAt(d1, b).edgeOut|)
    ensures d2 == d1.(bbls := d2.bbls) && |d2.bbls| == |d1.bbls|
    ensures forall x :: BblAt(d2, x).inss == BblAt(d1, x).inss
    ensures forall x :: x != b ==> BblAt(d2, x).edgeOut == BblAt(d1, x).edgeOut
    ensures BblAt(d2, b).edgeOut == SubstSeq(BblAt(d1, b).edgeOut, src, dst)
  {
    hide EdgeInAfter;
  }

  /** What the edge bookkeeping leaves of the blocks. */
  lemma Inserted(c: Fn, d1: Fn, d: Fn, b: BblId, nb: BblId)
    requires nb == BblNo(|c.bbls|) && d1.bbls == c.bbls + [Bbl([|c.code|], [], multiset{})] && b.no < |c.bbls|
    requires |d.bbls| == |d1.bbls| && forall x :: BblAt(d, x).inss == BblAt(d1, x).inss
    requires forall x :: x != b && x != nb ==> BblAt(d, x).edgeOut == BblAt(d1, x).edgeOut
    ensures BblAt(d1, b).edgeOut == BblAt(c, b).edgeOut && b != nb
    ensures |d.bbls| == |c.bbls| + 1 && BblAt(d, nb).inss == [|c.code|]
    ensures forall x: BblId :: x.no < |c.bbls| ==> BblAt(d, x).inss == BblAt(c, x).inss
    ensures forall x: BblId :: x.no < |c.bbls| && x != b ==> BblAt(d, x).edgeOut == BblAt(c, x).edgeOut
  {
    assert forall x: BblId :: x.no < |c.bbls| ==> BblAt(d1, x) == BblAt(c, x);
  }

  method AppendBra(fun: Fun, b: BblId, t: BblId)
    requires b.no < |fun.bbls|
    modifies fun`bbls, fun`code
    ensures fun.View() == WithBra(old(fun.View()), b, t)
  {
    ghost var c := fun.View();
    var braId := |fun.code|;
    fun.code := fun.code + [BraIns(t)];
    fun.bbls := fun.bbls[b.no := fun.bbls[b.no].(inss := fun.bbls[b.no].inss + [braId])];
    IsWithBra(c, fun.View(), b, t);
  }

  /** One way on: by falling through, or over a bra. */
  method AddBra(fun: Fun, n: nat, out0: seq<BblId>, ghost f: Fn) returns (out: seq<BblId>)
    requires Source(f) && n + 1 < |f.order| && fun.order == f.order && Laid(f, fun.View(), out0, n)
    requires HasFallthrough(LastIns(f, f.order[n]).opcode) && |BblAt(f, f.order[n]).edgeOut| == 1
    modifies fun`bbls, fun`code
    ensures Laid(f, fun.View(), out, n + 1) && StaysWf(old(fun.View()), fun.View())
  {
    hide *;
    ghost var c := fun.View();
    ViewParts(fun);
    SameEnd(f, c, out0, n);
    var b := fun.order[n];
    var bbl := fun.bbls[b.no];
    var t := bbl.edgeOut[0];
    assert bbl.edgeOut == [t];
    out := out0 + [b];
    if fun.order[n + 1] != t {
      AppendBra(fun, b, t);
      BraStays(c, b, t);
      NotNext(f, n, t);
      LaidBra(f, c, out0, n, t);
    } else {
      LaidSame(f, c, out0, n);
      StaysItself(c);
    }
  }

  lemma NotNext(f: Fn, n: nat, t: BblId)
    ensures n + 1 < |f.order| && f.order[n + 1] != t ==> NextOf(f, n) != Some(t)
  {
  }

  /** Two ways on: one of them by falling through, which may take a flip or a new block. */
  method AddBranchBra(fun: Fun, n: nat, out0: seq<BblId>, ghost f: Fn) returns (out: seq<BblId>)
    requires Source(f) && n + 1 < |f.order| && fun.order == f.order && Laid(f, fun.View(), out0, n)
    requires HasFallthrough(LastIns(f, f.order[n]).opcode) && |BblAt(f, f.order[n]).edgeOut| != 1
    modifies fun`blocks, fun`bbls, fun`code, fun`jtbs
    ensures Laid(f, fun.View(), out, n + 1) && StaysWf(old(fun.View()), fun.View())
  {
    hide Source, Laid, WfIns, HasFallthrough, TwoWays, LastIns, LastId, WithIns, Flipped, BblAt, StaysWf;
    ghost var c := fun.View();
    BranchHere(f, c, out0, n);
    var b := fun.order[n];
    var bbl := fun.bbls[b.no];
    var i := bbl.inss[|bbl.inss| - 1];
    var condBra := fun.code[i];
    var target := condBra.operands[2].bbl;
    var other := if target == bbl.edgeOut[1] then bbl.edgeOut[0] else bbl.edgeOut[1];
    if fun.order[n + 1] in bbl.edgeOut {
      out := out0 + [b];
      NextIsAWay(f, b, target, other, fun.order[n + 1]);
      LaidBranch(f, c, out0, n, target, other);
      if target == fun.order[n + 1] && target != other {
        fun.code := fun.code[i := Flipped(condBra, other)];
        IsWithIns(c, fun.View(), i, Flipped(condBra, other));
        FlippedHolds(SomeMachine(), condBra, other, map[]);
        InsStays(c, i, Flipped(condBra, other));
      } else {
        SameCode(c, i);
        StaysItself(c);
      }
    } else {
      out := InsertBra(fun, n, out0, target, other, f);
    }
  }

  /** Block n of the layout gets what it needs to run on to where it should. This fails only if
      there is no next block to fall through to. */
  method AddBranch(fun: Fun, n: nat, out0: seq<BblId>, ghost f: Fn) returns (ok: bool, out: seq<BblId>)
    requires Source(f) && n < |f.order| && fun.order == f.order && Laid(f, fun.View(), out0, n)
    modifies fun`blocks, fun`bbls, fun`code, fun`jtbs
    ensures ok <==> !FallsOffEnd(f, n)
    ensures ok ==> Laid(f, fun.View(), out, n + 1) && StaysWf(old(fun.View()), fun.View())
  {
    hide Source, Laid, HasFallthrough, LastId, LastIns, StaysWf;
    SameEnd(f, fun.View(), out0, n);
    LastIdIs(f, f.order[n]);
    var b := fun.order[n];
    var bbl := fun.bbls[b.no];
    ok, out := true, out0 + [b];
    if bbl.inss != [] && !HasFallthrough(fun.code[bbl.inss[|bbl.inss| - 1]].opcode) {
      LaidSame(f, fun.View(), out0, n);
      StaysItself(fun.View());
    } else {
      if n + 1 >= |fun.order| {
        ok := false;
      } else if |bbl.edgeOut| == 1 {
        out := AddBra(fun, n, out0, f);
      } else {
        out := AddBranchBra(fun, n, out0, f);
      }
    }
  }

  /** The block is still what it was, so its last instruction is too. */
  lemma SameEnd(f: Fn, c: Fn, out: seq<BblId>, n: nat)
    requires Source(f) && n < |f.order| && Laid(f, c, out, n)
    ensures var b := f.order[n];
      && b in f.blocks && b.no < |f.bbls| <= |c.bbls| && c.bbls[b.no].inss == BblAt(f, b).inss && c.bbls[b.no].edgeOut == BblAt(f, b).edgeOut
      && (BblAt(f, b).inss != [] ==> LastId(f, b).value < |c.code| && c.code[LastId(f, b).value] == LastIns(f, b))
      && (BblAt(f, b).inss == [] ==> HasFallthrough(LastIns(f, b).opcode))
  {
    var b := f.order[n];
    InOrder(f, n);
    LaidParts(f, c, out, n);
    assert Untouched(f, c, b);
    InRange(f, c, b);
    hide WfCode, AllPlaced, GoodLayout, Grown, WfEdges;
  }

  lemma LastIdIs(f: Fn, b: BblId)
    ensures BblAt(f, b).inss != [] ==> LastId(f, b) == Some(BblAt(f, b).inss[|BblAt(f, b).inss| - 1])
  {
  }

  lemma IsWithBra(c: Fn, d: Fn, b: BblId, t: BblId)
    requires b.no < |c.bbls| && d == c.(code := c.code + [BraIns(t)], bbls := c.bbls[b.no := BblAt(c, b).(inss := BblAt(c, b).inss + [|c.code|])])
    ensures d == WithBra(c, b, t)
  {
  }

  lemma IsWithIns(c: Fn, d: Fn, i: InsId, ins: Ins)
    requires i < |c.code| && d == c.(code := c.code[i := ins])
    ensures d == WithIns(c, i, ins)
  {
  }

  lemma SameCode(c: Fn, i: InsId)
    requires i < |c.code|
    ensures WithIns(c, i, c.code[i]) == c
  {
    assert c.code[i := c.code[i]] == c.code;
  }

  /** Where the two ways of block n are found. */
  lemma BranchHere(f: Fn, c: Fn, out: seq<BblId>, n: nat)
    requires Source(f) && n < |f.order| && Laid(f, c, out, n) && HasFallthrough(LastIns(f, f.order[n]).opcode) && |BblAt(f, f.order[n]).edgeOut| != 1
    ensures EndsInBranch(f, c, f.order[n])
  {
    hide *;
    var b := f.order[n];
    SameEnd(f, c, out, n);
    UntouchedNow(f, c, out, n);
    BranchParts(f, c, b);
    LastIdIs(f, b);
    TargetIs(f, b);
    BranchFound(f, c, b);
  }

  lemma BranchFound(f: Fn, c: Fn, b: BblId)
    requires b.no < |c.bbls| && c.bbls[b.no].inss == BblAt(f, b).inss && c.bbls[b.no].edgeOut == BblAt(f, b).edgeOut && BblAt(f, b).inss != []
    requires LastId(f, b) == Some(BblAt(f, b).inss[|BblAt(f, b).inss| - 1]) == LastId(c, b) && LastId(f, b).value < |c.code|
    requires c.code[LastId(f, b).value] == LastIns(f, b) && WfIns(LastIns(f, b)) && LastIns(f, b).opcode.CondBra? && |BblAt(f, b).edgeOut| == 2
    requires |LastIns(f, b).operands| == 3 && LastIns(f, b).operands[2].BblOp? && forall x :: x in f.blocks ==> x.no < |c.bbls|
    requires var e, target := BblAt(f, b).edgeOut, LastIns(f, b).operands[2].bbl;
      var other := if target == e[1] then e[0] else e[1];
      TwoWays(f, b, target, other) && target in f.blocks && other in f.blocks
    ensures EndsInBranch(f, c, b)
  {
    hide TwoWays, LastIns, LastId, WfIns, BblAt;
  }

  ghost predicate EndsInBranch(f: Fn, c: Fn, b: BblId) {
    && b.no < |c.bbls| && c.bbls[b.no].inss != [] && |c.bbls[b.no].edgeOut| == 2 && c.bbls[b.no].edgeOut == BblAt(f, b).edgeOut
    && var i := c.bbls[b.no].inss[|c.bbls[b.no].inss| - 1];
    && i < |c.code| && LastId(f, b) == Some(i) == LastId(c, b) && c.code[i] == LastIns(f, b) && WfIns(c.code[i])
    && c.code[i].opcode.CondBra? && |c.code[i].operands| == 3 && c.code[i].operands[2].BblOp?
    && var e, target := c.bbls[b.no].edgeOut, c.code[i].operands[2].bbl;
    var other := if target == e[1] then e[0] else e[1];
    TwoWays(f, b, target, other) && target in f.blocks && other in f.blocks && other.no < |c.bbls|
  }

  lemma UntouchedNow(f: Fn, c: Fn, out: seq<BblId>, n: nat)
    requires Source(f) && n < |f.order| && Laid(f, c, out, n)
    ensures Grown(f, c) && f.order[n] in f.blocks && Untouched(f, c, f.order[n])
    ensures forall b :: b in f.blocks ==> b.no < |c.bbls|
  {
    InOrder(f, n);
    LaidParts(f, c, out, n);
    hide Untouched, WfCode, WfEdges, GoodLayout, AllPlaced;
  }

  lemma TargetIs(f: Fn, b: BblId)
    requires WfIns(LastIns(f, b)) && LastIns(f, b).opcode.CondBra?
    ensures |LastIns(f, b).operands| == 3 && LastIns(f, b).operands[2].BblOp?
    ensures TargetOf(LastIns(f, b).operands[2]) == LastIns(f, b).operands[2].bbl
    ensures BblAt(f, b).inss != []
  {
  }

  lemma NextIsAWay(f: Fn, b: BblId, target: BblId, other: BblId, t: BblId)
    requires TwoWays(f, b, target, other) && t in BblAt(f, b).edgeOut
    ensures t == target || t == other
  {
  }

  // ---------------------------------------------------------------- runs

  /** Run in a row, every block does what it did, perhaps arriving over an inserted block. */
  ghost predicate Linearized(f: Fn, g: Fn) {
    && First(g) == First(f) && f.blocks <= g.blocks
    && (forall b :: b in g.blocks ==> Placed(f, g, b, After(g.order, b)))
  }

  /** How many of the first n visits of the run in a row are to blocks that f had. */
  function OldBefore(m: Machine, f: Fn, g: Fn, s0: State, n: nat): nat {
    if n == 0 then 0 else OldBefore(m, f, g, s0, n - 1) + if Shown(f, LinearRun(m, g, s0, n - 1)) then 1 else 0
  }

  ghost predicate LinearShows(m: Machine, f: Fn, g: Fn, s0: State, k: nat) {
    exists n: nat :: Shown(f, LinearRun(m, g, s0, n)) && OldBefore(m, f, g, s0, n) == k
  }

  /** Leaving out the visits to inserted blocks, running g in a row is following the edges of f;
      nothing of that run is missing. */
  ghost predicate LinearIsEdgeRun(f: Fn, g: Fn) {
    forall m: Machine, s0: State :: LinearOnRun(m, f, g, s0)
  }

  ghost predicate LinearOnRun(m: Machine, f: Fn, g: Fn, s0: State) {
    && (forall n: nat :: Shown(f, LinearRun(m, g, s0, n)) ==> Run(m, f, s0, OldBefore(m, f, g, s0, n)) == LinearRun(m, g, s0, n))
    && (forall k: nat :: LinearShows(m, f, g, s0, k))
  }

  /** Where a visit leads: from an inserted block, on over its bra. */
  function Settles(f: Fn, g: Fn, v: Visit): Visit {
    match v
    case Done(_) => v
    case At(b, s) => if b in f.blocks then v else if BridgeTo(g, b).Some? then At(BridgeTo(g, b).value, s) else v
  }

  lemma BridgeStep(m: Machine, f: Fn, g: Fn, b: BblId, after: Option<BblId>, s: State)
    requires BridgeTo(g, b).Some?
    ensures ExecBbl(m, g, b, s) == s && ExitWith(m, g, b, after, s) == BridgeTo(g, b)
  {
    var i := BblAt(g, b).inss[0];
    BranchDoesNothing(m, InsAt(g.code, i), s);
    OneMoreIns(m, g, b, s);
    hide ExecIns, UseVals;
  }

  lemma LinearStepSettles(m: Machine, f: Fn, g: Fn, v: Visit)
    requires Linearized(f, g) && (v.At? ==> v.bbl in g.blocks)
    ensures Shown(f, v) ==> Settles(f, g, LinearStep(m, g, v)) == RunStep(m, f, v)
    ensures !Shown(f, v) ==> LinearStep(m, g, v) == Settles(f, g, v) && Shown(f, LinearStep(m, g, v))
    ensures LinearStep(m, g, v).At? ==> LinearStep(m, g, v).bbl in g.blocks
  {
    if v.At? {
      assert Placed(f, g, v.bbl, After(g.order, v.bbl));
      if v.bbl in f.blocks {
        var s' := ExecBbl(m, f, v.bbl, v.state);
        assert ExecBbl(m, g, v.bbl, v.state) == s';
        assert Arrives(f, g, ExitWith(m, g, v.bbl, After(g.order, v.bbl), s'), EdgeNext(m, f, v.bbl, s'));
      } else {
        BridgeStep(m, f, g, v.bbl, After(g.order, v.bbl), v.state);
      }
    }
    hide EdgeNext, ExecBbl, ExitWith, Realizes, BridgeTo, After;
  }

  lemma LinearUnfolds(m: Machine, f: Fn, g: Fn, s0: State, n: nat)
    ensures LinearRun(m, g, s0, n + 1) == LinearStep(m, g, LinearRun(m, g, s0, n))
    ensures OldBefore(m, f, g, s0, n + 1) == OldBefore(m, f, g, s0, n) + if Shown(f, LinearRun(m, g, s0, n)) then 1 else 0
    ensures Run(m, f, s0, n + 1) == RunStep(m, f, Run(m, f, s0, n))
  {
    hide LinearStep, Shown, RunStep;
  }

  lemma LinearStarts(m: Machine, f: Fn, g: Fn, s0: State)
    requires Linearized(f, g) && First(f) in f.blocks
    ensures Run(m, f, s0, OldBefore(m, f, g, s0, 0)) == Settles(f, g, LinearRun(m, g, s0, 0))
    ensures LinearRun(m, g, s0, 0).At? && LinearRun(m, g, s0, 0).bbl in g.blocks
  {
    hide Placed;
  }

  lemma {:induction false} LinearFollows(m: Machine, f: Fn, g: Fn, s0: State, n: nat)
    requires Linearized(f, g) && First(f) in f.blocks
    ensures Run(m, f, s0, OldBefore(m, f, g, s0, n)) == Settles(f, g, LinearRun(m, g, s0, n))
    ensures LinearRun(m, g, s0, n).At? ==> LinearRun(m, g, s0, n).bbl in g.blocks
  {
    hide *;
    if n > 0 {
      var v := LinearRun(m, g, s0, n - 1);
      LinearFollows(m, f, g, s0, n - 1);
      LinearUnfolds(m, f, g, s0, n - 1);
      LinearUnfolds(m, f, g, s0, OldBefore(m, f, g, s0, n - 1));
      LinearStepSettles(m, f, g, v);
      SettledIsShown(f, g, v);
      SettledIsShown(f, g, LinearStep(m, g, v));
    } else {
      LinearStarts(m, f, g, s0);
    }
  }

  lemma SettledIsShown(f: Fn, g: Fn, v: Visit)
    ensures Shown(f, v) ==> Settles(f, g, v) == v
  {
  }

  /** At most one inserted block stands between two old ones. */
  lemma LinearComesOut(m: Machine, f: Fn, g: Fn, s0: State, n: nat) returns (n': nat)
    requires Linearized(f, g) && First(f) in f.blocks
    ensures n <= n' <= n + 1 && Shown(f, LinearRun(m, g, s0, n')) && OldBefore(m, f, g, s0, n') == OldBefore(m, f, g, s0, n)
  {
    n' := n;
    LinearFollows(m, f, g, s0, n);
    hide *;
    if !Shown(f, LinearRun(m, g, s0, n)) {
      n' := n + 1;
      LinearStepSettles(m, f, g, LinearRun(m, g, s0, n));
      LinearUnfolds(m, f, g, s0, n);
    }
  }

  lemma {:induction false} AllLinearShow(m: Machine, f: Fn, g: Fn, s0: State, k: nat)
    requires Linearized(f, g) && First(f) in f.blocks
    ensures LinearShows(m, f, g, s0, k)
  {
    hide Linearized, LinearRun, Shown;
    if k == 0 {
      var n := LinearComesOut(m, f, g, s0, 0);
    } else {
      AllLinearShow(m, f, g, s0, k - 1);
      var n: nat :| Shown(f, LinearRun(m, g, s0, n)) && OldBefore(m, f, g, s0, n) == k - 1;
      LinearUnfolds(m, f, g, s0, n);
      var n' := LinearComesOut(m, f, g, s0, n + 1);
    }
  }

  lemma LinearRunsLikeEdges(f: Fn, g: Fn)
    requires Linearized(f, g) && First(f) in f.blocks
    ensures LinearIsEdgeRun(f, g)
  {
    hide Linearized, LinearRun, Shown, OldBefore, Run, LinearShows, First;
    forall m: Machine, s0: State ensures LinearOnRun(m, f, g, s0) {
      forall n: nat | Shown(f, LinearRun(m, g, s0, n)) ensures Run(m, f, s0, OldBefore(m, f, g, s0, n)) == LinearRun(m, g, s0, n) {
        LinearFollows(m, f, g, s0, n);
        SettledIsShown(f, g, LinearRun(m, g, s0, n));
        hide Settles;
      }
      forall k: nat ensures LinearShows(m, f, g, s0, k) { AllLinearShow(m, f, g, s0, k); }
    }
  }

  lemma LaidStarts(f: Fn)
    requires Source(f)
    ensures Laid(f, f, [], 0)
  {
    assert LayoutSoFar(f, [], 0) == f.order && f.order[..0] == [];
    forall x, i | x in f.blocks && i in BblAt(f, x).inss ensures OwnOrNew(f, f, x, i) {}
    hide WfEdges, WfIns;
  }

  lemma LaidEnds(f: Fn, c: Fn, out: seq<BblId>)
    requires Source(f) && Laid(f, c, out, |f.order|)
    ensures var g := c.(order := out); Linearized(f, g) && WfOrder(g)
  {
    hide Placed, WfCode, WfEdges, RestUntouched, Grown, OldOnes, After, Nxt;
    var g := c.(order := out);
    assert LayoutSoFar(f, out, |f.order|) == out;
    AllPlacedIn(f, c, out);
    BlocksGrow(f, c);
  }

  lemma AllPlacedIn(f: Fn, c: Fn, out: seq<BblId>)
    requires Distinct(out) && (forall x :: x in out <==> x in c.blocks) && AllPlaced(f, c, out, out)
    ensures var g := c.(order := out); forall b :: b in g.blocks ==> Placed(f, g, b, After(g.order, b))
  {
    hide Placed, After;
    var g := c.(order := out);
    forall b | b in g.blocks ensures Placed(f, g, b, After(g.order, b)) {
      var i :| 0 <= i < |out| && out[i] == b;
      AfterAt(out, i);
      assert Placed(f, c, out[i], Nxt(out, i));
      SamePlaced(f, c, g, b, Nxt(out, i));
    }
  }

  lemma SameArrival(m: Machine, f: Fn, c: Fn, g: Fn, b: BblId, after: Option<BblId>, s: State)
    requires g == c.(order := g.order)
    ensures ExecBbl(m, g, b, s) == ExecBbl(m, c, b, s)
    ensures Arrives(f, c, ExitWith(m, c, b, after, s), EdgeNext(m, f, b, s)) ==> Arrives(f, g, ExitWith(m, g, b, after, s), EdgeNext(m, f, b, s))
  {
    assert LastIns(g, b) == LastIns(c, b) && BblAt(g, b) == BblAt(c, b);
    SameExit(m, c, g, b, after, s);
    assert forall x :: BridgeTo(g, x) == BridgeTo(c, x) by { assert forall x :: BblAt(g, x) == BblAt(c, x); }
    hide ExecIds, ExitWith, EdgeNext, LastIns, BridgeTo;
  }

  lemma SamePlaced(f: Fn, c: Fn, g: Fn, b: BblId, after: Option<BblId>)
    requires g == c.(order := g.order) && Placed(f, c, b, after)
    ensures Placed(f, g, b, after)
  {
    if b in f.blocks { SameRealizes(f, c, g, b, after); }
    SameShape(f, c, g, b, after);
    hide EdgesFit, Realizes, Sparing, BridgeTo;
  }

  lemma SameRealizes(f: Fn, c: Fn, g: Fn, b: BblId, after: Option<BblId>)
    requires g == c.(order := g.order) && Realizes(f, c, b, after)
    ensures Realizes(f, g, b, after)
  {
    hide ExecBbl, ExitWith, EdgeNext, Arrives;
    forall m: Machine, s: State
      ensures ExecBbl(m, g, b, s) == ExecBbl(m, f, b, s) && Arrives(f, g, ExitWith(m, g, b, after, s), EdgeNext(m, f, b, s))
    {
      assert ExecBbl(m, c, b, s) == ExecBbl(m, f, b, s) && Arrives(f, c, ExitWith(m, c, b, after, s), EdgeNext(m, f, b, s));
      SameArrival(m, f, c, g, b, after, s);
      hide Realizes;
    }
  }

  lemma SameShape(f: Fn, c: Fn, g: Fn, b: BblId, after: Option<BblId>)
    requires g == c.(order := g.order)
    ensures EdgesFit(c, b, after) ==> EdgesFit(g, b, after)
    ensures Sparing(f, c, b, after) ==> Sparing(f, g, b, after)
    ensures BridgeTo(g, b) == BridgeTo(c, b) && g.blocks == c.blocks
  {
    assert LastIns(g, b) == LastIns(c, b) && BblAt(g, b) == BblAt(c, b);
    hide LastIns, After, BblAt;
  }

  /** Afterwards the blocks can be run one after the other. It fails exactly when the last block of
      the layout would have to fall through, for example because its loop closing bra was removed. */
  method FunAddUnconditionalBranches(fun: Fun) returns (ok: bool)
    requires Source(fun.View())
    modifies fun`order, fun`blocks, fun`bbls, fun`code, fun`jtbs
    ensures ok <==> !HasFallthrough(LastIns(old(fun.View()), old(fun.order)[|old(fun.order)| - 1]).opcode)
    ensures ok ==> LinearIsEdgeRun(old(fun.View()), fun.View()) && WfOrder(fun.View())
    ensures ok ==> Source(fun.View()) && EdgesAreLayout(fun.View()) && OldOnes(fun.order, old(fun.blocks)) == old(fun.order)
    ensures ok ==> forall b :: b in old(fun.blocks) ==> Sparing(old(fun.View()), fun.View(), b, After(fun.order, b))
    ensures ok && MutualCount(old(fun.View())) ==> MutualCount(fun.View()) && Liveness.MutualEdges(fun.View())
  {
    hide StaysWf, EdgesAreLayout, Sparing, After, MutualCount, Liveness.MutualEdges, OldOnes, WfLayout, WfCode, WfEdges;
    hide Source, Laid, LastIns, HasFallthrough, LinearIsEdgeRun, WfOrder, First;
    ghost var f := fun.View();
    SourceParts(f);
    LaidStarts(f);
    var out: seq<BblId> := [];
    ok, out := AddBranches(fun, f);
    if ok {
      LaidDone(f, fun.View(), out);
      LaidResult(f, fun.View(), out);
      ghost var g := fun.View().(order := out);
      fun.order := out;
      assert fun.View() == g;
    }
  }

  method AddBranches(fun: Fun, ghost f: Fn) returns (ok: bool, out: seq<BblId>)
    requires Source(f) && f.order != [] && fun.order == f.order && Laid(f, fun.View(), [], 0)
    modifies fun`blocks, fun`bbls, fun`code, fun`jtbs
    ensures ok <==> !HasFallthrough(LastIns(f, f.order[|f.order| - 1]).opcode)
    ensures ok ==> Laid(f, fun.View(), out, |f.order|) && StaysWf(old(fun.View()), fun.View())
  {
    hide Source, Laid, LastIns, HasFallthrough, StaysWf;
    StaysItself(fun.View());
    out := [];
    var n := 0;
    while n < |fun.order|
      invariant n <= |f.order| && Laid(f, fun.View(), out, n) && StaysWf(old(fun.View()), fun.View())
      invariant n == |f.order| ==> !FallsOffEnd(f, n - 1)
    {
      ghost var c := fun.View();
      ok, out := AddBranch(fun, n, out, f);
      if !ok { return; }
      StaysOn(old(fun.View()), c, fun.View());
      n := n + 1;
    }
    ok := true;
  }

  /** Following the edges of g is running its blocks one after the other. */
  ghost predicate EdgesAreLayout(g: Fn) {
    forall m: Machine, s0: State, n: nat :: Run(m, g, s0, n) == LinearRun(m, g, s0, n)
  }

  lemma FitsNext(m: Machine, c: Fn, x: BblId, after: Option<BblId>, s: State)
    requires EdgesFit(c, x, after)
    ensures ExitWith(m, c, x, after, s) == EdgeNext(m, c, x, s)
  {
    hide UseVals, Holds, TabLookup, BblAt, LastIns;
  }

  /** Every block of g fits its place in the layout. */
  ghost predicate AllFit(g: Fn) { forall b :: b in g.blocks ==> EdgesFit(g, b, After(g.order, b)) }

  lemma FitStep(m: Machine, g: Fn, v: Visit)
    requires AllFit(g) && (v.At? ==> v.bbl in g.blocks)
    ensures LinearStep(m, g, v) == RunStep(m, g, v)
  {
    hide EdgesFit, ExitWith, EdgeNext, ExecBbl, After;
    if v.At? {
      assert EdgesFit(g, v.bbl, After(g.order, v.bbl));
      FitsNext(m, g, v.bbl, After(g.order, v.bbl), ExecBbl(m, g, v.bbl, v.state));
    }
  }

  lemma {:induction false} FitRuns(m: Machine, g: Fn, s0: State, n: nat)
    requires Source(g) && AllFit(g)
    ensures Run(m, g, s0, n) == LinearRun(m, g, s0, n)
  {
    hide Source, AllFit, LinearStep, RunStep;
    if n > 0 {
      FitRuns(m, g, s0, n - 1);
      SourceStays(m, g, s0, n - 1);
      FitStep(m, g, Run(m, g, s0, n - 1));
    }
  }

  lemma SourceStays(m: Machine, g: Fn, s0: State, n: nat)
    requires Source(g)
    ensures var v := Run(m, g, s0, n); v.At? ==> v.bbl in g.blocks
  {
    RunStaysInside(m, g, s0, n);
    hide WfCode, Run;
  }

  lemma AllFitIsSource(f: Fn, g: Fn)
    requires AllFit(g) && WfOrder(g) && WfCode(g) && (forall x :: x in g.blocks ==> x.no < |g.bbls|)
    ensures Source(g)
  {
    assert forall b :: b in g.blocks ==> EdgesFit(g, b, After(g.order, b));
    assert g.order[0] in g.order;
    hide WfCode, WfEdges, After, BblAt, LastIns;
  }

  lemma LinearizedParts(f: Fn, g: Fn)
    requires Linearized(f, g)
    ensures AllFit(g) && f.blocks <= g.blocks && forall b :: b in f.blocks ==> Sparing(f, g, b, After(g.order, b))
  {
    hide EdgesFit, Sparing, Realizes, BridgeTo, After;
    forall b | b in g.blocks ensures EdgesFit(g, b, After(g.order, b)) && (b in f.blocks ==> Sparing(f, g, b, After(g.order, b))) {
      assert Placed(f, g, b, After(g.order, b));
    }
  }

  lemma MutualBothWays(g: Fn)
    requires MutualCount(g) && WfLayout(g)
    ensures Liveness.MutualEdges(g)
  {
    forall b, p | b in g.blocks ensures p in BblAt(g, b).edgeIn <==> p in g.blocks && b in BblAt(g, p).edgeOut {
      CountOutIff(g, p, b);
      assert BblAt(g, b).edgeIn[p] == if p in g.blocks then CountOut(g, p, b) else 0;
    }
    hide BblAt, CountOut;
  }

  /** What the laid out function is like, besides how it runs. */
  lemma LaidResult(f: Fn, c: Fn, out: seq<BblId>)
    requires Source(f) && Laid(f, c, out, |f.order|) && StaysWf(f, c)
    ensures var g := c.(order := out);
      && Source(g) && EdgesAreLayout(g) && OldOnes(out, f.blocks) == f.order
      && (forall b :: b in f.blocks ==> Sparing(f, g, b, After(g.order, b)))
      && (MutualCount(f) ==> MutualCount(g) && Liveness.MutualEdges(g))
  {
    var g := c.(order := out);
    LaidEnds(f, c, out);
    LinearizedParts(f, g);
    SourceParts(f);
    LaidParts(f, c, out, |f.order|);
    BlocksGrow(f, c);
    assert f.order[..|f.order|] == f.order;
    SameButOrder(f, c, g);
    hide *;
    AllFitIsSource(f, g);
    SourceParts(g);
    RunsAreLayout(g);
    if MutualCount(g) { MutualBothWays(g); }
  }

  lemma RunsAreLayout(g: Fn)
    requires Source(g) && AllFit(g)
    ensures EdgesAreLayout(g)
  {
    hide Source, AllFit, Run, LinearRun;
    forall m: Machine, s0: State, n: nat ensures Run(m, g, s0, n) == LinearRun(m, g, s0, n) { FitRuns(m, g, s0, n); }
  }

  lemma SameButOrder(f: Fn, c: Fn, g: Fn)
    requires g == c.(order := g.order) && StaysWf(f, c) && WfCode(f)
    ensures WfCode(g) && g.blocks == c.blocks && g.bbls == c.bbls && (MutualCount(f) ==> MutualCount(g))
  {
    assert forall x :: BblAt(g, x) == BblAt(c, x);
    SameEdgesStay(c, g);
    hide WfIns, MutualCount, BblAt;
  }

  lemma LaidDone(f: Fn, c: Fn, out: seq<BblId>)
    requires Source(f) && First(f) in f.blocks && Laid(f, c, out, |f.order|)
    ensures LinearIsEdgeRun(f, c.(order := out)) && WfOrder(c.(order := out))
  {
    hide *;
    LaidEnds(f, c, out);
    LinearRunsLikeEdges(f, c.(order := out));
  }

  lemma SourceParts(f: Fn)
    requires Source(f)
    ensures f.order != [] && First(f) in f.blocks && WfLayout(f) && WfOrder(f) && WfCode(f)
  {
    hide WfCode, WfEdges;
  }

  /** A loop at the end of the layout: r0 := alu(r0), over and over. */
  const SPIN: Fn := Fn([BblNo(0)], {BblNo(0)}, [Bbl([0, 1], [BblNo(0)], multiset{BblNo(0)})], [],
                       [Ins(Alu(0), [RegOp(RegNo(0)), RegOp(RegNo(0))], [None, None]), BraIns(BblNo(0))])

  /** Without its bra the loop falls through at the end of the layout, though it is a function as the
      passes over edges want it. So laying it out again fails. */
  lemma LoopAtEndFails()
    ensures Source(SPIN) && BrasGone(SPIN, SPIN.(bbls := [WithoutBra(SPIN, BblNo(0))]), SPIN.blocks)
    ensures var g := SPIN.(bbls := [WithoutBra(SPIN, BblNo(0))]); Source(g) && FallsOffEnd(g, 0)
  {
    var g := SPIN.(bbls := [WithoutBra(SPIN, BblNo(0))]);
    assert SPIN.bbls[0].inss[..1] == [0];
    assert BblAt(SPIN, BblNo(0)) == SPIN.bbls[0] && BblAt(g, BblNo(0)) == Bbl([0], [BblNo(0)], multiset{BblNo(0)});
    SpinIsSource(SPIN);
    SpinIsSource(g);
    hide Source;
    forall b ensures BblAt(g, b) == if b in SPIN.blocks then WithoutBra(SPIN, b) else BblAt(SPIN, b) {
      if b.no == 0 { assert b == BblNo(0); }
    }
  }

  lemma SpinIsSource(f: Fn)
    requires f == SPIN.(bbls := f.bbls) && |f.bbls| == 1 && f.bbls[0] == Bbl(f.bbls[0].inss, [BblNo(0)], multiset{BblNo(0)})
    requires f.bbls[0].inss == [0] || f.bbls[0].inss == [0, 1]
    ensures Source(f)
  {
    assert forall i :: 0 <= i < |f.code| ==> WfIns(f.code[i]);
    assert LastIns(f, BblNo(0)) == f.code[if f.bbls[0].inss == [0] then 0 else 1];
    assert forall b :: b in f.order <==> b == BblNo(0);
    hide WfIns;
  }
}
