/** Finding the edges of a function that was laid out in a row. Following them then does what running
    the blocks one after the other did, and they are what the passes over the graph ask for. */
module InitCfg {
  import opened IR
  import opened Cfg
  import opened Linear

  predicate Falls(f: Fn, b: BblId) { HasFallthrough(LastIns(f, b).opcode) }

  /** The edges the last instruction names. */
  function OwnEdges(f: Fn, b: BblId): seq<BblId> {
    var last := LastIns(f, b);
    match last.opcode
    case Bra => [TargetOf(OperandAt(last, 0))]
    case CondBra(_) => [TargetOf(OperandAt(last, 2))]
    case Switch => if OperandAt(last, 1).JtbOp? && OperandAt(last, 1).jtb < |f.jtbs| then JtbTargets(f.jtbs[OperandAt(last, 1).jtb]) else []
    case _ => []
  }

  function WithNext(after: Option<BblId>): seq<BblId> {
    match after case None => [] case Some(t) => [t]
  }

  /** And the way to the block below. */
  function AllEdges(f: Fn, b: BblId, after: Option<BblId>): seq<BblId> {
    OwnEdges(f, b) + if Falls(f, b) then WithNext(after) else []
  }

  ghost predicate InBlocks(ts: seq<BblId>, blocks: set<BblId>) { forall t :: t in ts ==> t in blocks }

  /** A function without edges whose branches and jump tables name its own blocks. */
  ghost predicate Unlinked(f: Fn) {
    && WfOrder(f) && WfCode(f)
    && (forall b :: b in f.blocks ==> b.no < |f.bbls| && BblAt(f, b).edgeOut == [] && BblAt(f, b).edgeIn == multiset{})
    && (forall b :: b in f.blocks ==> InBlocks(OwnEdges(f, b), f.blocks))
    && (forall b :: b in f.blocks && LastIns(f, b).opcode.Switch? ==> OperandAt(LastIns(f, b), 1).jtb < |f.jtbs|)
  }

  /** Block j has the edges its last instruction names if j < n, and the way to the block below if j < m. */
  ghost predicate BlockLinked(f: Fn, c: Fn, n: nat, m: nat, j: nat)
    requires j < |f.order|
  {
    BblAt(c, f.order[j]).edgeOut ==
    (if j < n then OwnEdges(f, f.order[j]) else []) + if j < m && j + 1 < |f.order| && Falls(f, f.order[j]) then [f.order[j + 1]] else []
  }

  ghost predicate Linked(f: Fn, c: Fn, n: nat, m: nat) {
    && c == f.(bbls := c.bbls) && |c.bbls| == |f.bbls| && MutualCount(c)
    && (forall b :: BblAt(c, b).inss == BblAt(f, b).inss)
    && (forall j: nat :: j < |f.order| ==> BlockLinked(f, c, n, m, j))
  }

  // ---------------------------------------------------------------- the code

  method AddEdgeOut(fun: Fun, b: BblId, succ: BblId)
    requires b.no < |fun.bbls| && succ.no < |fun.bbls|
    modifies fun`bbls
    ensures |fun.bbls| == |old(fun.bbls)|
    ensures EdgeAdded(old(fun.View()), fun.View(), b, succ)
  {
    fun.bbls := fun.bbls[succ.no := fun.bbls[succ.no].(edgeIn := fun.bbls[succ.no].edgeIn + multiset{b})];
    fun.bbls := fun.bbls[b.no := fun.bbls[b.no].(edgeOut := fun.bbls[b.no].edgeOut + [succ])];
  }

  ghost predicate EdgeAdded(c: Fn, d: Fn, b: BblId, succ: BblId) {
    && d == c.(bbls := d.bbls) && |d.bbls| == |c.bbls|
    && (forall x :: BblAt(d, x).inss == BblAt(c, x).inss)
    && (forall x :: BblAt(d, x).edgeOut == BblAt(c, x).edgeOut + if x == b then [succ] else [])
    && (forall x, p :: BblAt(d, x).edgeIn[p] == BblAt(c, x).edgeIn[p] + if x == succ && p == b then 1 else 0)
  }

  lemma CountAppend(xs: seq<BblId>, t: BblId, x: BblId)
    ensures Count(xs + [t], x, |xs| + 1) == Count(xs, x, |xs|) + if x == t then 1 else 0
  {
    CountIsMultiplicity(xs, x, |xs|);
    CountIsMultiplicity(xs + [t], x, |xs| + 1);
    assert (xs + [t])[..|xs| + 1] == xs + [t] && xs[..|xs|] == xs;
  }

  lemma CountsStay(c: Fn, d: Fn, b: BblId, succ: BblId)
    requires MutualCount(c) && EdgeAdded(c, d, b, succ) && b in c.blocks && succ in c.blocks
    ensures MutualCount(d)
  {
    forall x, s | s in d.blocks ensures BblAt(d, s).edgeIn[x] == if x in d.blocks then CountOut(d, x, s) else 0 {
      var e := BblAt(c, x).edgeOut;
      assert BblAt(c, s).edgeIn[x] == if x in c.blocks then CountOut(c, x, s) else 0;
      CountAppend(e, succ, s);
      assert BblAt(d, x).edgeOut == if x == b then e + [succ] else e;
      hide BblAt, Count;
    }
  }

  /** b has further edges to ts, and everything else but predecessor lists is the same. */
  ghost predicate OutGrown(c: Fn, d: Fn, b: BblId, ts: seq<BblId>) {
    && d == c.(bbls := d.bbls) && |d.bbls| == |c.bbls| && MutualCount(d)
    && (forall x :: BblAt(d, x).inss == BblAt(c, x).inss)
    && (forall x :: BblAt(d, x).edgeOut == if x == b then BblAt(c, x).edgeOut + ts else BblAt(c, x).edgeOut)
  }

  lemma GrowsByOne(c: Fn, d: Fn, d': Fn, b: BblId, ts: seq<BblId>, t: BblId)
    requires OutGrown(c, d, b, ts) && EdgeAdded(d, d', b, t) && b in c.blocks && t in c.blocks
    ensures OutGrown(c, d', b, ts + [t])
  {
    CountsStay(d, d', b, t);
    hide MutualCount;
    forall x ensures BblAt(d', x).edgeOut == if x == b then BblAt(c, x).edgeOut + (ts + [t]) else BblAt(c, x).edgeOut {
      hide BblAt;
      assert BblAt(c, x).edgeOut + (ts + [t]) == BblAt(c, x).edgeOut + ts + [t];
    }
  }

  lemma GrownByNone(c: Fn, b: BblId)
    requires MutualCount(c)
    ensures OutGrown(c, c, b, [])
  {
    hide MutualCount, BblAt;
  }

  method AddEdges(fun: Fun, b: BblId, ts: seq<BblId>)
    requires MutualCount(fun.View()) && b in fun.blocks && InBlocks(ts, fun.blocks)
    requires forall x :: x in fun.blocks ==> x.no < |fun.bbls|
    modifies fun`bbls
    ensures OutGrown(old(fun.View()), fun.View(), b, ts)
  {
    ghost var c := fun.View();
    GrownByNone(c, b);
    hide OutGrown, MutualCount, EdgeAdded;
    for k := 0 to |ts|
      invariant OutGrown(c, fun.View(), b, ts[..k]) && |fun.bbls| == |c.bbls|
    {
      assert ts[k] in ts;
      ghost var d := fun.View();
      AddEdgeOut(fun, b, ts[k]);
      GrowsByOne(c, d, fun.View(), b, ts[..k], ts[k]);
      assert ts[..k] + [ts[k]] == ts[..k + 1];
    }
    assert ts[..|ts|] == ts;
  }

  function WaysBelow(n: nat): nat { if n == 0 then 0 else n - 1 }

  lemma WayDown(f: Fn, c: Fn, d: Fn, n: nat)
    requires WfOrder(f) && Linked(f, c, n, WaysBelow(n)) && n < |f.order|
    requires if n > 0 && Falls(f, f.order[n - 1]) then OutGrown(c, d, f.order[n - 1], [f.order[n]]) else d == c
    ensures Linked(f, d, n, n)
  {
    hide Falls, MutualCount, BlockLinked, BblAt;
    forall j: nat | j < |f.order| ensures BlockLinked(f, d, n, n, j) {
      assert BlockLinked(f, c, n, WaysBelow(n), j);
      WayDownAt(f, c, d, n, j);
      hide *;
    }
  }

  lemma WayDownAt(f: Fn, c: Fn, d: Fn, n: nat, j: nat)
    requires WfOrder(f) && j < |f.order| && n < |f.order| && BlockLinked(f, c, n, WaysBelow(n), j)
    requires if n > 0 && Falls(f, f.order[n - 1]) then OutGrown(c, d, f.order[n - 1], [f.order[n]]) else d == c
    ensures BlockLinked(f, d, n, n, j)
  {
    assert n > 0 && j != n - 1 ==> f.order[j] != f.order[n - 1];
    hide Falls, MutualCount, OwnEdges, BblAt, WfOrder;
    var own := if j < n then OwnEdges(f, f.order[j]) else [];
    assert own + [] == own;
  }

  lemma OwnWays(f: Fn, c: Fn, d: Fn, n: nat)
    requires WfOrder(f) && Linked(f, c, n, n) && n < |f.order| && OutGrown(c, d, f.order[n], OwnEdges(f, f.order[n]))
    ensures Linked(f, d, n + 1, n)
  {
    var next := n + 1;
    hide Falls, MutualCount, BlockLinked, BblAt;
    forall j: nat | j < |f.order| ensures BlockLinked(f, d, next, n, j) {
      assert BlockLinked(f, c, n, n, j);
      OwnWaysAt(f, c, d, n, j);
      hide *;
    }
  }

  lemma OwnWaysAt(f: Fn, c: Fn, d: Fn, n: nat, j: nat)
    requires WfOrder(f) && j < |f.order| && n < |f.order| && BlockLinked(f, c, n, n, j) && OutGrown(c, d, f.order[n], OwnEdges(f, f.order[n]))
    ensures BlockLinked(f, d, n + 1, n, j)
  {
    assert j != n ==> f.order[j] != f.order[n];
    hide Falls, MutualCount, OwnEdges, BblAt, WfOrder;
  }

  lemma LinkedNone(f: Fn)
    requires Unlinked(f)
    ensures Linked(f, f, 0, 0)
  {
    forall b, s | s in f.blocks ensures BblAt(f, s).edgeIn[b] == if b in f.blocks then CountOut(f, b, s) else 0 {
      hide WfOrder, WfCode, InBlocks;
    }
    forall j: nat | j < |f.order| ensures BlockLinked(f, f, 0, 0, j) { assert f.order[j] in f.blocks; hide WfCode, InBlocks; }
    hide WfOrder, WfCode, InBlocks;
  }

  lemma AtBlock(f: Fn, c: Fn, n: nat, m: nat)
    requires Unlinked(f) && Linked(f, c, n, m) && n < |f.order|
    ensures f.order[n] in c.blocks && f.order[n].no < |c.bbls| && LastIns(c, f.order[n]) == LastIns(f, f.order[n])
    ensures InBlocks(OwnEdges(f, f.order[n]), c.blocks) && MutualCount(c) && (forall x :: x in c.blocks ==> x.no < |c.bbls|)
    ensures BblAt(c, f.order[n]).inss == BblAt(f, f.order[n]).inss && WfIns(LastIns(f, f.order[n]))
    ensures LastIns(f, f.order[n]).opcode.Switch? ==> OperandAt(LastIns(f, f.order[n]), 1).jtb < |f.jtbs|
    ensures n > 0 ==> f.order[n - 1] in c.blocks
  {
    assert WfIns(NOP_INS);
    if BblAt(f, f.order[n]).inss != [] { LastIsWf(f, f.order[n]); }
    hide MutualCount, BlockLinked, InBlocks, WfIns, OwnEdges;
  }

  /** `fall_through` */
  function Pending(f: Fn, n: nat): Option<BblId>
    requires n <= |f.order|
  {
    if n > 0 && Falls(f, f.order[n - 1]) then Some(f.order[n - 1]) else None
  }

  method LinkBlock(fun: Fun, n: nat, fallThrough0: Option<BblId>, ghost f: Fn) returns (fallThrough: Option<BblId>)
    requires Unlinked(f) && n < |f.order| && Linked(f, fun.View(), n, WaysBelow(n)) && fallThrough0 == Pending(f, n)
    modifies fun`bbls
    ensures Linked(f, fun.View(), n + 1, n) && fallThrough == Pending(f, n + 1)
  {
    fallThrough := None;
    ghost var c := fun.View();
    AtBlock(f, c, n, WaysBelow(n));
    var b := fun.order[n];
    if fallThrough0.Some? {
      GrownByNone(c, fallThrough0.value);
      AddEdgeOut(fun, fallThrough0.value, b);
      GrowsByOne(c, c, fun.View(), fallThrough0.value, [], b);
    }
    hide Unlinked, Linked, OutGrown, EdgeAdded, MutualCount, WfIns, InBlocks;
    WayDown(f, c, fun.View(), n) by { assert [] + [b] == [b]; assert WfOrder(f) by { UnlinkedOrder(f); } }
    AtBlock(f, fun.View(), n, n);
    ghost var d := fun.View();
    var last := LastIns(fun.View(), b);
    match last.opcode {
      case Ret => GrownByNone(d, b);
      case Trap => GrownByNone(d, b);
      case Bra => AddEdges(fun, b, [TargetOf(OperandAt(last, 0))]);
      case CondBra(_) =>
        AddEdges(fun, b, [TargetOf(OperandAt(last, 2))]);
        fallThrough := Some(b);
      case Switch =>
        SwitchHasTable(last);
        AddEdges(fun, b, JtbTargets(fun.jtbs[OperandAt(last, 1).jtb]));
      case _ =>
        GrownByNone(d, b);
        fallThrough := Some(b);
    }
    UnlinkedOrder(f);
    OwnWays(f, d, fun.View(), n);
  }

  lemma SwitchHasTable(ins: Ins)
    requires WfIns(ins) && ins.opcode.Switch?
    ensures OperandAt(ins, 1).JtbOp?
  {
  }

  lemma UnlinkedOrder(f: Fn)
    requires Unlinked(f)
    ensures WfOrder(f)
  {
    hide WfOrder, WfCode, InBlocks;
  }

  /** The edges from the layout, for a function g that differs from f in nothing else. */
  ghost predicate FullyLinked(f: Fn, g: Fn) {
    && g == f.(bbls := g.bbls) && |g.bbls| == |f.bbls| && MutualCount(g)
    && (forall b :: BblAt(g, b).inss == BblAt(f, b).inss)
    && (forall b :: b in f.order ==> BblAt(g, b).edgeOut == AllEdges(f, b, After(f.order, b)))
  }

  lemma LinkedFully(f: Fn, c: Fn)
    requires WfOrder(f) && Linked(f, c, |f.order|, |f.order| - 1)
    ensures FullyLinked(f, c)
  {
    forall b | b in f.order ensures BblAt(c, b).edgeOut == AllEdges(f, b, After(f.order, b)) {
      var j: nat :| j < |f.order| && f.order[j] == b;
      assert BlockLinked(f, c, |f.order|, |f.order| - 1, j);
      AfterAt(f.order, j);
      hide Falls, OwnEdges, MutualCount, After;
    }
    hide MutualCount, AllEdges, After, BlockLinked;
  }

  function LastOf(f: Fn): BblId { if f.order == [] then BblNo(0) else f.order[|f.order| - 1] }

  /** An empty block at the end that control would run out of is dropped. */
  function WithoutLast(g: Fn): Fn
    requires g.order != []
  {
    g.(order := g.order[..|g.order| - 1], blocks := g.blocks - {LastOf(g)})
  }

  /** Fails exactly if control can run off the end of a block that is not empty. */
  method FunInitCFG(fun: Fun) returns (ok: bool)
    requires Unlinked(fun.View())
    modifies fun`bbls, fun`order, fun`blocks
    ensures ok <==> !Falls(old(fun.View()), LastOf(old(fun.View()))) || BblAt(old(fun.View()), LastOf(old(fun.View()))).inss == []
    ensures ok ==> exists g :: FullyLinked(old(fun.View()), g) && fun.View() == Trimmed(old(fun.View()), g)
  {
    ghost var f := fun.View();
    var fallThrough: Option<BblId> := None;
    LinkedNone(f);
    UnlinkedOrder(f);
    ghost var pending := 0;
    for n := 0 to |fun.order|
      invariant fun.View() == f.(bbls := fun.bbls) && Linked(f, fun.View(), n, pending) && fallThrough == Pending(f, n)
      invariant pending == WaysBelow(n)
    {
      hide Unlinked, Linked, Falls;
      fallThrough := LinkBlock(fun, n, fallThrough, f);
      LinkedFrame(f, fun.View(), n + 1, n);
      pending := n;
    }
    hide Unlinked, Falls;
    LinkedFully(f, fun.View());
    ghost var g := fun.View();
    TrimmedIs(f, g);
    ok := true;
    if fallThrough.Some? {
      var last := fun.order[|fun.order| - 1];
      EmptyFalls(f, last);
      if BblAt(fun.View(), last).inss != [] { return false; }
      fun.order := fun.order[..|fun.order| - 1];
      fun.blocks := fun.blocks - {last};
    }
    hide Linked, FullyLinked;
    assert FullyLinked(f, g);
  }

  function Trimmed(f: Fn, g: Fn): Fn { if Falls(f, LastOf(f)) && g.order != [] then WithoutLast(g) else g }

  lemma TrimmedIs(f: Fn, g: Fn)
    requires g.order == f.order
    ensures Trimmed(f, g) == if Falls(f, LastOf(f)) && g.order != [] then WithoutLast(g) else g
  {
    hide Falls;
  }

  lemma EmptyFalls(f: Fn, b: BblId)
    ensures BblAt(f, b).inss == [] ==> Falls(f, b)
  {
  }

  lemma LinkedFrame(f: Fn, c: Fn, n: nat, m: nat)
    requires Linked(f, c, n, m)
    ensures c == f.(bbls := c.bbls)
  {
    hide MutualCount, BlockLinked;
  }

  // ---------------------------------------------------------------- the edges mean what the layout meant

  lemma SameExits(m: Machine, f: Fn, g: Fn, b: BblId, s: State)
    requires Unlinked(f) && FullyLinked(f, g) && b in f.blocks
    ensures ExecBbl(m, g, b, s) == ExecBbl(m, f, b, s)
    ensures var s' := ExecBbl(m, f, b, s); EdgeNext(m, g, b, s') == ExitWith(m, f, b, After(f.order, b), s')
  {
    hide ExecIds, After, MutualCount, EdgeNext, ExitWith, AllEdges, WfCode, InBlocks;
    assert b in f.order;
    assert LastIns(g, b) == LastIns(f, b);
    ExitByEdges(m, f, g, b, After(f.order, b), ExecBbl(m, f, b, s));
  }

  lemma ExitByEdges(m: Machine, f: Fn, g: Fn, b: BblId, after: Option<BblId>, s: State)
    requires LastIns(g, b) == LastIns(f, b) && g.jtbs == f.jtbs && BblAt(g, b).edgeOut == AllEdges(f, b, after)
    ensures EdgeNext(m, g, b, s) == ExitWith(m, f, b, after, s)
  {
    hide UseVals, LastIns, BblAt;
    match LastIns(f, b).opcode {
      case CondBra(_) => assert AllEdges(f, b, after)[0] == TargetOf(OperandAt(LastIns(f, b), 2));
      case Switch =>
      case Bra =>
      case Ret =>
      case Trap =>
      case _ => assert AllEdges(f, b, after) == WithNext(after);
    }
    hide OperandAt;
  }

  lemma ExitInside(m: Machine, f: Fn, b: BblId, s: State)
    requires Unlinked(f) && b in f.blocks
    ensures var t := ExitWith(m, f, b, After(f.order, b), s); t.Some? ==> t.value in f.blocks
  {
    var last := LastIns(f, b);
    assert InBlocks(OwnEdges(f, b), f.blocks);
    AfterInside(f, b);
    WfLast(f, b);
    if last.opcode.Switch? {
      SwitchHasTable(last);
      var j := f.jtbs[OperandAt(last, 1).jtb];
      var index := Nth(UseVals(m, last, s.regs), 0);
      var t := TabLookup(j.tab, index, j.defBbl);
      assert t in JtbTargets(j) by {
        if t == j.defBbl { assert JtbTargets(j)[0] == t; } else { var i :| 0 <= i < |j.tab| && j.tab[i].bbl == t; assert JtbTargets(j)[i + 1] == t; }
      }
    }
    hide UseVals, After, WfCode, LastIns, WfIns;
  }

  lemma AfterInside(f: Fn, b: BblId)
    requires Unlinked(f)
    ensures After(f.order, b).Some? ==> After(f.order, b).value in f.blocks
  {
    hide WfCode, InBlocks, IndexIn;
  }

  lemma WfLast(f: Fn, b: BblId)
    requires Unlinked(f) && b in f.blocks
    ensures WfIns(LastIns(f, b))
  {
    assert WfIns(NOP_INS);
    if BblAt(f, b).inss != [] { LastIsWf(f, b); }
    hide InBlocks, WfOrder, WfIns, UniqueIds;
  }

  /** Following the edges is running the blocks in a row. */
  lemma {:induction false} EdgesRunLikeLayout(m: Machine, f: Fn, g: Fn, s0: State, n: nat)
    requires Unlinked(f) && FullyLinked(f, g)
    ensures Run(m, g, s0, n) == LinearRun(m, f, s0, n)
    ensures Run(m, g, s0, n).At? ==> Run(m, g, s0, n).bbl in f.blocks
  {
    hide ExecBbl, EdgeNext, ExitWith, FullyLinked, After;
    if n > 0 {
      EdgesRunLikeLayout(m, f, g, s0, n - 1);
      var v := LinearRun(m, f, s0, n - 1);
      hide Unlinked;
      if v.At? {
        SameExits(m, f, g, v.bbl, v.state);
        ExitInside(m, f, v.bbl, ExecBbl(m, f, v.bbl, v.state));
      }
    } else {
      FirstIsBlock(f, g);
      hide Unlinked;
    }
  }

  lemma FirstIsBlock(f: Fn, g: Fn)
    requires Unlinked(f) && FullyLinked(f, g)
    ensures First(g) == First(f) && First(f) in f.blocks
  {
    hide WfCode, InBlocks, MutualCount, AllEdges;
  }

  /** A block that control cannot fall out of at the end of the row has the edges it should. */
  lemma EdgesFit(f: Fn, g: Fn, b: BblId)
    requires Unlinked(f) && FullyLinked(f, g) && b in f.blocks && (Falls(f, b) ==> After(f.order, b).Some?)
    ensures WfEdges(g, b)
  {
    WfLast(f, b);
    assert b in f.order;
    assert LastIns(g, b) == LastIns(f, b) && BblAt(g, b).edgeOut == AllEdges(f, b, After(f.order, b));
    EdgesFitShape(f, g, b, After(f.order, b)) by { hide After, MutualCount, WfIns, InBlocks, LastIns; }
    hide *;
  }

  lemma EdgesFitShape(f: Fn, g: Fn, b: BblId, after: Option<BblId>)
    requires LastIns(g, b) == LastIns(f, b) && g.jtbs == f.jtbs && BblAt(g, b).edgeOut == AllEdges(f, b, after) && WfIns(LastIns(f, b))
    requires (Falls(f, b) ==> after.Some?) && (LastIns(f, b).opcode.Switch? ==> OperandAt(LastIns(f, b), 1).jtb < |f.jtbs|)
    ensures WfEdges(g, b)
  {
    hide LastIns, BblAt;
    match LastIns(f, b).opcode {
      case CondBra(_) =>
        assert BblAt(g, b).edgeOut[0] == LastIns(f, b).operands[2].bbl;
      case Switch => assert BblAt(g, b).edgeOut == JtbTargets(f.jtbs[LastIns(f, b).operands[1].jtb]);
      case Bra => assert BblAt(g, b).edgeOut[0] == LastIns(f, b).operands[0].bbl;
      case Ret =>
      case Trap =>
      case _ => assert BblAt(g, b).edgeOut == WithNext(after);
    }
  }

  lemma EdgesInside(f: Fn, g: Fn, b: BblId)
    requires Unlinked(f) && FullyLinked(f, g) && b in f.blocks
    ensures InBlocks(BblAt(g, b).edgeOut, f.blocks)
  {
    assert b in f.order;
    AfterInside(f, b);
    hide After, OwnEdges, MutualCount, WfCode, Falls;
  }

  lemma SameCode(f: Fn, g: Fn)
    requires Unlinked(f) && FullyLinked(f, g)
    ensures WfCode(g) && WfOrder(g)
  {
    assert forall b :: BblAt(g, b).inss == BblAt(f, b).inss;
    hide WfIns, MutualCount, InBlocks, BblAt, AllEdges;
  }

  lemma WholeGraph(f: Fn, g: Fn)
    requires Unlinked(f) && FullyLinked(f, g) && !Falls(f, LastOf(f))
    ensures Graph(g)
  {
    hide MutualCount, WfEdges, WfCode, InBlocks, BblAt, Falls;
    SameCode(f, g);
    forall b | b in f.blocks ensures WfEdges(g, b) && InBlocks(BblAt(g, b).edgeOut, f.blocks) {
      assert b in f.order;
      OnlyLastEnds(f, b);
      EdgesFit(f, g, b);
      EdgesInside(f, g, b);
      hide Unlinked, FullyLinked;
    }
    FirstIsBlock(f, g);
    assert WfLayout(g) by { LaidInside(f, g); }
  }

  lemma OnlyLastEnds(f: Fn, b: BblId)
    requires WfOrder(f) && b in f.order
    ensures After(f.order, b) == None <==> b == LastOf(f)
  {
    var j: nat :| j < |f.order| && f.order[j] == b;
    AfterAt(f.order, j);
    hide After;
  }

  lemma LaidInside(f: Fn, g: Fn)
    requires Unlinked(f) && FullyLinked(f, g) && First(g) in f.blocks && forall b :: b in f.blocks ==> InBlocks(BblAt(g, b).edgeOut, f.blocks)
    ensures WfLayout(g)
  {
    hide MutualCount, AllEdges, WfCode, WfOrder, BblAt;
  }

  ghost predicate NothingLeadsTo(f: Fn, g: Fn, x: BblId) { forall b :: b in f.blocks ==> x !in BblAt(g, b).edgeOut }

  lemma LastHasNoEdges(f: Fn, g: Fn)
    requires Unlinked(f) && FullyLinked(f, g) && BblAt(f, LastOf(f)).inss == []
    ensures BblAt(g, LastOf(f)).edgeOut == [] && LastOf(f) in f.blocks
  {
    UnlinkedOrder(f);
    LastInOrder(f);
    OnlyLastEnds(f, LastOf(f));
    EmptyHasNone(f, LastOf(f));
    hide MutualCount, Unlinked, After, AllEdges, BblAt, LastOf, WfOrder;
  }

  lemma LastInOrder(f: Fn)
    requires WfOrder(f)
    ensures LastOf(f) in f.order && LastOf(f) in f.blocks
  {
  }

  lemma EmptyHasNone(f: Fn, b: BblId)
    requires BblAt(f, b).inss == []
    ensures AllEdges(f, b, None) == []
  {
    hide BblAt;
  }

  lemma TrimmedMutual(f: Fn, g: Fn, h: Fn, last: BblId)
    requires MutualCount(g) && g.blocks == f.blocks && h == g.(order := h.order, blocks := g.blocks - {last}) && BblAt(g, last).edgeOut == []
    ensures MutualCount(h)
  {
    forall b, s | s in h.blocks ensures BblAt(h, s).edgeIn[b] == if b in h.blocks then CountOut(h, b, s) else 0 {
      assert BblAt(g, s).edgeIn[b] == if b in g.blocks then CountOut(g, b, s) else 0;
      assert BblAt(h, s) == BblAt(g, s) && BblAt(h, b) == BblAt(g, b);
      hide BblAt, MutualCount;
    }
  }

  lemma TrimmedCode(g: Fn, h: Fn)
    requires WfCode(g) && h == g.(order := h.order, blocks := h.blocks) && h.blocks <= g.blocks
    ensures WfCode(h)
  {
    assert forall b :: BblAt(h, b) == BblAt(g, b);
    hide WfIns, BblAt;
  }

  lemma TrimmedGraph(f: Fn, g: Fn)
    requires Unlinked(f) && FullyLinked(f, g) && BblAt(f, LastOf(f)).inss == []
    ensures f.order != []
    ensures Graph(WithoutLast(g)) <==> f.order[0] != LastOf(f) && NothingLeadsTo(f, g, LastOf(f))
  {
    UnlinkedOrder(f);
    var last := LastOf(f);
    assert f.order != [] by { hide *; OrderNotEmpty(f); }
    LastHasNoEdges(f, g);
    hide Unlinked, FullyLinked, Graph, NothingLeadsTo, WithoutLast;
    if f.order[0] != last && NothingLeadsTo(f, g, last) { TrimmedIsGraph(f, g); }
    if Graph(WithoutLast(g)) { GraphNeeds(f, g); }
  }

  lemma OrderNotEmpty(f: Fn)
    requires WfOrder(f)
    ensures f.order != []
  {
  }

  lemma TrimmedIsGraph(f: Fn, g: Fn)
    requires Unlinked(f) && FullyLinked(f, g) && BblAt(f, LastOf(f)).inss == []
    requires f.order != [] && f.order[0] != LastOf(f) && NothingLeadsTo(f, g, LastOf(f))
    ensures Graph(WithoutLast(g))
  {
    hide *;
    var last := LastOf(f);
    WithoutLastIs(f, g);
    var h := WithoutLast(g);
    LastHasNoEdges(f, g);
    SameCode(f, g);
    TrimmedCode(g, h);
    TrimmedMutual(f, g, h, last);
    forall b | b in h.blocks ensures WfEdges(h, b) && InBlocks(BblAt(h, b).edgeOut, h.blocks) { TrimmedBlock(f, g, b); }
    TrimmedLayout(f, g);
    GraphIs(h);
  }

  lemma GraphIs(h: Fn)
    requires WfLayout(h) && WfCode(h) && MutualCount(h) && forall b :: b in h.blocks ==> WfEdges(h, b)
    ensures Graph(h)
  {
    hide WfLayout, WfCode, MutualCount, WfEdges;
  }

  lemma WithoutLastIs(f: Fn, g: Fn)
    requires FullyLinked(f, g) && f.order != []
    ensures g.order == f.order && g.blocks == f.blocks && MutualCount(g)
    ensures var h := WithoutLast(g); h == g.(order := h.order, blocks := g.blocks - {LastOf(f)})
  {
    hide MutualCount, AllEdges;
  }

  lemma TrimmedBlock(f: Fn, g: Fn, b: BblId)
    requires Unlinked(f) && FullyLinked(f, g) && f.order != [] && NothingLeadsTo(f, g, LastOf(f)) && b in WithoutLast(g).blocks
    ensures var h := WithoutLast(g); WfEdges(h, b) && InBlocks(BblAt(h, b).edgeOut, h.blocks)
  {
    WithoutLastIs(f, g);
    UnlinkedOrder(f);
    assert b in f.order && LastOf(f) !in BblAt(g, b).edgeOut by { hide FullyLinked, Unlinked, BblAt; }
    hide *;
    OnlyLastEnds(f, b);
    EdgesFit(f, g, b);
    EdgesInside(f, g, b);
    TrimmedEdges(g, WithoutLast(g), b, LastOf(f));
  }

  lemma TrimmedEdges(g: Fn, h: Fn, b: BblId, last: BblId)
    requires h == g.(order := h.order, blocks := g.blocks - {last}) && WfEdges(g, b) && InBlocks(BblAt(g, b).edgeOut, g.blocks) && last !in BblAt(g, b).edgeOut
    ensures WfEdges(h, b) && InBlocks(BblAt(h, b).edgeOut, h.blocks)
  {
    assert BblAt(h, b) == BblAt(g, b) && LastIns(h, b) == LastIns(g, b);
    hide LastIns, BblAt;
  }

  lemma TrimmedLayout(f: Fn, g: Fn)
    requires Unlinked(f) && FullyLinked(f, g) && f.order != [] && f.order[0] != LastOf(f)
    requires forall b :: b in WithoutLast(g).blocks ==> InBlocks(BblAt(WithoutLast(g), b).edgeOut, WithoutLast(g).blocks)
    ensures WfLayout(WithoutLast(g))
  {
    WithoutLastIs(f, g);
    UnlinkedOrder(f);
    assert f.order[0] in f.blocks by { assert f.order[0] in f.order; hide Unlinked, FullyLinked; }
    TrimmedFirst(g);
    BlockNumbers(f);
    assert |g.bbls| == |f.bbls| by { hide Unlinked, AllEdges, MutualCount; }
    hide *;
    LayoutIs(WithoutLast(g));
  }

  lemma TrimmedFirst(g: Fn)
    requires g.order != [] && g.order[0] != LastOf(g)
    ensures First(WithoutLast(g)) == g.order[0]
  {
  }

  lemma BlockNumbers(f: Fn)
    requires Unlinked(f)
    ensures forall b :: b in f.blocks ==> b.no < |f.bbls|
  {
    hide WfOrder, WfCode, InBlocks, BblAt;
  }

  lemma LayoutIs(h: Fn)
    requires First(h) in h.blocks && (forall b :: b in h.blocks ==> b.no < |h.bbls|)
    requires forall b :: b in h.blocks ==> InBlocks(BblAt(h, b).edgeOut, h.blocks)
    ensures WfLayout(h)
  {
    hide First, BblAt;
  }

  lemma GraphNeeds(f: Fn, g: Fn)
    requires WfOrder(f) && f.order != [] && g.order == f.order && g.blocks == f.blocks && BblAt(g, LastOf(f)).edgeOut == []
    requires Graph(WithoutLast(g))
    ensures f.order[0] != LastOf(f) && NothingLeadsTo(f, g, LastOf(f))
  {
    var h, last := WithoutLast(g), LastOf(f);
    assert WfLayout(h) by { hide WfLayout, WfCode, MutualCount, WfEdges; }
    assert forall b :: BblAt(h, b) == BblAt(g, b);
    hide Graph, BblAt;
  }

  /** What passes over the graph need: edges within the function, as the last instructions ask for, known
      at both ends. The edges found here are like that exactly if control does not run off the end and
      nothing leads to a block that was dropped. */
  lemma InitMakesGraph(f: Fn, g: Fn)
    requires Unlinked(f) && FullyLinked(f, g)
    ensures !Falls(f, LastOf(f)) ==> Graph(g)
    ensures Falls(f, LastOf(f)) && BblAt(f, LastOf(f)).inss == [] ==>
              f.order != [] && (Graph(WithoutLast(g)) <==> f.order[0] != LastOf(f) && NothingLeadsTo(f, g, LastOf(f)))
  {
    hide *;
    if !Falls(f, LastOf(f)) { WholeGraph(f, g); }
    if Falls(f, LastOf(f)) && BblAt(f, LastOf(f)).inss == [] { TrimmedGraph(f, g); }
  }
}
