/** Liveness, register statistics and the separation of local registers, one after the other. The
    result is what the register allocator asks for. */
module SeparatePass {
  import opened IR
  import opened Liveness
  import opened SeparateLocals
  import opened MachineCode
  import opened LocalAlloc

  // ---------------------------------------------------------------- statistics

  /** Instruction k of the n-th block in layout order sets r. */
  ghost predicate SetsAt(f: Fn, n: nat, k: nat, r: RegId) {
    n < |f.order| && k < |Ids(f, f.order[n])| && DstOf(InsAt(f.code, Ids(f, f.order[n])[k])) == Some(r)
  }

  predicate Earlier(n: nat, k: nat, n': nat, k': nat) { n < n' || (n == n' && k < k') }

  /** It is the first one in the function that does. */
  ghost predicate FirstSets(f: Fn, n: nat, k: nat, r: RegId) {
    SetsAt(f, n, k, r) && forall n': nat, k': nat :: SetsAt(f, n', k', r) ==> !Earlier(n', k', n, k)
  }

  ghost predicate RecordedAt(f: Fn, r: RegId, i: InsId, n: nat, k: nat) {
    FirstSets(f, n, k, r) && Ids(f, f.order[n])[k] == i
  }

  ghost predicate Recorded(f: Fn, r: RegId, i: InsId) { exists n: nat, k: nat :: RecordedAt(f, r, i, n, k) }

  /** What is recorded when instruction k2 of the n2-th block is next. */
  ghost predicate FirstsBefore(f: Fn, n2: nat, k2: nat, defIns: map<RegId, InsId>) {
    && (forall r :: r in defIns ==> Recorded(f, r, defIns[r]))
    && (forall n: nat, k: nat, r :: SetsAt(f, n, k, r) && Earlier(n, k, n2, k2) ==> r in defIns)
    && (forall r :: r in defIns ==> exists n: nat, k: nat :: SetsAt(f, n, k, r) && Earlier(n, k, n2, k2))
  }

  /** Every register that is set anywhere is recorded with the first instruction that sets it. */
  ghost predicate FirstDefs(f: Fn, defIns: map<RegId, InsId>) {
    && (forall r :: r in defIns ==> Recorded(f, r, defIns[r]))
    && (forall n: nat, k: nat, r :: SetsAt(f, n, k, r) ==> r in defIns)
  }

  lemma FirstsNext(f: Fn, n: nat, k: nat, defIns: map<RegId, InsId>)
    requires FirstsBefore(f, n, k, defIns) && n < |f.order| && k < |Ids(f, f.order[n])|
    ensures var i := Ids(f, f.order[n])[k];
      FirstsBefore(f, n, k + 1, match DstOf(InsAt(f.code, i))
                                case None => defIns
                                case Some(r) => if r in defIns then defIns else defIns[r := i])
  {
    var i := Ids(f, f.order[n])[k];
    var dst := DstOf(InsAt(f.code, i));
    hide InsAt, DstOf, Recorded;
    if dst.Some? && dst.value !in defIns {
      assert SetsAt(f, n, k, dst.value);
      assert RecordedAt(f, dst.value, i, n, k);
      IsRecorded(f, dst.value, i, n, k);
    }
    forall n': nat, k': nat, r | SetsAt(f, n', k', r) && Earlier(n', k', n, k + 1) ensures r in defIns || dst == Some(r) {
      if n' == n && k' == k { assert dst == Some(r); } else { assert Earlier(n', k', n, k); }
    }
    forall r | r in defIns ensures exists n': nat, k': nat :: SetsAt(f, n', k', r) && Earlier(n', k', n, k + 1) {
      var n': nat, k': nat :| SetsAt(f, n', k', r) && Earlier(n', k', n, k);
      assert Earlier(n', k', n, k + 1);
    }
  }

  lemma IsRecorded(f: Fn, r: RegId, i: InsId, n: nat, k: nat)
    requires RecordedAt(f, r, i, n, k)
    ensures Recorded(f, r, i)
  {
    hide RecordedAt;
  }

  lemma FirstsOfBlock(f: Fn, n: nat, defIns: map<RegId, InsId>)
    requires n < |f.order| && FirstsBefore(f, n, |Ids(f, f.order[n])|, defIns)
    ensures FirstsBefore(f, n + 1, 0, defIns)
  {
    hide Recorded;
    forall n': nat, k': nat, r | SetsAt(f, n', k', r) && Earlier(n', k', n + 1, 0) ensures r in defIns {
      assert Earlier(n', k', n, |Ids(f, f.order[n])|);
    }
    forall r | r in defIns ensures exists n': nat, k': nat :: SetsAt(f, n', k', r) && Earlier(n', k', n + 1, 0) {
      var n': nat, k': nat :| SetsAt(f, n', k', r) && Earlier(n', k', n, |Ids(f, f.order[n])|);
      assert Earlier(n', k', n + 1, 0);
    }
  }

  lemma FirstsOfAll(f: Fn, defIns: map<RegId, InsId>)
    requires FirstsBefore(f, |f.order|, 0, defIns)
    ensures FirstDefs(f, defIns)
  {
    hide Recorded;
    forall n: nat, k: nat, r | SetsAt(f, n, k, r) ensures r in defIns { assert Earlier(n, k, |f.order|, 0); }
  }

  /** `def_ins`: where each register is set first. */
  method FunComputeRegStatsExceptLAC(f: Fn) returns (defIns: map<RegId, InsId>)
    ensures FirstDefs(f, defIns)
  {
    defIns := map[];
    for n := 0 to |f.order|
      invariant FirstsBefore(f, n, 0, defIns)
    {
      var ids := Ids(f, f.order[n]);
      hide FirstsBefore, InsAt, DstOf;
      for k := 0 to |ids|
        invariant FirstsBefore(f, n, k, defIns)
      {
        FirstsNext(f, n, k, defIns);
        match DstOf(InsAt(f.code, ids[k])) {
          case None =>
          case Some(r) => if r !in defIns { defIns := defIns[r := ids[k]]; }
        }
      }
      FirstsOfBlock(f, n, defIns);
    }
    FirstsOfAll(f, defIns);
  }

  ghost predicate LiveOverCall(f: Fn, liveOut: LiveMap, b: BblId, k: nat, r: RegId) {
    k < |Ids(f, b)| && b in liveOut && IsCall(InsAt(f.code, Ids(f, b)[k]).opcode) && r in LiveAt(f.code, Ids(f, b), k + 1, liveOut[b])
  }

  ghost predicate GlobalIn(f: Fn, liveOut: LiveMap, n: nat, r: RegId) {
    exists j :: 0 <= j < n && j < |f.order| && f.order[j] in liveOut && r in LiveInOf(f, f.order[j], liveOut[f.order[j]])
  }

  ghost predicate LacIn(f: Fn, liveOut: LiveMap, n: nat, r: RegId) {
    exists j: nat, k: nat :: j < n && j < |f.order| && LiveOverCall(f, liveOut, f.order[j], k, r)
  }

  /** The registers live at the start of a block, and those live across a call, in the whole function. */
  method FunComputeRegStatsLAC(f: Fn, liveOut: LiveMap) returns (globals: set<RegId>, lac: set<RegId>)
    requires forall b :: b in f.order ==> b in liveOut
    ensures forall r :: r in globals <==> GlobalIn(f, liveOut, |f.order|, r)
    ensures forall r :: r in lac <==> LacIn(f, liveOut, |f.order|, r)
  {
    globals, lac := {}, {};
    for n := 0 to |f.order|
      invariant forall r :: r in globals <==> GlobalIn(f, liveOut, n, r)
      invariant forall r :: r in lac <==> LacIn(f, liveOut, n, r)
    {
      var b := f.order[n];
      assert b in f.order;
      ghost var lac0 := lac;
      var live, acrossCalls := BblStats(f, b, liveOut[b], liveOut);
      StatsNext(f, liveOut, n);
      hide GlobalIn, LacIn, LiveOverCall, LiveInOf;
      globals, lac := globals + live, lac + acrossCalls;
    }
  }

  lemma StatsNext(f: Fn, liveOut: LiveMap, n: nat)
    requires n < |f.order| && f.order[n] in liveOut
    ensures forall r :: GlobalIn(f, liveOut, n + 1, r) <==> GlobalIn(f, liveOut, n, r) || r in LiveInOf(f, f.order[n], liveOut[f.order[n]])
    ensures forall r :: LacIn(f, liveOut, n + 1, r) <==> LacIn(f, liveOut, n, r) || exists k: nat :: LiveOverCall(f, liveOut, f.order[n], k, r)
  {
    hide LiveInOf, LiveOverCall;
    forall r ensures LacIn(f, liveOut, n + 1, r) <==> LacIn(f, liveOut, n, r) || exists k: nat :: LiveOverCall(f, liveOut, f.order[n], k, r) {
      if LacIn(f, liveOut, n + 1, r) {
        var j: nat, k: nat :| j < n + 1 && j < |f.order| && LiveOverCall(f, liveOut, f.order[j], k, r);
        assert j == n || j < n;
      }
    }
    forall r ensures GlobalIn(f, liveOut, n + 1, r) <==> GlobalIn(f, liveOut, n, r) || r in LiveInOf(f, f.order[n], liveOut[f.order[n]]) {
      if GlobalIn(f, liveOut, n + 1, r) {
        var j :| 0 <= j < n + 1 && j < |f.order| && f.order[j] in liveOut && r in LiveInOf(f, f.order[j], liveOut[f.order[j]]);
        assert j == n || j < n;
      }
    }
  }

  ghost predicate OverCallFrom(f: Fn, liveOut: LiveMap, b: BblId, k: nat, r: RegId) {
    exists j: nat :: k <= j && LiveOverCall(f, liveOut, b, j, r)
  }

  /** One block, backwards. */
  method BblStats(f: Fn, b: BblId, out: set<RegId>, ghost liveOut: LiveMap) returns (live: set<RegId>, lac: set<RegId>)
    requires b in liveOut && out == liveOut[b]
    ensures live == LiveInOf(f, b, out)
    ensures forall r :: r in lac <==> exists k: nat :: LiveOverCall(f, liveOut, b, k, r)
  {
    var ids := Ids(f, b);
    live, lac := out, {};
    for k := |ids| downto 0
      invariant live == LiveAt(f.code, ids, k, out)
      invariant forall r :: r in lac <==> OverCallFrom(f, liveOut, b, k, r)
    {
      var ins := InsAt(f.code, ids[k]);
      forall r ensures OverCallFrom(f, liveOut, b, k, r) <==> OverCallFrom(f, liveOut, b, k + 1, r) || LiveOverCall(f, liveOut, b, k, r) {
        CallNext(f, liveOut, b, k, r);
        hide *;
      }
      if IsCall(ins.opcode) { lac := lac + live; }
      live := LiveBefore(ins, live);
      hide LiveBefore, InsAt, OverCallFrom;
    }
    assert forall j: nat, r :: LiveOverCall(f, liveOut, b, j, r) ==> 0 <= j;
  }

  lemma CallNext(f: Fn, liveOut: LiveMap, b: BblId, k: nat, r: RegId)
    ensures OverCallFrom(f, liveOut, b, k, r) <==> OverCallFrom(f, liveOut, b, k + 1, r) || LiveOverCall(f, liveOut, b, k, r)
  {
    hide LiveOverCall;
    if OverCallFrom(f, liveOut, b, k, r) {
      var j: nat :| k <= j && LiveOverCall(f, liveOut, b, j, r);
      assert j == k || k + 1 <= j;
    }
  }

  // ---------------------------------------------------------------- what the allocator gets

  /** In every block: registers that may live longer are in `fixed`, the others are set once. */
  lemma SeparatedIsLocalOnce(f: Fn, b: BblId, out: set<RegId>, kept: set<RegId>, fixed: Assignment)
    requires UniqueIds(f) && b in f.blocks && SetOnce(f, kept) && LocalsSetFirst(f.code, Ids(f, b), kept)
    requires out <= kept && forall r :: r in kept ==> r in fixed
    ensures LocalOnce(f.code, Ids(f, b), out, fixed)
  {
    var ids := Ids(f, b);
    hide LiveAt, DstOf, WfIns, InsAt, UsesReg, DefinedIn;
    forall r | r in LiveAt(f.code, ids, 0, out) ensures r in fixed {
      LiveAtIff(f.code, ids, 0, out, r);
      if ExposedFrom(f.code, ids, 0, r) {
        var k: nat :| 0 <= k < |ids| && ExposedAt(f.code, ids, 0, k, r);
        assert Known(f.code, ids, kept, k, r);
      }
    }
    forall p: nat, q: nat | p < q < |ids| && DstOf(InsAt(f.code, ids[p])).Some? && DstOf(InsAt(f.code, ids[p])).value !in fixed
      ensures DstOf(InsAt(f.code, ids[q])) != DstOf(InsAt(f.code, ids[p]))
    {
      assert ids[p] in ids && ids[q] in ids && InFun(f, ids[p]) && InFun(f, ids[q]) && ids[p] != ids[q];
    }
  }

  /** The registers some block reads before setting them, or that are bound to a machine register. */
  ghost predicate SeenOutside(f: Fn, cpuRegs: set<RegId>, r: RegId) {
    r in cpuRegs || exists b :: b in f.blocks && ReadFrom(f, b, r)
  }

  /** The three passes as the optimizer and the legalizer run them. */
  method ComputeStatsAndSeparate(fun: Fun, base: nat) returns (next: nat, ghost kept: set<RegId>, ghost firsts: map<RegId, InsId>)
    requires Wf(fun.View()) && MutualEdges(fun.View()) && RegsBelow(fun.code, base) && forall r :: r in fun.cpuRegs ==> r.no < base
    modifies fun`code, fun`liveOut
    ensures forall r :: r in kept <==> SeenOutside(old(fun.View()), fun.cpuRegs, r)
    ensures SameRunsOn(old(fun.View()), fun.View(), kept) && SetOnce(fun.View(), kept)
    ensures FirstDefs(old(fun.View()), firsts) && NamedApart(old(fun.View()), fun.View(), kept, firsts, base, next)
    ensures forall b, fixed: Assignment :: b in fun.blocks && kept <= fixed.Keys ==>
              b in fun.liveOut && LocalOnce(fun.code, Ids(fun.View(), b), fun.liveOut[b], fixed)
  {
    ghost var f := fun.View();
    hide WfLayout, WfOrder, WfCode, WfEdges, MutualEdges, RegsBelow, ReadAfter, ReadFrom, LocalOnce, SameRunsOn, SetOnce, FirstDefs, NamedApart;
    FunComputeLivenessInfo(fun);
    var defIns := FunComputeRegStatsExceptLAC(fun.View());
    firsts := defIns;
    OrderIsBlocks(f, fun.liveOut);
    var globals, lac := FunComputeRegStatsLAC(fun.View(), fun.liveOut);
    kept := globals + fun.cpuRegs;
    GlobalsSeen(f, fun.liveOut, globals, fun.cpuRegs);
    ghost var names;
    next, names := FunSeparateLocalRegUsage(fun, globals + fun.cpuRegs, defIns, base);
    Concludes(f, fun.View(), fun.liveOut, kept, fun.cpuRegs, defIns, names, base, next);
  }

  lemma OrderIsBlocks(f: Fn, liveOut: LiveMap)
    requires WfOrder(f) && ExactlyLive(f, liveOut)
    ensures forall b :: b in f.order ==> b in liveOut
  {
    hide ReadAfter;
  }

  lemma GlobalsSeen(f: Fn, liveOut: LiveMap, globals: set<RegId>, cpuRegs: set<RegId>)
    requires WfOrder(f) && ExactlyLive(f, liveOut) && forall r :: r in globals <==> GlobalIn(f, liveOut, |f.order|, r)
    ensures forall r :: r in globals + cpuRegs <==> SeenOutside(f, cpuRegs, r)
  {
    forall r ensures r in globals <==> exists b :: b in f.blocks && ReadFrom(f, b, r) {
      hide ReadFrom, ReadAfter, LiveInOf, Exposes, Defines;
      forall b | b in f.blocks ensures ReadFrom(f, b, r) <==> r in LiveInOf(f, b, liveOut[b]) {
        LiveInIff(f, b, liveOut[b], r);
        ReadFromUnfolds(f, b, r);
      }
      if b :| b in f.blocks && ReadFrom(f, b, r) {
        assert b in f.order;
        var j :| 0 <= j < |f.order| && f.order[j] == b;
        assert GlobalIn(f, liveOut, |f.order|, r);
      }
      if GlobalIn(f, liveOut, |f.order|, r) {
        var j :| 0 <= j < |f.order| && f.order[j] in liveOut && r in LiveInOf(f, f.order[j], liveOut[f.order[j]]);
        assert f.order[j] in f.blocks;
      }
    }
  }

  /** Such registers occur in the code. */
  lemma SeenIsBelow(f: Fn, cpuRegs: set<RegId>, r: RegId, base: nat)
    requires RegsBelow(f.code, base) && (forall q :: q in cpuRegs ==> q.no < base) && SeenOutside(f, cpuRegs, r)
    ensures r.no < base
  {
    if r !in cpuRegs {
      var b :| b in f.blocks && ReadFrom(f, b, r);
      var p: seq<BblId> :| ReadPath(f, p, r) && p[0] == b;
      var c := p[|p| - 1];
      hide RegsBelow, UsesReg, DefinedIn, InsAt;
      var k: nat :| 0 <= k < |Ids(f, c)| && ExposedAt(f.code, Ids(f, c), 0, k, r);
      UsedIsBelow(f.code, Ids(f, c)[k], r, base);
    }
  }

  lemma UsedIsBelow(code: seq<Ins>, i: InsId, r: RegId, base: nat)
    requires RegsBelow(code, base) && UsesReg(InsAt(code, i), r)
    ensures r.no < base
  {
    var n :| NumDefs(InsAt(code, i).opcode) <= n < |InsAt(code, i).operands| && InsAt(code, i).operands[n] == RegOp(r);
    OpBelow(code, base, i, n);
    hide RegsBelow, InsAt;
  }

  /** Live registers are among them. */
  lemma LiveIsSeen(f: Fn, liveOut: LiveMap, cpuRegs: set<RegId>, b: BblId)
    requires WfLayout(f) && ExactlyLive(f, liveOut) && b in f.blocks
    ensures forall r :: r in liveOut[b] || r in LiveInOf(f, b, liveOut[b]) ==> SeenOutside(f, cpuRegs, r)
  {
    forall r | r in liveOut[b] || r in LiveInOf(f, b, liveOut[b]) ensures SeenOutside(f, cpuRegs, r) {
      hide ReadFrom, LiveInOf, Exposes, Defines;
      LiveInIff(f, b, liveOut[b], r);
      ReadFromUnfolds(f, b, r);
      if r in liveOut[b] {
        var s :| s in BblAt(f, b).edgeOut && ReadFrom(f, s, r);
        assert s in f.blocks;
      }
    }
  }

  lemma Concludes(f: Fn, g: Fn, liveOut: LiveMap, kept: set<RegId>, cpuRegs: set<RegId>, defIns: map<RegId, InsId>, names: Names, base: nat, next: nat)
    requires Wf(f) && RegsBelow(f.code, base) && (forall r :: r in cpuRegs ==> r.no < base) && ExactlyLive(f, liveOut)
    requires (forall r :: r in kept <==> SeenOutside(f, cpuRegs, r)) && Separated(f, g, kept, defIns, names, base, next)
    ensures SameRunsOn(f, g, kept) && SetOnce(g, kept)
    ensures forall b, fixed: Assignment :: b in f.blocks && kept <= fixed.Keys ==> b in liveOut && LocalOnce(g.code, Ids(g, b), liveOut[b], fixed)
  {
    hide WfLayout, WfOrder, WfCode, WfEdges, RegsBelow, ReadAfter, ReadFrom, LocalOnce, SameRunsOn, SetOnce, Separated, SeenOutside, LiveAt;
    forall r | r in kept ensures r.no < base { SeenIsBelow(f, cpuRegs, r, base); }
    forall b | b in f.blocks ensures liveOut[b] <= kept && LocalsSetFirst(f.code, Ids(f, b), kept) {
      LiveIsSeen(f, liveOut, cpuRegs, b);
      LiveInsSetFirst(f.code, Ids(f, b), liveOut[b], kept);
      hide LocalsSetFirst;
    }
    hide LocalsSetFirst;
    SeparationKeepsRuns(f, g, kept, defIns, names, base, next);
    SeparatedSetOnce(f, g, kept, defIns, names, base, next);
    NamesAreGood(f, g, kept, defIns, names, base, next);
    StillWf(f, g, kept, names, base, next);
    forall b, fixed: Assignment | b in f.blocks && kept <= fixed.Keys ensures b in liveOut && LocalOnce(g.code, Ids(g, b), liveOut[b], fixed) {
      FirstInBoth(f, g, b, kept, names, base, next);
      SeparatedIsLocalOnce(g, b, liveOut[b], kept, fixed);
    }
  }

  lemma FirstInBoth(f: Fn, g: Fn, b: BblId, kept: set<RegId>, names: Names, base: nat, next: nat)
    requires SeparatedBy(f, g, kept, names, base, next) && b in f.blocks && LocalsSetFirst(f.code, Ids(f, b), kept)
    ensures LocalsSetFirst(g.code, Ids(g, b), kept) && b in g.blocks
  {
    hide LocalsSetFirst, GoodNames;
    SeparatedSetFirst(f, g, b, kept, names, base, next);
  }

  lemma StillWf(f: Fn, g: Fn, kept: set<RegId>, names: Names, base: nat, next: nat)
    requires WfCode(f) && SeparatedBy(f, g, kept, names, base, next)
    ensures UniqueIds(g)
  {
    assert forall b :: BblAt(g, b) == BblAt(f, b);
    hide BlockSeparated, GoodNames, WfIns;
  }
}
