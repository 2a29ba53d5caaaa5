/** Two blocks that the linear scan does not manage, code and live ranges, on the A32 register file
    with nothing reserved: in one, two operands of an instruction get the same scratch register (`TwoScratchAlike`); on the
    other the allocator gives up while callee-saved registers are idle (`GivesUp`). */
module ScratchExamples {
  import opened IR
  import opened RegPool
  import opened LiveRanges
  import opened LinearScan
  import opened ScratchRegs
  import opened Liveness
  import Spill
  import LocalAlloc

  // ---------------------------------------------------------------- scenes

  function Def(at: nat, lastUse: int, lac: bool): LiveRange { LiveRange(Span(at, lastUse), RegNo(at), Gpr, [], lac, false, false, Unassigned) }

  function Read(at: nat, uses: seq<nat>): LiveRange { LiveRange(Span(at, at), RegNo(0), Gpr, uses, false, false, false, Unassigned) }

  /** The ranges of `base` with what they were given so far; there is nothing to give to reads. */
  function Locs(base: seq<LiveRange>, locs: seq<Loc>): (rs: seq<LiveRange>)
    requires |locs| == |base|
    ensures |rs| == |base| && forall k :: 0 <= k < |base| ==> rs[k] == base[k].(loc := locs[k])
  {
    seq(|base|, k requires 0 <= k < |base| => base[k].(loc := locs[k]))
  }

  function Nothing(n: nat): (locs: seq<Loc>)
    ensures |locs| == n
  {
    seq(n, k => Unassigned)
  }

  /** The registers of the A32 pool that calls clobber, in the order they are handed out. */
  const REGS: seq<nat> := [0, 1, 2, 3, 4, 5, 12, 14]

  function R(n: nat): CpuReg { CpuReg(Gpr, n) }

  function Pool(free: set<nat>): PoolState {
    PoolState(LocalAlloc.GPR_CALLEE_SAVE + LocalAlloc.FLT_CALLEE_SAVE, (set n | n in free :: GprBit(n)) + LocalAlloc.FLT_PARAMETER, map b | b in ALL_BITS :: [])
  }

  function Shot(base: seq<LiveRange>, locs: seq<Loc>, free: set<nat>): Scene
    requires |locs| == |base|
  {
    Scene(Locs(base, locs), Pool(free))
  }

  predicate Scratchable(free: set<nat>) { forall n :: n in free ==> n in REGS }

  lemma CandidateHere(free: set<nat>, n: nat, lr: Span)
    ensures Pool(free).Candidate(R(n), false, lr) <==> n in free
  {
    assert GprBit(n) in Pool(free).notLac <==> n in free;
    assert forall b :: b in AllocMask(R(n)) <==> b == GprBit(n);
    hide LocalAlloc.FLT_PARAMETER;
  }

  /** The lowest free register, if there is one. */
  lemma AnswerHere(free: set<nat>, lr: Span, n: nat)
    requires Scratchable(free)
    ensures n in free && (forall k: nat :: k < n ==> k !in free) ==> Answer(Pool(free), Gpr, false, lr) == Some(R(n))
    ensures free == {} ==> Answer(Pool(free), Gpr, false, lr) == None
  {
    var found := Search(Pool(free), Gpr, false, lr, 0);
    forall k: nat ensures Pool(free).Candidate(R(k), false, lr) <==> k in free { CandidateHere(free, k, lr); }
    hide Pool, PoolState.Candidate, Search;
    hide LocalAlloc.FLT_PARAMETER;
    assert n in free ==> n < NumRegs(Gpr) && Pool(free).Candidate(CpuReg(Gpr, n), false, lr);
    if found.Some? { assert found.value == R(found.value.no); }
  }

  lemma TakeHere(free: set<nat>, n: nat)
    ensures Pool(free).Take(R(n), false) == Pool(free - {n})
  {
    assert Pool(free).Take(R(n), false).notLac == Pool(free - {n}).notLac;
  }

  lemma GiveHere(free: set<nat>, n: nat)
    requires n in REGS
    ensures Pool(free).Give(R(n)) == Pool(free + {n})
  {
    assert Pool(free).Give(R(n)).notLac == Pool(free + {n}).notLac;
  }

  predicate Lowest(free: set<nat>, n: nat) { Scratchable(free) && n in free && forall k: nat :: k < n ==> k !in free }

  /** Place i is a definition that lives across no call. */
  predicate PlainDef(base: seq<LiveRange>, i: nat) {
    && i < |base| && base[i].uses == [] && !base[i].lac && !base[i].preAlloc && !base[i].ignore && base[i].kind == Gpr
    && base[i].span.defPos == i && base[i].span.lastUse < NO_USE
  }

  lemma LocHere(base: seq<LiveRange>, locs: seq<Loc>, k: nat, loc: Loc)
    requires |locs| == |base| && k < |base|
    ensures WithLoc(Locs(base, locs), k, loc) == Locs(base, locs[k := loc])
  {
  }

  lemma TakesHere(base: seq<LiveRange>, locs: seq<Loc>, free: set<nat>, i: nat, n: nat)
    requires |locs| == |base| && PlainDef(base, i) && Lowest(free, n)
    ensures Step(Shot(base, locs, free), true, i) == Some(Shot(base, locs[i := InReg(R(n))], free - {n}))
  {
    AnswerHere(free, base[i].span, n);
    TakeHere(free, n);
    LocHere(base, locs, i, InReg(R(n)));
    hide Pool, Answer, PoolState.Take, PoolState.Give, REGS, Claim, Locs, Lowest, UseStep;
    assert AssignStep(Shot(base, locs, free), true, i) == Some(Shot(base, locs[i := InReg(R(n))], free - {n}));
  }

  lemma AskHere(base: seq<LiveRange>, locs: seq<Loc>, free: set<nat>, pos: int, n: nat)
    requires |locs| == |base| && Scratchable(free)
    ensures Lowest(free, n) ==> Ask(Shot(base, locs, free), Gpr, pos) == Claimed(Some(R(n)), Shot(base, locs, free - {n}))
    ensures free == {} ==> Ask(Shot(base, locs, free), Gpr, pos) == Claimed(None, Shot(base, locs, free))
  {
    AnswerHere(free, WhileAt(pos), n);
    TakeHere(free, n);
    hide Pool, Answer, PoolState.Take, Locs, REGS;
  }

  /** The pool is empty, and the nearest range that qualifies loses its register. */
  lemma ClaimHere(base: seq<LiveRange>, locs: seq<Loc>, pos: int, spilledDef: int, i: nat, k: nat, n: nat)
    requires |locs| == |base| && i < |base| && n in REGS && k <= i && locs[k] == InReg(R(n))
    requires Pick(Locs(base, locs), i, spilledDef, Gpr) == k
    ensures Claim(Shot(base, locs, {}), Gpr, pos, spilledDef, i) == Claimed(Some(R(n)), Shot(base, locs[k := Spilled], {}))
  {
    AskHere(base, locs, {}, pos, n);
    GiveHere({}, n);
    LocHere(base, locs, k, Spilled);
    assert {} + {n} == {n} && Lowest({n}, n) && {n} - {n} == {};
    AskHere(base, locs[k := Spilled], {n}, pos, n);
    hide Pool, Ask, Pick, PoolState.Give, REGS;
  }

  lemma SpillsHere(base: seq<LiveRange>, locs: seq<Loc>, i: nat, k: nat, n: nat)
    requires |locs| == |base| && 0 < i && PlainDef(base, i) && n in REGS && k < i && locs[k] == InReg(R(n))
    requires Pick(Locs(base, locs[i := Spilled]), i - 1, i, Gpr) == k
    ensures Step(Shot(base, locs, {}), true, i) == Some(Shot(base, locs[i := Spilled][k := Spilled], {n}))
  {
    AnswerHere({}, base[i].span, n) by { assert Scratchable({}); }
    LocHere(base, locs, i, Spilled);
    ClaimHere(base, locs[i := Spilled], i, i, i - 1, k, n);
    GiveHere({}, n);
    assert {} + {n} == {n};
    hide Pool, Answer, Pick, Claim, PoolState.Give, REGS, Locs, UseStep;
    assert AssignStep(Shot(base, locs, {}), true, i) == Some(Shot(base, locs[i := Spilled], {}));
  }

  // -- eight definitions fill the pool

  function FirstRegs(n: nat, k: nat): (locs: seq<Loc>)
    requires k <= 8
    ensures |locs| == n
  {
    seq(n, j => if 0 <= j < k then InReg(R(REGS[j])) else Unassigned)
  }

  function FreeFrom(k: nat): set<nat> { set j: nat | k <= j < 8 :: REGS[j] }

  lemma NextRegs(n: nat, k: nat)
    requires k < 8 && k < n
    ensures Lowest(FreeFrom(k), REGS[k]) && FreeFrom(k + 1) == FreeFrom(k) - {REGS[k]}
    ensures FirstRegs(n, k + 1) == FirstRegs(n, k)[k := InReg(R(REGS[k]))]
  {
    forall j: nat | k <= j < 8 ensures REGS[k] <= REGS[j] && (k < j ==> REGS[k] < REGS[j]) {}
  }

  function Start(base: seq<LiveRange>): Scene { Shot(base, Nothing(|base|), FreeFrom(0)) }

  lemma {:induction false} FillsPool(base: seq<LiveRange>, k: nat)
    requires k <= 8 <= |base| && forall j: nat :: j < 8 ==> PlainDef(base, j)
    ensures SceneAt(Start(base), true, k) == Some(Shot(base, FirstRegs(|base|, k), FreeFrom(k)))
  {
    if k > 0 {
      var n := |base|;
      FillsPool(base, k - 1);
      NextRegs(n, k - 1);
      TakesHere(base, FirstRegs(n, k - 1), FreeFrom(k - 1), k - 1, REGS[k - 1]);
      hide Step, FirstRegs, FreeFrom, Locs, Pool, PlainDef;
    } else {
      assert FirstRegs(|base|, 0) == Nothing(|base|);
    }
  }

  // -- where the scan starts

  lemma FreeIs()
    ensures FreeFrom(0) == {0, 1, 2, 3, 4, 5, 12, 14}
  {
    assert REGS[0] in FreeFrom(0) && REGS[1] in FreeFrom(0) && REGS[2] in FreeFrom(0) && REGS[3] in FreeFrom(0);
    assert REGS[4] in FreeFrom(0) && REGS[5] in FreeFrom(0) && REGS[6] in FreeFrom(0) && REGS[7] in FreeFrom(0);
  }

  /** The whole A32 pool, nothing reserved. */
  ghost predicate A32Pool(st: PoolState) {
    && st.lac == LocalAlloc.GPR_CALLEE_SAVE + LocalAlloc.FLT_CALLEE_SAVE && st.notLac == LocalAlloc.GPR_NOT_LAC + LocalAlloc.FLT_PARAMETER
    && st.reserved == map b | b in ALL_BITS :: []
  }

  lemma PoolIsA32()
    ensures A32Pool(Pool(FreeFrom(0))) && Pool(FreeFrom(0)).Valid()
  {
    FreeIs();
    hide FreeFrom;
    assert (set n | n in {0, 1, 2, 3, 4, 5, 12, 14} :: GprBit(n)) == LocalAlloc.GPR_NOT_LAC;
    LocalAlloc.MaskClasses();
  }

  lemma NothingToLoad(rs: seq<LiveRange>, st: PoolState)
    requires (forall k :: 0 <= k < |rs| ==> !rs[k].preAlloc) && st.reserved == map b | b in ALL_BITS :: []
    ensures LocalAlloc.Loaded(rs, |rs|, st.reserved)
  {
  }

  /** One definition or record at every place. */
  predicate PlaceOk(base: seq<LiveRange>, k: nat) {
    && k < |base| < AFTER_BBL && base[k].span.defPos == k && !base[k].preAlloc
    && if base[k].uses == [] then k < base[k].span.lastUse < |base| && k in base[base[k].span.lastUse].uses
       else base[k].span.lastUse == k && forall u :: u in base[k].uses ==> u < k && base[u].uses == [] && base[u].span.lastUse == k
  }

  ghost predicate PlacesOk(base: seq<LiveRange>) { forall k: nat :: k < |base| ==> PlaceOk(base, k) }

  lemma PlacesAreWf(base: seq<LiveRange>)
    requires PlacesOk(base)
    ensures var rs := Locs(base, Nothing(|base|)); WfRanges(rs) && EndsOnRecord(rs) && forall k :: 0 <= k < |rs| ==> !rs[k].preAlloc && rs[k].loc == Unassigned
  {
    var rs := Locs(base, Nothing(|base|));
    forall k: nat | k < |base| ensures WfRange(rs, k) && rs[k].span.defPos == k && rs[k].span.lastUse < AFTER_BBL {
      assert PlaceOk(base, k);
      forall u | u in base[k].uses ensures u < k && PlaceOk(base, u) {}
    }
    forall j: nat | j < |rs| && rs[j].uses == [] ensures EndNamed(rs, j) {
      assert PlaceOk(base, j) && PlaceOk(base, base[j].span.lastUse);
      assert EndsAt(rs, j, base[j].span.lastUse);
    }
    forall k | 0 <= k < |rs| ensures !rs[k].preAlloc { assert PlaceOk(base, k); }
    hide PlaceOk, WfRange, EndNamed, Locs, Nothing;
  }

  lemma ScanMayStart(base: seq<LiveRange>)
    requires PlacesOk(base)
    ensures var sc := Start(base); A32Pool(sc.pool) && Scanned(sc.rs, 0, BEFORE_BBL - 1, sc.pool) && EndsOnRecord(sc.rs)
  {
    var rs := Locs(base, Nothing(|base|));
    PlacesAreWf(base);
    PoolIsA32();
    hide Pool, FreeFrom, WfRanges, Locs, Nothing, EndsOnRecord, PoolState.Valid, LocalAlloc.Loaded, Scanned, PlacesOk;
    NothingToLoad(rs, Pool(FreeFrom(0)));
    LocalAlloc.ScanStarts(rs, Pool(FreeFrom(0)));
  }

  // -- the code that the ranges come from

  /** Instruction k sets register k, or reads the registers of the ranges recorded there. */
  ghost predicate InsFor(base: seq<LiveRange>, k: nat, ins: Ins)
    requires k < |base|
  {
    WfIns(ins) &&
    if base[k].uses == [] then DstOf(ins) == Some(RegNo(k)) && base[k].reg == RegNo(k) && forall r :: !UsesReg(ins, r)
    else DstOf(ins) == None && forall r :: UsesReg(ins, r) <==> r.no in base[k].uses
  }

  /** Range k says rightly whether it lives across a call. */
  ghost predicate LacFor(base: seq<LiveRange>, k: nat, code: seq<Ins>)
    requires k < |base|
  {
    base[k].uses == [] ==> (base[k].lac <==> CallBetween(code, Spill.Iota(|code|), k, base[k].span.lastUse))
  }

  ghost predicate CodeFor(base: seq<LiveRange>, code: seq<Ins>) {
    |code| == |base| && forall k: nat :: k < |base| ==> InsFor(base, k, code[k]) && LacFor(base, k, code)
  }

  /** Register r is set before place k and read there or later. */
  predicate Alive(base: seq<LiveRange>, k: nat, r: RegId) {
    r.no < k && r.no < |base| && base[r.no].uses == [] && k <= base[r.no].span.lastUse
  }

  lemma AliveNext(base: seq<LiveRange>, code: seq<Ins>, k: nat, r: RegId)
    requires PlacesOk(base) && CodeFor(base, code) && k < |base|
    ensures Alive(base, k, r) <==> UsesReg(code[k], r) || (Alive(base, k + 1, r) && DstOf(code[k]) != Some(r))
  {
    assert PlaceOk(base, k) && InsFor(base, k, code[k]);
    if r.no < |base| { assert PlaceOk(base, r.no); }
    hide UsesReg, DstOf, WfIns, LacFor;
  }

  lemma {:induction false} LiveIsAlive(base: seq<LiveRange>, code: seq<Ins>, k: nat, r: RegId)
    requires PlacesOk(base) && CodeFor(base, code) && k <= |base|
    ensures r in LiveAt(code, Spill.Iota(|code|), k, {}) <==> Alive(base, k, r)
    decreases |base| - k
  {
    if k < |base| {
      LiveIsAlive(base, code, k + 1, r);
      AliveNext(base, code, k, r);
      hide UsesReg, DstOf, CodeFor, PlacesOk, Alive;
    } else if r.no < |base| {
      assert PlaceOk(base, r.no);
    }
  }

  lemma CoversIsAlive(base: seq<LiveRange>, code: seq<Ins>, p: int, r: RegId)
    requires PlacesOk(base) && CodeFor(base, code) && -1 <= p < |base|
    ensures LiveAfter(code, Spill.Iota(|code|), {}, p, r) <==> SomeCovers(Locs(base, Nothing(|base|)), r, p)
  {
    var rs, k: nat := Locs(base, Nothing(|base|)), p + 1;
    LiveIsAlive(base, code, k, r);
    hide LiveAt, UsesReg, DstOf, WfIns;
    forall j: nat | j < |base| ensures Covers(rs[j], r, p) <==> r.no == j && Alive(base, k, r) {
      assert PlaceOk(base, j) && InsFor(base, j, code[j]);
      hide Nothing, LacFor;
    }
    if Alive(base, k, r) { assert Covers(rs[r.no], r, p); }
  }

  lemma RangeIsRight(base: seq<LiveRange>, code: seq<Ins>, k: nat)
    requires PlacesOk(base) && CodeFor(base, code) && k < |base| && base[k].uses == []
    ensures RangeRight(code, Spill.Iota(|code|), {}, base[k])
  {
    var last := base[k].span.lastUse;
    assert PlaceOk(base, k) && InsFor(base, k, code[k]) && LacFor(base, k, code) && InsFor(base, last, code[last]);
    hide UsesReg, DstOf, WfIns, CallBetween;
  }

  lemma RecordIsRight(base: seq<LiveRange>, code: seq<Ins>, k: nat)
    requires PlacesOk(base) && CodeFor(base, code) && k < |base| && base[k].uses != []
    ensures ReadsRecorded(Locs(base, Nothing(|base|)), code, Spill.Iota(|code|), base[k])
  {
    var rs := Locs(base, Nothing(|base|));
    assert PlaceOk(base, k) && InsFor(base, k, code[k]);
    hide UsesReg, DstOf, WfIns, Nothing;
    forall u | u in base[k].uses ensures rs[u].reg == RegNo(u) && rs[u].uses == [] && rs[u].span.defPos == u && rs[u].span.lastUse == k {
      assert PlaceOk(base, u) && InsFor(base, u, code[u]);
      hide LacFor;
    }
    forall r ensures UsesReg(code[k], r) <==> exists u :: u in base[k].uses && u < |rs| && rs[u].reg == r {
      if UsesReg(code[k], r) { assert rs[r.no].reg == r; }
    }
  }

  /** The ranges are the live ranges of the code. */
  lemma CodeHasRanges(base: seq<LiveRange>, code: seq<Ins>)
    requires PlacesOk(base) && CodeFor(base, code)
    ensures Describes(Locs(base, Nothing(|base|)), code, Spill.Iota(|code|), {})
  {
    var rs, ids := Locs(base, Nothing(|base|)), Spill.Iota(|code|);
    hide UsesReg, DstOf, WfIns, CallBetween, LiveAfter, SomeCovers, LiveAt;
    forall k: nat | k < |base|
      ensures rs[k].span.defPos == k && (base[k].uses == [] ==> rs[k].reg == RegNo(k) && RangeRight(code, ids, {}, rs[k]))
      ensures base[k].uses != [] ==> ReadsRecorded(rs, code, ids, rs[k])
      ensures forall r :: DstOf(code[k]) == Some(r) ==> base[k].uses == [] && r == RegNo(k)
    {
      assert PlaceOk(base, k) && InsFor(base, k, code[k]);
      if base[k].uses == [] { RangeIsRight(base, code, k); } else { RecordIsRight(base, code, k); }
      hide LacFor, ReadsRecorded, EndsRight;
    }
    forall p, r | -1 <= p < |ids| ensures LiveAfter(code, ids, {}, p, r) <==> SomeCovers(rs, r, p) { CoversIsAlive(base, code, p, r); }
    hide RangeRight, ReadsRecorded, PlacesOk, CodeFor, Nothing;
    forall p: nat, r | p < |ids| && DstOf(InsIn(code, ids, p)) == Some(r) ensures SomeStarts(rs, r, p) {
      assert code[p] == InsIn(code, ids, p);
      assert rs[p].uses == [] && rs[p].reg == r && rs[p].span.defPos == p;
    }
  }

  function Sets(k: nat): Ins { Ins(PopArg, [RegOp(RegNo(k))], [None]) }

  function Pushes(k: nat): Ins { Ins(PushArg, [RegOp(RegNo(k))], [None]) }

  lemma PushesIs(k: nat, r: RegId)
    ensures WfIns(Pushes(k)) && DstOf(Pushes(k)) == None && (UsesReg(Pushes(k), r) <==> r == RegNo(k))
    ensures WfIns(Sets(k)) && DstOf(Sets(k)) == Some(RegNo(k)) && !UsesReg(Sets(k), r)
  {
    assert Pushes(k).operands[0] == RegOp(RegNo(k));
  }

  // ---------------------------------------------------------------- two reads, one register

  /* Eight definitions fill the pool, and A, B, C and L follow. A is spilled and takes r14 from the
     nearest of the eight. B takes r14. C is spilled and takes r14 from B. L takes r14, ends, and
     gives it back. Now A and B are read together: r14 for A. There is none for B, the search looks
     for a range that ends after the definition of B, and finds L: r14 for B. */

  const A: nat := 8
  const B: nat := 9
  const C: nat := 10
  const L: nat := 11
  const READ_L: nat := 12
  const READ_A_B: nat := 13
  const COUNT: nat := 23

  /** What happens at each place: twelve definitions, then the reads. */
  function Place(k: nat): LiveRange {
    if k < A then Def(k, 14 + k, false)
    else if k == A || k == B then Def(k, READ_A_B, false)
    else if k == C then Def(k, 22, false)
    else if k == L then Def(k, READ_L, false)
    else if k == READ_L then Read(k, [L])
    else if k == READ_A_B then Read(k, [A, B])
    else Read(k, [if k < 22 then k - 14 else C])
  }

  /** The instruction at each place; A and B are the address and the value of a store. */
  function InsOf(k: nat): Ins {
    if k < READ_L then Sets(k)
    else if k == READ_L then Pushes(L)
    else if k == READ_A_B then Ins(St, [RegOp(RegNo(A)), ConstOp(0), RegOp(RegNo(B))], [None, None, None])
    else Pushes(if k < 22 then k - 14 else C)
  }

  function Code(): (code: seq<Ins>)
    ensures |code| == COUNT && forall k: nat :: k < COUNT ==> code[k] == InsOf(k)
  {
    seq(COUNT, k requires 0 <= k < COUNT => InsOf(k))
  }

  lemma StoreReads(r: RegId)
    ensures var ins := InsOf(READ_A_B); WfIns(ins) && DstOf(ins) == None && (UsesReg(ins, r) <==> r == RegNo(A) || r == RegNo(B))
  {
    var ins := InsOf(READ_A_B);
    assert ins.operands[0] == RegOp(RegNo(A)) && ins.operands[2] == RegOp(RegNo(B));
  }

  lemma InsIsFor(k: nat)
    requires k < COUNT
    ensures InsFor(Places(), k, InsOf(k)) && LacFor(Places(), k, Code())
  {
    forall r
      ensures WfIns(InsOf(READ_A_B)) && DstOf(InsOf(READ_A_B)) == None && (UsesReg(InsOf(READ_A_B), r) <==> r == RegNo(A) || r == RegNo(B))
    {
      StoreReads(r);
    }
    var n: nat := if k < READ_L then k else if k == READ_L then L else if k < 22 && k != READ_A_B then k - 14 else C;
    if k != READ_A_B {
      forall r ensures WfIns(InsOf(k)) && DstOf(InsOf(k)) == (if k < READ_L then Some(RegNo(k)) else None)
        ensures UsesReg(InsOf(k), r) <==> k >= READ_L && r == RegNo(n)
      {
        PushesIs(n, r);
        hide UsesReg, DstOf, WfIns;
      }
    }
    hide UsesReg, DstOf, WfIns;
    assert forall c: nat :: c < COUNT ==> !IsCall(Code()[c].opcode);
  }

  lemma CodeIsFor()
    ensures CodeFor(Places(), Code())
  {
    forall k: nat | k < COUNT ensures InsFor(Places(), k, Code()[k]) && LacFor(Places(), k, Code()) { InsIsFor(k); }
    hide InsFor, LacFor;
  }

  function Places(): (base: seq<LiveRange>)
    ensures |base| == COUNT && forall k: nat :: k < COUNT ==> base[k] == Place(k)
  {
    seq(COUNT, k requires 0 <= k < COUNT => Place(k))
  }

  lemma PlaceIsOk(k: nat)
    requires k < COUNT
    ensures PlaceOk(Places(), k) && (k < READ_L ==> PlainDef(Places(), k)) && Places()[k] == Place(k)
  {
    var uses := Places()[k].uses;
    assert uses != [] ==> uses == (if k == READ_L then [L] else if k == READ_A_B then [A, B] else [if k < 22 then k - 14 else C]);
    forall u | u in uses ensures u < READ_L && Places()[u].span.lastUse == k {}
  }

  lemma AllPlacesOk()
    ensures |Places()| == COUNT && PlacesOk(Places()) && forall k: nat :: k < READ_L ==> PlainDef(Places(), k)
  {
    forall k: nat | k < COUNT ensures PlaceOk(Places(), k) && (k < READ_L ==> PlainDef(Places(), k)) { PlaceIsOk(k); }
    hide PlaceOk, PlainDef;
  }

  function LocsAt(i: nat): (locs: seq<Loc>)
    requires A <= i <= READ_A_B
    ensures |locs| == COUNT
  {
    var r14 := InReg(R(14));
    var none := FirstRegs(COUNT, 8);
    if i == A then none
    else
      var a := none[A := Spilled][7 := Spilled];
      if i == B then a
      else if i == C then a[B := r14]
      else
        var c := a[B := r14][C := Spilled][B := Spilled];
        if i == L then c else c[L := r14]
  }

  function Now(i: nat, free: set<nat>): Scene
    requires A <= i <= READ_A_B
  {
    Shot(Places(), LocsAt(i), free)
  }

  lemma PickHere(locs: seq<Loc>, i: nat, pos: int)
    requires |locs| == COUNT && i < COUNT
    ensures Spillable(Locs(Places(), locs)[i], pos, Gpr) <==> i < READ_L && locs[i] != Spilled && Place(i).span.lastUse > pos
  {
    PlaceIsOk(i);
    hide Places, PlaceOk;
  }

  lemma SpillsA()
    ensures Step(Now(A, {}), true, A) == Some(Now(B, {14}))
  {
    var locs := LocsAt(A)[A := Spilled];
    assert LocsAt(A)[7] == InReg(R(14));
    PlaceIsOk(A);
    PickHere(locs, 7, A);
    hide Locs, FirstRegs, Spillable, Step, Places, PlainDef, PlaceOk;
    SpillsHere(Places(), LocsAt(A), A, 7, 14);
  }

  lemma SpillsC()
    ensures Step(Now(C, {}), true, C) == Some(Now(L, {14}))
  {
    var locs := LocsAt(C)[C := Spilled];
    PlaceIsOk(C);
    PickHere(locs, B, C);
    hide Locs, FirstRegs, Spillable, Step, Places, PlainDef, PlaceOk;
    SpillsHere(Places(), LocsAt(C), C, B, 14);
  }

  lemma TakesBAndL()
    ensures Step(Now(B, {14}), true, B) == Some(Now(C, {}))
    ensures Step(Now(L, {14}), true, L) == Some(Now(READ_L, {}))
  {
    assert Lowest({14}, 14) && {14} - {14} == {};
    PlaceIsOk(B);
    PlaceIsOk(L);
    hide Step, FirstRegs, Places, PlainDef, PlaceOk;
    TakesHere(Places(), LocsAt(B), {14}, B, 14);
    TakesHere(Places(), LocsAt(L), {14}, L, 14);
  }

  /** L was not spilled, so there is nothing to load. */
  lemma EndsL()
    ensures Step(Now(READ_L, {}), true, READ_L) == Some(Now(READ_A_B, {14}))
  {
    var sc := Now(READ_L, {});
    PlaceIsOk(READ_L);
    PlaceIsOk(L);
    hide Places, PlaceOk, PlainDef;
    assert sc.rs[READ_L].uses == [L] && sc.rs[L].loc == InReg(R(14)) && sc.rs[L].span.lastUse == READ_L;
    GiveHere({}, 14);
    assert {} + {14} == {14};
    hide Pool, Locs, FirstRegs, PoolState.Give, Claim;
    assert !NeedsScratch(sc.rs, L) && EndsHere(sc.rs, L, READ_L);
    assert Serve(sc, true, READ_L, 0) == Serving(sc, []);
    assert Serve(sc, true, READ_L, 1) == Serving(sc, []);
    assert EndUses(sc, READ_L, [L], 0) == sc;
    assert EndUses(sc, READ_L, [L], 1) == Now(READ_A_B, {14});
  }

  lemma LocsInTheEnd()
    ensures LocsAt(READ_A_B)[A] == Spilled && LocsAt(READ_A_B)[B] == Spilled && LocsAt(READ_A_B)[L] == InReg(R(14))
  {
    LocsLater(FirstRegs(COUNT, 8), InReg(R(14)));
    hide FirstRegs;
  }

  lemma LocsLater(none: seq<Loc>, r14: Loc)
    requires |none| == COUNT
    ensures var locs := none[A := Spilled][7 := Spilled][B := r14][C := Spilled][B := Spilled][L := r14];
      locs[A] == Spilled && locs[B] == Spilled && locs[L] == r14
  {
  }

  lemma ReadsTogether(free: set<nat>)
    ensures var rs := Now(READ_A_B, free).rs;
      && |rs| == COUNT && rs[READ_A_B].uses == [A, B] && rs[READ_A_B].span.defPos == READ_A_B
      && NeedsScratch(rs, A) && NeedsScratch(rs, B) && rs[A].kind == Gpr && rs[B].kind == Gpr && rs[B].span.defPos == B
  {
    LocsInTheEnd();
    PlaceIsOk(READ_A_B);
    PlaceIsOk(A);
    PlaceIsOk(B);
    hide Pool, LocsAt, Places, PlaceOk, PlainDef;
  }

  lemma ServesA()
    ensures Serve(Now(READ_A_B, {14}), true, READ_A_B, 1) == Serving(Now(READ_A_B, {}), [R(14)])
  {
    var sc := Now(READ_A_B, {14});
    assert Lowest({14}, 14) && {14} - {14} == {};
    AskHere(Places(), LocsAt(READ_A_B), {14}, READ_A_B, 14);
    ReadsTogether({14});
    hide Pool, Locs, LocsAt, FirstRegs, Ask, Pick, Places;
    assert Serve(sc, true, READ_A_B, 0) == Serving(sc, []);
    assert [] + [R(14)] == [R(14)];
  }

  /** L is over, but it ends after the definition of B. */
  lemma FindsL(locs: seq<Loc>)
    requires |locs| == COUNT && locs[L] != Spilled
    ensures Pick(Locs(Places(), locs), READ_L, B, Gpr) == L
  {
    PickHere(locs, READ_L, B);
    PickHere(locs, L, B);
    assert Pick(Locs(Places(), locs), L, B, Gpr) == L by { hide Spillable, Locs; }
    hide Spillable, Locs, Places;
  }

  lemma ServesB()
    ensures Serve(Now(READ_A_B, {14}), true, READ_A_B, 2) == Serving(Shot(Places(), LocsAt(READ_A_B)[L := Spilled], {}), [R(14), R(14)])
  {
    var locs := LocsAt(READ_A_B);
    LocsInTheEnd();
    hide LocsAt, FirstRegs, Claim, Pick, Serve, Pool, Places;
    ReadsTogether({14});
    ReadsTogether({});
    ServesA();
    FindsL(locs);
    ClaimHere(Places(), locs, READ_A_B, B, READ_L, L, 14);
    ServeNext(Now(READ_A_B, {14}), true, READ_A_B, 1, Now(READ_A_B, {}), [R(14)]);
    assert [R(14)] + [R(14)] == [R(14), R(14)];
  }

  lemma UpToReads()
    ensures SceneAt(Start(Places()), true, READ_A_B) == Some(Now(READ_A_B, {14}))
  {
    AllPlacesOk();
    FillsPool(Places(), 8);
    assert FreeFrom(8) == {};
    assert LocsAt(A) == FirstRegs(COUNT, 8);
    SpillsA();
    TakesBAndL();
    SpillsC();
    EndsL();
    hide Step, LocsAt, Locs, Pool, FreeFrom, FirstRegs, Places, PlacesOk, PlainDef;
    var sc := Start(Places());
    assert SceneAt(sc, true, B) == Some(Now(B, {14}));
    assert SceneAt(sc, true, C) == Some(Now(C, {}));
    assert SceneAt(sc, true, L) == Some(Now(L, {14}));
    assert SceneAt(sc, true, READ_L) == Some(Now(READ_L, {}));
  }

  /** The scan starts as it should, with the whole A32 pool and nothing reserved, and the instruction
      that reads A and B gets r14 for both. */
  lemma TwoScratchAlike()
    ensures var sc := Start(Places());
      && Describes(sc.rs, Code(), Spill.Iota(COUNT), {})
      && A32Pool(sc.pool) && Scanned(sc.rs, 0, BEFORE_BBL - 1, sc.pool) && EndsOnRecord(sc.rs) && SceneAt(sc, true, READ_A_B).Some?
      && var now := SceneAt(sc, true, READ_A_B).value;
         |now.rs| == COUNT && now.rs[READ_A_B].uses == [A, B] && NeedsScratch(now.rs, A) && NeedsScratch(now.rs, B)
         && Serve(now, true, READ_A_B, 2).Serving? && Serve(now, true, READ_A_B, 2).temps == [R(14), R(14)]
  {
    UpToReads();
    ServesB();
    ReadsTogether({14});
    AllPlacesOk();
    CodeIsFor();
    CodeHasRanges(Places(), Code());
    ScanMayStart(Places());
    hide Pool, Serve, SceneAt, WfRanges, EndsOnRecord, FreeFrom, PoolState.Valid, FirstRegs, LocsAt, Locs, Nothing, Scanned, NeedsScratch, Places, PlacesOk, A32Pool, Describes, Code, CodeFor;
  }

  // ---------------------------------------------------------------- giving up

  /* Eight definitions fill the caller-saved registers. S lives across a call and gets r6. N does not,
     and no caller-saved register is left: it is spilled. It needs a scratch register, and the
     nearest range is S; but r6 does not go to ranges that live across no call. */

  const S: nat := 8
  const N: nat := 9
  const SHORT: nat := 20

  function Item(k: nat): LiveRange {
    if k < S then Def(k, 10 + k, false)
    else if k == S then Def(k, 19, true)
    else if k == N then Def(k, 18, false)
    else if k < 18 then Read(k, [k - 10])
    else if k == 18 then Read(k, [N])
    else Read(k, [S])
  }

  /** The instruction at each place; N is where a call jumps to. */
  function ItemIns(k: nat): Ins {
    if k < 10 then Sets(k)
    else if k < 18 then Pushes(k - 10)
    else if k == 18 then Ins(Call(Jsr), [RegOp(RegNo(N))], [None])
    else Pushes(S)
  }

  function ItemCode(): (code: seq<Ins>)
    ensures |code| == SHORT && forall k: nat :: k < SHORT ==> code[k] == ItemIns(k)
  {
    seq(SHORT, k requires 0 <= k < SHORT => ItemIns(k))
  }

  lemma CallReads(r: RegId)
    ensures var ins := ItemIns(18); WfIns(ins) && DstOf(ins) == None && (UsesReg(ins, r) <==> r == RegNo(N))
  {
    assert ItemIns(18).operands[0] == RegOp(RegNo(N));
  }

  lemma ItemInsIsFor(k: nat)
    requires k < SHORT
    ensures InsFor(Items(), k, ItemIns(k)) && LacFor(Items(), k, ItemCode())
  {
    var n: nat := if k < 10 then k else if k < 18 then k - 10 else if k == 18 then N else S;
    forall r ensures WfIns(ItemIns(k)) && DstOf(ItemIns(k)) == (if k < 10 then Some(RegNo(k)) else None) &&
        (UsesReg(ItemIns(k), r) <==> k >= 10 && r == RegNo(n))
    {
      PushesIs(n, r);
      CallReads(r);
      hide UsesReg, DstOf, WfIns;
    }
    hide UsesReg, DstOf, WfIns;
    if k < 10 { CallsAt18(k); }
  }

  lemma CallsAt18(k: nat)
    requires k < 10
    ensures CallBetween(ItemCode(), Spill.Iota(SHORT), k, Item(k).span.lastUse) <==> k == S
  {
    var ids := Spill.Iota(SHORT);
    assert forall c: nat :: c < SHORT ==> InsIn(ItemCode(), ids, c) == ItemIns(c) && (IsCall(ItemIns(c).opcode) <==> c == 18);
    if k == S { assert S < 18 < Item(k).span.lastUse && IsCall(InsIn(ItemCode(), ids, 18).opcode); }
  }

  lemma ItemCodeIsFor()
    ensures CodeFor(Items(), ItemCode())
  {
    forall k: nat | k < SHORT ensures InsFor(Items(), k, ItemCode()[k]) && LacFor(Items(), k, ItemCode()) { ItemInsIsFor(k); }
    hide InsFor, LacFor;
  }

  function Items(): (base: seq<LiveRange>)
    ensures |base| == SHORT && forall k: nat :: k < SHORT ==> base[k] == Item(k)
  {
    seq(SHORT, k requires 0 <= k < SHORT => Item(k))
  }

  lemma ItemIsOk(k: nat)
    requires k < SHORT
    ensures PlaceOk(Items(), k) && (k < S || k == N ==> PlainDef(Items(), k)) && Items()[k] == Item(k)
  {
    var uses := Items()[k].uses;
    assert uses != [] ==> uses == [if k < 18 then k - 10 else if k == 18 then N else S];
    forall u | u in uses ensures u < 10 && Items()[u].span.lastUse == k {}
  }

  lemma AllItemsOk()
    ensures |Items()| == SHORT && PlacesOk(Items()) && forall k: nat :: k < S ==> PlainDef(Items(), k)
  {
    forall k: nat | k < SHORT ensures PlaceOk(Items(), k) && (k < S ==> PlainDef(Items(), k)) { ItemIsOk(k); }
    hide PlaceOk, PlainDef;
  }

  /** With r6 gone to S and nothing else left that calls clobber. */
  function Stuck(): Scene {
    Scene(Locs(Items(), FirstRegs(SHORT, 8)[S := InReg(R(6))]), Pool({}).Take(R(6), true))
  }

  lemma SavedAnswer(lr: Span)
    ensures Answer(Pool({}), Gpr, true, lr) == Some(R(6))
  {
    var st, found := Pool({}), Search(Pool({}), Gpr, true, lr, 0);
    forall k: nat ensures st.Candidate(R(k), true, lr) <==> 6 <= k < 12 {
      assert GprBit(k) in st.lac <==> 6 <= k < 12;
      assert forall b :: b in AllocMask(R(k)) <==> b == GprBit(k);
      hide LocalAlloc.FLT_CALLEE_SAVE;
    }
    hide Pool, PoolState.Candidate, Search;
    assert st.Candidate(CpuReg(Gpr, 6), true, lr);
    if found.Some? { assert found.value == R(found.value.no); }
  }

  lemma TakesR6()
    ensures Step(Shot(Items(), FirstRegs(SHORT, 8), {}), true, S) == Some(Stuck())
  {
    ItemIsOk(S);
    SavedAnswer(Item(S).span);
    LocHere(Items(), FirstRegs(SHORT, 8), S, InReg(R(6)));
    hide Pool, Answer, PoolState.Take, PoolState.Give, REGS, Claim, Locs, UseStep, FirstRegs, Items, PlaceOk, PlainDef;
    assert AssignStep(Shot(Items(), FirstRegs(SHORT, 8), {}), true, S) == Some(Stuck());
  }

  lemma NobodyLeft(kind: Kind, pos: int)
    requires kind == Gpr
    ensures !CanHand(Stuck().pool, kind, pos)
  {
    forall n: nat | n < 16 ensures !Stuck().pool.Candidate(CpuReg(kind, n), false, WhileAt(pos)) {
      CandidateHere({}, n, WhileAt(pos));
      assert Stuck().pool.notLac == Pool({}).notLac;
      hide Pool, FirstRegs, Items;
    }
    hide Stuck, PoolState.Candidate;
  }

  lemma StuckOnN()
    requires Scanned(Stuck().rs, N, N, Stuck().pool)
    ensures |Stuck().rs| == SHORT && Step(Stuck(), true, N) == None
  {
    var sc := Stuck();
    ItemIsOk(N);
    ItemIsOk(S);
    assert Pick(sc.rs, S, N, Gpr) == S && sc.rs[S].loc == InReg(R(6)) by { hide Items, PlaceOk, PlainDef, Pool, FirstRegs; }
    assert sc.rs[N].span.defPos == N && sc.rs[N].kind == Gpr && Allocates(sc.rs[N]) && !sc.rs[N].lac by { hide Items, PlaceOk, Pool, FirstRegs; }
    NobodyLeft(Gpr, N);
    AnswerHere({}, sc.rs[N].span, 0);
    assert Scratchable({});
    hide Stuck, CanHand, Items, PlaceOk, PlainDef, Pool, FirstRegs, Scanned, Answer, Spillable, DefStep;
    DefGivesUpIff(sc, N);
  }

  lemma UpToN()
    ensures SceneAt(Start(Items()), true, N) == Some(Stuck())
  {
    AllItemsOk();
    FillsPool(Items(), 8);
    assert FreeFrom(8) == {};
    TakesR6();
    hide Step, Locs, Pool, FreeFrom, FirstRegs, Items, PlacesOk, PlainDef, Stuck, Nothing;
    assert SceneAt(Start(Items()), true, S) == Some(Shot(Items(), FirstRegs(SHORT, 8), {}));
  }

  lemma StuckAt()
    ensures |Stuck().rs| == SHORT && Stuck().rs[N].span.defPos == N
  {
    ItemIsOk(N);
    hide Items, PlaceOk, PlainDef, Pool, FirstRegs;
  }

  /** The scan gives up on N, although r7 to r11 are available and r6 is taken away from S. */
  lemma GivesUp()
    ensures var sc := Start(Items());
      && Describes(sc.rs, ItemCode(), Spill.Iota(SHORT), {})
      && A32Pool(sc.pool) && Scanned(sc.rs, 0, BEFORE_BBL - 1, sc.pool) && EndsOnRecord(sc.rs)
      && SceneAt(sc, true, N) == Some(Stuck()) && SceneAt(sc, true, N + 1) == None
  {
    var sc := Start(Items());
    AllItemsOk();
    assert |sc.rs| == SHORT && sc.rs == Locs(Items(), Nothing(SHORT)) by { hide Pool, FreeFrom, Items, PlacesOk, PlainDef, Locs, Nothing; }
    hide *;
    ItemCodeIsFor();
    CodeHasRanges(Items(), ItemCode());
    ScanMayStart(Items());
    UpToN();
    StuckAt();
    ReadyFor(sc, true, N, Stuck());
    StuckOnN();
  }
}
