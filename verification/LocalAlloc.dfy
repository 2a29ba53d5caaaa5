/** Register allocation for one block: live ranges, linear scan, assignment. Registers that already
    have a machine register keep it; all others live within the block and are set once. */
module LocalAlloc {
  import opened IR
  import opened Liveness
  import opened RegPool
  import opened LiveRanges
  import opened SortRanges
  import opened LinearScan
  import opened MachineCode

  // ---------------------------------------------------------------- setting up the pool

  const GPR_CALLEE_SAVE: set<Bit> := set n: nat | 6 <= n < 12 :: GprBit(n)
  const GPR_NOT_LAC: set<Bit> := (set n: nat | n < 6 :: GprBit(n)) + {GprBit(12), GprBit(14)}
  const FLT_CALLEE_SAVE: set<Bit> := set n: nat | 16 <= n < 32 :: FltBit(n)
  const FLT_PARAMETER: set<Bit> := set n: nat | n < 16 :: FltBit(n)

  /** The allocator may use r0 to r12, r14 and all floating-point registers, but not the stack pointer
      and the program counter. r6 to r11 and s16 to s31 survive calls. */
  ghost predicate FreshPool(st: PoolState) {
    && (forall n: nat :: (GprBit(n) in st.lac <==> 6 <= n < 12) && (FltBit(n) in st.lac <==> 16 <= n < 32))
    && (forall n: nat :: (GprBit(n) in st.notLac <==> n < 6 || n == 12 || n == 14) && (FltBit(n) in st.notLac <==> n < 16))
  }

  /** Reserved stretches that share a bit are not the same stretch. */
  ghost predicate DistinctReserved(rs: seq<LiveRange>) {
    forall j, k :: 0 <= j < k < |rs| && Reserved(rs[j]) && Reserved(rs[k]) && !(Bits(rs[j]) !! Bits(rs[k])) ==> rs[j].span != rs[k].span
  }

  /** The pool's lists hold exactly the reserved stretches among the first k ranges. */
  ghost predicate Loaded(rs: seq<LiveRange>, k: nat, reserved: map<Bit, seq<Span>>) {
    && (forall p, b :: 0 <= p < k && p < |rs| && Reserved(rs[p]) && b in Bits(rs[p]) ==> b in reserved && rs[p].span in reserved[b])
    && (forall b, x :: b in reserved && 0 <= x < |reserved[b]| ==> FromRange(rs, k, b, reserved[b][x]))
  }

  ghost predicate FromRange(rs: seq<LiveRange>, k: nat, b: Bit, s: Span) {
    exists p :: 0 <= p < k && p < |rs| && Reserved(rs[p]) && b in Bits(rs[p]) && rs[p].span == s
  }

  lemma MayReserveNext(rs: seq<LiveRange>, k: nat, st: PoolState, b: Bit)
    requires k < |rs| && WfRanges(rs) && DistinctReserved(rs) && Reserved(rs[k]) && b in Bits(rs[k]) && Loaded(rs, k, st.reserved)
    ensures st.MayReserve(b, rs[k].span)
  {
    if b in st.reserved && st.reserved[b] != [] {
      assert FromRange(rs, k, b, st.reserved[b][|st.reserved[b]| - 1]);
      var p :| 0 <= p < k && Reserved(rs[p]) && b in Bits(rs[p]) && rs[p].span == st.reserved[b][|st.reserved[b]| - 1];
      assert !(Bits(rs[p]) !! Bits(rs[k]));
      hide Bits, WfRange;
    }
  }

  lemma LoadedNext(rs: seq<LiveRange>, k: nat, st: PoolState)
    requires k < |rs| && Reserved(rs[k]) && rs[k].loc.InReg? && rs[k].loc.cpu.no < NumRegs(rs[k].loc.cpu.kind)
    requires Loaded(rs, k, st.reserved) && st.reserved.Keys == ALL_BITS
    ensures Loaded(rs, k + 1, st.ReserveReg(rs[k].loc.cpu, rs[k].span).reserved)
  {
    var reserved' := st.ReserveReg(rs[k].loc.cpu, rs[k].span).reserved;
    AllBitsInRange();
    ReservedAfter(st, rs[k].loc.cpu, rs[k].span);
    hide AllocMask, PoolState.ReserveReg, InRange;
    forall b, x | b in reserved' && 0 <= x < |reserved'[b]| ensures FromRange(rs, k + 1, b, reserved'[b][x]) {
      if x < |st.reserved[b]| {
        assert FromRange(rs, k, b, st.reserved[b][x]);
        var p :| 0 <= p < k && Reserved(rs[p]) && b in Bits(rs[p]) && rs[p].span == st.reserved[b][x];
        assert rs[p].span == reserved'[b][x];
      } else {
        assert rs[k].span == reserved'[b][x];
      }
    }
    forall p, b | 0 <= p < k + 1 && Reserved(rs[p]) && b in Bits(rs[p]) ensures b in reserved' && rs[p].span in reserved'[b] {
      if p < k { assert rs[p].span in st.reserved[b]; } else { assert rs[k].span in [rs[k].span]; }
    }
  }

  lemma ReservedAfter(st: PoolState, reg: CpuReg, lr: Span)
    requires st.reserved.Keys == ALL_BITS && reg.no < NumRegs(reg.kind)
    ensures var reserved' := st.ReserveReg(reg, lr).reserved;
      && reserved'.Keys == ALL_BITS
      && (forall b :: b in AllocMask(reg) ==> b in ALL_BITS)
      && forall b :: b in ALL_BITS ==> reserved'[b] == st.reserved[b] + if b in AllocMask(reg) then [lr] else []
  {
    AllBitsInRange();
  }

  lemma LoadedSkip(rs: seq<LiveRange>, k: nat, reserved: map<Bit, seq<Span>>)
    requires k < |rs| && !Reserved(rs[k]) && Loaded(rs, k, reserved)
    ensures Loaded(rs, k + 1, reserved)
  {
    hide Bits, Reserved;
    forall b, x | b in reserved && 0 <= x < |reserved[b]| ensures FromRange(rs, k + 1, b, reserved[b][x]) {
      assert FromRange(rs, k, b, reserved[b][x]);
      var p :| 0 <= p < k && p < |rs| && Reserved(rs[p]) && b in Bits(rs[p]) && rs[p].span == reserved[b][x];
      assert 0 <= p < k + 1;
    }
  }

  /** The ranges the allocator decides on start without a register. */
  function Reset(rs: seq<LiveRange>): (rs': seq<LiveRange>)
    ensures |rs'| == |rs|
    ensures forall k :: 0 <= k < |rs| ==> rs'[k] == if rs[k].preAlloc then rs[k] else rs[k].(loc := Unassigned)
  {
    seq(|rs|, k requires 0 <= k < |rs| => if rs[k].preAlloc then rs[k] else rs[k].(loc := Unassigned))
  }

  lemma ResetKeeps(rs: seq<LiveRange>)
    requires WfRanges(rs) && DistinctReserved(rs) && (forall k :: 0 <= k < |rs| && rs[k].preAlloc ==> rs[k].uses == [])
    ensures WfRanges(Reset(rs)) && DistinctReserved(Reset(rs))
  {
    var rs' := Reset(rs);
    forall k | 0 <= k < |rs'| ensures WfRange(rs', k) { assert WfRange(rs, k); }
    hide WfRange;
  }

  /** The pool is set up but for the stretches from range k on. */
  ghost predicate PoolFor(pool: RegPoolArm, rs: seq<LiveRange>, k: nat)
    reads pool.Repr()
  {
    && pool.Valid(BEFORE_BBL) && pool.Unqueried() && pool.Separate()
    && pool.State().reserved.Keys == ALL_BITS && pool.State().Valid() && Loaded(rs, k, pool.State().reserved)
    && FreshPool(pool.State())
  }

  method NewPool(rs: seq<LiveRange>, allowSpilling: bool) returns (pool: RegPoolArm)
    ensures fresh(pool.Repr()) && pool.allowSpilling == allowSpilling && PoolFor(pool, rs, 0)
  {
    MaskClasses();
    pool := new RegPoolArm(allowSpilling, GPR_CALLEE_SAVE, GPR_NOT_LAC, FLT_CALLEE_SAVE, FLT_PARAMETER);
    NothingLoaded(rs, pool.State());
    NewIsFresh(pool.State());
    hide FreshPool;
    hide PoolState.Valid, Loaded, RegPoolArm.Valid, RegPoolArm.Separate, RegPoolArm.Unqueried;
  }

  lemma NewIsFresh(st: PoolState)
    requires st.lac == GPR_CALLEE_SAVE + FLT_CALLEE_SAVE && st.notLac == GPR_NOT_LAC + FLT_PARAMETER
    ensures FreshPool(st)
  {
  }

  lemma ReserveStaysFresh(st: PoolState, reg: CpuReg, lr: Span)
    requires FreshPool(st) && st.reserved.Keys == ALL_BITS && reg.no < NumRegs(reg.kind)
    ensures FreshPool(st.ReserveReg(reg, lr))
  {
    AllBitsInRange();
  }

  method ReserveRange(pool: RegPoolArm, rs: seq<LiveRange>, k: nat)
    requires WfRanges(rs) && DistinctReserved(rs) && k < |rs| && PoolFor(pool, rs, k) && Reserved(rs[k])
    modifies pool.Lists()
    ensures PoolFor(pool, rs, k + 1)
  {
    ReservedReg(rs, k);
    forall b | b in AllocMask(rs[k].loc.cpu) ensures pool.State().MayReserve(b, rs[k].span) {
      MayReserveNext(rs, k, pool.State(), b);
    }
    LoadedNext(rs, k, pool.State());
    ReserveKeepsPool(pool.State(), rs[k].loc.cpu, rs[k].span);
    ReserveStaysFresh(pool.State(), rs[k].loc.cpu, rs[k].span);
    hide WfRanges, DistinctReserved, Loaded, FreshPool, Bits, AllocMask, RegPoolArm.State, PoolState.ReserveReg, PoolState.Valid, PoolState.MayReserve,
         RegPoolArm.Valid, RegPoolArm.Separate, RegPoolArm.Unqueried;
    pool.AddReservedRange(rs[k].loc.cpu, rs[k].span);
  }

  /** A pool that knows all reserved stretches. */
  method SetUpPool(rs: seq<LiveRange>, allowSpilling: bool) returns (pool: RegPoolArm)
    requires WfRanges(rs) && DistinctReserved(rs) && (forall k :: 0 <= k < |rs| && rs[k].preAlloc ==> rs[k].uses == [])
    requires forall k :: 0 <= k < |rs| && !rs[k].preAlloc ==> rs[k].loc == Unassigned
    ensures fresh(pool.Repr()) && pool.allowSpilling == allowSpilling
    ensures pool.Valid(BEFORE_BBL) && Scanned(rs, 0, BEFORE_BBL - 1, pool.State())
    ensures FreshPool(pool.State()) && Loaded(rs, |rs|, pool.State().reserved)
  {
    pool := NewPool(rs, allowSpilling);
    hide WfRanges, DistinctReserved, PoolFor;
    for k := 0 to |rs|
      invariant PoolFor(pool, rs, k) && fresh(pool.Repr())
    {
      if rs[k].preAlloc {
        ReserveRange(pool, rs, k);
      } else {
        SkipRange(pool, rs, k);
      }
    }
    PoolReady(pool, rs);
  }

  method Assign(rs0: seq<LiveRange>, pool: RegPoolArm) returns (ok: bool, rs: seq<LiveRange>)
    requires pool.Valid(BEFORE_BBL) && Scanned(rs0, 0, BEFORE_BBL - 1, pool.State())
    modifies pool.Repr()
    ensures SameButLocs(rs0, rs)
    ensures ok ==> Allocated(rs)
    ensures ok && !pool.allowSpilling ==> NoSpilled(rs)
    ensures EndsAs(Scene(rs0, old(pool.State())), pool.allowSpilling, ok, rs)
  {
    hide SceneAt;
    var scan := new Scan(rs0, pool);
    hide Scanned, RegPoolArm.Valid, RegPoolArm.State, SameButLocs, Allocated, NoSpilled;
    ok := scan.RegisterAssignerLinearScanFancy();
    rs := scan.ranges;
  }

  /** Sets up the pool, which offers all registers that may be used and knows the reserved stretches,
      and runs the scan. */
  method RunLinearScan(rs0: seq<LiveRange>, allowSpilling: bool) returns (ok: bool, rs: seq<LiveRange>, ghost start: PoolState)
    requires WfRanges(rs0) && DistinctReserved(rs0) && (forall k :: 0 <= k < |rs0| && rs0[k].preAlloc ==> rs0[k].uses == [])
    ensures SameButLocs(Reset(rs0), rs)
    ensures ok ==> Allocated(rs)
    ensures ok && !allowSpilling ==> NoSpilled(rs)
    ensures FreshPool(start) && Loaded(Reset(rs0), |rs0|, start.reserved) && Scanned(Reset(rs0), 0, BEFORE_BBL - 1, start)
    ensures EndsAs(Scene(Reset(rs0), start), allowSpilling, ok, rs)
  {
    hide FreshPool, Loaded, EndsAs;
    ResetKeeps(rs0);
    hide WfRanges, DistinctReserved, SameButLocs, Allocated, NoSpilled, Scanned, RegPoolArm.Valid, RegPoolArm.State;
    var pool := SetUpPool(Reset(rs0), allowSpilling);
    start := pool.State();
    ok, rs := Assign(Reset(rs0), pool);
  }

  lemma SkipRange(pool: RegPoolArm, rs: seq<LiveRange>, k: nat)
    requires k < |rs| && !rs[k].preAlloc && PoolFor(pool, rs, k)
    ensures PoolFor(pool, rs, k + 1)
  {
    LoadedSkip(rs, k, pool.State().reserved);
    hide Loaded;
  }

  lemma PoolReady(pool: RegPoolArm, rs: seq<LiveRange>)
    requires WfRanges(rs) && PoolFor(pool, rs, |rs|)
    requires forall k :: 0 <= k < |rs| && !rs[k].preAlloc ==> rs[k].loc == Unassigned
    ensures pool.Valid(BEFORE_BBL) && Scanned(rs, 0, BEFORE_BBL - 1, pool.State())
    ensures FreshPool(pool.State()) && Loaded(rs, |rs|, pool.State().reserved)
  {
    ScanStarts(rs, pool.State());
    hide Loaded, WfRanges, Scanned, FreshPool;
  }

  lemma MaskClasses()
    ensures PoolMasks(GPR_CALLEE_SAVE, GPR_NOT_LAC, FLT_CALLEE_SAVE, FLT_PARAMETER)
  {
  }

  lemma NothingLoaded(rs: seq<LiveRange>, st: PoolState)
    requires st.reserved == map b | b in ALL_BITS :: []
    requires st.lac == GPR_CALLEE_SAVE + FLT_CALLEE_SAVE && st.notLac == GPR_NOT_LAC + FLT_PARAMETER
    ensures Loaded(rs, 0, st.reserved) && st.Valid() && st.reserved.Keys == ALL_BITS
  {
    MaskClasses();
  }

  lemma ReservedReg(rs: seq<LiveRange>, k: nat)
    requires WfRanges(rs) && k < |rs| && Reserved(rs[k])
    ensures rs[k].loc.InReg? && rs[k].loc.cpu.no < NumRegs(rs[k].loc.cpu.kind) && Bits(rs[k]) == AllocMask(rs[k].loc.cpu)
  {
    assert WfRange(rs, k);
  }

  lemma ReserveKeepsPool(st: PoolState, reg: CpuReg, lr: Span)
    requires st.Valid() && reg.no < NumRegs(reg.kind)
    ensures st.ReserveReg(reg, lr).Valid() && st.ReserveReg(reg, lr).reserved.Keys == ALL_BITS
  {
    ReservedAfter(st, reg, lr);
  }

  lemma ScanStarts(rs: seq<LiveRange>, st: PoolState)
    requires WfRanges(rs) && st.Valid() && Loaded(rs, |rs|, st.reserved)
    requires forall k :: 0 <= k < |rs| && !rs[k].preAlloc ==> rs[k].loc == Unassigned
    ensures Scanned(rs, 0, BEFORE_BBL - 1, st)
  {
    hide WfRanges, Bits, PoolState.Valid;
  }

  // ---------------------------------------------------------------- from ranges to a coloring

  /** The registers of `fixed` keep out of each other's way, as global allocation must see to. */
  ghost predicate FixedColored(code: seq<Ins>, ids: seq<InsId>, out: set<RegId>, fixed: Assignment) {
    && (forall r :: r in fixed ==> fixed[r].no < NumRegs(fixed[r].kind))
    && (forall q, r :: q in fixed && r in fixed && q != r && q in LiveAt(code, ids, 0, out) && r in LiveAt(code, ids, 0, out) ==>
          AllocMask(fixed[q]) !! AllocMask(fixed[r]))
    && (forall k: nat :: k < |ids| ==> FixedColoredAt(code, ids, out, fixed, k))
  }

  ghost predicate FixedColoredAt(code: seq<Ins>, ids: seq<InsId>, out: set<RegId>, fixed: Assignment, k: nat)
    requires k < |ids|
  {
    var ins, after := InsAt(code, ids[k]), LiveAt(code, ids, k + 1, out);
    && (forall r, q :: DstOf(ins) == Some(r) && r in fixed && q in after && q in fixed && q != r ==> AllocMask(fixed[r]) !! AllocMask(fixed[q]))
    && (IsCall(ins.opcode) ==> forall q :: q in after && q in fixed ==> SurvivesCalls(fixed[q]))
  }

  /** The other registers live inside the block and are set in one place. */
  ghost predicate LocalOnce(code: seq<Ins>, ids: seq<InsId>, out: set<RegId>, fixed: Assignment) {
    && (forall r :: r in out || r in LiveAt(code, ids, 0, out) ==> r in fixed)
    && (forall p: nat, q: nat :: p < q < |ids| && DstOf(InsIn(code, ids, p)).Some? && DstOf(InsIn(code, ids, p)).value !in fixed ==>
          DstOf(InsIn(code, ids, q)) != DstOf(InsIn(code, ids, p)))
  }

  /** Ranges of fixed registers, and only those, come with their register. */
  ghost predicate Marked(rs: seq<LiveRange>, fixed: Assignment) {
    && (forall j :: 0 <= j < |rs| ==> !rs[j].ignore && (rs[j].preAlloc <==> rs[j].uses == [] && rs[j].reg in fixed))
    && (forall j :: 0 <= j < |rs| && rs[j].preAlloc ==> rs[j].loc == InReg(fixed[rs[j].reg]))
  }

  /** The ranges of an assigned register have that machine register. */
  ghost predicate Follows(rs: seq<LiveRange>, cpu: Assignment) {
    forall j :: 0 <= j < |rs| && rs[j].uses == [] && rs[j].reg in cpu ==> rs[j].loc == InReg(cpu[rs[j].reg])
  }

  /** One range starts at k, the other holds its register across k. */
  lemma RangesApart(rs: seq<LiveRange>, i: nat, j: nat, k: int)
    requires WfRanges(rs) && Allocated(rs) && i < |rs| && j < |rs| && rs[i].uses == [] && rs[j].uses == []
    requires rs[j].span.defPos == k && rs[i].span.defPos < k < rs[i].span.lastUse < NO_USE
    requires rs[i].loc.InReg? && rs[j].loc.InReg? && !rs[i].ignore && !rs[j].ignore && !(rs[i].preAlloc && rs[j].preAlloc)
    ensures Bits(rs[j]) !! Bits(rs[i])
  {
    StartsInOrder(rs, i, j);
    assert WfRange(rs, j);
    hide Bits, WfRanges, Placed;
    if rs[i].preAlloc {
      assert Reserved(rs[i]) && Overlaps(rs[i].span, rs[j].span);
      assert !Contend(rs[i], rs[j]);
    } else if rs[j].preAlloc {
      assert Reserved(rs[j]) && Overlaps(rs[j].span, rs[i].span);
      assert !Contend(rs[j], rs[i]);
    } else {
      assert Meets(rs, i, j);
    }
  }

  lemma StartsInOrder(rs: seq<LiveRange>, i: nat, j: nat)
    requires WfRanges(rs) && i < |rs| && j < |rs| && rs[i].span.defPos < rs[j].span.defPos
    ensures i < j
  {
    if j < i { SortedDefs(rs, j, i); }
  }

  lemma RangeOf(rs: seq<LiveRange>, code: seq<Ins>, ids: seq<InsId>, out: set<RegId>, q: RegId, k: int) returns (i: nat)
    requires Describes(rs, code, ids, out) && -1 <= k < |ids| && q in LiveAt(code, ids, k + 1, out)
    ensures i < |rs| && Covers(rs[i], q, k) && RangeRight(code, ids, out, rs[i])
  {
    assert LiveAfter(code, ids, out, k, q);
    hide LiveAt, RangeRight, ReadsRecorded, SomeStarts;
    assert SomeCovers(rs, q, k);
    i :| 0 <= i < |rs| && Covers(rs[i], q, k);
  }

  lemma WriteIsApart(rs: seq<LiveRange>, code: seq<Ins>, ids: seq<InsId>, out: set<RegId>, fixed: Assignment, cpu: Assignment, k: nat, r: RegId, q: RegId)
    requires Describes(rs, code, ids, out) && WfRanges(rs) && Allocated(rs) && Marked(rs, fixed) && Follows(rs, cpu)
    requires k < |ids| && DstOf(InsIn(code, ids, k)) == Some(r) && q in LiveAt(code, ids, k + 1, out) && q != r && !(q in fixed && r in fixed)
    requires r in cpu && q in cpu
    ensures AllocMask(cpu[r]) !! AllocMask(cpu[q])
  {
    var i := RangeOf(rs, code, ids, out, q, k);
    assert SomeStarts(rs, r, k) by { hide RangeRight, ReadsRecorded, SomeStarts, SomeCovers, LiveAfter; }
    var j :| 0 <= j < |rs| && rs[j].uses == [] && rs[j].reg == r && rs[j].span.defPos == k;
    assert rs[i].span.defPos != k;
    hide Describes, WfRanges, Allocated, AllocMask, DstOf, RangeRight;
    RangesApart(rs, i, j, k);
    assert Bits(rs[i]) == AllocMask(cpu[q]) && Bits(rs[j]) == AllocMask(cpu[r]);
  }

  lemma CallSpares(rs: seq<LiveRange>, code: seq<Ins>, ids: seq<InsId>, out: set<RegId>, fixed: Assignment, cpu: Assignment, k: nat, q: RegId)
    requires Describes(rs, code, ids, out) && Allocated(rs) && Marked(rs, fixed) && Follows(rs, cpu)
    requires k < |ids| && IsCall(InsIn(code, ids, k).opcode) && q in LiveAt(code, ids, k + 1, out) && q !in fixed && q in cpu
    ensures SurvivesCalls(cpu[q])
  {
    var i := RangeOf(rs, code, ids, out, q, k);
    CallHasNoDst(InsIn(code, ids, k));
    assert rs[i].span.defPos != k;
    assert CallBetween(code, ids, rs[i].span.defPos, rs[i].span.lastUse);
    assert Allocates(rs[i]) && PlacedOne(rs[i]);
  }

  lemma CallHasNoDst(ins: Ins)
    requires IsCall(ins.opcode)
    ensures DstOf(ins) == None
  {
  }

  /** Ranges allocated apart color the block, as far as registers are assigned. */
  lemma RangesColor(rs: seq<LiveRange>, code: seq<Ins>, ids: seq<InsId>, out: set<RegId>, fixed: Assignment, cpu: Assignment)
    requires Describes(rs, code, ids, out) && WfRanges(rs) && Allocated(rs) && Marked(rs, fixed) && Follows(rs, cpu)
    requires FixedColored(code, ids, out, fixed) && LocalOnce(code, ids, out, fixed)
    requires (forall r :: r in fixed ==> r in cpu && cpu[r] == fixed[r]) && (forall r :: r in cpu ==> cpu[r].no < NumRegs(cpu[r].kind))
    ensures FixedColored(code, ids, out, cpu)
  {
    hide Describes, WfRanges, Allocated, Marked, AllocMask, LiveAt, DstOf, IsCall, SurvivesCalls;
    forall k: nat | k < |ids| ensures FixedColoredAt(code, ids, out, cpu, k) {
      assert FixedColoredAt(code, ids, out, fixed, k);
      var ins, after := InsAt(code, ids[k]), LiveAt(code, ids, k + 1, out);
      forall r, q | DstOf(ins) == Some(r) && r in cpu && q in after && q in cpu && q != r ensures AllocMask(cpu[r]) !! AllocMask(cpu[q]) {
        if !(q in fixed && r in fixed) { WriteIsApart(rs, code, ids, out, fixed, cpu, k, r, q); }
      }
      if IsCall(ins.opcode) {
        forall q | q in after && q in cpu ensures SurvivesCalls(cpu[q]) {
          if q !in fixed { CallSpares(rs, code, ids, out, fixed, cpu, k, q); }
        }
      }
    }
  }

  /** Once everything is assigned the coloring is complete. */
  lemma FullyColored(rs: seq<LiveRange>, code: seq<Ins>, ids: seq<InsId>, out: set<RegId>, cpu: Assignment)
    requires Describes(rs, code, ids, out) && FixedColored(code, ids, out, cpu)
    requires forall j :: 0 <= j < |rs| && rs[j].uses == [] ==> rs[j].reg in cpu
    ensures Colored(code, ids, out, cpu)
  {
    hide AllocMask, LiveAt, DstOf, IsCall, SurvivesCalls;
    forall k: nat, r | k <= |ids| && r in LiveAt(code, ids, k, out) ensures r in cpu {
      var i := RangeOf(rs, code, ids, out, r, k - 1);
    }
    forall k: nat, r | k < |ids| && DstOf(InsIn(code, ids, k)) == Some(r) ensures r in cpu {
      hide RangeRight, ReadsRecorded, SomeCovers, LiveAfter;
      assert SomeStarts(rs, r, k);
    }
    forall k: nat | k < |ids| ensures ColoredAt(code, ids, out, cpu, k) {
      assert FixedColoredAt(code, ids, out, cpu, k);
      assert DstOf(InsAt(code, ids[k])) == DstOf(InsIn(code, ids, k));
      hide Describes;
    }
  }

  // ---------------------------------------------------------------- preparing the ranges

  function MarkFixed(rs: seq<LiveRange>, fixed: Assignment): (rs': seq<LiveRange>)
    ensures |rs'| == |rs|
    ensures forall k :: 0 <= k < |rs| ==> rs'[k] == MarkOne(rs[k], fixed)
  {
    seq(|rs|, k requires 0 <= k < |rs| => MarkOne(rs[k], fixed))
  }

  function MarkOne(lr: LiveRange, fixed: Assignment): LiveRange {
    if lr.uses == [] && lr.reg in fixed then lr.(preAlloc := true, loc := InReg(fixed[lr.reg])) else lr
  }

  lemma FixedAreDistinct(rs: seq<LiveRange>, code: seq<Ins>, ids: seq<InsId>, out: set<RegId>, fixed: Assignment)
    requires |ids| <= AFTER_BBL && Describes(rs, code, ids, out) && Marked(rs, fixed) && FixedColored(code, ids, out, fixed)
    ensures DistinctReserved(rs)
  {
    forall j, k | 0 <= j < k < |rs| && Reserved(rs[j]) && Reserved(rs[k]) && !(Bits(rs[j]) !! Bits(rs[k])) ensures rs[j].span != rs[k].span {
      assert RangeRight(code, ids, out, rs[j]) && RangeRight(code, ids, out, rs[k]);
      if rs[j].span.defPos == rs[k].span.defPos == BEFORE_BBL {
        assert rs[j].reg != rs[k].reg;
        StartsLive(rs, code, ids, out, j);
        StartsLive(rs, code, ids, out, k);
        hide AllocMask, Describes, RangeRight;
      }
    }
  }

  /** A range from the top of the block is of a register that is live there. */
  lemma StartsLive(rs: seq<LiveRange>, code: seq<Ins>, ids: seq<InsId>, out: set<RegId>, j: nat)
    requires |ids| <= AFTER_BBL && Describes(rs, code, ids, out) && j < |rs| && rs[j].uses == [] && rs[j].span.defPos == BEFORE_BBL
    ensures rs[j].reg in LiveAt(code, ids, 0, out)
  {
    assert RangeRight(code, ids, out, rs[j]);
    assert Covers(rs[j], rs[j].reg, -1);
    assert SomeCovers(rs, rs[j].reg, -1);
    assert LiveAfter(code, ids, out, -1, rs[j].reg);
  }

  // ---------------------------------------------------------------- one pass

  /** The ranges, in order and marked, with what the scan made of them. */
  ghost predicate ScannedBlock(rs: seq<LiveRange>, code: seq<Ins>, ids: seq<InsId>, out: set<RegId>, fixed: Assignment) {
    Describes(rs, code, ids, out) && WfRanges(rs) && Marked(rs, fixed) && Allocated(rs)
  }

  lemma MarkedBlock(rs: seq<LiveRange>, code: seq<Ins>, ids: seq<InsId>, out: set<RegId>, kindOf: RegId -> Kind, fixed: Assignment)
    requires |ids| <= AFTER_BBL && Describes(rs, code, ids, out) && Ascending(rs) && OfKind(rs, kindOf) && FixedColored(code, ids, out, fixed)
    ensures var rs' := MarkFixed(rs, fixed);
      && Describes(rs', code, ids, out) && WfRanges(rs') && Marked(rs', fixed) && DistinctReserved(rs')
  {
    var rs' := MarkFixed(rs, fixed);
    DescribesSame(rs, rs', code, ids, out);
    assert Marked(rs', fixed) && Ascending(rs') && (forall r :: r in fixed ==> fixed[r].no < NumRegs(fixed[r].kind)) by { hide Describes; }
    DescribedIsWf(rs', code, ids, out);
    FixedAreDistinct(rs', code, ids, out, fixed);
    hide Describes, WfRanges, FixedColoredAt;
  }

  lemma AfterScan(rs: seq<LiveRange>, rs': seq<LiveRange>, code: seq<Ins>, ids: seq<InsId>, out: set<RegId>, fixed: Assignment)
    requires Describes(rs, code, ids, out) && WfRanges(rs) && Marked(rs, fixed) && SameButLocs(Reset(rs), rs') && Allocated(rs')
    ensures ScannedBlock(rs', code, ids, out, fixed)
  {
    forall k | 0 <= k < |rs| ensures rs'[k] == rs[k].(loc := rs'[k].loc) && (rs[k].preAlloc ==> rs'[k] == rs[k]) {
      hide WfRanges, Describes, Allocated;
    }
    assert SameRanges(rs, rs');
    DescribesSame(rs, rs', code, ids, out);
    forall k | 0 <= k < |rs| ensures WfRange(rs', k) { assert WfRange(rs, k); hide Describes, Allocated; }
    hide WfRange, Describes, Allocated;
  }

  /** What the scan of a block is given: its ranges, in order, of the right kinds, fixed registers marked,
      and a new pool that knows when those are in use. */
  ghost predicate ScanOf(sc: Scene, code: seq<Ins>, ids: seq<InsId>, out: set<RegId>, kindOf: RegId -> Kind, fixed: Assignment) {
    && Describes(sc.rs, code, ids, out) && EndsNamed(sc.rs, 0) && KindsRight(sc.rs, kindOf) && Marked(sc.rs, fixed)
    && FreshPool(sc.pool) && Loaded(sc.rs, |sc.rs|, sc.pool.reserved) && Scanned(sc.rs, 0, BEFORE_BBL - 1, sc.pool)
  }

  lemma ScanIsOf(rs: seq<LiveRange>, start: PoolState, code: seq<Ins>, ids: seq<InsId>, out: set<RegId>, kindOf: RegId -> Kind, fixed: Assignment)
    requires Describes(rs, code, ids, out) && EndsNamed(rs, 0) && KindsRight(rs, kindOf) && Marked(rs, fixed)
    requires FreshPool(start) && Loaded(Reset(rs), |rs|, start.reserved) && Scanned(Reset(rs), 0, BEFORE_BBL - 1, start)
    ensures ScanOf(Scene(Reset(rs), start), code, ids, out, kindOf, fixed)
  {
    hide Describes, EndsNamed, FreshPool, Loaded, Scanned, KindsRight, Marked;
    ResetSame(rs, kindOf, fixed);
    DescribesSame(rs, Reset(rs), code, ids, out);
  }

  lemma ResetSame(rs: seq<LiveRange>, kindOf: RegId -> Kind, fixed: Assignment)
    requires EndsNamed(rs, 0) && KindsRight(rs, kindOf) && Marked(rs, fixed)
    ensures SameRanges(rs, Reset(rs)) && EndsNamed(Reset(rs), 0) && KindsRight(Reset(rs), kindOf) && Marked(Reset(rs), fixed)
  {
    hide EndsNamed;
    EndsNamedKept(rs, Reset(rs), 0);
  }

  lemma MarkedKinds(rs: seq<LiveRange>, kindOf: RegId -> Kind, fixed: Assignment)
    requires OfKind(rs, kindOf) && EndsNamed(rs, 0)
    ensures KindsRight(MarkFixed(rs, fixed), kindOf) && EndsNamed(MarkFixed(rs, fixed), 0)
  {
    EndsNamedKept(rs, MarkFixed(rs, fixed), 0) by { hide EndsNamed; }
    hide EndsNamed;
  }

  method ScanBlock(code: seq<Ins>, ids: seq<InsId>, out: set<RegId>, kindOf: RegId -> Kind, fixed: Assignment, allowSpilling: bool)
    returns (ok: bool, rs: seq<LiveRange>, ghost sc: Scene)
    requires |ids| <= AFTER_BBL && (forall i :: i in ids ==> WfIns(InsAt(code, i))) && FixedColored(code, ids, out, fixed)
    ensures ok ==> ScannedBlock(rs, code, ids, out, fixed)
    ensures ok && !allowSpilling ==> NoSpilled(rs)
    ensures ScanOf(sc, code, ids, out, kindOf, fixed) && EndsAs(sc, allowSpilling, ok, rs)
  {
    hide EndsNamed, KindsRight, FreshPool, Loaded, Scanned, EndsAs, ScanOf;
    hide Describes, OfKind, Ascending, FixedColored, Marked, WfRanges, DistinctReserved, SameButLocs, Allocated, NoSpilled, ScannedBlock, Reorders, WfIns;
    var found := BblGetLiveRanges(code, ids, out, kindOf);
    ghost var perm: seq<nat>;
    rs, perm := Sort(found);
    DescribesReordered(found, rs, perm, code, ids, out);
    OfKindReordered(found, rs, perm, kindOf);
    UsesAreInRange(found, code, ids, out);
    EndsNamedReordered(found, rs, perm);
    MarkedKinds(rs, kindOf, fixed);
    MarkedBlock(rs, code, ids, out, kindOf, fixed);
    var marked := MarkFixed(rs, fixed);
    OnlyRangesMarked(marked, fixed);
    ghost var start;
    ok, rs, start := RunLinearScan(marked, allowSpilling);
    sc := Scene(Reset(marked), start);
    ScanIsOf(marked, start, code, ids, out, kindOf, fixed);
    if ok { AfterScan(marked, rs, code, ids, out, fixed); }
  }

  lemma OnlyRangesMarked(rs: seq<LiveRange>, fixed: Assignment)
    requires Marked(rs, fixed)
    ensures forall k :: 0 <= k < |rs| && rs[k].preAlloc ==> rs[k].uses == []
  {
  }

  /** Register r is of a range that was given c. */
  predicate GivenTo(rs: seq<LiveRange>, r: RegId, c: CpuReg) {
    exists j :: 0 <= j < |rs| && Allocates(rs[j]) && rs[j].reg == r && rs[j].loc == InReg(c)
  }

  predicate SpilledIn(rs: seq<LiveRange>, r: RegId) {
    exists j :: 0 <= j < |rs| && Allocates(rs[j]) && rs[j].reg == r && rs[j].loc == Spilled
  }

  /** The fixed registers, and those of the ranges that got one, as the ranges say; the others are spilled. */
  ghost predicate AssignedBy(rs: seq<LiveRange>, fixed: Assignment, cpu: Assignment, spilled: set<RegId>) {
    && (forall r :: r in fixed ==> r in cpu && cpu[r] == fixed[r])
    && (forall r :: r in cpu && r !in fixed ==> GivenTo(rs, r, cpu[r]))
    && (forall r :: r in spilled <==> SpilledIn(rs, r))
    && (forall j :: 0 <= j < |rs| && Allocates(rs[j]) ==> rs[j].loc == if rs[j].reg in cpu then InReg(cpu[rs[j].reg]) else Spilled)
  }

  lemma AssignedAs(rs: seq<LiveRange>, fixed: Assignment, cpu: Assignment, spilled: set<RegId>)
    requires Placed(rs, |rs|) && Follows(rs, cpu) && forall r :: r in fixed ==> r in cpu && cpu[r] == fixed[r]
    requires forall j :: 0 <= j < |rs| && rs[j].uses == [] ==> (rs[j].reg in cpu <==> rs[j].reg !in spilled)
    requires forall r :: (r in cpu && r !in fixed) || r in spilled ==> HasRange(rs, r)
    requires forall j :: 0 <= j < |rs| && Allocates(rs[j]) ==> (rs[j].loc == Spilled <==> rs[j].reg in spilled)
    ensures AssignedBy(rs, fixed, cpu, spilled)
  {
    forall j | 0 <= j < |rs| && Allocates(rs[j]) ensures rs[j].loc == if rs[j].reg in cpu then InReg(cpu[rs[j].reg]) else Spilled {
      assert PlacedOne(rs[j]);
    }
    hide Placed;
    forall r | r in cpu && r !in fixed ensures GivenTo(rs, r, cpu[r]) {
      assert HasRange(rs, r);
      var j :| 0 <= j < |rs| && Allocates(rs[j]) && rs[j].reg == r;
      assert rs[j].loc == InReg(cpu[r]);
    }
    forall r ensures r in spilled <==> SpilledIn(rs, r) {
      if r in spilled {
        assert HasRange(rs, r);
        var j :| 0 <= j < |rs| && Allocates(rs[j]) && rs[j].reg == r;
        assert rs[j].loc == Spilled;
      }
    }
  }

  /** The scan's verdict as an assignment; the registers of spilled ranges are left out. */
  method AssignAllocatedRegs(rs: seq<LiveRange>, fixed: Assignment) returns (cpu: Assignment, spilled: set<RegId>)
    requires Marked(rs, fixed) && Placed(rs, |rs|) && Once(rs)
    requires forall r :: r in fixed ==> fixed[r].no < NumRegs(fixed[r].kind)
    ensures Follows(rs, cpu) && (forall r :: r in fixed ==> r in cpu && cpu[r] == fixed[r]) && (forall r :: r in cpu ==> cpu[r].no < NumRegs(cpu[r].kind))
    ensures forall j :: 0 <= j < |rs| && rs[j].uses == [] ==> (rs[j].reg in cpu <==> rs[j].reg !in spilled)
    ensures forall r :: r in spilled ==> r !in cpu
    ensures forall r :: (r in cpu && r !in fixed) || r in spilled ==> HasRange(rs, r)
    ensures NoSpilled(rs) ==> spilled == {}
    ensures AssignedBy(rs, fixed, cpu, spilled)
  {
    hide NumRegs, AssignedBy;
    cpu, spilled := fixed, {};
    for j := 0 to |rs|
      invariant forall r :: r in fixed ==> r in cpu && cpu[r] == fixed[r]
      invariant forall r :: r in cpu ==> cpu[r].no < NumRegs(cpu[r].kind)
      invariant forall r :: r in cpu && r !in fixed ==> RangeAmong(rs, j, r)
      invariant forall k :: 0 <= k < j && rs[k].uses == [] && rs[k].reg in cpu ==> rs[k].loc == InReg(cpu[rs[k].reg])
      invariant forall k :: 0 <= k < j && rs[k].uses == [] ==> (rs[k].reg in cpu <==> rs[k].reg !in spilled)
      invariant forall r :: r in spilled ==> r !in cpu && RangeAmong(rs, j, r)
      invariant NoSpilled(rs) ==> spilled == {}
      invariant forall k :: 0 <= k < j && Allocates(rs[k]) ==> (rs[k].loc == Spilled <==> rs[k].reg in spilled)
    {
      var lr := rs[j];
      if !lr.preAlloc && lr.uses == [] {
        assert Allocates(lr) && PlacedOne(lr);
        if lr.loc == Spilled {
          spilled := spilled + {lr.reg};
        } else {
          cpu := cpu[lr.reg := lr.loc.cpu];
        }
      }
    }
    AssignedAs(rs, fixed, cpu, spilled);
  }

  predicate RangeAmong(rs: seq<LiveRange>, j: nat, r: RegId)
    requires j <= |rs|
  {
    exists k :: 0 <= k < j && Allocates(rs[k]) && rs[k].reg == r
  }

  predicate HasRange(rs: seq<LiveRange>, r: RegId) { RangeAmong(rs, |rs|, r) }

  /** No two ranges are of the same register, but for fixed ones. */
  predicate Once(rs: seq<LiveRange>) {
    forall i, j :: 0 <= i < j < |rs| && Allocates(rs[i]) && Allocates(rs[j]) ==> rs[i].reg != rs[j].reg
  }

  lemma OnceIfLocal(rs: seq<LiveRange>, code: seq<Ins>, ids: seq<InsId>, out: set<RegId>, fixed: Assignment)
    requires |ids| <= AFTER_BBL && Describes(rs, code, ids, out) && Marked(rs, fixed) && LocalOnce(code, ids, out, fixed)
    ensures Once(rs)
  {
    hide LiveAt, DstOf, LiveAfter, UsesReg;
    forall i, j | 0 <= i < j < |rs| && Allocates(rs[i]) && Allocates(rs[j]) ensures rs[i].reg != rs[j].reg {
      LocalStart(rs, code, ids, out, fixed, i);
      LocalStart(rs, code, ids, out, fixed, j);
      if rs[i].span.defPos != rs[j].span.defPos {
        var p, q := rs[i].span.defPos, rs[j].span.defPos;
        assert DstOf(InsIn(code, ids, if p < q then p else q)) != DstOf(InsIn(code, ids, if p < q then q else p));
      }
      hide RangeRight;
    }
  }

  lemma LocalStart(rs: seq<LiveRange>, code: seq<Ins>, ids: seq<InsId>, out: set<RegId>, fixed: Assignment, j: nat)
    requires |ids| <= AFTER_BBL && Describes(rs, code, ids, out) && Marked(rs, fixed) && LocalOnce(code, ids, out, fixed)
    requires j < |rs| && Allocates(rs[j])
    ensures 0 <= rs[j].span.defPos < |ids| && DstOf(InsIn(code, ids, rs[j].span.defPos)) == Some(rs[j].reg) && rs[j].reg !in fixed
  {
    assert RangeRight(code, ids, out, rs[j]);
    if rs[j].span.defPos == BEFORE_BBL { StartsLive(rs, code, ids, out, j); }
    hide LiveAt, DstOf, LiveAfter, UsesReg, CallBetween;
  }
}
