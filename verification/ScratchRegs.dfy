/** The scratch registers that one instruction holds at the same time. The search for a register to
    take away may find a range that is over, whose register is already handed on as a scratch
    register; then two reads of one instruction get the same register. That is the only way it can
    happen (`ScratchDistinctIff`). The register it takes away may also be of no use, and then the
    allocator gives up (`ClaimIff`). */
module ScratchRegs {
  import opened IR
  import opened RegPool
  import opened LiveRanges
  import opened LinearScan

  // ---------------------------------------------------------------- where the bits are

  ghost predicate HeldBit(rs: seq<LiveRange>, n: nat, t: int, b: Bit) {
    exists k: nat :: Held(rs, n, t, k) && b in Bits(rs[k])
  }

  ghost predicate ScratchBit(temps: seq<CpuReg>, b: Bit) {
    exists x :: 0 <= x < |temps| && b in AllocMask(temps[x])
  }

  predicate Handled(rs: seq<LiveRange>, n: nat, k: nat, b: Bit) { k < n <= |rs| && InRegister(rs[k]) && b in Bits(rs[k]) }

  /** No bit gets lost: what a handled range was given is available, or belongs to a range that still
      needs it, or to a scratch register. */
  ghost predicate Accounted(rs: seq<LiveRange>, n: nat, t: int, avail: set<Bit>, temps: seq<CpuReg>) {
    forall k: nat, b :: Handled(rs, n, k, b) ==> b in avail || HeldBit(rs, n, t, b) || ScratchBit(temps, b)
  }

  ghost predicate Distinct(temps: seq<CpuReg>) {
    forall x, y :: 0 <= x < y < |temps| ==> AllocMask(temps[x]) !! AllocMask(temps[y])
  }

  ghost predicate TempsApart(temps: seq<CpuReg>, avail: set<Bit>) {
    forall x :: 0 <= x < |temps| ==> AllocMask(temps[x]) !! avail
  }

  lemma ScratchBitMore(temps: seq<CpuReg>, reg: CpuReg, b: Bit)
    ensures ScratchBit(temps, b) || b in AllocMask(reg) ==> ScratchBit(temps + [reg], b)
  {
    hide AllocMask;
    if ScratchBit(temps, b) {
      var x :| 0 <= x < |temps| && b in AllocMask(temps[x]);
      assert (temps + [reg])[x] == temps[x];
    } else if b in AllocMask(reg) {
      assert (temps + [reg])[|temps|] == reg;
    }
  }

  lemma TakenBits(st: PoolState, reg: CpuReg, lac: bool)
    ensures st.Take(reg, lac).Available() + AllocMask(reg) >= st.Available()
  {
    hide AllocMask;
  }

  lemma AskAccounts(sc: Scene, kind: Kind, pos: int, n: nat, t: int, temps: seq<CpuReg>)
    requires Accounted(sc.rs, n, t, sc.pool.Available(), temps)
    ensures var c := Ask(sc, kind, pos);
      c.scene.rs == sc.rs && Accounted(sc.rs, n, t, c.scene.pool.Available(), if c.got.Some? then temps + [c.got.value] else temps)
  {
    var c := Ask(sc, kind, pos);
    if c.got.Some? {
      var reg := c.got.value;
      TakenBits(sc.pool, reg, false);
      hide AllocMask, HeldBit, ScratchBit, Handled, PoolState.Available, PoolState.Take, PoolState.Candidate;
      forall b ensures ScratchBit(temps, b) || b in AllocMask(reg) ==> ScratchBit(temps + [reg], b) { ScratchBitMore(temps, reg, b); }
    }
  }

  lemma UnassignAccounts(sc: Scene, k: nat, n: nat, t: int, temps: seq<CpuReg>)
    requires sc.pool.Valid() && k < n <= |sc.rs| && InRegister(sc.rs[k]) && sc.rs[k].loc.cpu.no < NumRegs(sc.rs[k].loc.cpu.kind)
    requires Accounted(sc.rs, n, t, sc.pool.Available(), temps)
    ensures var s := Unassign(sc, k); Accounted(s.rs, n, t, s.pool.Available(), temps)
  {
    var s := Unassign(sc, k);
    GiveKeepsPool(sc.pool, sc.rs[k].loc.cpu);
    assert Bits(sc.rs[k]) == AllocMask(sc.rs[k].loc.cpu);
    hide Bits, ScratchBit, PoolState.Available, PoolState.Give, PoolState.Valid, AllocMask;
    forall j: nat, b | Handled(s.rs, n, j, b) ensures b in s.pool.Available() || HeldBit(s.rs, n, t, b) || ScratchBit(temps, b) {
      assert j != k && s.rs[j] == sc.rs[j] && Handled(sc.rs, n, j, b);
      if HeldBit(sc.rs, n, t, b) {
        var h: nat :| Held(sc.rs, n, t, h) && b in Bits(sc.rs[h]);
        if h != k { assert Held(s.rs, n, t, h) && s.rs[h] == sc.rs[h]; }
      }
    }
  }

  lemma ClaimAccounts(sc: Scene, kind: Kind, pos: int, spilledDef: int, i: int, n: nat, t: int, temps: seq<CpuReg>)
    requires Scanned(sc.rs, n, t, sc.pool) && -1 <= i < n && Accounted(sc.rs, n, t, sc.pool.Available(), temps)
    ensures var c := Claim(sc, kind, pos, spilledDef, i);
      Accounted(c.scene.rs, n, t, c.scene.pool.Available(), if c.got.Some? then temps + [c.got.value] else temps)
  {
    ScannedParts(sc.rs, n, t, sc.pool);
    PickedHasRegister(sc.rs, n, i, spilledDef, kind);
    PoolIsValid(sc.rs, n, t, sc.pool);
    hide Scanned, Placed, WfRanges, Accounted, Ask, Unassign, Spillable, PoolState.Valid, PoolState.Available;
    AskNone(sc, kind, pos);
    AskAccounts(sc, kind, pos, n, t, temps);
    var k := Pick(sc.rs, i, spilledDef, kind);
    if Ask(sc, kind, pos).got == None && k >= 0 {
      UnassignAccounts(sc, k, n, t, temps);
      AskAccounts(Unassign(sc, k), kind, pos, n, t, temps);
    }
  }

  lemma PoolIsValid(rs: seq<LiveRange>, n: nat, t: int, st: PoolState)
    requires Scanned(rs, n, t, st)
    ensures st.Valid() && Free(rs, n, t, st.Available())
  {
    hide WfRanges, Placed, Free, Apart, Clear, Reserves, PoolState.Valid;
  }

  // ---------------------------------------------------------------- one record

  predicate GoesOn(lr: LiveRange, p: int) { p <= lr.span.lastUse < NO_USE }

  /** If a register has to be taken away for the read of range u, it is from a range that is not over. */
  ghost predicate PickGoesOn(sc: Scene, i: nat, p: int, u: nat)
    requires i <= |sc.rs|
  {
    NeedsScratch(sc.rs, u) && Ask(sc, sc.rs[u].kind, p).got == None ==>
      var k := Pick(sc.rs, i - 1, sc.rs[u].span.defPos, sc.rs[u].kind);
      k >= 0 ==> GoesOn(sc.rs[k], p)
  }

  /** The same for the first x of the ranges that record i reads. */
  ghost predicate PicksGoOn(sc: Scene, allow: bool, i: nat, x: nat)
    requires i < |sc.rs| && x <= |sc.rs[i].uses|
  {
    x == 0 ||
    (PicksGoOn(sc, allow, i, x - 1) &&
     var v := Serve(sc, allow, i, x - 1);
     v.Serving? ==> PickGoesOn(v.scene, i, sc.rs[i].span.defPos, sc.rs[i].uses[x - 1]))
  }

  /** So far the scratch registers are distinct, and apart from what is available, as long as the
      condition held; and not distinct once it failed. */
  ghost predicate ScratchSoFar(sc: Scene, temps: seq<CpuReg>, i: nat, p: int, ok: bool) {
    && Accounted(sc.rs, i, p - 1, sc.pool.Available(), temps)
    && if ok then Distinct(temps) && TempsApart(temps, sc.pool.Available()) else !Distinct(temps)
  }

  lemma StillAlike(temps: seq<CpuReg>, reg: CpuReg)
    requires !Distinct(temps)
    ensures !Distinct(temps + [reg])
  {
    hide AllocMask;
    var x, y :| 0 <= x < y < |temps| && !(AllocMask(temps[x]) !! AllocMask(temps[y]));
    assert (temps + [reg])[x] == temps[x] && (temps + [reg])[y] == temps[y];
  }

  /** A register from the pool. */
  lemma AskIsApart(sc: Scene, kind: Kind, pos: int, temps: seq<CpuReg>)
    requires sc.pool.Valid() && Distinct(temps) && TempsApart(temps, sc.pool.Available()) && Ask(sc, kind, pos).got.Some?
    ensures var c := Ask(sc, kind, pos); Distinct(temps + [c.got.value]) && TempsApart(temps + [c.got.value], c.scene.pool.Available())
  {
    var c := Ask(sc, kind, pos);
    TakenIsGone(sc.pool, c.got.value, false, WhileAt(pos));
    TakeKeepsPool(sc.pool, c.got.value, false);
    hide AllocMask, PoolState.Available, PoolState.Take, PoolState.Candidate, PoolState.Valid;
  }

  /** The register of a range that goes on is nobody's scratch register. */
  lemma GivenIsApart(sc: Scene, k: nat, n: nat, t: int, temps: seq<CpuReg>)
    requires Scanned(sc.rs, n, t, sc.pool) && TempsFree(sc.rs, n, t, temps) && TempsApart(temps, sc.pool.Available()) && Held(sc.rs, n, t, k)
    ensures TempsApart(temps, Unassign(sc, k).pool.Available())
  {
    ScannedParts(sc.rs, n, t, sc.pool);
    assert PlacedOne(sc.rs[k]);
    PoolIsValid(sc.rs, n, t, sc.pool);
    GiveKeepsPool(sc.pool, sc.rs[k].loc.cpu);
    assert Bits(sc.rs[k]) == AllocMask(sc.rs[k].loc.cpu);
    hide Scanned, Placed, WfRanges, Bits, AllocMask, PoolState.Available, PoolState.Give, PoolState.Valid, Free;
  }

  /** If giving a register back makes a candidate, one of its bits was not available before. */
  lemma NewCandidate(st: PoolState, cpu: CpuReg, reg: CpuReg, pos: int)
    requires st.Valid() && cpu.no < NumRegs(cpu.kind)
    requires !st.Candidate(reg, false, WhileAt(pos)) && st.Give(cpu).Candidate(reg, false, WhileAt(pos))
    ensures exists b :: b in AllocMask(reg) && b in AllocMask(cpu) && b !in st.Available()
  {
    forall b | b in AllocMask(cpu) ensures CalleeSaved(b) <==> SurvivesCalls(cpu) { MaskInClass(cpu, b); }
    hide AllocMask, CalleeSaved, SurvivesCalls;
    var b :| b in AllocMask(reg) && b !in st.notLac;
    assert b in st.Give(cpu).notLac;
  }

  lemma AskFails(sc: Scene, kind: Kind, pos: int, reg: CpuReg)
    requires Ask(sc, kind, pos).got == None && RegOk(reg, kind)
    ensures !sc.pool.Candidate(reg, false, WhileAt(pos))
  {
    hide PoolState.Candidate;
    assert reg == CpuReg(kind, reg.no);
  }

  /** The register of a range that is over: its next owner can only be a scratch register. */
  lemma OverIsScratch(sc: Scene, k: nat, n: nat, t: int, temps: seq<CpuReg>, b: Bit)
    requires k < n <= |sc.rs| && InRegister(sc.rs[k]) && !Held(sc.rs, n, t, k) && b in Bits(sc.rs[k]) && b !in sc.pool.Available()
    requires Accounted(sc.rs, n, t, sc.pool.Available(), temps) && TempFree(WithLoc(sc.rs, k, Spilled), n, t, sc.rs[k].loc.cpu)
    ensures ScratchBit(temps, b)
  {
    assert Bits(sc.rs[k]) == AllocMask(sc.rs[k].loc.cpu) && Handled(sc.rs, n, k, b);
    hide AllocMask, Bits, ScratchBit, HeldBit, TempFree, PoolState.Available;
    NobodyHolds(sc.rs, n, t, k, b);
  }

  lemma NobodyHolds(rs: seq<LiveRange>, n: nat, t: int, k: nat, b: Bit)
    requires k < n <= |rs| && rs[k].loc.InReg? && !Held(rs, n, t, k) && b in AllocMask(rs[k].loc.cpu)
    requires TempFree(WithLoc(rs, k, Spilled), n, t, rs[k].loc.cpu)
    ensures !HeldBit(rs, n, t, b)
  {
    hide AllocMask, Bits;
    forall h: nat | Held(rs, n, t, h) ensures b !in Bits(rs[h]) {
      assert Held(WithLoc(rs, k, Spilled), n, t, h) && WithLoc(rs, k, Spilled)[h] == rs[h];
    }
  }

  lemma TakenAgain(sc: Scene, kind: Kind, pos: int, k: nat, n: nat, t: int, temps: seq<CpuReg>)
    requires Scanned(sc.rs, n, t, sc.pool) && k < n && InRegister(sc.rs[k]) && !Held(sc.rs, n, t, k)
    requires Accounted(sc.rs, n, t, sc.pool.Available(), temps) && TempFree(WithLoc(sc.rs, k, Spilled), n, t, sc.rs[k].loc.cpu)
    requires Ask(sc, kind, pos).got == None && Ask(Unassign(sc, k), kind, pos).got.Some?
    ensures !Distinct(temps + [Ask(Unassign(sc, k), kind, pos).got.value])
  {
    var cpu, reg := sc.rs[k].loc.cpu, Ask(Unassign(sc, k), kind, pos).got.value;
    PoolIsValid(sc.rs, n, t, sc.pool);
    AskNone(Unassign(sc, k), kind, pos);
    AskFails(sc, kind, pos, reg);
    assert Unassign(sc, k).pool.Candidate(reg, false, WhileAt(pos)) by { hide PoolState.Candidate; }
    NewCandidate(sc.pool, cpu, reg, pos);
    var b :| b in AllocMask(reg) && b in AllocMask(cpu) && b !in sc.pool.Available();
    OverIsScratch(sc, k, n, t, temps, b);
    hide Scanned, Accounted, TempFree, Ask, Unassign, AllocMask, PoolState.Candidate, PoolState.Valid, PoolState.Available, Free;
    var x :| 0 <= x < |temps| && b in AllocMask(temps[x]);
    assert (temps + [reg])[x] == temps[x] && (temps + [reg])[|temps|] == reg;
  }

  lemma ClaimScratch(sc: Scene, kind: Kind, p: int, spilledDef: int, i: nat, temps: seq<CpuReg>, ok: bool)
    requires Scanned(sc.rs, i, p - 1, sc.pool) && MayPick(sc.rs, i, p - 1, kind, spilledDef, i - 1) && TempsFree(sc.rs, i, p - 1, temps)
    requires ScratchSoFar(sc, temps, i, p, ok) && Claim(sc, kind, p, spilledDef, i - 1).got.Some?
    ensures var c, k := Claim(sc, kind, p, spilledDef, i - 1), Pick(sc.rs, i - 1, spilledDef, kind);
      ScratchSoFar(c.scene, temps + [c.got.value], i, p, ok && (Ask(sc, kind, p).got == None && k >= 0 ==> GoesOn(sc.rs[k], p)))
  {
    var c, k := Claim(sc, kind, p, spilledDef, i - 1), Pick(sc.rs, i - 1, spilledDef, kind);
    ClaimAccounts(sc, kind, p, spilledDef, i - 1, i, p - 1, temps);
    PoolIsValid(sc.rs, i, p - 1, sc.pool);
    if !ok {
      StillAlike(temps, c.got.value);
    } else if Ask(sc, kind, p).got.Some? {
      AskIsApart(sc, kind, p, temps);
    } else {
      PickedScratch(sc, kind, p, spilledDef, i, temps);
    }
    hide *;
  }

  lemma PickedGoesOn(sc: Scene, kind: Kind, p: int, spilledDef: int, i: nat, temps: seq<CpuReg>, k: nat)
    requires Scanned(sc.rs, i, p - 1, sc.pool) && MayPick(sc.rs, i, p - 1, kind, spilledDef, i - 1) && TempsFree(sc.rs, i, p - 1, temps)
    requires k == Pick(sc.rs, i - 1, spilledDef, kind) && InRegister(sc.rs[k]) && GoesOn(sc.rs[k], p)
    requires Distinct(temps) && TempsApart(temps, sc.pool.Available()) && Ask(Unassign(sc, k), kind, p).got.Some?
    ensures var c := Ask(Unassign(sc, k), kind, p); Distinct(temps + [c.got.value]) && TempsApart(temps + [c.got.value], c.scene.pool.Available())
  {
    ScannedParts(sc.rs, i, p - 1, sc.pool);
    assert Held(sc.rs, i, p - 1, k) by {
      hide Scanned, MayPick, TempsFree, Distinct, TempsApart, Ask, Unassign, Spillable, PoolState.Available, WfRanges, Placed;
    }
    hide *;
    UnassignKeeps(sc, kind, spilledDef, i - 1, i, p - 1, temps);
    PoolIsValid(Unassign(sc, k).rs, i, p - 1, Unassign(sc, k).pool);
    GivenIsApart(sc, k, i, p - 1, temps);
    AskIsApart(Unassign(sc, k), kind, p, temps);
  }

  lemma PickedScratch(sc: Scene, kind: Kind, p: int, spilledDef: int, i: nat, temps: seq<CpuReg>)
    requires Scanned(sc.rs, i, p - 1, sc.pool) && MayPick(sc.rs, i, p - 1, kind, spilledDef, i - 1) && TempsFree(sc.rs, i, p - 1, temps)
    requires Distinct(temps) && TempsApart(temps, sc.pool.Available()) && Accounted(sc.rs, i, p - 1, sc.pool.Available(), temps)
    requires Ask(sc, kind, p).got == None && Claim(sc, kind, p, spilledDef, i - 1).got.Some?
    ensures var c, k := Claim(sc, kind, p, spilledDef, i - 1), Pick(sc.rs, i - 1, spilledDef, kind);
      && k >= 0
      && if GoesOn(sc.rs[k], p) then Distinct(temps + [c.got.value]) && TempsApart(temps + [c.got.value], c.scene.pool.Available())
         else !Distinct(temps + [c.got.value])
  {
    var k := Pick(sc.rs, i - 1, spilledDef, kind);
    ScannedParts(sc.rs, i, p - 1, sc.pool);
    PickedHasRegister(sc.rs, i, i - 1, spilledDef, kind);
    hide Scanned, MayPick, TempsFree, Distinct, TempsApart, Accounted, Ask, Unassign, Spillable, Allocates, PoolState.Available, Placed, WfRanges;
    if k >= 0 {
      assert InRegister(sc.rs[k]);
      if GoesOn(sc.rs[k], p) {
        PickedGoesOn(sc, kind, p, spilledDef, i, temps, k);
      } else {
        PickedFree(sc, kind, p, spilledDef, i, k);
        TakenAgain(sc, kind, p, k, i, p - 1, temps);
      }
    }
  }

  lemma PickedFree(sc: Scene, kind: Kind, p: int, spilledDef: int, i: nat, k: nat)
    requires Scanned(sc.rs, i, p - 1, sc.pool) && MayPick(sc.rs, i, p - 1, kind, spilledDef, i - 1)
    requires k == Pick(sc.rs, i - 1, spilledDef, kind) && InRegister(sc.rs[k])
    ensures TempFree(WithLoc(sc.rs, k, Spilled), i, p - 1, sc.rs[k].loc.cpu)
  {
    NearestIsFree(sc.rs, i, p - 1, sc.pool, k, spilledDef, kind);
    hide Scanned, TempFree, Spillable;
  }

  lemma ServeOneScratch(sc: Scene, temps: seq<CpuReg>, allow: bool, i: nat, p: int, u: nat, ok: bool)
    requires i < |sc.rs| && sc.rs[i].span.defPos == p && u in sc.rs[i].uses
    requires Scanned(sc.rs, i, p - 1, sc.pool) && TempsFree(sc.rs, i, p - 1, temps) && ScratchSoFar(sc, temps, i, p, ok)
    ensures var v := ServeOne(sc, temps, allow, i, p, u);
      v.Serving? ==> ScratchSoFar(v.scene, v.temps, i, p, ok && PickGoesOn(sc, i, p, u))
  {
    ScannedParts(sc.rs, i, p - 1, sc.pool);
    UseMayPick(sc.rs, i, u);
    hide Scanned, TempsFree, ScratchSoFar, Claim, Ask, MayPick, Spillable, WfRanges, Placed;
    if NeedsScratch(sc.rs, u) && Claim(sc, sc.rs[u].kind, p, sc.rs[u].span.defPos, i - 1).got.Some? {
      ClaimScratch(sc, sc.rs[u].kind, p, sc.rs[u].span.defPos, i, temps, ok);
    }
  }

  lemma {:induction false} ServeScratch(sc: Scene, allow: bool, i: nat, x: nat)
    requires i < |sc.rs| && x <= |sc.rs[i].uses| && Scanned(sc.rs, i, sc.rs[i].span.defPos - 1, sc.pool)
    requires Accounted(sc.rs, i, sc.rs[i].span.defPos - 1, sc.pool.Available(), [])
    ensures var v := Serve(sc, allow, i, x);
      v.Serving? ==> ScratchSoFar(v.scene, v.temps, i, sc.rs[i].span.defPos, PicksGoOn(sc, allow, i, x))
  {
    hide Scanned, Accounted, TempsFree, ServeOne, PickGoesOn, PoolState.Available, WfRanges, Placed;
    if x > 0 {
      ServeScratch(sc, allow, i, x - 1);
      var v := Serve(sc, allow, i, x - 1);
      if v.Serving? {
        ServedNow(sc, allow, i, x - 1, v.scene, v.temps);
        ServeOneScratch(v.scene, v.temps, allow, i, sc.rs[i].span.defPos, sc.rs[i].uses[x - 1], PicksGoOn(sc, allow, i, x - 1));
      }
    }
    hide ScratchSoFar;
  }

  /** The scratch registers of one record are distinct if and only if no range that is over loses its
      register while the record is served. */
  lemma ScratchDistinctIff(sc: Scene, allow: bool, i: nat)
    requires i < |sc.rs| && Scanned(sc.rs, i, sc.rs[i].span.defPos - 1, sc.pool)
    requires Accounted(sc.rs, i, sc.rs[i].span.defPos - 1, sc.pool.Available(), [])
    requires Serve(sc, allow, i, |sc.rs[i].uses|).Serving?
    ensures Distinct(Serve(sc, allow, i, |sc.rs[i].uses|).temps) <==> PicksGoOn(sc, allow, i, |sc.rs[i].uses|)
  {
    ServeScratch(sc, allow, i, |sc.rs[i].uses|);
    hide Scanned, Accounted, Serve, PicksGoOn, Distinct;
  }

  // ---------------------------------------------------------------- every record of every scan

  /** Every range that ends in the block is on record where it ends; nothing ends later than never. */
  ghost predicate EndsOnRecord(rs: seq<LiveRange>) {
    && (forall k :: 0 <= k < |rs| ==> rs[k].span.defPos < AFTER_BBL && rs[k].span.lastUse <= NO_USE)
    && (forall j: nat :: j < |rs| && rs[j].uses == [] && rs[j].span.lastUse < AFTER_BBL ==> EndNamed(rs, j))
  }

  lemma BlockIsNamed(rs: seq<LiveRange>, code: seq<Ins>, ids: seq<InsId>, out: set<RegId>)
    requires |ids| <= AFTER_BBL && Describes(rs, code, ids, out) && EndsNamed(rs, 0)
    ensures EndsOnRecord(rs)
  {
    forall k | 0 <= k < |rs|
      ensures rs[k].span.defPos < AFTER_BBL && rs[k].span.lastUse <= NO_USE && (rs[k].uses == [] && rs[k].span.lastUse < AFTER_BBL ==> 0 <= rs[k].span.lastUse)
    {
      assert if rs[k].uses == [] then RangeRight(code, ids, out, rs[k]) else ReadsRecorded(rs, code, ids, rs[k]);
      hide CallBetween, LiveAfter, UsesReg;
    }
    hide Describes;
  }

  lemma NamedSame(rs: seq<LiveRange>, rs': seq<LiveRange>)
    requires EndsOnRecord(rs) && SameButLocs(rs, rs')
    ensures EndsOnRecord(rs')
  {
    forall j: nat | j < |rs'| && rs'[j].uses == [] && rs'[j].span.lastUse < AFTER_BBL ensures EndNamed(rs', j) {
      assert EndNamed(rs, j);
      var i: nat :| EndsAt(rs, j, i);
      assert EndsAt(rs', j, i);
    }
  }

  /** Nothing that is held at t ends before or at t'. */
  ghost predicate NothingEnds(rs: seq<LiveRange>, n: nat, t: int, t': int) {
    forall k: nat :: Held(rs, n, t, k) ==> Held(rs, n, t', k)
  }

  lemma BetweenSteps(rs: seq<LiveRange>, i: nat)
    requires WfRanges(rs) && EndsOnRecord(rs) && i < |rs|
    ensures NothingEnds(rs, i, PosAt(rs, i), if rs[i].uses == [] then rs[i].span.defPos else rs[i].span.defPos - 1)
  {
    var t' := if rs[i].uses == [] then rs[i].span.defPos else rs[i].span.defPos - 1;
    forall k: nat | Held(rs, i, PosAt(rs, i), k) ensures t' < rs[k].span.lastUse {
      if rs[k].span.lastUse < AFTER_BBL {
        assert EndNamed(rs, k);
        var r: nat :| EndsAt(rs, k, r);
        RecordPassed(rs, i, r);
      }
      hide WfRanges;
    }
  }

  lemma RecordPassed(rs: seq<LiveRange>, i: nat, r: nat)
    requires WfRanges(rs) && i < |rs| && r < |rs| && rs[r].uses != []
    ensures rs[r].span.defPos <= (if rs[i].uses == [] then rs[i].span.defPos else rs[i].span.defPos - 1) ==> rs[r].span.defPos <= PosAt(rs, i)
  {
    assert WfRange(rs, r) && WfRange(rs, i);
    if i < r { SortedDefs(rs, i, r); } else if r < i - 1 { SortedDefs(rs, r, i - 1); }
  }

  lemma AccountedLater(rs: seq<LiveRange>, n: nat, t: int, t': int, avail: set<Bit>)
    requires Accounted(rs, n, t, avail, []) && NothingEnds(rs, n, t, t')
    ensures Accounted(rs, n, t', avail, [])
  {
    hide Bits;
    forall b | HeldBit(rs, n, t, b) ensures HeldBit(rs, n, t', b) {
      var k: nat :| Held(rs, n, t, k) && b in Bits(rs[k]);
      assert Held(rs, n, t', k);
    }
    hide Held;
  }

  lemma SkipAccounts(rs: seq<LiveRange>, n: nat, t: int, avail: set<Bit>)
    requires n < |rs| && !InRegister(rs[n]) && Accounted(rs, n, t, avail, [])
    ensures Accounted(rs, n + 1, t, avail, [])
  {
    var n' := n + 1;
    hide Bits;
    forall k: nat, b | Handled(rs, n', k, b) ensures b in avail || HeldBit(rs, n + 1, t, b) {
      assert Handled(rs, n, k, b);
      if HeldBit(rs, n, t, b) {
        var h: nat :| Held(rs, n, t, h) && b in Bits(rs[h]);
        assert Held(rs, n + 1, t, h);
      }
    }
  }

  // -- reads

  lemma GiveBits(st: PoolState, reg: CpuReg)
    ensures st.Give(reg).Available() == st.Available() + AllocMask(reg)
  {
    hide AllocMask, SurvivesCalls;
  }

  /** The ranges that end here give their registers back, whatever else happens. */
  lemma {:induction false} EndUsesGives(sc: Scene, p: int, uses: seq<nat>, x: nat)
    requires x <= |uses|
    ensures var st := EndUses(sc, p, uses, x).pool;
      && sc.pool.Available() <= st.Available()
      && forall y :: 0 <= y < x && EndsHere(sc.rs, uses[y], p) ==> Bits(sc.rs[uses[y]]) <= st.Available()
  {
    hide AllocMask, PoolState.Available, PoolState.Give;
    if x > 0 {
      EndUsesGives(sc, p, uses, x - 1);
      if EndsHere(sc.rs, uses[x - 1], p) { GiveBits(EndUses(sc, p, uses, x - 1).pool, sc.rs[uses[x - 1]].loc.cpu); }
    }
  }

  lemma {:induction false} GiveTempsGives(sc: Scene, temps: seq<CpuReg>, x: nat)
    requires x <= |temps|
    ensures var st := GiveTemps(sc, temps, x).pool;
      && sc.pool.Available() <= st.Available()
      && forall y :: 0 <= y < x ==> AllocMask(temps[y]) <= st.Available()
  {
    hide AllocMask, PoolState.Available, PoolState.Give;
    if x > 0 {
      GiveTempsGives(sc, temps, x - 1);
      GiveBits(GiveTemps(sc, temps, x - 1).pool, temps[x - 1]);
    }
  }

  /** Who is held until the record is held beyond it, or is named there and gives its register back. */
  lemma HeldOrGiven(rs: seq<LiveRange>, i: nat, k: nat, avail: set<Bit>)
    requires WfRanges(rs) && EndsOnRecord(rs) && i < |rs| && rs[i].uses != [] && Held(rs, i, rs[i].span.defPos - 1, k)
    requires forall y :: 0 <= y < |rs[i].uses| && EndsHere(rs, rs[i].uses[y], rs[i].span.defPos) ==> Bits(rs[rs[i].uses[y]]) <= avail
    ensures Held(rs, i, rs[i].span.defPos, k) || Bits(rs[k]) <= avail
  {
    hide Bits;
    var p := rs[i].span.defPos;
    if rs[k].span.lastUse == p {
      assert EndNamed(rs, k);
      var r: nat :| EndsAt(rs, k, r);
      assert r == i;
      var y :| 0 <= y < |rs[i].uses| && rs[i].uses[y] == k;
      assert EndsHere(rs, rs[i].uses[y], p);
    }
  }

  lemma RecordAccounts(rs: seq<LiveRange>, i: nat, avail: set<Bit>, avail': set<Bit>, temps: seq<CpuReg>)
    requires WfRanges(rs) && EndsOnRecord(rs) && i < |rs| && rs[i].uses != [] && Accounted(rs, i, rs[i].span.defPos - 1, avail, temps)
    requires avail <= avail' && forall y :: 0 <= y < |temps| ==> AllocMask(temps[y]) <= avail'
    requires forall y :: 0 <= y < |rs[i].uses| && EndsHere(rs, rs[i].uses[y], rs[i].span.defPos) ==> Bits(rs[rs[i].uses[y]]) <= avail'
    ensures Accounted(rs, i, rs[i].span.defPos, avail', [])
  {
    var p := rs[i].span.defPos;
    forall b | HeldBit(rs, i, p - 1, b) ensures b in avail' || HeldBit(rs, i, p, b) {
      var k: nat :| Held(rs, i, p - 1, k) && b in Bits(rs[k]);
      HeldOrGiven(rs, i, k, avail');
      hide Bits, WfRanges, EndsOnRecord, AllocMask;
    }
    forall b | ScratchBit(temps, b) ensures b in avail' { hide Bits, AllocMask; }
    hide WfRanges, EndsOnRecord, HeldBit, ScratchBit, Handled, EndsHere, AllocMask;
  }

  lemma UseStepAccounts(sc: Scene, allow: bool, i: nat)
    requires i < |sc.rs| && sc.rs[i].uses != [] && Scanned(sc.rs, i, sc.rs[i].span.defPos - 1, sc.pool) && EndsOnRecord(sc.rs)
    requires Accounted(sc.rs, i, sc.rs[i].span.defPos - 1, sc.pool.Available(), []) && UseStep(sc, allow, i).Some?
    ensures var next := UseStep(sc, allow, i).value; Accounted(next.rs, i + 1, sc.rs[i].span.defPos, next.pool.Available(), [])
  {
    var p, uses, v := sc.rs[i].span.defPos, sc.rs[i].uses, Serve(sc, allow, i, |sc.rs[i].uses|);
    UseStepIs(sc, allow, i, v);
    assert v.Serving? by { hide Scanned, Accounted, Serve; }
    ServeScratch(sc, allow, i, |uses|);
    ServeKeeps(sc, allow, i, |uses|);
    ServedNow(sc, allow, i, |uses|, v.scene, v.temps);
    ServedParts(sc, allow, i, p - 1, v);
    hide Scanned, Accounted, Serve, UseStep, PicksGoOn, Distinct, TempsApart, PoolState.Available, EndsOnRecord, WfRanges, Placed, ServingKeeps, SameButLocs,
         TempsFree, EndsHere, AllocMask, Bits, EndUses, GiveTemps;
    NamedSame(sc.rs, v.scene.rs);
    var ended := EndUses(v.scene, p, uses, |uses|);
    EndUsesGives(v.scene, p, uses, |uses|);
    GiveTempsGives(ended, v.temps, |v.temps|);
    RecordAccounts(v.scene.rs, i, v.scene.pool.Available(), GiveTemps(ended, v.temps, |v.temps|).pool.Available(), v.temps);
    SkipAccounts(v.scene.rs, i, p, GiveTemps(ended, v.temps, |v.temps|).pool.Available());
  }

  // -- definitions

  lemma AssignAccounts(rs: seq<LiveRange>, n: nat, st: PoolState, reg: CpuReg, avail': set<Bit>)
    requires WfRanges(rs) && n < |rs| && Allocates(rs[n]) && Accounted(rs, n, rs[n].span.defPos, st.Available(), [])
    requires avail' + AllocMask(reg) >= st.Available() && (rs[n].span.lastUse >= NO_USE ==> AllocMask(reg) <= avail')
    ensures Accounted(WithLoc(rs, n, InReg(reg)), n + 1, rs[n].span.defPos, avail', [])
  {
    var rs', t, n' := WithLoc(rs, n, InReg(reg)), rs[n].span.defPos, n + 1;
    assert WfRange(rs, n) && Bits(rs'[n]) == AllocMask(reg);
    hide Bits, AllocMask, PoolState.Available, WfRanges;
    forall k: nat, b | Handled(rs', n', k, b) ensures b in avail' || HeldBit(rs', n + 1, t, b) {
      if b in AllocMask(reg) {
        if rs[n].span.lastUse < NO_USE { assert Held(rs', n + 1, t, n) && b in Bits(rs'[n]); }
      } else {
        assert k != n && rs'[k] == rs[k] && Handled(rs, n, k, b);
        assert !ScratchBit([], b);
        if HeldBit(rs, n, t, b) {
          var h: nat :| Held(rs, n, t, h) && b in Bits(rs[h]);
          assert Held(rs', n + 1, t, h) && rs'[h] == rs[h];
        }
      }
    }
  }

  lemma SpilledAccounts(rs: seq<LiveRange>, n: nat, t: int, avail: set<Bit>)
    requires n < |rs| && Accounted(rs, n, t, avail, [])
    ensures Accounted(WithLoc(rs, n, Spilled), n + 1, t, avail, [])
  {
    var rs', n' := WithLoc(rs, n, Spilled), n + 1;
    hide Bits;
    forall k: nat, b | Handled(rs', n', k, b) ensures b in avail || HeldBit(rs', n + 1, t, b) {
      assert k != n && rs'[k] == rs[k] && Handled(rs, n, k, b);
      if HeldBit(rs, n, t, b) {
        var h: nat :| Held(rs, n, t, h) && b in Bits(rs[h]);
        assert Held(rs', n + 1, t, h) && rs'[h] == rs[h];
      }
    }
  }

  lemma AssignStepAccounts(sc: Scene, allow: bool, i: nat)
    requires i < |sc.rs| && Allocates(sc.rs[i]) && WfRanges(sc.rs) && AssignStep(sc, allow, i).Some?
    requires Accounted(sc.rs, i, sc.rs[i].span.defPos, sc.pool.Available(), []) && sc.rs[i].span.lastUse <= NO_USE
    ensures var next := AssignStep(sc, allow, i).value; Accounted(next.rs, i + 1, sc.rs[i].span.defPos, next.pool.Available(), [])
  {
    hide Accounted, WfRanges, Answer, AllocMask, PoolState.Available, PoolState.Take, PoolState.Give, Allocates;
    var lr := sc.rs[i];
    match Answer(sc.pool, lr.kind, lr.lac, lr.span) {
      case None => SpilledAccounts(sc.rs, i, lr.span.defPos, sc.pool.Available());
      case Some(reg) =>
        TakenBits(sc.pool, reg, lr.lac);
        GiveBits(sc.pool.Take(reg, lr.lac), reg);
        AssignAccounts(sc.rs, i, sc.pool, reg, AssignStep(sc, allow, i).value.pool.Available());
    }
  }

  lemma GivenBack(rs: seq<LiveRange>, n: nat, t: int, st: PoolState, reg: CpuReg)
    requires Accounted(rs, n, t, st.Available(), [reg])
    ensures Accounted(rs, n, t, st.Give(reg).Available(), [])
  {
    GiveBits(st, reg);
    hide AllocMask, PoolState.Available, PoolState.Give, HeldBit, Handled;
    forall b | ScratchBit([reg], b) ensures b in AllocMask(reg) {}
  }

  lemma DefStepAccounts(sc: Scene, allow: bool, i: nat)
    requires i < |sc.rs| && Allocates(sc.rs[i]) && Scanned(sc.rs, i, sc.rs[i].span.defPos, sc.pool) && sc.rs[i].span.lastUse <= NO_USE
    requires Accounted(sc.rs, i, sc.rs[i].span.defPos, sc.pool.Available(), []) && DefStep(sc, allow, i).Some?
    ensures var next := DefStep(sc, allow, i).value; Accounted(next.rs, i + 1, sc.rs[i].span.defPos, next.pool.Available(), [])
  {
    hide *;
    var lr, p, next := sc.rs[i], sc.rs[i].span.defPos, AssignStep(sc, allow, i);
    ScannedParts(sc.rs, i, p, sc.pool);
    DefStepIs(sc, allow, i);
    AssignStepAccounts(sc, allow, i);
    if next.value.rs[i].loc == Spilled {
      StepScanned(sc, allow, i);
      ClaimAccounts(next.value, lr.kind, p, p, i - 1, i + 1, p, []);
      var c := Claim(next.value, lr.kind, p, p, i - 1);
      assert [] + [c.got.value] == [c.got.value];
      GivenBack(c.scene.rs, i + 1, p, c.scene.pool, c.got.value);
    }
  }

  lemma StepScanned(sc: Scene, allow: bool, i: nat)
    requires i < |sc.rs| && Allocates(sc.rs[i]) && Scanned(sc.rs, i, sc.rs[i].span.defPos, sc.pool) && AssignStep(sc, allow, i).Some?
    ensures var next := AssignStep(sc, allow, i).value; |next.rs| == |sc.rs| && Scanned(next.rs, i + 1, sc.rs[i].span.defPos, next.pool)
  {
    AssignStepKeeps(sc, allow, i);
    hide Scanned, AssignStep, SameButLocs, NoSpilled;
  }

  // -- all of it

  lemma StepAccounts(sc: Scene, allow: bool, i: nat)
    requires i < |sc.rs| && Scanned(sc.rs, i, PosAt(sc.rs, i), sc.pool) && EndsOnRecord(sc.rs)
    requires Accounted(sc.rs, i, PosAt(sc.rs, i), sc.pool.Available(), []) && Step(sc, allow, i).Some?
    ensures var next := Step(sc, allow, i).value; Accounted(next.rs, i + 1, sc.rs[i].span.defPos, next.pool.Available(), [])
  {
    var lr, t := sc.rs[i], PosAt(sc.rs, i);
    ScannedParts(sc.rs, i, t, sc.pool);
    PosGrows(sc.rs, i);
    BetweenSteps(sc.rs, i);
    hide Scanned, Accounted, EndsOnRecord, UseStep, DefStep, WfRanges, Placed, NothingEnds, PoolState.Available;
    if lr.uses != [] {
      LaterIsWeaker(sc.rs, i, t, lr.span.defPos - 1, sc.pool);
      AccountedLater(sc.rs, i, t, lr.span.defPos - 1, sc.pool.Available());
      UseStepAccounts(sc, allow, i);
    } else {
      LaterIsWeaker(sc.rs, i, t, lr.span.defPos, sc.pool);
      AccountedLater(sc.rs, i, t, lr.span.defPos, sc.pool.Available());
      if lr.preAlloc || lr.ignore {
        SkipAccounts(sc.rs, i, lr.span.defPos, sc.pool.Available());
      } else {
        DefStepAccounts(sc, allow, i);
      }
    }
  }

  lemma {:induction false} ScanAccounts(sc: Scene, allow: bool, i: nat)
    requires i <= |sc.rs| && Scanned(sc.rs, 0, BEFORE_BBL - 1, sc.pool) && EndsOnRecord(sc.rs) && SceneAt(sc, allow, i).Some?
    ensures var now := SceneAt(sc, allow, i).value; Accounted(now.rs, i, PosAt(sc.rs, i), now.pool.Available(), [])
  {
    hide Scanned, Accounted, Step, PoolState.Available, SameButLocs, EndsOnRecord, NoSpilled;
    if i == 0 {
      NothingHandled(sc.rs, BEFORE_BBL - 1, sc.pool.Available());
    } else {
      ScanAccounts(sc, allow, i - 1);
      ScanKeeps(sc, allow, i - 1);
      var now := SceneAt(sc, allow, i - 1).value;
      NamedSame(sc.rs, now.rs);
      SamePos(sc.rs, now.rs, i - 1);
      StepAccounts(now, allow, i - 1);
    }
  }

  lemma NothingHandled(rs: seq<LiveRange>, t: int, avail: set<Bit>)
    ensures Accounted(rs, 0, t, avail, [])
  {
  }

  /** Whatever the ranges and the pool: when the scan gets to a record and can serve it, the scratch
      registers it holds at the same time are distinct if and only if every range that loses its
      register for them still ends at the record or later. */
  lemma EveryRecordIff(sc: Scene, allow: bool, i: nat, now: Scene)
    requires i < |sc.rs| && sc.rs[i].uses != [] && Scanned(sc.rs, 0, BEFORE_BBL - 1, sc.pool) && EndsOnRecord(sc.rs)
    requires SceneAt(sc, allow, i) == Some(now) && |now.rs| == |sc.rs|
    requires Serve(now, allow, i, |now.rs[i].uses|).Serving?
    ensures Distinct(Serve(now, allow, i, |now.rs[i].uses|).temps) <==> PicksGoOn(now, allow, i, |now.rs[i].uses|)
  {
    ScanAccounts(sc, allow, i);
    ScanKeeps(sc, allow, i);
    ReadyFor(sc, allow, i, now);
    hide Scanned, Accounted, SceneAt, Step, PoolState.Available, SameButLocs, EndsOnRecord, NoSpilled, Distinct, PicksGoOn, Serve, NothingEnds, WfRanges, Placed;
    SamePos(sc.rs, now.rs, i);
    SameKindAndSpan(sc.rs, now.rs, i);
    NamedSame(sc.rs, now.rs);
    ScannedParts(now.rs, i, PosAt(sc.rs, i), now.pool);
    BetweenSteps(now.rs, i);
    AccountedLater(now.rs, i, PosAt(now.rs, i), now.rs[i].span.defPos - 1, now.pool.Available());
    ScratchDistinctIff(now, allow, i);
  }

  // ---------------------------------------------------------------- when the allocator gives up

  /** The pool has a register of the kind that may be used at pos. */
  ghost predicate CanHand(st: PoolState, kind: Kind, pos: int) {
    exists n: nat :: n < NumRegs(kind) && st.Candidate(CpuReg(kind, n), false, WhileAt(pos))
  }

  /** With the bits of cpu it would be available at pos. */
  predicate Completes(st: PoolState, reg: CpuReg, pos: int, cpu: CpuReg) {
    AllocMask(reg) <= st.notLac + AllocMask(cpu) && st.NoConflict(reg, WhileAt(pos))
  }

  /** Taking cpu away is of use: calls clobber it, and with it there is a register to hand out. */
  ghost predicate HelpedBy(st: PoolState, kind: Kind, pos: int, cpu: CpuReg) {
    !SurvivesCalls(cpu) && exists n: nat :: n < NumRegs(kind) && Completes(st, CpuReg(kind, n), pos, cpu)
  }

  lemma AskIff(sc: Scene, kind: Kind, pos: int)
    ensures Ask(sc, kind, pos).got.Some? <==> CanHand(sc.pool, kind, pos)
  {
    hide PoolState.Candidate;
    var got := Answer(sc.pool, kind, false, WhileAt(pos));
    if got.Some? { assert got.value == CpuReg(kind, got.value.no); }
  }

  lemma CanHandAfter(st: PoolState, kind: Kind, pos: int, cpu: CpuReg)
    requires !CanHand(st, kind, pos)
    ensures CanHand(st.Give(cpu), kind, pos) <==> HelpedBy(st, kind, pos, cpu)
  {
    hide AllocMask, SurvivesCalls, PoolState.NoConflict;
    var st' := st.Give(cpu);
    forall n: nat ensures st'.Candidate(CpuReg(kind, n), false, WhileAt(pos)) <==>
        if SurvivesCalls(cpu) then st.Candidate(CpuReg(kind, n), false, WhileAt(pos)) else Completes(st, CpuReg(kind, n), pos, cpu)
    {
      SameConflicts(st, cpu, CpuReg(kind, n), WhileAt(pos));
    }
    hide PoolState.Candidate, Completes, PoolState.Give;
  }

  lemma SameConflicts(st: PoolState, cpu: CpuReg, reg: CpuReg, lr: Span)
    ensures st.Give(cpu).NoConflict(reg, lr) == st.NoConflict(reg, lr)
  {
    hide AllocMask, SurvivesCalls, Conflict;
  }

  /** A scratch register is found if and only if the pool has one, or the register of the nearest range
      that qualifies is caller-saved and makes one. */
  lemma ClaimIff(sc: Scene, kind: Kind, pos: int, spilledDef: int, i: int, n: nat)
    requires Placed(sc.rs, n) && -1 <= i < n <= |sc.rs|
    ensures var k := Pick(sc.rs, i, spilledDef, kind);
      Claim(sc, kind, pos, spilledDef, i).got.Some? <==>
        CanHand(sc.pool, kind, pos) || (k >= 0 && sc.rs[k].loc.InReg? && HelpedBy(sc.pool, kind, pos, sc.rs[k].loc.cpu))
  {
    var k := Pick(sc.rs, i, spilledDef, kind);
    PickedHasRegister(sc.rs, n, i, spilledDef, kind);
    AskIff(sc, kind, pos);
    hide Placed, Ask, CanHand, HelpedBy, Spillable, PoolState.Give;
    if k >= 0 && !CanHand(sc.pool, kind, pos) {
      AskIff(Unassign(sc, k), kind, pos);
      CanHandAfter(sc.pool, kind, pos, sc.rs[k].loc.cpu);
    }
  }

  /** A definition is given up on if and only if there is no register for it, and none as scratch either. */
  lemma DefGivesUpIff(sc: Scene, i: nat)
    requires i < |sc.rs| && Allocates(sc.rs[i]) && Scanned(sc.rs, i, sc.rs[i].span.defPos, sc.pool)
    ensures var lr := sc.rs[i];
      var k := Pick(sc.rs, i - 1, lr.span.defPos, lr.kind);
      DefStep(sc, true, i) == None <==>
        && Answer(sc.pool, lr.kind, lr.lac, lr.span) == None && !CanHand(sc.pool, lr.kind, lr.span.defPos)
        && !(k >= 0 && sc.rs[k].loc.InReg? && HelpedBy(sc.pool, lr.kind, lr.span.defPos, sc.rs[k].loc.cpu))
  {
    var lr, p := sc.rs[i], sc.rs[i].span.defPos;
    var spilled := Scene(WithLoc(sc.rs, i, Spilled), sc.pool);
    DefStepIs(sc, true, i);
    SpilledKeeps(sc.rs, i, sc.pool);
    ScannedParts(spilled.rs, i + 1, p, sc.pool);
    ClaimIff(spilled, lr.kind, p, p, i - 1, i + 1);
    SamePick(sc.rs, i, i - 1, p, lr.kind);
    hide Scanned, WfRanges, Placed, Answer, CanHand, HelpedBy, Claim, SameButLocs, Spillable, DefStep, PoolState.Take, PoolState.Give;
  }

  lemma {:induction false} SamePick(rs: seq<LiveRange>, i: nat, j: int, pos: int, kind: Kind)
    requires j < i < |rs|
    ensures Pick(WithLoc(rs, i, Spilled), j, pos, kind) == Pick(rs, j, pos, kind)
    decreases j + 1
  {
    hide Spillable;
    if j >= 0 { SamePick(rs, i, j - 1, pos, kind); }
  }

}
