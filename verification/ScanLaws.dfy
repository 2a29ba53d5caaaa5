/** What the scan with spilling does, said over ranges, bits and reserved stretches alone: which bits
    are available at any moment, what register a definition gets, when it is spilled, and who loses
    a register for a scratch register. */
module ScanLaws {
  import opened IR
  import opened RegPool
  import opened LiveRanges
  import opened LinearScan
  import opened ScratchRegs
  import opened LocalAlloc
  import opened MachineCode

  // ---------------------------------------------------------------- where every bit is

  /** The fixed range k is over at t; its register may be used from then on. */
  predicate Returns(rs: seq<LiveRange>, t: int, k: nat, b: Bit) {
    k < |rs| && Reserved(rs[k]) && !rs[k].ignore && rs[k].span.lastUse <= t && rs[k].span.lastUse < AFTER_BBL && b in Bits(rs[k])
  }

  /** The bits the allocator may use at t: those it was given, and those of fixed ranges that are over. */
  ghost predicate Usable(start: set<Bit>, rs: seq<LiveRange>, t: int, b: Bit) {
    b in start || exists k: nat :: Returns(rs, t, k, b)
  }

  ghost function Base(start: set<Bit>, rs: seq<LiveRange>, t: int): iset<Bit> { iset b | Usable(start, rs, t, b) }

  /** Bits of `base`, and no others, are available, with ranges that still need them, or scratch registers. */
  ghost predicate Stocked(base: iset<Bit>, rs: seq<LiveRange>, n: nat, t: int, avail: set<Bit>, temps: seq<CpuReg>) {
    && (forall b :: b in avail ==> b in base)
    && (forall k: nat, b :: Handled(rs, n, k, b) ==> b in base)
    && (forall b :: ScratchBit(temps, b) ==> b in base)
    && (forall b :: b in base ==> b in avail || HeldBit(rs, n, t, b) || ScratchBit(temps, b))
  }

  // -- scratch registers

  lemma ScratchBitOnly(temps: seq<CpuReg>, reg: CpuReg, b: Bit)
    ensures ScratchBit(temps + [reg], b) ==> ScratchBit(temps, b) || b in AllocMask(reg)
  {
    hide AllocMask;
    if ScratchBit(temps + [reg], b) {
      var x :| 0 <= x < |temps + [reg]| && b in AllocMask((temps + [reg])[x]);
      if x < |temps| { assert (temps + [reg])[x] == temps[x]; }
    }
  }

  lemma AskStocks(base: iset<Bit>, sc: Scene, kind: Kind, pos: int, n: nat, t: int, temps: seq<CpuReg>)
    requires Stocked(base, sc.rs, n, t, sc.pool.Available(), temps)
    ensures var c := Ask(sc, kind, pos);
      c.scene.rs == sc.rs && Stocked(base, sc.rs, n, t, c.scene.pool.Available(), if c.got.Some? then temps + [c.got.value] else temps)
  {
    var c := Ask(sc, kind, pos);
    if c.got.Some? {
      var reg := c.got.value;
      TakenBits(sc.pool, reg, false);
      assert AllocMask(reg) <= sc.pool.Available() && c.scene.pool.Available() <= sc.pool.Available() by { hide PoolState.NoConflict; }
      hide AllocMask, HeldBit, ScratchBit, Handled, PoolState.Available, PoolState.Take, PoolState.Candidate;
      forall b ensures ScratchBit(temps, b) || b in AllocMask(reg) <==> ScratchBit(temps + [reg], b) {
        ScratchBitMore(temps, reg, b);
        ScratchBitOnly(temps, reg, b);
      }
    }
  }

  lemma UnassignStocks(base: iset<Bit>, sc: Scene, k: nat, n: nat, t: int, temps: seq<CpuReg>)
    requires k < n <= |sc.rs| && InRegister(sc.rs[k]) && Stocked(base, sc.rs, n, t, sc.pool.Available(), temps)
    ensures var s := Unassign(sc, k); Stocked(base, s.rs, n, t, s.pool.Available(), temps)
  {
    var s := Unassign(sc, k);
    GiveBits(sc.pool, sc.rs[k].loc.cpu);
    assert Bits(sc.rs[k]) == AllocMask(sc.rs[k].loc.cpu);
    assert forall b :: b in Bits(sc.rs[k]) ==> Handled(sc.rs, n, k, b);
    hide Bits, ScratchBit, PoolState.Available, PoolState.Give, AllocMask;
    forall j: nat, b | Handled(s.rs, n, j, b) ensures b in base { assert j != k && s.rs[j] == sc.rs[j] && Handled(sc.rs, n, j, b); }
    forall b | b in base ensures b in s.pool.Available() || HeldBit(s.rs, n, t, b) || ScratchBit(temps, b) {
      if HeldBit(sc.rs, n, t, b) {
        var h: nat :| Held(sc.rs, n, t, h) && b in Bits(sc.rs[h]);
        if h != k { assert Held(s.rs, n, t, h) && s.rs[h] == sc.rs[h]; }
      }
    }
  }

  lemma ClaimStocks(base: iset<Bit>, sc: Scene, kind: Kind, pos: int, spilledDef: int, i: int, n: nat, t: int, temps: seq<CpuReg>)
    requires Scanned(sc.rs, n, t, sc.pool) && -1 <= i < n && Stocked(base, sc.rs, n, t, sc.pool.Available(), temps)
    ensures var c := Claim(sc, kind, pos, spilledDef, i);
      Stocked(base, c.scene.rs, n, t, c.scene.pool.Available(), if c.got.Some? then temps + [c.got.value] else temps)
  {
    ScannedParts(sc.rs, n, t, sc.pool);
    PickedHasRegister(sc.rs, n, i, spilledDef, kind);
    hide Scanned, Placed, WfRanges, Stocked, Ask, Unassign, Spillable, PoolState.Available;
    AskNone(sc, kind, pos);
    AskStocks(base, sc, kind, pos, n, t, temps);
    var k := Pick(sc.rs, i, spilledDef, kind);
    if Ask(sc, kind, pos).got == None && k >= 0 {
      UnassignStocks(base, sc, k, n, t, temps);
      AskStocks(base, Unassign(sc, k), kind, pos, n, t, temps);
    }
  }

  lemma ServeOneStocks(base: iset<Bit>, sc: Scene, temps: seq<CpuReg>, allow: bool, i: nat, p: int, u: nat)
    requires i < |sc.rs| && sc.rs[i].span.defPos == p && u in sc.rs[i].uses
    requires Scanned(sc.rs, i, p - 1, sc.pool) && Stocked(base, sc.rs, i, p - 1, sc.pool.Available(), temps)
    ensures var v := ServeOne(sc, temps, allow, i, p, u); v.Serving? ==> Stocked(base, v.scene.rs, i, p - 1, v.scene.pool.Available(), v.temps)
  {
    hide Scanned, Stocked, Claim, Spillable, PoolState.Available;
    if NeedsScratch(sc.rs, u) { ClaimStocks(base, sc, sc.rs[u].kind, p, sc.rs[u].span.defPos, i - 1, i, p - 1, temps); }
  }

  lemma {:induction false} ServeStocks(base: iset<Bit>, sc: Scene, allow: bool, i: nat, x: nat)
    requires i < |sc.rs| && x <= |sc.rs[i].uses| && Scanned(sc.rs, i, sc.rs[i].span.defPos - 1, sc.pool)
    requires Stocked(base, sc.rs, i, sc.rs[i].span.defPos - 1, sc.pool.Available(), [])
    ensures var v := Serve(sc, allow, i, x);
      v.Serving? ==> Stocked(base, v.scene.rs, i, sc.rs[i].span.defPos - 1, v.scene.pool.Available(), v.temps)
  {
    hide Scanned, Stocked, TempsFree, ServeOne, PoolState.Available, WfRanges, Placed;
    if x > 0 {
      ServeStocks(base, sc, allow, i, x - 1);
      var v := Serve(sc, allow, i, x - 1);
      if v.Serving? {
        ServedNow(sc, allow, i, x - 1, v.scene, v.temps);
        ServeOneStocks(base, v.scene, v.temps, allow, i, sc.rs[i].span.defPos, sc.rs[i].uses[x - 1]);
      }
    }
  }

  // -- records

  /** What comes back at a record is what was available and what ends there. */
  lemma {:induction false} EndUsesOnly(sc: Scene, p: int, uses: seq<nat>, x: nat, b: Bit)
    requires x <= |uses| && b in EndUses(sc, p, uses, x).pool.Available() && b !in sc.pool.Available()
    ensures exists y :: 0 <= y < x && EndsHere(sc.rs, uses[y], p) && b in Bits(sc.rs[uses[y]])
  {
    hide AllocMask, PoolState.Available, PoolState.Give;
    if x > 0 {
      if EndsHere(sc.rs, uses[x - 1], p) { GiveBits(EndUses(sc, p, uses, x - 1).pool, sc.rs[uses[x - 1]].loc.cpu); }
      if b in EndUses(sc, p, uses, x - 1).pool.Available() { EndUsesOnly(sc, p, uses, x - 1, b); }
    }
  }

  lemma {:induction false} GiveTempsOnly(sc: Scene, temps: seq<CpuReg>, x: nat, b: Bit)
    requires x <= |temps| && b in GiveTemps(sc, temps, x).pool.Available() && b !in sc.pool.Available()
    ensures ScratchBit(temps, b)
  {
    hide AllocMask, PoolState.Available, PoolState.Give;
    if x > 0 {
      GiveBits(GiveTemps(sc, temps, x - 1).pool, temps[x - 1]);
      if b in GiveTemps(sc, temps, x - 1).pool.Available() { GiveTempsOnly(sc, temps, x - 1, b); }
    }
  }

  /** A fixed range that returns its register between p - 1 and p ends at p, on record. */
  lemma ReturnsHere(rs: seq<LiveRange>, i: nat, k: nat, b: Bit, avail: set<Bit>)
    requires WfRanges(rs) && EndsOnRecord(rs) && i < |rs| && rs[i].uses != []
    requires Returns(rs, rs[i].span.defPos, k, b) && !Returns(rs, rs[i].span.defPos - 1, k, b)
    requires forall y :: 0 <= y < |rs[i].uses| && EndsHere(rs, rs[i].uses[y], rs[i].span.defPos) ==> Bits(rs[rs[i].uses[y]]) <= avail
    ensures b in avail
  {
    var p := rs[i].span.defPos;
    assert rs[k].span.lastUse == p;
    assert EndNamed(rs, k);
    var r: nat :| EndsAt(rs, k, r);
    assert r == i;
    var y :| 0 <= y < |rs[i].uses| && rs[i].uses[y] == k;
    assert EndsHere(rs, rs[i].uses[y], p);
  }

  /** Once record i is served: base, available bits and held bits as they are after it. */
  lemma RecordStocks(start: set<Bit>, rs: seq<LiveRange>, i: nat, avail: set<Bit>, avail': set<Bit>, temps: seq<CpuReg>)
    requires WfRanges(rs) && EndsOnRecord(rs) && i < |rs| && rs[i].uses != []
    requires Stocked(Base(start, rs, rs[i].span.defPos - 1), rs, i, rs[i].span.defPos - 1, avail, temps)
    requires avail <= avail' && forall y :: 0 <= y < |temps| ==> AllocMask(temps[y]) <= avail'
    requires forall y :: 0 <= y < |rs[i].uses| && EndsHere(rs, rs[i].uses[y], rs[i].span.defPos) ==> Bits(rs[rs[i].uses[y]]) <= avail'
    requires forall b :: b in avail' && b !in avail ==> ScratchBit(temps, b) || EndsWith(rs, i, b)
    ensures Stocked(Base(start, rs, rs[i].span.defPos), rs, i, rs[i].span.defPos, avail', [])
  {
    var p := rs[i].span.defPos;
    var base, base' := Base(start, rs, p - 1), Base(start, rs, p);
    forall b | b in base ensures b in base' { UsableLater(start, rs, p - 1, p, b); }
    forall b | b in avail' ensures b in base' {
      if b !in avail && !ScratchBit(temps, b) { EndingIsUsable(start, rs, i, b, base); }
      hide ScratchBit, EndsWith;
    }
    forall b | b in base' ensures b in avail' || HeldBit(rs, i, p, b) || ScratchBit([], b) {
      RecordKeeps(start, rs, i, avail, avail', temps, b);
    }
    hide WfRanges, EndsOnRecord, HeldBit, Handled, EndsHere, AllocMask, Base;
    assert forall b :: !ScratchBit([], b);
  }

  ghost predicate EndsWith(rs: seq<LiveRange>, i: nat, b: Bit)
    requires i < |rs|
  {
    exists y :: 0 <= y < |rs[i].uses| && EndsHere(rs, rs[i].uses[y], rs[i].span.defPos) && b in Bits(rs[rs[i].uses[y]])
  }

  lemma UsableLater(start: set<Bit>, rs: seq<LiveRange>, t: int, t': int, b: Bit)
    requires Usable(start, rs, t, b) && t <= t'
    ensures Usable(start, rs, t', b)
  {
    if b !in start {
      var k: nat :| Returns(rs, t, k, b);
      assert Returns(rs, t', k, b);
    }
  }

  lemma EndingIsUsable(start: set<Bit>, rs: seq<LiveRange>, i: nat, b: Bit, base: iset<Bit>)
    requires WfRanges(rs) && i < |rs| && rs[i].uses != [] && EndsWith(rs, i, b) && rs[i].span.defPos < AFTER_BBL
    requires base == Base(start, rs, rs[i].span.defPos - 1) && forall k: nat, c :: Handled(rs, i, k, c) ==> c in base
    ensures Usable(start, rs, rs[i].span.defPos, b)
  {
    var p := rs[i].span.defPos;
    var y :| 0 <= y < |rs[i].uses| && EndsHere(rs, rs[i].uses[y], p) && b in Bits(rs[rs[i].uses[y]]);
    var u := rs[i].uses[y];
    assert u in rs[i].uses;
    UsedBefore(rs, i, u);
    assert WfRange(rs, i);
    hide Bits, WfRanges, Usable;
    if rs[u].preAlloc {
      assert Returns(rs, p, u, b);
      ReturnIsUsable(start, rs, p, u, b);
    } else {
      assert Handled(rs, i, u, b);
      UsableLater(start, rs, p - 1, p, b);
    }
  }

  lemma ReturnIsUsable(start: set<Bit>, rs: seq<LiveRange>, t: int, k: nat, b: Bit)
    requires Returns(rs, t, k, b)
    ensures Usable(start, rs, t, b)
  {
  }

  lemma RecordKeeps(start: set<Bit>, rs: seq<LiveRange>, i: nat, avail: set<Bit>, avail': set<Bit>, temps: seq<CpuReg>, b: Bit)
    requires WfRanges(rs) && EndsOnRecord(rs) && i < |rs| && rs[i].uses != [] && Usable(start, rs, rs[i].span.defPos, b)
    requires Stocked(Base(start, rs, rs[i].span.defPos - 1), rs, i, rs[i].span.defPos - 1, avail, temps)
    requires avail <= avail' && forall y :: 0 <= y < |temps| ==> AllocMask(temps[y]) <= avail'
    requires forall y :: 0 <= y < |rs[i].uses| && EndsHere(rs, rs[i].uses[y], rs[i].span.defPos) ==> Bits(rs[rs[i].uses[y]]) <= avail'
    ensures b in avail' || HeldBit(rs, i, rs[i].span.defPos, b)
  {
    var p := rs[i].span.defPos;
    if !Usable(start, rs, p - 1, b) {
      var k: nat :| Returns(rs, p, k, b);
      assert !Returns(rs, p - 1, k, b);
      ReturnsHere(rs, i, k, b, avail');
    } else {
      assert b in avail || HeldBit(rs, i, p - 1, b) || ScratchBit(temps, b) by { hide WfRanges, EndsOnRecord, EndsHere, Bits, HeldBit, ScratchBit; }
      if HeldBit(rs, i, p - 1, b) {
        var h: nat :| Held(rs, i, p - 1, h) && b in Bits(rs[h]);
        HeldOrGiven(rs, i, h, avail');
      } else if ScratchBit(temps, b) {
        var x :| 0 <= x < |temps| && b in AllocMask(temps[x]);
      }
    }
    hide Bits, WfRanges, EndsOnRecord, AllocMask, Usable, EndsHere;
  }

  /** Which fixed ranges there are does not change. */
  lemma SameBase(start: set<Bit>, rs: seq<LiveRange>, rs': seq<LiveRange>, t: int)
    requires SameButLocs(rs, rs')
    ensures Base(start, rs', t) == Base(start, rs, t)
  {
    forall b ensures Usable(start, rs', t, b) <==> Usable(start, rs, t, b) {
      if k: nat :| Returns(rs, t, k, b) { assert Returns(rs', t, k, b); }
      if k: nat :| Returns(rs', t, k, b) { assert Returns(rs, t, k, b); }
      hide Returns;
    }
  }

  lemma SkipStocks(base: iset<Bit>, rs: seq<LiveRange>, n: nat, t: int, avail: set<Bit>)
    requires n < |rs| && !InRegister(rs[n]) && Stocked(base, rs, n, t, avail, [])
    ensures Stocked(base, rs, n + 1, t, avail, [])
  {
    var n' := n + 1;
    hide Bits;
    forall k: nat, b | Handled(rs, n', k, b) ensures b in base { assert Handled(rs, n, k, b); }
    forall b | HeldBit(rs, n, t, b) ensures HeldBit(rs, n', t, b) {
      var h: nat :| Held(rs, n, t, h) && b in Bits(rs[h]);
      assert Held(rs, n', t, h);
    }
  }

  lemma UseStepStocks(start: set<Bit>, sc: Scene, allow: bool, i: nat)
    requires i < |sc.rs| && sc.rs[i].uses != [] && Scanned(sc.rs, i, sc.rs[i].span.defPos - 1, sc.pool) && EndsOnRecord(sc.rs)
    requires Stocked(Base(start, sc.rs, sc.rs[i].span.defPos - 1), sc.rs, i, sc.rs[i].span.defPos - 1, sc.pool.Available(), [])
    requires UseStep(sc, allow, i).Some?
    ensures var next := UseStep(sc, allow, i).value;
      Stocked(Base(start, next.rs, sc.rs[i].span.defPos), next.rs, i + 1, sc.rs[i].span.defPos, next.pool.Available(), [])
  {
    hide *;
    var p, uses, v := sc.rs[i].span.defPos, sc.rs[i].uses, Serve(sc, allow, i, |sc.rs[i].uses|);
    UseStepIs(sc, allow, i, v);
    ServeStocks(Base(start, sc.rs, p - 1), sc, allow, i, |uses|);
    ServeKeeps(sc, allow, i, |uses|);
    ServedNow(sc, allow, i, |uses|, v.scene, v.temps);
    ServedParts(sc, allow, i, p - 1, v);
    SameBase(start, sc.rs, v.scene.rs, p - 1);
    NamedSame(sc.rs, v.scene.rs);
    var ended := EndUses(v.scene, p, uses, |uses|);
    var last := GiveTemps(ended, v.temps, |v.temps|);
    EndUsesGives(v.scene, p, uses, |uses|);
    GiveTempsGives(ended, v.temps, |v.temps|);
    NothingElseComes(v.scene, p, i, v.temps);
    RecordStocks(start, v.scene.rs, i, v.scene.pool.Available(), last.pool.Available(), v.temps);
    RecordHasNoRegister(v.scene.rs, i);
    SkipStocks(Base(start, v.scene.rs, p), v.scene.rs, i, p, last.pool.Available());
  }

  lemma RecordHasNoRegister(rs: seq<LiveRange>, i: nat)
    requires i < |rs| && rs[i].uses != []
    ensures !InRegister(rs[i])
  {
  }

  lemma NothingElseComes(sc: Scene, p: int, i: nat, temps: seq<CpuReg>)
    requires i < |sc.rs| && sc.rs[i].span.defPos == p
    ensures var ended := EndUses(sc, p, sc.rs[i].uses, |sc.rs[i].uses|);
      forall b :: b in GiveTemps(ended, temps, |temps|).pool.Available() && b !in sc.pool.Available() ==> ScratchBit(temps, b) || EndsWith(sc.rs, i, b)
  {
    var uses := sc.rs[i].uses;
    var ended := EndUses(sc, p, uses, |uses|);
    forall b | b in GiveTemps(ended, temps, |temps|).pool.Available() && b !in sc.pool.Available() ensures ScratchBit(temps, b) || EndsWith(sc.rs, i, b) {
      if b in ended.pool.Available() { EndUsesOnly(sc, p, uses, |uses|, b); } else { GiveTempsOnly(ended, temps, |temps|, b); }
    }
    hide ScratchBit, EndsHere, PoolState.Available;
  }

  // -- definitions

  lemma AssignStocks(base: iset<Bit>, rs: seq<LiveRange>, n: nat, st: PoolState, reg: CpuReg, avail': set<Bit>)
    requires n < |rs| && Allocates(rs[n]) && WfRanges(rs) && Stocked(base, rs, n, rs[n].span.defPos, st.Available(), [])
    requires AllocMask(reg) <= st.Available() && avail' <= st.Available() <= avail' + AllocMask(reg)
    requires rs[n].span.lastUse >= NO_USE ==> AllocMask(reg) <= avail'
    ensures Stocked(base, WithLoc(rs, n, InReg(reg)), n + 1, rs[n].span.defPos, avail', [])
  {
    var rs', t, n' := WithLoc(rs, n, InReg(reg)), rs[n].span.defPos, n + 1;
    assert WfRange(rs, n) && Bits(rs'[n]) == AllocMask(reg);
    hide Bits, AllocMask, PoolState.Available, WfRanges;
    forall k: nat, b | Handled(rs', n', k, b) ensures b in base {
      if k != n { assert rs'[k] == rs[k] && Handled(rs, n, k, b); }
    }
    assert forall b :: !ScratchBit([], b);
    forall b | b in base ensures b in avail' || HeldBit(rs', n', t, b) {
      if b in AllocMask(reg) {
        if rs[n].span.lastUse < NO_USE { assert Held(rs', n', t, n) && b in Bits(rs'[n]); }
      } else if HeldBit(rs, n, t, b) {
        var h: nat :| Held(rs, n, t, h) && b in Bits(rs[h]);
        assert Held(rs', n', t, h) && rs'[h] == rs[h];
      }
    }
  }

  lemma SpilledStocks(base: iset<Bit>, rs: seq<LiveRange>, n: nat, t: int, avail: set<Bit>)
    requires n < |rs| && Stocked(base, rs, n, t, avail, [])
    ensures Stocked(base, WithLoc(rs, n, Spilled), n + 1, t, avail, [])
  {
    var rs', n' := WithLoc(rs, n, Spilled), n + 1;
    hide Bits;
    forall k: nat, b | Handled(rs', n', k, b) ensures b in base { assert k != n && rs'[k] == rs[k] && Handled(rs, n, k, b); }
    forall b | HeldBit(rs, n, t, b) ensures HeldBit(rs', n', t, b) {
      var h: nat :| Held(rs, n, t, h) && b in Bits(rs[h]);
      assert Held(rs', n', t, h) && rs'[h] == rs[h];
    }
  }

  lemma AnswerIsAvailable(st: PoolState, kind: Kind, lac: bool, lr: Span)
    ensures var got := Answer(st, kind, lac, lr);
      got.Some? ==> AllocMask(got.value) <= st.Available() && st.Take(got.value, lac).Available() <= st.Available()
  {
    hide PoolState.NoConflict, AllocMask;
  }

  lemma AssignStepStocks(base: iset<Bit>, sc: Scene, allow: bool, i: nat)
    requires i < |sc.rs| && Allocates(sc.rs[i]) && WfRanges(sc.rs) && AssignStep(sc, allow, i).Some? && sc.rs[i].span.lastUse <= NO_USE
    requires Stocked(base, sc.rs, i, sc.rs[i].span.defPos, sc.pool.Available(), [])
    ensures var next := AssignStep(sc, allow, i).value; Stocked(base, next.rs, i + 1, sc.rs[i].span.defPos, next.pool.Available(), [])
  {
    hide Stocked, WfRanges, Answer, AllocMask, PoolState.Available, PoolState.Take, PoolState.Give, Allocates;
    var lr := sc.rs[i];
    AnswerIsAvailable(sc.pool, lr.kind, lr.lac, lr.span);
    match Answer(sc.pool, lr.kind, lr.lac, lr.span) {
      case None => SpilledStocks(base, sc.rs, i, lr.span.defPos, sc.pool.Available());
      case Some(reg) =>
        TakenBits(sc.pool, reg, lr.lac);
        GiveBits(sc.pool.Take(reg, lr.lac), reg);
        AssignStocks(base, sc.rs, i, sc.pool, reg, AssignStep(sc, allow, i).value.pool.Available());
    }
  }

  lemma GivenBackStocks(base: iset<Bit>, rs: seq<LiveRange>, n: nat, t: int, st: PoolState, reg: CpuReg)
    requires Stocked(base, rs, n, t, st.Available(), [reg])
    ensures Stocked(base, rs, n, t, st.Give(reg).Available(), [])
  {
    GiveBits(st, reg);
    hide AllocMask, PoolState.Available, PoolState.Give, HeldBit, Handled;
    forall b ensures ScratchBit([reg], b) <==> b in AllocMask(reg) { assert [reg][0] == reg; }
    assert forall b :: !ScratchBit([], b);
  }

  lemma DefStepStocks(base: iset<Bit>, sc: Scene, allow: bool, i: nat)
    requires i < |sc.rs| && Allocates(sc.rs[i]) && Scanned(sc.rs, i, sc.rs[i].span.defPos, sc.pool) && sc.rs[i].span.lastUse <= NO_USE
    requires Stocked(base, sc.rs, i, sc.rs[i].span.defPos, sc.pool.Available(), []) && DefStep(sc, allow, i).Some?
    ensures var next := DefStep(sc, allow, i).value; Stocked(base, next.rs, i + 1, sc.rs[i].span.defPos, next.pool.Available(), [])
  {
    hide *;
    var lr, p, next := sc.rs[i], sc.rs[i].span.defPos, AssignStep(sc, allow, i);
    ScannedParts(sc.rs, i, p, sc.pool);
    DefStepIs(sc, allow, i);
    AssignStepStocks(base, sc, allow, i);
    if next.value.rs[i].loc == Spilled {
      StepScanned(sc, allow, i);
      ClaimStocks(base, next.value, lr.kind, p, p, i - 1, i + 1, p, []);
      var c := Claim(next.value, lr.kind, p, p, i - 1);
      assert [] + [c.got.value] == [c.got.value];
      GivenBackStocks(base, c.scene.rs, i + 1, p, c.scene.pool, c.got.value);
    }
  }

  lemma StepKeepsRanges(sc: Scene, allow: bool, i: nat)
    requires i < |sc.rs| && Scanned(sc.rs, i, PosAt(sc.rs, i), sc.pool) && Step(sc, allow, i).Some?
    ensures SameButLocs(sc.rs, Step(sc, allow, i).value.rs)
  {
    StepKeeps(sc, allow, i);
    hide Scanned, Step, SameButLocs, NoSpilled;
  }

  /** From one event to the next nobody gives anything back. */
  lemma StockedLater(start: set<Bit>, rs: seq<LiveRange>, n: nat, t: int, t': int, avail: set<Bit>)
    requires Stocked(Base(start, rs, t), rs, n, t, avail, []) && NothingEnds(rs, n, t, t') && t <= t' && NothingReturns(rs, t, t')
    ensures Stocked(Base(start, rs, t'), rs, n, t', avail, [])
  {
    hide Bits;
    forall b | HeldBit(rs, n, t, b) ensures HeldBit(rs, n, t', b) {
      var k: nat :| Held(rs, n, t, k) && b in Bits(rs[k]);
      assert Held(rs, n, t', k);
    }
    forall b ensures Usable(start, rs, t', b) <==> Usable(start, rs, t, b) {
      if Usable(start, rs, t, b) { UsableLater(start, rs, t, t', b); }
      if k: nat :| Returns(rs, t', k, b) { assert Returns(rs, t, k, b); }
    }
    hide Held;
  }

  ghost predicate NothingReturns(rs: seq<LiveRange>, t: int, t': int) {
    forall k: nat, b :: Returns(rs, t', k, b) ==> Returns(rs, t, k, b)
  }

  lemma ReturnsBetween(rs: seq<LiveRange>, i: nat)
    requires WfRanges(rs) && EndsOnRecord(rs) && i < |rs|
    ensures NothingReturns(rs, PosAt(rs, i), if rs[i].uses == [] then rs[i].span.defPos else rs[i].span.defPos - 1)
  {
    var t' := if rs[i].uses == [] then rs[i].span.defPos else rs[i].span.defPos - 1;
    forall k: nat, b | Returns(rs, t', k, b) ensures Returns(rs, PosAt(rs, i), k, b) {
      assert EndNamed(rs, k);
      var r: nat :| EndsAt(rs, k, r);
      RecordPassed(rs, i, r);
      hide WfRanges, Bits;
    }
  }

  lemma StepStocks(start: set<Bit>, sc: Scene, allow: bool, i: nat)
    requires i < |sc.rs| && Scanned(sc.rs, i, PosAt(sc.rs, i), sc.pool) && EndsOnRecord(sc.rs)
    requires Stocked(Base(start, sc.rs, PosAt(sc.rs, i)), sc.rs, i, PosAt(sc.rs, i), sc.pool.Available(), []) && Step(sc, allow, i).Some?
    ensures var next := Step(sc, allow, i).value;
      Stocked(Base(start, next.rs, sc.rs[i].span.defPos), next.rs, i + 1, sc.rs[i].span.defPos, next.pool.Available(), [])
  {
    var lr, t := sc.rs[i], PosAt(sc.rs, i);
    ScannedParts(sc.rs, i, t, sc.pool);
    PosGrows(sc.rs, i);
    BetweenSteps(sc.rs, i);
    ReturnsBetween(sc.rs, i);
    StepKeepsRanges(sc, allow, i);
    EndsInOrder(sc.rs, i);
    hide Scanned, Stocked, EndsOnRecord, UseStep, DefStep, WfRanges, Placed, NothingEnds, NothingReturns, PoolState.Available, Base, SameButLocs;
    if lr.uses != [] {
      LaterIsWeaker(sc.rs, i, t, lr.span.defPos - 1, sc.pool);
      StockedLater(start, sc.rs, i, t, lr.span.defPos - 1, sc.pool.Available());
      UseStepStocks(start, sc, allow, i);
    } else {
      LaterIsWeaker(sc.rs, i, t, lr.span.defPos, sc.pool);
      StockedLater(start, sc.rs, i, t, lr.span.defPos, sc.pool.Available());
      SameBase(start, sc.rs, Step(sc, allow, i).value.rs, lr.span.defPos);
      if lr.preAlloc || lr.ignore {
        SkipStocks(Base(start, sc.rs, lr.span.defPos), sc.rs, i, lr.span.defPos, sc.pool.Available());
      } else {
        DefStepStocks(Base(start, sc.rs, lr.span.defPos), sc, allow, i);
      }
    }
  }

  lemma EndsInOrder(rs: seq<LiveRange>, i: nat)
    requires EndsOnRecord(rs) && i < |rs|
    ensures rs[i].span.lastUse <= NO_USE
  {
  }

  /** At every moment of every scan. */
  lemma {:induction false} ScanStocks(sc: Scene, allow: bool, i: nat)
    requires i <= |sc.rs| && Scanned(sc.rs, 0, BEFORE_BBL - 1, sc.pool) && EndsOnRecord(sc.rs) && SceneAt(sc, allow, i).Some?
    ensures var now := SceneAt(sc, allow, i).value;
      Stocked(Base(sc.pool.Available(), now.rs, PosAt(sc.rs, i)), now.rs, i, PosAt(sc.rs, i), now.pool.Available(), [])
  {
    hide Scanned, Stocked, Step, PoolState.Available, SameButLocs, EndsOnRecord, NoSpilled, Base;
    if i == 0 {
      ScannedParts(sc.rs, 0, BEFORE_BBL - 1, sc.pool);
      AllInStock(sc.rs, sc.pool.Available());
    } else {
      ScanStocks(sc, allow, i - 1);
      ScanKeeps(sc, allow, i - 1);
      var now := SceneAt(sc, allow, i - 1).value;
      NamedSame(sc.rs, now.rs);
      SamePos(sc.rs, now.rs, i - 1);
      StepStocks(sc.pool.Available(), now, allow, i - 1);
    }
  }

  lemma BeginsInside(rs: seq<LiveRange>, k: nat, b: Bit)
    requires WfRanges(rs)
    ensures !Returns(rs, BEFORE_BBL - 1, k, b)
  {
    if k < |rs| { assert WfRange(rs, k); }
  }

  lemma AllInStock(rs: seq<LiveRange>, avail: set<Bit>)
    requires WfRanges(rs)
    ensures Stocked(Base(avail, rs, BEFORE_BBL - 1), rs, 0, BEFORE_BBL - 1, avail, [])
  {
    var t := BEFORE_BBL - 1;
    assert forall b :: !ScratchBit([], b);
    forall b | Usable(avail, rs, t, b) ensures b in avail {
      forall k: nat ensures !Returns(rs, t, k, b) { BeginsInside(rs, k, b); }
    }
  }

  // ---------------------------------------------------------------- who may have what

  /** Bit b is spoken for during lr. */
  ghost predicate Contested(rs: seq<LiveRange>, b: Bit, lr: Span) {
    exists p :: 0 <= p < |rs| && Reserved(rs[p]) && b in Bits(rs[p]) && Overlaps(rs[p].span, lr)
  }

  /** Bit b may be handed out at t, before range n: it is of the right class, among the bits to use, no
      earlier range still needs it, and it is not spoken for during lr. */
  ghost predicate FreeBit(start: set<Bit>, rs: seq<LiveRange>, n: nat, t: int, lac: bool, lr: Span, b: Bit) {
    (CalleeSaved(b) <==> lac) && Usable(start, rs, t, b) && !HeldBit(rs, n, t, b) && !Contested(rs, b, lr)
  }

  ghost predicate FreeReg(start: set<Bit>, rs: seq<LiveRange>, n: nat, t: int, lac: bool, lr: Span, reg: CpuReg) {
    forall b :: b in AllocMask(reg) ==> FreeBit(start, rs, n, t, lac, lr, b)
  }

  /** The lowest numbered register that is free for range n. */
  ghost predicate LowestFree(start: set<Bit>, rs: seq<LiveRange>, n: nat, reg: CpuReg)
    requires n < |rs|
  {
    var lr := rs[n];
    && reg.kind == lr.kind && reg.no < NumRegs(lr.kind) && FreeReg(start, rs, n, lr.span.defPos, lr.lac, lr.span, reg)
    && forall k: nat :: k < reg.no ==> !FreeReg(start, rs, n, lr.span.defPos, lr.lac, lr.span, CpuReg(lr.kind, k))
  }

  ghost predicate NoneFree(start: set<Bit>, rs: seq<LiveRange>, n: nat, lac: bool, lr: Span)
    requires n < |rs|
  {
    forall k: nat :: k < NumRegs(rs[n].kind) ==> !FreeReg(start, rs, n, rs[n].span.defPos, lac, lr, CpuReg(rs[n].kind, k))
  }

  /** What the pool knows and holds at t, before range n. */
  ghost predicate PoolAt(start: set<Bit>, rs: seq<LiveRange>, n: nat, t: int, st: PoolState) {
    && Scanned(rs, n, t, st) && Stocked(Base(start, rs, t), rs, n, t, st.Available(), []) && Loaded(rs, |rs|, st.reserved)
  }

  /** Exactly the usable bits that nobody holds are available, each in its class. */
  lemma AvailableIff(start: set<Bit>, rs: seq<LiveRange>, n: nat, t: int, st: PoolState, lac: bool, b: Bit)
    requires PoolAt(start, rs, n, t, st)
    ensures b in (if lac then st.lac else st.notLac) <==> (CalleeSaved(b) <==> lac) && Usable(start, rs, t, b) && !HeldBit(rs, n, t, b)
    ensures b in st.Available() ==> InRange(b)
  {
    PoolIsValid(rs, n, t, st);
    assert !ScratchBit([], b);
    assert HeldBit(rs, n, t, b) ==> b !in st.Available() by { hide Scanned, Stocked, Loaded, PoolState.Available, PoolState.Valid; }
    hide Scanned, Loaded, Usable, HeldBit, Handled, Free;
  }

  lemma ConflictIff(rs: seq<LiveRange>, st: PoolState, b: Bit, lr: Span)
    requires Loaded(rs, |rs|, st.reserved) && b in st.reserved
    ensures Conflict(st.reserved[b], lr) <==> Contested(rs, b, lr)
  {
    hide Bits, Reserved;
    if Conflict(st.reserved[b], lr) {
      var x :| 0 <= x < |st.reserved[b]| && Overlaps(st.reserved[b][x], lr);
      assert FromRange(rs, |rs|, b, st.reserved[b][x]);
      var p :| 0 <= p < |rs| && Reserved(rs[p]) && b in Bits(rs[p]) && rs[p].span == st.reserved[b][x];
    }
    if Contested(rs, b, lr) {
      var p :| 0 <= p < |rs| && Reserved(rs[p]) && b in Bits(rs[p]) && Overlaps(rs[p].span, lr);
      assert rs[p].span in st.reserved[b];
    }
  }

  /** The pool hands out what is free. */
  lemma CandidateIff(start: set<Bit>, rs: seq<LiveRange>, n: nat, t: int, st: PoolState, lac: bool, lr: Span, reg: CpuReg)
    requires PoolAt(start, rs, n, t, st)
    ensures st.Candidate(reg, lac, lr) <==> FreeReg(start, rs, n, t, lac, lr, reg)
  {
    PoolIsValid(rs, n, t, st);
    AllBitsInRange();
    forall b | b in AllocMask(reg) ensures FreeBit(start, rs, n, t, lac, lr, b) <==>
      b in (if lac then st.lac else st.notLac) && b in st.reserved && !Conflict(st.reserved[b], lr)
    {
      AvailableIff(start, rs, n, t, st, lac, b);
      assert b in (if lac then st.lac else st.notLac) ==> b in st.Available() && InRange(b) && b in st.reserved;
      if b in st.reserved { ConflictIff(rs, st, b, lr); }
      hide PoolAt, Usable, HeldBit, Contested, Conflict, Free;
    }
    hide PoolAt, FreeBit, AllocMask, Conflict, Free;
  }

  // ---------------------------------------------------------------- what a definition gets

  lemma AnswerIsLowest(start: set<Bit>, rs: seq<LiveRange>, n: nat, st: PoolState)
    requires n < |rs| && PoolAt(start, rs, n, rs[n].span.defPos, st)
    ensures var lr := rs[n];
      var got := Answer(st, lr.kind, lr.lac, lr.span);
      if got.Some? then LowestFree(start, rs, n, got.value) else NoneFree(start, rs, n, lr.lac, lr.span)
  {
    var lr := rs[n];
    forall reg ensures st.Candidate(reg, lr.lac, lr.span) <==> FreeReg(start, rs, n, lr.span.defPos, lr.lac, lr.span, reg) {
      CandidateIff(start, rs, n, lr.span.defPos, st, lr.lac, lr.span, reg);
    }
    hide PoolAt, FreeReg, PoolState.Candidate;
  }

  lemma OneLowest(start: set<Bit>, rs: seq<LiveRange>, n: nat, a: CpuReg, b: CpuReg)
    requires n < |rs| && LowestFree(start, rs, n, a) && LowestFree(start, rs, n, b)
    ensures a == b
  {
    hide FreeReg;
    assert a == CpuReg(rs[n].kind, a.no) && b == CpuReg(rs[n].kind, b.no);
  }

  /** Whether a range could lose its register to make room at pos for one of the kind. */
  predicate MayLose(lr: LiveRange, pos: int, kind: Kind) {
    lr.uses == [] && !lr.ignore && !lr.preAlloc && lr.loc.InReg? && lr.span.lastUse > pos && (lr.kind.Gpr? <==> kind.Gpr?)
  }

  /** The nearest range before i that could. */
  predicate Nearest(rs: seq<LiveRange>, i: nat, pos: int, kind: Kind, k: nat) {
    k < i <= |rs| && MayLose(rs[k], pos, kind) && forall j :: k < j < i ==> !MayLose(rs[j], pos, kind)
  }

  predicate NobodyMayLose(rs: seq<LiveRange>, i: nat, pos: int, kind: Kind)
    requires i <= |rs|
  {
    forall j :: 0 <= j < i ==> !MayLose(rs[j], pos, kind)
  }

  lemma SpillableIs(rs: seq<LiveRange>, n: nat, j: nat, pos: int, kind: Kind)
    requires Placed(rs, n) && j < n <= |rs|
    ensures Spillable(rs[j], pos, kind) <==> MayLose(rs[j], pos, kind)
  {
    if Allocates(rs[j]) { assert PlacedOne(rs[j]); }
  }

  lemma PickIs(rs: seq<LiveRange>, n: nat, i: nat, pos: int, kind: Kind)
    requires Placed(rs, n) && i <= n <= |rs| && i <= |rs|
    ensures var k := Pick(rs, i - 1, pos, kind); if k >= 0 then Nearest(rs, i, pos, kind, k) else NobodyMayLose(rs, i, pos, kind)
  {
    hide Spillable, MayLose, Placed;
    forall j: nat | j < i ensures Spillable(rs[j], pos, kind) <==> MayLose(rs[j], pos, kind) { SpillableIs(rs, n, j, pos, kind); }
  }

  lemma OneNearest(rs: seq<LiveRange>, i: nat, pos: int, kind: Kind, k: nat, j: nat)
    requires i <= |rs| && Nearest(rs, i, pos, kind, k)
    ensures Nearest(rs, i, pos, kind, j) ==> j == k
    ensures !NobodyMayLose(rs, i, pos, kind)
  {
  }

  /** With the bits of cpu, which calls clobber, there would be a scratch register at p. */
  ghost predicate FreedBy(start: set<Bit>, rs: seq<LiveRange>, n: nat, p: int, kind: Kind, cpu: CpuReg) {
    !SurvivesCalls(cpu) && exists j: nat :: j < NumRegs(kind) && FreeWith(start, rs, n, p, CpuReg(kind, j), cpu)
  }

  ghost predicate FreeWith(start: set<Bit>, rs: seq<LiveRange>, n: nat, p: int, reg: CpuReg, cpu: CpuReg) {
    forall b :: b in AllocMask(reg) ==>
      FreeBit(start, rs, n, p, false, WhileAt(p), b) || (b in AllocMask(cpu) && InRange(b) && !Contested(rs, b, WhileAt(p)))
  }

  function Losing(rs: seq<LiveRange>, k: nat): seq<LiveRange>
    requires k < |rs|
  {
    rs[k := rs[k].(loc := Spilled)]
  }

  /** A definition for which no register is free: without permission to spill the scan fails. Else it
      is spilled, and needs a scratch register for a moment. If none is free either, the nearest
      earlier range that may loses its register; if that is no help the scan fails as well. */
  ghost predicate SpilledHere(start: set<Bit>, rs: seq<LiveRange>, allow: bool, i: nat, next: Option<Scene>)
    requires i < |rs|
  {
    var lr, p := rs[i], rs[i].span.defPos;
    if !allow then next == None
    else if !NoneFree(start, rs, i, false, WhileAt(p)) then next.Some? && next.value.rs == Losing(rs, i)
    else
      && (NobodyMayLose(rs, i, p, lr.kind) ==> next == None)
      && forall k: nat :: Nearest(rs, i, p, lr.kind, k) ==> LosesFor(start, rs, i, k, next)
  }

  ghost predicate LosesFor(start: set<Bit>, rs: seq<LiveRange>, i: nat, k: nat, next: Option<Scene>)
    requires k < i < |rs|
  {
    if rs[k].loc.InReg? && FreedBy(start, rs, i, rs[i].span.defPos, rs[i].kind, rs[k].loc.cpu)
    then next.Some? && next.value.rs == Losing(Losing(rs, i), k)
    else next == None
  }

  lemma CanHandIs(start: set<Bit>, rs: seq<LiveRange>, n: nat, st: PoolState)
    requires n < |rs| && PoolAt(start, rs, n, rs[n].span.defPos, st)
    ensures CanHand(st, rs[n].kind, rs[n].span.defPos) <==> !NoneFree(start, rs, n, false, WhileAt(rs[n].span.defPos))
  {
    var p := rs[n].span.defPos;
    forall reg ensures st.Candidate(reg, false, WhileAt(p)) <==> FreeReg(start, rs, n, p, false, WhileAt(p), reg) {
      CandidateIff(start, rs, n, p, st, false, WhileAt(p), reg);
    }
    hide PoolAt, FreeReg, PoolState.Candidate;
  }

  lemma CompletesIff(start: set<Bit>, rs: seq<LiveRange>, n: nat, p: int, st: PoolState, reg: CpuReg, cpu: CpuReg)
    requires PoolAt(start, rs, n, p, st) && !SurvivesCalls(cpu) && reg.no < NumRegs(reg.kind)
    ensures Completes(st, reg, p, cpu) <==> FreeWith(start, rs, n, p, reg, cpu)
  {
    PoolIsValid(rs, n, p, st);
    AllBitsInRange();
    forall b | b in AllocMask(reg)
      ensures FreeBit(start, rs, n, p, false, WhileAt(p), b) <==> b in st.notLac && b in st.reserved && !Conflict(st.reserved[b], WhileAt(p))
      ensures InRange(b) ==> b in st.reserved && (Conflict(st.reserved[b], WhileAt(p)) <==> Contested(rs, b, WhileAt(p)))
      ensures InRange(b)
    {
      AvailableIff(start, rs, n, p, st, false, b);
      assert b in st.notLac ==> b in st.Available() && InRange(b) && b in st.reserved;
      if b in st.reserved { ConflictIff(rs, st, b, WhileAt(p)); }
      hide PoolAt, Usable, HeldBit, Contested, Conflict, Free;
    }
    hide PoolAt, FreeBit, AllocMask, Conflict, Free, Contested, InRange;
  }

  lemma HelpedIs(start: set<Bit>, rs: seq<LiveRange>, n: nat, st: PoolState, cpu: CpuReg)
    requires n < |rs| && PoolAt(start, rs, n, rs[n].span.defPos, st)
    ensures HelpedBy(st, rs[n].kind, rs[n].span.defPos, cpu) <==> FreedBy(start, rs, n, rs[n].span.defPos, rs[n].kind, cpu)
  {
    var kind, p := rs[n].kind, rs[n].span.defPos;
    if !SurvivesCalls(cpu) {
      forall j: nat | j < NumRegs(kind) ensures Completes(st, CpuReg(kind, j), p, cpu) <==> FreeWith(start, rs, n, p, CpuReg(kind, j), cpu) {
        CompletesIff(start, rs, n, p, st, CpuReg(kind, j), cpu);
      }
    }
    hide PoolAt, Completes, FreeWith, SurvivesCalls;
  }

  /** What asking for a scratch register does to the ranges. */
  lemma ClaimedRanges(sc: Scene, kind: Kind, pos: int, spilledDef: int, i: int)
    requires i < |sc.rs|
    ensures var c, k := Claim(sc, kind, pos, spilledDef, i), Pick(sc.rs, i, spilledDef, kind);
      c.scene.rs == if !CanHand(sc.pool, kind, pos) && k >= 0 && sc.rs[k].loc.InReg? then Losing(sc.rs, k) else sc.rs
  {
    AskIff(sc, kind, pos);
    hide CanHand, PoolState.Give, PoolState.Take, Answer, Spillable;
  }

  lemma DefinitionSpilled(start: set<Bit>, sc: Scene, i: nat)
    requires i < |sc.rs| && Allocates(sc.rs[i]) && PoolAt(start, sc.rs, i, sc.rs[i].span.defPos, sc.pool)
    requires NoneFree(start, sc.rs, i, sc.rs[i].lac, sc.rs[i].span) && Answer(sc.pool, sc.rs[i].kind, sc.rs[i].lac, sc.rs[i].span) == None
    ensures SpilledHere(start, sc.rs, true, i, DefStep(sc, true, i))
  {
    var lr, p := sc.rs[i], sc.rs[i].span.defPos;
    var spilled := Scene(WithLoc(sc.rs, i, Spilled), sc.pool);
    PoolParts(start, sc.rs, i, p, sc.pool);
    ScannedParts(sc.rs, i, p, sc.pool);
    DefStepIs(sc, true, i);
    DefGivesUpIff(sc, i);
    CanHandIs(start, sc.rs, i, sc.pool);
    PickIs(sc.rs, i, i, p, lr.kind);
    SamePick(sc.rs, i, i - 1, p, lr.kind);
    ClaimedRanges(spilled, lr.kind, p, p, i - 1);
    var k := Pick(sc.rs, i - 1, p, lr.kind);
    if k >= 0 {
      HelpedIs(start, sc.rs, i, sc.pool, sc.rs[k].loc.cpu);
      OneNearestOnly(sc.rs, i, p, lr.kind, k);
    } else {
      NoNearest(sc.rs, i, p, lr.kind);
    }
    assert AssignStep(sc, true, i) == Some(spilled) by { hide PoolAt, NoneFree, DefStep, Claim, Answer; }
    hide PoolAt, Scanned, WfRanges, Placed, Answer, CanHand, HelpedBy, FreedBy, Claim, SameButLocs, DefStep, PoolState.Take, PoolState.Give,
         NoneFree, Nearest, NobodyMayLose, AssignStep, Allocates;
  }

  lemma PoolParts(start: set<Bit>, rs: seq<LiveRange>, n: nat, t: int, st: PoolState)
    requires PoolAt(start, rs, n, t, st)
    ensures Scanned(rs, n, t, st)
  {
    hide Scanned, Stocked, Loaded;
  }

  lemma OneNearestOnly(rs: seq<LiveRange>, i: nat, pos: int, kind: Kind, k: nat)
    requires i <= |rs| && Nearest(rs, i, pos, kind, k)
    ensures rs[k].loc.InReg? && !NobodyMayLose(rs, i, pos, kind) && forall j: nat :: Nearest(rs, i, pos, kind, j) ==> j == k
  {
    forall j: nat ensures Nearest(rs, i, pos, kind, j) ==> j == k { OneNearest(rs, i, pos, kind, k, j); }
  }

  lemma NoNearest(rs: seq<LiveRange>, i: nat, pos: int, kind: Kind)
    requires i <= |rs| && NobodyMayLose(rs, i, pos, kind)
    ensures forall j: nat :: !Nearest(rs, i, pos, kind, j)
  {
  }

  /** What a definition gets: the lowest numbered register that is free; if there is none it is
      spilled, at the cost of an earlier range if need be, or the scan fails. */
  lemma DefinitionGets(start: set<Bit>, sc: Scene, allow: bool, i: nat)
    requires i < |sc.rs| && Allocates(sc.rs[i]) && PoolAt(start, sc.rs, i, sc.rs[i].span.defPos, sc.pool)
    ensures var lr, next := sc.rs[i], Step(sc, allow, i);
      && (forall reg :: LowestFree(start, sc.rs, i, reg) ==> next.Some? && next.value.rs == sc.rs[i := lr.(loc := InReg(reg))])
      && (NoneFree(start, sc.rs, i, lr.lac, lr.span) ==> SpilledHere(start, sc.rs, allow, i, next))
      && (NoneFree(start, sc.rs, i, lr.lac, lr.span) || exists reg :: LowestFree(start, sc.rs, i, reg))
  {
    var lr, p := sc.rs[i], sc.rs[i].span.defPos;
    PoolParts(start, sc.rs, i, p, sc.pool);
    AnswerIsLowest(start, sc.rs, i, sc.pool);
    DefStepIs(sc, allow, i);
    hide PoolAt, Scanned, FreeReg, SameButLocs, Claim, DefStep, PoolState.Take, PoolState.Give, Placed;
    match Answer(sc.pool, lr.kind, lr.lac, lr.span) {
      case Some(got) =>
        assert LowestFree(start, sc.rs, i, got);
        forall reg | LowestFree(start, sc.rs, i, reg) ensures reg == got { OneLowest(start, sc.rs, i, reg, got); }
        assert !NoneFree(start, sc.rs, i, lr.lac, lr.span) by { assert got == CpuReg(lr.kind, got.no); }
      case None =>
        if allow { DefinitionSpilled(start, sc, i); }
        forall reg ensures !LowestFree(start, sc.rs, i, reg) { if reg.kind == lr.kind { assert reg == CpuReg(lr.kind, reg.no); } }
    }
    hide Answer, LowestFree, NoneFree, SpilledHere;
  }

  // -- every definition of every scan

  lemma GiveKeepsReserved(st: PoolState, reg: CpuReg)
    ensures st.Give(reg).reserved == st.reserved
  {
    hide AllocMask, SurvivesCalls;
  }

  lemma ClaimKeepsReserved(sc: Scene, kind: Kind, pos: int, spilledDef: int, i: int)
    requires i < |sc.rs|
    ensures Claim(sc, kind, pos, spilledDef, i).scene.pool.reserved == sc.pool.reserved
  {
    var k := Pick(sc.rs, i, spilledDef, kind);
    if k >= 0 && sc.rs[k].loc.InReg? { GiveKeepsReserved(sc.pool, sc.rs[k].loc.cpu); }
    hide Answer, AllocMask, PoolState.Give, Spillable;
  }

  lemma {:induction false} ServeKeepsReserved(sc: Scene, allow: bool, i: nat, x: nat)
    requires i < |sc.rs| && x <= |sc.rs[i].uses|
    ensures var v := Serve(sc, allow, i, x); v.Serving? ==> v.scene.pool.reserved == sc.pool.reserved
  {
    hide Claim;
    if x > 0 {
      ServeKeepsReserved(sc, allow, i, x - 1);
      var v, p, u := Serve(sc, allow, i, x - 1), sc.rs[i].span.defPos, sc.rs[i].uses[x - 1];
      if v.Serving? && NeedsScratch(v.scene.rs, u) {
        ClaimKeepsReserved(v.scene, v.scene.rs[u].kind, p, v.scene.rs[u].span.defPos, i - 1);
      }
    }
  }

  lemma {:induction false} EndUsesKeepsReserved(sc: Scene, p: int, uses: seq<nat>, x: nat)
    requires x <= |uses|
    ensures EndUses(sc, p, uses, x).pool.reserved == sc.pool.reserved
  {
    hide PoolState.Give;
    if x > 0 {
      EndUsesKeepsReserved(sc, p, uses, x - 1);
      if EndsHere(sc.rs, uses[x - 1], p) { GiveKeepsReserved(EndUses(sc, p, uses, x - 1).pool, sc.rs[uses[x - 1]].loc.cpu); }
    }
  }

  lemma {:induction false} GiveTempsKeepsReserved(sc: Scene, temps: seq<CpuReg>, x: nat)
    requires x <= |temps|
    ensures GiveTemps(sc, temps, x).pool.reserved == sc.pool.reserved
  {
    hide PoolState.Give;
    if x > 0 {
      GiveTempsKeepsReserved(sc, temps, x - 1);
      GiveKeepsReserved(GiveTemps(sc, temps, x - 1).pool, temps[x - 1]);
    }
  }

  lemma StepKeepsReserved(sc: Scene, allow: bool, i: nat)
    requires i < |sc.rs| && Scanned(sc.rs, i, PosAt(sc.rs, i), sc.pool) && Step(sc, allow, i).Some?
    ensures Step(sc, allow, i).value.pool.reserved == sc.pool.reserved
  {
    var lr, t := sc.rs[i], PosAt(sc.rs, i);
    ScannedParts(sc.rs, i, t, sc.pool);
    PosGrows(sc.rs, i);
    hide Scanned, WfRanges, Placed, DefStep, AssignStep, UseStep, Claim, PoolState.Give, SameButLocs;
    if lr.uses != [] {
      var v := Serve(sc, allow, i, |lr.uses|);
      UseStepIs(sc, allow, i, v);
      if v.Serving? {
        ServeKeepsReserved(sc, allow, i, |lr.uses|);
        EndUsesKeepsReserved(v.scene, lr.span.defPos, lr.uses, |lr.uses|);
        GiveTempsKeepsReserved(EndUses(v.scene, lr.span.defPos, lr.uses, |lr.uses|), v.temps, |v.temps|);
      }
    } else if !lr.preAlloc && !lr.ignore {
      LaterIsWeaker(sc.rs, i, t, lr.span.defPos, sc.pool);
      DefStepIs(sc, allow, i);
      AssignKeepsReserved(sc, allow, i);
      var next := AssignStep(sc, allow, i);
      if next.Some? && next.value.rs[i].loc == Spilled {
        ClaimKeepsReserved(next.value, lr.kind, lr.span.defPos, lr.span.defPos, i - 1);
        var c := Claim(next.value, lr.kind, lr.span.defPos, lr.span.defPos, i - 1);
        if c.got.Some? { GiveKeepsReserved(c.scene.pool, c.got.value); }
      }
    }
  }

  lemma AssignKeepsReserved(sc: Scene, allow: bool, i: nat)
    requires i < |sc.rs|
    ensures var next := AssignStep(sc, allow, i); next.Some? ==> next.value.pool.reserved == sc.pool.reserved
  {
    var lr := sc.rs[i];
    var got := Answer(sc.pool, lr.kind, lr.lac, lr.span);
    if got.Some? { GiveKeepsReserved(sc.pool.Take(got.value, lr.lac), got.value); }
    hide Answer, AllocMask, PoolState.Give;
  }

  lemma {:induction false} ScanKeepsReserved(sc: Scene, allow: bool, i: nat)
    requires i <= |sc.rs| && Scanned(sc.rs, 0, BEFORE_BBL - 1, sc.pool) && SceneAt(sc, allow, i).Some?
    ensures SceneAt(sc, allow, i).value.pool.reserved == sc.pool.reserved
  {
    hide Scanned, Step, SameButLocs, NoSpilled;
    if i > 0 {
      ScanKeepsReserved(sc, allow, i - 1);
      ScanKeeps(sc, allow, i - 1);
      var now := SceneAt(sc, allow, i - 1).value;
      SamePos(sc.rs, now.rs, i - 1);
      StepKeepsReserved(now, allow, i - 1);
    }
  }

  lemma LoadedSame(rs: seq<LiveRange>, rs': seq<LiveRange>, reserved: map<Bit, seq<Span>>)
    requires Loaded(rs, |rs|, reserved) && SameButLocs(rs, rs')
    ensures Loaded(rs', |rs'|, reserved)
  {
    forall b, x | b in reserved && 0 <= x < |reserved[b]| ensures FromRange(rs', |rs'|, b, reserved[b][x]) {
      assert FromRange(rs, |rs|, b, reserved[b][x]);
      var p :| 0 <= p < |rs| && Reserved(rs[p]) && b in Bits(rs[p]) && rs[p].span == reserved[b][x];
      assert rs'[p] == rs[p];
    }
    hide Bits;
  }

  /** What a scan starts from. */
  ghost predicate ScanStart(sc: Scene) {
    Scanned(sc.rs, 0, BEFORE_BBL - 1, sc.pool) && EndsOnRecord(sc.rs) && Loaded(sc.rs, |sc.rs|, sc.pool.reserved)
  }

  /** Which bits are available at any moment of any scan, and which stretches the pool knows. */
  lemma PoolAtAnyMoment(sc: Scene, allow: bool, i: nat, now: Scene)
    requires ScanStart(sc) && i <= |sc.rs| && SceneAt(sc, allow, i) == Some(now)
    ensures PoolAt(sc.pool.Available(), now.rs, i, PosAt(sc.rs, i), now.pool)
    ensures forall b :: b in now.pool.Available() <==> Usable(sc.pool.Available(), now.rs, PosAt(sc.rs, i), b) && !HeldBit(now.rs, i, PosAt(sc.rs, i), b)
  {
    var start, t := sc.pool.Available(), PosAt(sc.rs, i);
    ScanStocks(sc, allow, i);
    ScanKeeps(sc, allow, i);
    ScanKeepsReserved(sc, allow, i);
    LoadedSame(sc.rs, now.rs, sc.pool.reserved);
    assert PoolAt(start, now.rs, i, t, now.pool) by { hide Scanned, Stocked, Loaded, EndsOnRecord, SceneAt, Base, SameButLocs, NoSpilled; }
    forall b ensures b in now.pool.Available() <==> Usable(start, now.rs, t, b) && !HeldBit(now.rs, i, t, b) {
      AvailableIff(start, now.rs, i, t, now.pool, true, b);
      AvailableIff(start, now.rs, i, t, now.pool, false, b);
      hide *;
      AvailableParts(now.pool, b);
    }
  }

  lemma AvailableParts(st: PoolState, b: Bit)
    ensures b in st.Available() <==> b in st.lac || b in st.notLac
  {
  }

  /** The same right where range i starts. */
  lemma PoolAtDefinition(sc: Scene, allow: bool, i: nat, now: Scene)
    requires ScanStart(sc) && i < |sc.rs| && SceneAt(sc, allow, i) == Some(now) && |now.rs| == |sc.rs| && now.rs[i].uses == []
    ensures PoolAt(sc.pool.Available(), now.rs, i, now.rs[i].span.defPos, now.pool)
  {
    hide *;
    var start, t, p := sc.pool.Available(), PosAt(sc.rs, i), now.rs[i].span.defPos;
    PoolAtAnyMoment(sc, allow, i, now);
    StartParts(sc);
    NowParts(sc, allow, i, now);
    PoolAtParts(start, now.rs, i, t, now.pool);
    ScannedParts(now.rs, i, t, now.pool);
    BetweenSteps(now.rs, i);
    ReturnsBetween(now.rs, i);
    PosGrows(now.rs, i);
    LaterIsWeaker(now.rs, i, t, p, now.pool);
    StockedLater(start, now.rs, i, t, p, now.pool.Available());
    PoolAtBy(start, now.rs, i, p, now.pool);
  }

  lemma StartParts(sc: Scene)
    requires ScanStart(sc)
    ensures Scanned(sc.rs, 0, BEFORE_BBL - 1, sc.pool) && EndsOnRecord(sc.rs) && Loaded(sc.rs, |sc.rs|, sc.pool.reserved)
  {
    hide Scanned, EndsOnRecord, Loaded;
  }

  lemma NowParts(sc: Scene, allow: bool, i: nat, now: Scene)
    requires ScanStart(sc) && i < |sc.rs| && SceneAt(sc, allow, i) == Some(now) && |now.rs| == |sc.rs|
    ensures EndsOnRecord(now.rs) && PosAt(now.rs, i) == PosAt(sc.rs, i) && SameButLocs(sc.rs, now.rs)
  {
    ScanKeeps(sc, allow, i);
    hide Scanned, EndsOnRecord, Loaded, SceneAt, SameButLocs, NoSpilled;
    NamedSame(sc.rs, now.rs);
    SamePos(sc.rs, now.rs, i);
  }

  lemma PoolAtParts(start: set<Bit>, rs: seq<LiveRange>, n: nat, t: int, st: PoolState)
    requires PoolAt(start, rs, n, t, st)
    ensures Scanned(rs, n, t, st) && Stocked(Base(start, rs, t), rs, n, t, st.Available(), []) && Loaded(rs, |rs|, st.reserved)
  {
    hide Scanned, Stocked, Loaded, Base;
  }

  lemma PoolAtBy(start: set<Bit>, rs: seq<LiveRange>, n: nat, t: int, st: PoolState)
    requires Scanned(rs, n, t, st) && Stocked(Base(start, rs, t), rs, n, t, st.Available(), []) && Loaded(rs, |rs|, st.reserved)
    ensures PoolAt(start, rs, n, t, st)
  {
    hide Scanned, Stocked, Loaded, Base;
  }

  /** Every definition of every scan, from a pool that offers the bits `start`. */
  lemma EveryDefinition(sc: Scene, allow: bool, i: nat, now: Scene)
    requires ScanStart(sc) && i < |sc.rs| && SceneAt(sc, allow, i) == Some(now) && |now.rs| == |sc.rs| && Allocates(now.rs[i])
    ensures var start, lr, next := sc.pool.Available(), now.rs[i], SceneAt(sc, allow, i + 1);
      && (forall reg :: LowestFree(start, now.rs, i, reg) ==> next.Some? && next.value.rs == now.rs[i := lr.(loc := InReg(reg))])
      && (NoneFree(start, now.rs, i, lr.lac, lr.span) ==> SpilledHere(start, now.rs, allow, i, next))
      && (NoneFree(start, now.rs, i, lr.lac, lr.span) || exists reg :: LowestFree(start, now.rs, i, reg))
  {
    assert now.rs[i].uses == [];
    hide *;
    PoolAtDefinition(sc, allow, i, now);
    StartParts(sc);
    ReadyFor(sc, allow, i, now);
    DefinitionGets(sc.pool.Available(), now, allow, i);
  }

  /** A fixed range, or one that is not the allocator's business, is passed over. */
  lemma EverythingElse(sc: Scene, allow: bool, i: nat, now: Scene)
    requires i < |sc.rs| && SceneAt(sc, allow, i) == Some(now) && |now.rs| == |sc.rs|
    requires now.rs[i].uses == [] && (now.rs[i].preAlloc || now.rs[i].ignore)
    ensures SceneAt(sc, allow, i + 1) == Some(now)
  {
  }

  // -- which registers are handed out

  /** r0 to r12, r14, and the floating-point registers; not r13 (sp) and r15 (pc). */
  predicate MayUse(b: Bit) {
    match b
    case GprBit(n) => n <= 12 || n == 14
    case FltBit(n) => n < 32
  }

  predicate FixedBit(fixed: Assignment, b: Bit) { exists r :: r in fixed && b in AllocMask(fixed[r]) }

  predicate UsesOnly(reg: CpuReg, fixed: Assignment) { forall b :: b in AllocMask(reg) ==> MayUse(b) || FixedBit(fixed, b) }

  lemma StartIsUsable(sc: Scene, code: seq<Ins>, ids: seq<InsId>, out: set<RegId>, kindOf: RegId -> Kind, fixed: Assignment)
    requires |ids| <= AFTER_BBL && ScanOf(sc, code, ids, out, kindOf, fixed)
    ensures ScanStart(sc) && Marked(sc.rs, fixed) && forall b :: b in sc.pool.Available() ==> MayUse(b)
  {
    BlockIsNamed(sc.rs, code, ids, out) by { hide Scanned, Describes, EndsNamed; }
    hide Scanned, Describes, EndsNamed, EndsOnRecord, Loaded, Marked;
  }

  lemma FixedReturns(sc: Scene, rs: seq<LiveRange>, fixed: Assignment, t: int, b: Bit)
    requires Marked(sc.rs, fixed) && SameButLocs(sc.rs, rs) && Usable(sc.pool.Available(), rs, t, b)
    requires forall c :: c in sc.pool.Available() ==> MayUse(c)
    ensures MayUse(b) || FixedBit(fixed, b)
  {
    if b !in sc.pool.Available() {
      var k: nat :| Returns(rs, t, k, b);
      assert rs[k] == sc.rs[k] && rs[k].loc == InReg(fixed[rs[k].reg]);
    }
  }

  /** A range gets a register that may be used, or the register of a fixed range that is over. */
  lemma ScanUses(sc: Scene, code: seq<Ins>, ids: seq<InsId>, out: set<RegId>, kindOf: RegId -> Kind, fixed: Assignment, allow: bool, end: Scene, r: RegId,
                 reg: CpuReg)
    requires |ids| <= AFTER_BBL && ScanOf(sc, code, ids, out, kindOf, fixed) && SceneAt(sc, allow, |sc.rs|) == Some(end) && GivenTo(end.rs, r, reg)
    ensures UsesOnly(reg, fixed) && RegOk(reg, kindOf(r))
  {
    StartIsUsable(sc, code, ids, out, kindOf, fixed);
    assert KindsRight(sc.rs, kindOf) by { hide Scanned, Describes, EndsNamed, Marked, KindsRight, Loaded; }
    hide ScanOf;
    var k: nat :| k < |end.rs| && Allocates(end.rs[k]) && end.rs[k].reg == r && end.rs[k].loc == InReg(reg);
    hide ScanStart, Marked, SceneAt, KindsRight;
    StartParts(sc);
    ScanStocks(sc, allow, |sc.rs|);
    ScanKeeps(sc, allow, |sc.rs|);
    EndParts(sc, allow, end, k, kindOf);
    hide Stocked, EndsOnRecord, Scanned, SameButLocs, NoSpilled, Loaded;
    var t := PosAt(sc.rs, |sc.rs|);
    forall b | b in AllocMask(reg) ensures MayUse(b) || FixedBit(fixed, b) {
      assert Handled(end.rs, |sc.rs|, k, b);
      HandledIsUsable(sc.pool.Available(), end.rs, |sc.rs|, t, end.pool.Available(), k, b);
      FixedReturns(sc, end.rs, fixed, t, b);
      hide AllocMask, MayUse, FixedBit, Usable, PoolState.Available, Handled;
    }
    hide AllocMask;
  }

  lemma HandledIsUsable(start: set<Bit>, rs: seq<LiveRange>, n: nat, t: int, avail: set<Bit>, k: nat, b: Bit)
    requires Stocked(Base(start, rs, t), rs, n, t, avail, []) && Handled(rs, n, k, b)
    ensures Usable(start, rs, t, b)
  {
    hide Handled, HeldBit, Usable;
  }

  lemma EndParts(sc: Scene, allow: bool, end: Scene, k: nat, kindOf: RegId -> Kind)
    requires SceneKeeps(sc, allow, |sc.rs|, Some(end)) && KindsRight(sc.rs, kindOf) && k < |end.rs| && Allocates(end.rs[k]) && end.rs[k].loc.InReg?
    ensures SameButLocs(sc.rs, end.rs) && |end.rs| == |sc.rs| && RegOk(end.rs[k].loc.cpu, kindOf(end.rs[k].reg))
  {
    ScannedParts(end.rs, |sc.rs|, PosAt(sc.rs, |sc.rs|), end.pool);
    hide Scanned, NoSpilled;
    assert PlacedOne(end.rs[k]);
  }

  // ---------------------------------------------------------------- what a record does

  /** One read of record i: unless its range was spilled nothing happens. Else a scratch register is
      taken, the lowest numbered one the pool has for it; if it has none, the nearest earlier range
      that ends after the spilled one starts loses its register first, or the scan fails. */
  ghost predicate ReadServed(v: Serving, v': Serving, i: nat, p: int, u: nat)
    requires v.Serving? && i < |v.scene.rs|
  {
    var rs, pool := v.scene.rs, v.scene.pool;
    if !(u < |rs| && rs[u].loc == Spilled && !rs[u].ignore && !rs[u].preAlloc) then v' == v
    else if CanHand(pool, rs[u].kind, p) then
      v'.Serving? && v'.scene.rs == rs && Taken(pool, v'.scene.pool, v.temps, v'.temps, rs[u].kind, p)
    else
      && (NobodyMayLose(rs, i, rs[u].span.defPos, rs[u].kind) ==> v' == Failed)
      && forall k: nat :: Nearest(rs, i, rs[u].span.defPos, rs[u].kind, k) ==>
           if rs[k].loc.InReg? && HelpedBy(pool, rs[u].kind, p, rs[k].loc.cpu)
           then v'.Serving? && v'.scene.rs == Losing(rs, k) && Taken(pool.Give(rs[k].loc.cpu), v'.scene.pool, v.temps, v'.temps, rs[u].kind, p)
           else v' == Failed
  }

  /** The lowest numbered candidate joins the scratch registers. */
  ghost predicate Taken(pool: PoolState, pool': PoolState, temps: seq<CpuReg>, temps': seq<CpuReg>, kind: Kind, p: int) {
    && |temps'| == |temps| + 1 && temps'[..|temps|] == temps
    && var reg := temps'[|temps|];
    && pool.IsAnswer(kind, false, WhileAt(p), true, GotReg(reg))
    && pool'.lac == pool.lac && pool'.reserved == pool.reserved && pool'.notLac == pool.notLac - AllocMask(reg)
  }

  lemma AskTakes(sc: Scene, kind: Kind, pos: int, temps: seq<CpuReg>)
    ensures var c := Ask(sc, kind, pos);
      c.got.Some? ==> Taken(sc.pool, c.scene.pool, temps, temps + [c.got.value], kind, pos) && c.scene.rs == sc.rs
  {
    hide PoolState.Candidate, AllocMask;
  }

  lemma EveryRead(sc: Scene, i: nat, x: nat, v: Serving)
    requires i < |sc.rs| && x < |sc.rs[i].uses| && Scanned(sc.rs, i, sc.rs[i].span.defPos - 1, sc.pool)
    requires v == Serve(sc, true, i, x) && v.Serving? && i < |v.scene.rs|
    ensures ReadServed(v, Serve(sc, true, i, x + 1), i, sc.rs[i].span.defPos, sc.rs[i].uses[x])
  {
    var p, u := sc.rs[i].span.defPos, sc.rs[i].uses[x];
    ServedNow(sc, true, i, x, v.scene, v.temps);
    hide Scanned, Serve, TempsFree, WfRanges;
    ServeNext(sc, true, i, x, v.scene, v.temps);
    OneRead(v, i, p, u);
  }

  lemma OneRead(v: Serving, i: nat, p: int, u: nat)
    requires v.Serving? && i < |v.scene.rs| && Placed(v.scene.rs, i)
    ensures ReadServed(v, ServeOne(v.scene, v.temps, true, i, p, u), i, p, u)
  {
    var sc := v.scene;
    if NeedsScratch(sc.rs, u) {
      var kind, d := sc.rs[u].kind, sc.rs[u].span.defPos;
      var k := Pick(sc.rs, i - 1, d, kind);
      PickIs(sc.rs, i, i, d, kind);
      ClaimIff(sc, kind, p, d, i - 1, i);
      AskIff(sc, kind, p);
      AskTakes(sc, kind, p, v.temps);
      if k >= 0 {
        OneNearestOnly(sc.rs, i, d, kind, k);
        AskTakes(Unassign(sc, k), kind, p, v.temps);
      } else {
        NoNearest(sc.rs, i, d, kind);
      }
      hide Ask, Taken, Nearest, NobodyMayLose, HelpedBy, CanHand, PoolState.Give, Placed;
    }
  }

  /** A record that is served changes no range any more, and leaves no scratch register behind. */
  lemma EveryRecord(sc: Scene, allow: bool, i: nat, now: Scene)
    requires ScanStart(sc) && i < |sc.rs| && SceneAt(sc, allow, i) == Some(now) && |now.rs| == |sc.rs| && now.rs[i].uses != []
    ensures var v, next := Serve(now, allow, i, |now.rs[i].uses|), SceneAt(sc, allow, i + 1);
      (v.Failed? <==> next == None) && (v.Serving? ==> next.Some? && next.value.rs == v.scene.rs)
  {
    var v := Serve(now, allow, i, |now.rs[i].uses|);
    UseStepIs(now, allow, i, v);
    hide Serve, UseStep;
  }
}
