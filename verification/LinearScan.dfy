/** The linear scan allocators over the live ranges of one block. The fancy one takes registers away
    from earlier ranges when it runs out of scratch registers; even so no available bit ever belongs
    to a range that still needs it (`Scanned`), so ranges that share a bit never overlap. */
module LinearScan {
  import opened IR
  import opened RegPool
  import opened LiveRanges

  predicate InRegister(lr: LiveRange) { Allocates(lr) && lr.loc.InReg? }

  /** Range k has been handled, has a register and is read after position t. */
  predicate Held(rs: seq<LiveRange>, n: nat, t: int, k: nat) {
    k < n <= |rs| && InRegister(rs[k]) && t < rs[k].span.lastUse < NO_USE
  }

  /** No available bit belongs to a range that still needs it. */
  ghost predicate Free(rs: seq<LiveRange>, n: nat, t: int, avail: set<Bit>) {
    forall k: nat :: Held(rs, n, t, k) ==> Bits(rs[k]) !! avail
  }

  /** Range j still needs its register where range k starts. */
  predicate Meets(rs: seq<LiveRange>, j: nat, k: nat)
    requires j < |rs| && k < |rs|
  {
    InRegister(rs[j]) && InRegister(rs[k]) && rs[k].span.defPos < rs[j].span.lastUse < NO_USE
  }

  /** Handled ranges that meet share no bit. */
  ghost predicate Apart(rs: seq<LiveRange>, n: nat) {
    forall j, k :: 0 <= j < k < n <= |rs| && Meets(rs, j, k) ==> Bits(rs[j]) !! Bits(rs[k])
  }

  predicate Reserved(lr: LiveRange) { lr.preAlloc && lr.uses == [] }

  predicate Contend(p: LiveRange, lr: LiveRange) { InRegister(lr) && !(Bits(lr) !! Bits(p)) }

  /** Handled ranges stay clear of the stretches reserved for their bits. */
  ghost predicate Clear(rs: seq<LiveRange>, n: nat) {
    forall k, p :: 0 <= k < n <= |rs| && 0 <= p < |rs| && Reserved(rs[p]) && Contend(rs[p], rs[k]) ==>
      !Overlaps(rs[p].span, rs[k].span)
  }

  /** A handled range has a register of its kind, from the right class, or is spilled; the others have nothing yet. */
  ghost predicate Placed(rs: seq<LiveRange>, n: nat) {
    forall k :: 0 <= k < |rs| && Allocates(rs[k]) ==>
      if k < n then PlacedOne(rs[k]) else rs[k].loc == Unassigned
  }

  predicate PlacedOne(lr: LiveRange) {
    match lr.loc
    case Unassigned => false
    case Spilled => true
    case InReg(cpu) => RegOk(cpu, lr.kind) && (lr.lac <==> SurvivesCalls(cpu))
  }

  /** The pool knows every reserved stretch. */
  ghost predicate Reserves(rs: seq<LiveRange>, st: PoolState) {
    forall p, b :: 0 <= p < |rs| && Reserved(rs[p]) && b in Bits(rs[p]) ==>
      b in st.reserved && rs[p].span in st.reserved[b]
  }

  /** What holds throughout: n ranges are handled and everything up to position t is over. */
  ghost predicate Scanned(rs: seq<LiveRange>, n: nat, t: int, st: PoolState) {
    && WfRanges(rs) && n <= |rs| && st.Valid() && Reserves(rs, st)
    && Placed(rs, n) && Free(rs, n, t, st.Available()) && Apart(rs, n) && Clear(rs, n)
  }

  /** Only locations of ranges the allocator decides on differ. */
  ghost predicate SameButLocs(rs: seq<LiveRange>, rs': seq<LiveRange>) {
    && |rs'| == |rs|
    && forall k :: 0 <= k < |rs| ==> rs'[k] == if Allocates(rs[k]) then rs[k].(loc := rs'[k].loc) else rs[k]
  }

  function WithLoc(rs: seq<LiveRange>, k: nat, loc: Loc): seq<LiveRange>
    requires k < |rs|
  {
    rs[k := rs[k].(loc := loc)]
  }

  // ---------------------------------------------------------------- small steps

  lemma LaterIsWeaker(rs: seq<LiveRange>, n: nat, t: int, t': int, st: PoolState)
    requires Scanned(rs, n, t, st) && t <= t'
    ensures Scanned(rs, n, t', st)
  {
    forall k: nat | Held(rs, n, t', k) ensures Bits(rs[k]) !! st.Available() { assert Held(rs, n, t, k); }
    hide WfRanges, Placed, Apart, Clear, Reserves, PoolState.Valid;
  }

  lemma WfKeepsLoc(rs: seq<LiveRange>, k: nat, loc: Loc)
    requires WfRanges(rs) && k < |rs| && Allocates(rs[k])
    ensures WfRanges(WithLoc(rs, k, loc))
  {
    var rs' := WithLoc(rs, k, loc);
    forall j | 0 <= j < |rs'| ensures WfRange(rs', j) {
      assert WfRange(rs, j);
    }
  }

  lemma ReservesKeepsLoc(rs: seq<LiveRange>, k: nat, loc: Loc, st: PoolState)
    requires Reserves(rs, st) && k < |rs| && Allocates(rs[k])
    ensures Reserves(WithLoc(rs, k, loc), st)
  {
    hide Bits;
    var rs' := WithLoc(rs, k, loc);
    forall p, b | 0 <= p < |rs'| && Reserved(rs'[p]) && b in Bits(rs'[p])
      ensures b in st.reserved && rs'[p].span in st.reserved[b]
    {
      assert rs'[p] == rs[p];
    }
  }

  lemma TakeKeepsPool(st: PoolState, reg: CpuReg, lac: bool)
    requires st.Valid()
    ensures st.Take(reg, lac).Valid() && st.Take(reg, lac).Available() <= st.Available()
  {
  }

  lemma GiveKeepsPool(st: PoolState, reg: CpuReg)
    requires st.Valid() && reg.no < NumRegs(reg.kind)
    ensures st.Give(reg).Valid() && st.Give(reg).Available() == st.Available() + AllocMask(reg)
  {
    forall b | b in AllocMask(reg) ensures (CalleeSaved(b) <==> SurvivesCalls(reg)) && InRange(b) { MaskInClass(reg, b); }
    hide AllocMask, CalleeSaved, SurvivesCalls;
  }

  /** A candidate's bits all come from one class, so taking it leaves none of them. */
  lemma TakenIsGone(st: PoolState, reg: CpuReg, lac: bool, lr: Span)
    requires st.Valid() && st.Candidate(reg, lac, lr)
    ensures AllocMask(reg) <= st.Available() && AllocMask(reg) !! st.Take(reg, lac).Available()
    ensures lac <==> SurvivesCalls(reg)
  {
    MaskHasBit(reg);
    forall b | b in AllocMask(reg) ensures CalleeSaved(b) <==> SurvivesCalls(reg) { MaskInClass(reg, b); }
    hide AllocMask, CalleeSaved, SurvivesCalls, PoolState.NoConflict;
  }

  /** A scratch register for the moment: its bits belong to no range that still needs them. */
  ghost predicate TempFree(rs: seq<LiveRange>, n: nat, t: int, reg: CpuReg) {
    reg.no < NumRegs(reg.kind) && forall k: nat :: Held(rs, n, t, k) ==> Bits(rs[k]) !! AllocMask(reg)
  }

  lemma TakeTemp(rs: seq<LiveRange>, n: nat, t: int, st: PoolState, reg: CpuReg, lac: bool, lr: Span)
    requires Scanned(rs, n, t, st) && st.Candidate(reg, lac, lr) && reg.no < NumRegs(reg.kind)
    ensures Scanned(rs, n, t, st.Take(reg, lac)) && TempFree(rs, n, t, reg)
  {
    TakeKeepsPool(st, reg, lac);
    TakenIsGone(st, reg, lac, lr);
    hide WfRanges, Placed, Apart, Clear, Bits, AllocMask, Held, PoolState.Valid, PoolState.Available, PoolState.Candidate;
    assert forall k: nat :: Held(rs, n, t, k) ==> Bits(rs[k]) !! st.Available();
    assert Reserves(rs, st.Take(reg, lac));
  }

  lemma GiveFree(rs: seq<LiveRange>, n: nat, t: int, st: PoolState, reg: CpuReg)
    requires Scanned(rs, n, t, st) && TempFree(rs, n, t, reg)
    ensures Scanned(rs, n, t, st.Give(reg))
  {
    GiveKeepsPool(st, reg);
    hide WfRanges, Placed, Apart, Clear, Bits, AllocMask, Held, PoolState.Valid, PoolState.Available;
    assert Reserves(rs, st.Give(reg));
  }

  lemma SortedDefs(rs: seq<LiveRange>, j: nat, k: nat)
    requires WfRanges(rs) && j < k < |rs|
    ensures rs[j].span.defPos <= rs[k].span.defPos
    ensures rs[k].uses != [] && rs[j].uses == [] ==> rs[j].span.defPos < rs[k].span.defPos
  {
    assert WfRange(rs, j) && WfRange(rs, k);
    assert !Before(rs[k].span, rs[j].span);
  }

  lemma OverOrOngoing(rs: seq<LiveRange>, i: nat, u: nat, k: nat)
    requires u < i <= |rs| && k < i && rs[u].uses == [] && !rs[u].ignore && rs[u].loc.InReg?
    requires InRegister(rs[k]) && rs[u].span.lastUse < rs[k].span.lastUse < NO_USE
    requires rs[u].span.defPos < rs[u].span.lastUse && rs[k].span.defPos < rs[u].span.lastUse
    requires Apart(rs, i) && Clear(rs, i)
    ensures Bits(rs[k]) !! AllocMask(rs[u].loc.cpu)
  {
    assert Bits(rs[u]) == AllocMask(rs[u].loc.cpu);
    hide AllocMask;
    if rs[u].preAlloc {
      assert Reserved(rs[u]) && Overlaps(rs[u].span, rs[k].span);
      assert !Contend(rs[u], rs[k]);
    } else if k < u {
      assert Meets(rs, k, u);
    } else {
      assert Meets(rs, u, k);
    }
  }

  /** A range that ends at this read, and one that goes on, have nothing in common. */
  lemma EndingIsFree(rs: seq<LiveRange>, i: nat, st: PoolState, u: nat)
    requires i < |rs| && rs[i].uses != [] && u in rs[i].uses && Scanned(rs, i, rs[i].span.defPos, st)
    requires u < |rs| && rs[u].span.lastUse == rs[i].span.defPos && !rs[u].ignore && rs[u].loc.InReg?
    ensures TempFree(rs, i, rs[i].span.defPos, rs[u].loc.cpu)
  {
    var p := rs[i].span.defPos;
    assert WfRange(rs, i);
    assert WfRange(rs, u);
    UsedBefore(rs, i, u);
    forall k: nat | Held(rs, i, p, k) ensures Bits(rs[k]) !! AllocMask(rs[u].loc.cpu) {
      SortedDefs(rs, k, i);
      OverOrOngoing(rs, i, u, k);
    }
    if !rs[u].preAlloc { assert PlacedOne(rs[u]); }
    hide Bits, AllocMask, Reserves, Free;
  }

  lemma UsedBefore(rs: seq<LiveRange>, i: nat, u: nat)
    requires WfRanges(rs) && i < |rs| && u in rs[i].uses
    ensures u < i
  {
    assert WfRange(rs, i);
    assert WfRange(rs, u);
    if i < u { SortedDefs(rs, i, u); }
  }

  // ---------------------------------------------------------------- taking a register away

  function Family(kind: Kind): nat { if kind.Gpr? then 1 else 2 }

  predicate Spillable(lr: LiveRange, pos: int, kind: Kind) {
    Allocates(lr) && lr.loc != Spilled && lr.span.lastUse > pos && Family(lr.kind) == Family(kind)
  }

  lemma FamiliesShareNothing(a: CpuReg, b: CpuReg)
    requires Family(a.kind) != Family(b.kind)
    ensures AllocMask(a) !! AllocMask(b)
  {
  }

  /** The nearest earlier range that qualifies may already be over, its register handed on. But
      whoever still needs that register would have qualified too, and nearer; or was there first,
      and then the two met. */
  lemma NearestIsFree(rs: seq<LiveRange>, n: nat, t: int, st: PoolState, k0: nat, pos: int, kind: Kind)
    requires Scanned(rs, n, t, st) && k0 < n <= |rs| && pos <= t && InRegister(rs[k0]) && Spillable(rs[k0], pos, kind)
    requires forall k: nat :: k0 < k < n ==> !Spillable(rs[k], pos, kind)
    requires rs[k0].span.defPos <= t
    ensures TempFree(WithLoc(rs, k0, Spilled), n, t, rs[k0].loc.cpu)
  {
    var rs', cpu := WithLoc(rs, k0, Spilled), rs[k0].loc.cpu;
    assert PlacedOne(rs[k0]);
    forall k: nat | Held(rs', n, t, k) ensures Bits(rs'[k]) !! AllocMask(cpu) {
      assert k != k0 && Held(rs, n, t, k) && PlacedOne(rs[k]);
      assert Bits(rs[k0]) == AllocMask(cpu);
      if k < k0 {
        assert Meets(rs, k, k0);
      } else {
        assert !Spillable(rs[k], pos, kind);
        FamiliesShareNothing(rs[k].loc.cpu, cpu);
      }
      hide AllocMask;
    }
    hide Bits, AllocMask, Reserves, Clear, WfRanges;
  }

  lemma SpillKeeps(rs: seq<LiveRange>, n: nat, t: int, st: PoolState, k0: nat)
    requires Scanned(rs, n, t, st) && k0 < n && InRegister(rs[k0])
    ensures Scanned(WithLoc(rs, k0, Spilled), n, t, st)
  {
    var rs' := WithLoc(rs, k0, Spilled);
    WfKeepsLoc(rs, k0, Spilled);
    ReservesKeepsLoc(rs, k0, Spilled, st);
    hide Bits, WfRanges, Reserves, PoolState.Valid, PoolState.Available;
    forall k: nat | Held(rs', n, t, k) ensures Bits(rs'[k]) !! st.Available() {
      assert Held(rs, n, t, k) && rs'[k] == rs[k];
    }
    forall j, k | 0 <= j < k < n && Meets(rs', j, k) ensures Bits(rs'[j]) !! Bits(rs'[k]) {
      assert Meets(rs, j, k) && rs'[j] == rs[j] && rs'[k] == rs[k];
    }
    assert Clear(rs', n);
  }

  lemma TempsStayFree(rs: seq<LiveRange>, n: nat, t: int, k0: nat, reg: CpuReg)
    requires k0 < n <= |rs| && Allocates(rs[k0]) && TempFree(rs, n, t, reg)
    ensures TempFree(WithLoc(rs, k0, Spilled), n, t, reg)
  {
    hide AllocMask;
    var rs' := WithLoc(rs, k0, Spilled);
    forall k: nat | Held(rs', n, t, k) ensures Bits(rs'[k]) !! AllocMask(reg) { assert Held(rs, n, t, k); }
  }

  // ---------------------------------------------------------------- handing a register out

  /** Range n is next and is a definition. */
  lemma AssignKeeps(rs: seq<LiveRange>, n: nat, st: PoolState, cpu: CpuReg)
    requires n < |rs| && Allocates(rs[n]) && Scanned(rs, n, rs[n].span.defPos, st)
    requires RegOk(cpu, rs[n].kind) && st.Candidate(cpu, rs[n].lac, rs[n].span)
    ensures Scanned(WithLoc(rs, n, InReg(cpu)), n + 1, rs[n].span.defPos, st.Take(cpu, rs[n].lac))
    ensures rs[n].span.lastUse == NO_USE ==> TempFree(WithLoc(rs, n, InReg(cpu)), n + 1, rs[n].span.defPos, cpu)
  {
    var rs', t, st' := WithLoc(rs, n, InReg(cpu)), rs[n].span.defPos, st.Take(cpu, rs[n].lac);
    WfKeepsLoc(rs, n, InReg(cpu));
    ReservesKeepsLoc(rs, n, InReg(cpu), st');
    TakeKeepsPool(st, cpu, rs[n].lac);
    TakenIsGone(st, cpu, rs[n].lac, rs[n].span);
    AssignClear(rs, n, st, cpu);
    assert Bits(rs'[n]) == AllocMask(cpu);
    hide Bits, AllocMask, WfRanges, Clear, Reserves, PoolState.Valid, PoolState.Available, PoolState.Candidate;
    forall k: nat | Held(rs', n + 1, t, k) ensures Bits(rs'[k]) !! st'.Available() && (k < n ==> Bits(rs'[k]) !! AllocMask(cpu)) {
      if k < n { assert Held(rs, n, t, k) && rs'[k] == rs[k]; }
    }
    forall j, k | 0 <= j < k < n + 1 && Meets(rs', j, k) ensures Bits(rs'[j]) !! Bits(rs'[k]) {
      if k < n {
        assert Meets(rs, j, k);
      } else {
        assert Held(rs, n, t, j) && rs'[j] == rs[j];
      }
    }
    assert Placed(rs', n + 1);
  }

  lemma AssignClear(rs: seq<LiveRange>, n: nat, st: PoolState, cpu: CpuReg)
    requires n < |rs| && Allocates(rs[n]) && Clear(rs, n) && Reserves(rs, st)
    requires st.Candidate(cpu, rs[n].lac, rs[n].span)
    ensures Clear(WithLoc(rs, n, InReg(cpu)), n + 1)
  {
    var rs' := WithLoc(rs, n, InReg(cpu));
    hide AllocMask;
    forall k, p | 0 <= k < n + 1 && 0 <= p < |rs'| && Reserved(rs'[p]) && Contend(rs'[p], rs'[k])
      ensures !Overlaps(rs'[p].span, rs'[k].span)
    {
      assert rs'[p] == rs[p];
      if k == n {
        var b :| b in Bits(rs'[k]) && b in Bits(rs[p]);
        assert b in st.reserved && rs[p].span in st.reserved[b];
        assert !Conflict(st.reserved[b], rs[n].span);
        var x :| 0 <= x < |st.reserved[b]| && st.reserved[b][x] == rs[p].span;
      } else {
        assert rs'[k] == rs[k];
      }
    }
  }

  lemma SpilledKeeps(rs: seq<LiveRange>, n: nat, st: PoolState)
    requires n < |rs| && Allocates(rs[n]) && Scanned(rs, n, rs[n].span.defPos, st)
    ensures Scanned(WithLoc(rs, n, Spilled), n + 1, rs[n].span.defPos, st)
  {
    var rs', t := WithLoc(rs, n, Spilled), rs[n].span.defPos;
    WfKeepsLoc(rs, n, Spilled);
    ReservesKeepsLoc(rs, n, Spilled, st);
    hide Bits, WfRanges, Reserves, PoolState.Valid, PoolState.Available;
    forall k: nat | Held(rs', n + 1, t, k) ensures Bits(rs'[k]) !! st.Available() {
      assert Held(rs, n, t, k) && rs'[k] == rs[k];
    }
    forall j, k | 0 <= j < k < n + 1 && Meets(rs', j, k) ensures Bits(rs'[j]) !! Bits(rs'[k]) {
      assert Meets(rs, j, k) && rs'[j] == rs[j] && rs'[k] == rs[k];
    }
    assert Clear(rs', n + 1);
    assert Placed(rs', n + 1);
  }

  /** A range that is not the allocator's business is passed over. */
  lemma SkipKeeps(rs: seq<LiveRange>, n: nat, t: int, st: PoolState)
    requires n < |rs| && !Allocates(rs[n]) && Scanned(rs, n, t, st)
    ensures Scanned(rs, n + 1, t, st)
  {
    hide Bits, WfRanges, Reserves, PoolState.Valid, PoolState.Available;
    forall k: nat | Held(rs, n + 1, t, k) ensures Bits(rs[k]) !! st.Available() { assert Held(rs, n, t, k); }
    forall j, k | 0 <= j < k < n + 1 && Meets(rs, j, k) ensures Bits(rs[j]) !! Bits(rs[k]) { assert k < n; }
    assert Clear(rs, n + 1);
  }

  // ---------------------------------------------------------------- the promise

  /** What the allocator promises. A range without a register was spilled; one with a register has one
      of its kind, callee-saved iff it is live across a call; no two ranges that meet share a bit,
      and none shares a bit with a reserved stretch it overlaps. */
  ghost predicate Allocated(rs: seq<LiveRange>) {
    && Placed(rs, |rs|) && Apart(rs, |rs|) && Clear(rs, |rs|)
  }

  ghost predicate TempsFree(rs: seq<LiveRange>, n: nat, t: int, temps: seq<CpuReg>) {
    forall x :: 0 <= x < |temps| ==> TempFree(rs, n, t, temps[x])
  }

  lemma SameKindAndSpan(rs: seq<LiveRange>, rs': seq<LiveRange>, i: nat)
    requires SameButLocs(rs, rs') && i < |rs|
    ensures |rs'| == |rs| && rs'[i].span == rs[i].span && rs'[i].uses == rs[i].uses && rs'[i].kind == rs[i].kind
    ensures Allocates(rs'[i]) == Allocates(rs[i])
  {
  }

  lemma EarlierStarts(rs: seq<LiveRange>, i: nat, t: int)
    requires WfRanges(rs) && i < |rs| && rs[i].span.defPos <= (if rs[i].uses == [] then t else t + 1)
    ensures forall k :: 0 <= k < i && Allocates(rs[k]) ==> rs[k].span.defPos <= t
  {
    forall k | 0 <= k < i && Allocates(rs[k]) ensures rs[k].span.defPos <= t { SortedDefs(rs, k, i); }
  }

  lemma UseStartsBefore(rs: seq<LiveRange>, i: nat, u: nat)
    requires WfRanges(rs) && i < |rs| && u in rs[i].uses
    ensures u < |rs| && rs[u].span.defPos <= rs[i].span.defPos - 1
  {
    assert WfRange(rs, i);
  }

  predicate NoSpilled(rs: seq<LiveRange>) {
    forall k :: 0 <= k < |rs| && Allocates(rs[k]) ==> rs[k].loc != Spilled
  }

  lemma LocOnly(rs: seq<LiveRange>, i: nat)
    requires i < |rs| && Allocates(rs[i])
    ensures SameButLocs(rs, rs)
    ensures forall loc :: SameButLocs(rs, WithLoc(rs, i, loc))
    ensures NoSpilled(rs) ==> forall cpu :: NoSpilled(WithLoc(rs, i, InReg(cpu)))
  {
  }

  lemma NothingChanged(rs: seq<LiveRange>)
    ensures SameButLocs(rs, rs)
  {
  }

  lemma ChangedTwice(a: seq<LiveRange>, b: seq<LiveRange>, c: seq<LiveRange>)
    requires SameButLocs(a, b) && SameButLocs(b, c)
    ensures SameButLocs(a, c)
  {
  }

  lemma SpillOne(rs: seq<LiveRange>, n: nat, t: int, st: PoolState, k: nat, pos: int, kind: Kind, temps: seq<CpuReg>)
    requires Scanned(rs, n, t, st) && k < n && pos <= t && Spillable(rs[k], pos, kind) && (Allocates(rs[k]) ==> rs[k].span.defPos <= t)
    requires forall j: nat :: k < j < n ==> !Spillable(rs[j], pos, kind)
    requires TempsFree(rs, n, t, temps)
    ensures rs[k].loc.InReg?
    ensures Scanned(WithLoc(rs, k, Spilled), n, t, st) && TempFree(WithLoc(rs, k, Spilled), n, t, rs[k].loc.cpu)
    ensures TempsFree(WithLoc(rs, k, Spilled), n, t, temps)
    ensures SameButLocs(rs, WithLoc(rs, k, Spilled))
  {
    assert PlacedOne(rs[k]);
    assert Allocates(rs[k]) && rs[k].loc.InReg?;
    hide Scanned, TempFree, PlacedOne;
    NearestIsFree(rs, n, t, st, k, pos, kind);
    SpillKeeps(rs, n, t, st, k);
    forall x | 0 <= x < |temps| ensures TempFree(WithLoc(rs, k, Spilled), n, t, temps[x]) {
      TempsStayFree(rs, n, t, k, temps[x]);
    }
  }

  // ---------------------------------------------------------------- the scan on values

  /** The ranges and the pool at some moment. */
  datatype Scene = Scene(rs: seq<LiveRange>, pool: PoolState)

  /** The lowest numbered register from n on that the pool may hand out. */
  ghost function Search(st: PoolState, kind: Kind, lac: bool, lr: Span, n: nat): (found: Option<CpuReg>)
    ensures found.Some? ==> RegOk(found.value, kind) && n <= found.value.no && st.Candidate(found.value, lac, lr)
    ensures forall k: nat :: n <= k < (if found.Some? then found.value.no else NumRegs(kind)) ==> !st.Candidate(CpuReg(kind, k), lac, lr)
    decreases NumRegs(kind) - n
  {
    if n >= NumRegs(kind) then None
    else if st.Candidate(CpuReg(kind, n), lac, lr) then Some(CpuReg(kind, n))
    else Search(st, kind, lac, lr, n + 1)
  }

  ghost function Answer(st: PoolState, kind: Kind, lac: bool, lr: Span): Option<CpuReg> { Search(st, kind, lac, lr, 0) }

  /** Requests have one answer only. */
  lemma AnswerIs(st: PoolState, kind: Kind, lac: bool, lr: Span, allowSpilling: bool, got: Got)
    requires st.IsAnswer(kind, lac, lr, allowSpilling, got)
    ensures got == match Answer(st, kind, lac, lr) case Some(reg) => GotReg(reg) case None => if allowSpilling then GotSpill else GotNone
  {
    hide PoolState.Candidate;
    var found := Search(st, kind, lac, lr, 0);
    if found.Some? && got.GotReg? {
      assert !(found.value.no < got.reg.no) && !(got.reg.no < found.value.no);
    }
  }

  /** The nearest range, from i down, that can lose its register; -1 if there is none. */
  function Pick(rs: seq<LiveRange>, i: int, pos: int, kind: Kind): (k: int)
    requires i < |rs|
    ensures -1 <= k && (k >= 0 ==> k <= i && Spillable(rs[k], pos, kind))
    ensures forall j :: k < j <= i && 0 <= j ==> !Spillable(rs[j], pos, kind)
    decreases i + 1
  {
    if i < 0 then -1 else if Spillable(rs[i], pos, kind) then i else Pick(rs, i - 1, pos, kind)
  }

  function Unassign(sc: Scene, k: nat): Scene
    requires k < |sc.rs|
  {
    if sc.rs[k].loc.InReg? then Scene(WithLoc(sc.rs, k, Spilled), sc.pool.Give(sc.rs[k].loc.cpu)) else sc
  }

  function WhileAt(pos: int): Span { Span(pos, NO_USE) }

  datatype Claimed = Claimed(got: Option<CpuReg>, scene: Scene)

  ghost function Ask(sc: Scene, kind: Kind, pos: int): Claimed {
    match Answer(sc.pool, kind, false, WhileAt(pos))
    case Some(reg) => Claimed(Some(reg), sc.(pool := sc.pool.Take(reg, false)))
    case None => Claimed(None, sc)
  }

  /** A scratch register at pos; if there is none, the nearest range from i down that ends after
      spilledDef loses its register first. */
  ghost function Claim(sc: Scene, kind: Kind, pos: int, spilledDef: int, i: int): Claimed
    requires i < |sc.rs|
  {
    var first := Ask(sc, kind, pos);
    var k := Pick(sc.rs, i, spilledDef, kind);
    if first.got.Some? || k < 0 then first else Ask(Unassign(sc, k), kind, pos)
  }

  lemma AskKeeps(sc: Scene, kind: Kind, pos: int, n: nat, t: int)
    requires Scanned(sc.rs, n, t, sc.pool)
    ensures var c := Ask(sc, kind, pos);
      c.scene.rs == sc.rs && Scanned(sc.rs, n, t, c.scene.pool) && (c.got.Some? ==> TempFree(sc.rs, n, t, c.got.value))
  {
    hide Scanned, TempFree, PoolState.Candidate;
    var got := Answer(sc.pool, kind, false, WhileAt(pos));
    if got.Some? { TakeTemp(sc.rs, n, t, sc.pool, got.value, false, WhileAt(pos)); }
  }

  /** Whoever may be picked is a range handled before. */
  ghost predicate MayPick(rs: seq<LiveRange>, n: nat, t: int, kind: Kind, spilledDef: int, i: int) {
    && -1 <= i < n <= |rs| && spilledDef <= t
    && (forall k :: i < k < n ==> !Spillable(rs[k], spilledDef, kind))
    && (forall k :: 0 <= k <= i && Allocates(rs[k]) ==> rs[k].span.defPos <= t)
  }

  lemma PickedHasRegister(rs: seq<LiveRange>, n: nat, i: int, pos: int, kind: Kind)
    requires Placed(rs, n) && -1 <= i < n <= |rs|
    ensures var k := Pick(rs, i, pos, kind); k >= 0 ==> Allocates(rs[k]) && rs[k].loc.InReg? && RegOk(rs[k].loc.cpu, rs[k].kind)
  {
    var k := Pick(rs, i, pos, kind);
    if k >= 0 { assert PlacedOne(rs[k]); }
  }

  lemma UnassignKeeps(sc: Scene, kind: Kind, spilledDef: int, i: int, n: nat, t: int, temps: seq<CpuReg>)
    requires Scanned(sc.rs, n, t, sc.pool) && MayPick(sc.rs, n, t, kind, spilledDef, i) && TempsFree(sc.rs, n, t, temps)
    ensures var k := Pick(sc.rs, i, spilledDef, kind);
      k >= 0 ==>
        var sc' := Unassign(sc, k);
        Scanned(sc'.rs, n, t, sc'.pool) && TempsFree(sc'.rs, n, t, temps) && SameButLocs(sc.rs, sc'.rs)
  {
    var k := Pick(sc.rs, i, spilledDef, kind);
    if k >= 0 {
      PickedHasRegister(sc.rs, n, i, spilledDef, kind);
      SpillOne(sc.rs, n, t, sc.pool, k, spilledDef, kind, temps);
      hide Scanned, TempFree, TempsFree, SameButLocs, Placed;
      GiveFree(WithLoc(sc.rs, k, Spilled), n, t, sc.pool, sc.rs[k].loc.cpu);
    }
  }

  lemma ClaimKeeps(sc: Scene, kind: Kind, pos: int, spilledDef: int, i: int, n: nat, t: int, temps: seq<CpuReg>)
    requires Scanned(sc.rs, n, t, sc.pool) && MayPick(sc.rs, n, t, kind, spilledDef, i) && TempsFree(sc.rs, n, t, temps)
    ensures var c := Claim(sc, kind, pos, spilledDef, i);
      && Scanned(c.scene.rs, n, t, c.scene.pool) && TempsFree(c.scene.rs, n, t, temps) && SameButLocs(sc.rs, c.scene.rs)
      && (c.got.Some? ==> TempFree(c.scene.rs, n, t, c.got.value))
  {
    hide Scanned, TempFree, TempsFree, SameButLocs, Ask, Unassign, Spillable;
    var k := Pick(sc.rs, i, spilledDef, kind);
    NothingChanged(sc.rs);
    AskKeeps(sc, kind, pos, n, t);
    UnassignKeeps(sc, kind, spilledDef, i, n, t, temps);
    if k >= 0 { AskKeeps(Unassign(sc, k), kind, pos, n, t); }
  }

  // -- reads

  /** Serving one record: the scratch registers it holds so far. */
  datatype Serving = Serving(scene: Scene, temps: seq<CpuReg>) | Failed

  predicate NeedsScratch(rs: seq<LiveRange>, u: nat) {
    u < |rs| && !rs[u].ignore && !rs[u].preAlloc && rs[u].loc == Spilled
  }

  ghost function ServeOne(sc: Scene, temps: seq<CpuReg>, allow: bool, i: nat, p: int, u: nat): Serving
    requires i < |sc.rs|
  {
    if !NeedsScratch(sc.rs, u) then Serving(sc, temps)
    else if !allow then Failed
    else
      var c := Claim(sc, sc.rs[u].kind, p, sc.rs[u].span.defPos, i - 1);
      match c.got case Some(reg) => Serving(c.scene, temps + [reg]) case None => Failed
  }

  /** After the first x of the ranges read by record i. */
  ghost function Serve(sc: Scene, allow: bool, i: nat, x: nat): (v: Serving)
    requires i < |sc.rs| && x <= |sc.rs[i].uses|
    ensures v.Serving? ==> |v.scene.rs| == |sc.rs|
  {
    if x == 0 then Serving(sc, [])
    else
      match Serve(sc, allow, i, x - 1)
      case Failed => Failed
      case Serving(s, temps) => ServeOne(s, temps, allow, i, sc.rs[i].span.defPos, sc.rs[i].uses[x - 1])
  }

  predicate EndsHere(rs: seq<LiveRange>, u: nat, p: int) {
    u < |rs| && rs[u].span.lastUse == p && !rs[u].ignore && rs[u].loc.InReg?
  }

  /** The registers of the first x ranges of `uses` that end at p go back. */
  function EndUses(sc: Scene, p: int, uses: seq<nat>, x: nat): (sc': Scene)
    requires x <= |uses|
    ensures sc'.rs == sc.rs
  {
    if x == 0 then sc
    else
      var s := EndUses(sc, p, uses, x - 1);
      if EndsHere(sc.rs, uses[x - 1], p) then s.(pool := s.pool.Give(sc.rs[uses[x - 1]].loc.cpu)) else s
  }

  function GiveTemps(sc: Scene, temps: seq<CpuReg>, x: nat): (sc': Scene)
    requires x <= |temps|
    ensures sc'.rs == sc.rs
  {
    if x == 0 then sc else var s := GiveTemps(sc, temps, x - 1); s.(pool := s.pool.Give(temps[x - 1]))
  }

  ghost function UseStep(sc: Scene, allow: bool, i: nat): Option<Scene>
    requires i < |sc.rs|
  {
    var lr := sc.rs[i];
    match Serve(sc, allow, i, |lr.uses|)
    case Failed => None
    case Serving(s, temps) => Some(GiveTemps(EndUses(s, lr.span.defPos, lr.uses, |lr.uses|), temps, |temps|))
  }

  lemma UseStepIs(sc: Scene, allow: bool, i: nat, v: Serving)
    requires i < |sc.rs| && Serve(sc, allow, i, |sc.rs[i].uses|) == v
    ensures UseStep(sc, allow, i) ==
      match v
      case Failed => None
      case Serving(s, temps) => Some(GiveTemps(EndUses(s, sc.rs[i].span.defPos, sc.rs[i].uses, |sc.rs[i].uses|), temps, |temps|))
  {
    hide Serve, GiveTemps, EndUses;
  }

  lemma ServeStarts(sc: Scene, allow: bool, i: nat)
    requires i < |sc.rs|
    ensures Serve(sc, allow, i, 0) == Serving(sc, [])
  {
  }

  lemma ServeNext(sc: Scene, allow: bool, i: nat, x: nat, now: Scene, temps: seq<CpuReg>)
    requires i < |sc.rs| && x < |sc.rs[i].uses| && Serve(sc, allow, i, x) == Serving(now, temps)
    ensures |now.rs| == |sc.rs| && Serve(sc, allow, i, x + 1) == ServeOne(now, temps, allow, i, sc.rs[i].span.defPos, sc.rs[i].uses[x])
  {
    hide ServeOne;
  }

  ghost predicate ServingKeeps(sc: Scene, allow: bool, i: nat, p: int, v: Serving) {
    v.Serving? ==>
      && Scanned(v.scene.rs, i, p, v.scene.pool) && TempsFree(v.scene.rs, i, p, v.temps) && SameButLocs(sc.rs, v.scene.rs)
      && (!allow ==> v.scene == sc && v.temps == [])
  }

  lemma UseMayPick(rs: seq<LiveRange>, i: nat, u: nat)
    requires WfRanges(rs) && i < |rs| && u in rs[i].uses
    ensures u < i && MayPick(rs, i, rs[i].span.defPos - 1, rs[u].kind, rs[u].span.defPos, i - 1)
  {
    UsedBefore(rs, i, u);
    UseStartsBefore(rs, i, u);
    EarlierStarts(rs, i, rs[i].span.defPos - 1);
    hide WfRanges, Spillable, Allocates;
  }

  lemma OneMoreFree(rs: seq<LiveRange>, n: nat, t: int, temps: seq<CpuReg>, reg: CpuReg)
    requires TempsFree(rs, n, t, temps) && TempFree(rs, n, t, reg)
    ensures TempsFree(rs, n, t, temps + [reg])
  {
    hide TempFree;
  }

  lemma ServeOneKeeps(sc0: Scene, sc: Scene, temps: seq<CpuReg>, allow: bool, i: nat, p: int, u: nat)
    requires i < |sc.rs| && sc.rs[i].span.defPos == p && u in sc.rs[i].uses && ServingKeeps(sc0, allow, i, p - 1, Serving(sc, temps))
    ensures ServingKeeps(sc0, allow, i, p - 1, ServeOne(sc, temps, allow, i, p, u))
  {
    hide Scanned, TempFree, TempsFree, SameButLocs, WfRanges, Placed, MayPick, Claim;
    if NeedsScratch(sc.rs, u) && allow {
      var c := Claim(sc, sc.rs[u].kind, p, sc.rs[u].span.defPos, i - 1);
      ScannedParts(sc.rs, i, p - 1, sc.pool);
      UseMayPick(sc.rs, i, u);
      ClaimKeeps(sc, sc.rs[u].kind, p, sc.rs[u].span.defPos, i - 1, i, p - 1, temps);
      ChangedTwice(sc0.rs, sc.rs, c.scene.rs);
      if c.got.Some? { OneMoreFree(c.scene.rs, i, p - 1, temps, c.got.value); }
    }
  }

  lemma {:induction false} ServeKeeps(sc: Scene, allow: bool, i: nat, x: nat)
    requires i < |sc.rs| && x <= |sc.rs[i].uses| && Scanned(sc.rs, i, sc.rs[i].span.defPos - 1, sc.pool)
    ensures ServingKeeps(sc, allow, i, sc.rs[i].span.defPos - 1, Serve(sc, allow, i, x))
  {
    hide Scanned, TempFree, SameButLocs, ServeOne;
    if x == 0 {
      NothingChanged(sc.rs);
    } else {
      ServeKeeps(sc, allow, i, x - 1);
      var v := Serve(sc, allow, i, x - 1);
      if v.Serving? {
        SameKindAndSpan(sc.rs, v.scene.rs, i);
        ServeOneKeeps(sc, v.scene, v.temps, allow, i, sc.rs[i].span.defPos, sc.rs[i].uses[x - 1]);
      }
    }
  }

  lemma EndingHasRegister(rs: seq<LiveRange>, i: nat, u: nat, p: int)
    requires WfRanges(rs) && Placed(rs, i) && i < |rs| && u in rs[i].uses && EndsHere(rs, u, p)
    ensures rs[u].loc.cpu.no < NumRegs(rs[u].loc.cpu.kind)
  {
    UsedBefore(rs, i, u);
    assert WfRange(rs, i) && WfRange(rs, u) && (Allocates(rs[u]) ==> PlacedOne(rs[u]));
  }

  lemma {:induction false} EndUsesKeeps(sc: Scene, i: nat, x: nat)
    requires i < |sc.rs| && x <= |sc.rs[i].uses| && Scanned(sc.rs, i, sc.rs[i].span.defPos, sc.pool)
    ensures Scanned(sc.rs, i, sc.rs[i].span.defPos, EndUses(sc, sc.rs[i].span.defPos, sc.rs[i].uses, x).pool)
  {
    hide Scanned, TempFree;
    if x > 0 {
      var p, u := sc.rs[i].span.defPos, sc.rs[i].uses[x - 1];
      EndUsesKeeps(sc, i, x - 1);
      var st := EndUses(sc, p, sc.rs[i].uses, x - 1).pool;
      if EndsHere(sc.rs, u, p) {
        EndingIsFree(sc.rs, i, st, u);
        GiveFree(sc.rs, i, p, st, sc.rs[u].loc.cpu);
      }
    }
  }

  lemma {:induction false} GiveTempsKeeps(sc: Scene, n: nat, t: int, temps: seq<CpuReg>, x: nat)
    requires x <= |temps| && Scanned(sc.rs, n, t, sc.pool) && TempsFree(sc.rs, n, t, temps)
    ensures Scanned(sc.rs, n, t, GiveTemps(sc, temps, x).pool)
  {
    hide Scanned, TempFree;
    if x > 0 {
      GiveTempsKeeps(sc, n, t, temps, x - 1);
      GiveFree(sc.rs, n, t, GiveTemps(sc, temps, x - 1).pool, temps[x - 1]);
    }
  }

  lemma TempsFreeLater(rs: seq<LiveRange>, n: nat, t: int, t': int, temps: seq<CpuReg>)
    requires TempsFree(rs, n, t, temps) && t <= t'
    ensures TempsFree(rs, n, t', temps)
  {
    forall x | 0 <= x < |temps| ensures TempFree(rs, n, t', temps[x]) {
      assert TempFree(rs, n, t, temps[x]);
      assert forall k: nat :: Held(rs, n, t', k) ==> Held(rs, n, t, k);
      hide AllocMask;
    }
  }

  /** What a step promises: range i is handled and everything up to p is over. */
  ghost predicate StepDone(sc: Scene, allow: bool, i: nat, p: int, next: Option<Scene>) {
    next.Some? ==>
      && Scanned(next.value.rs, i + 1, p, next.value.pool) && SameButLocs(sc.rs, next.value.rs)
      && (!allow && NoSpilled(sc.rs) ==> NoSpilled(next.value.rs))
  }

  lemma ServedParts(sc: Scene, allow: bool, i: nat, p: int, v: Serving)
    requires ServingKeeps(sc, allow, i, p, v) && v.Serving?
    ensures Scanned(v.scene.rs, i, p, v.scene.pool) && TempsFree(v.scene.rs, i, p, v.temps) && SameButLocs(sc.rs, v.scene.rs)
    ensures !allow ==> v.scene == sc
  {
    hide Scanned, TempsFree, SameButLocs;
  }

  lemma UseStepKeeps(sc: Scene, allow: bool, i: nat)
    requires i < |sc.rs| && sc.rs[i].uses != [] && Scanned(sc.rs, i, sc.rs[i].span.defPos - 1, sc.pool)
    ensures StepDone(sc, allow, i, sc.rs[i].span.defPos, UseStep(sc, allow, i))
  {
    var p, uses := sc.rs[i].span.defPos, sc.rs[i].uses;
    ServeKeeps(sc, allow, i, |uses|);
    var v := Serve(sc, allow, i, |uses|);
    hide Scanned, TempFree, TempsFree, SameButLocs, Serve, ServingKeeps, NoSpilled;
    if v.Serving? {
      ServedParts(sc, allow, i, p - 1, v);
      SameKindAndSpan(sc.rs, v.scene.rs, i);
      LaterIsWeaker(v.scene.rs, i, p - 1, p, v.scene.pool);
      TempsFreeLater(v.scene.rs, i, p - 1, p, v.temps);
      EndUsesKeeps(v.scene, i, |uses|);
      var ended := EndUses(v.scene, p, uses, |uses|);
      GiveTempsKeeps(ended, i, p, v.temps, |v.temps|);
      SkipKeeps(v.scene.rs, i, p, GiveTemps(ended, v.temps, |v.temps|).pool);
    }
  }

  // -- definitions

  /** The next range gets a register, or is spilled; one that is never read gives it back at once. */
  ghost function AssignStep(sc: Scene, allow: bool, i: nat): (next: Option<Scene>)
    requires i < |sc.rs|
    ensures next.Some? ==> |next.value.rs| == |sc.rs|
  {
    var lr := sc.rs[i];
    match Answer(sc.pool, lr.kind, lr.lac, lr.span)
    case Some(reg) =>
      var taken := sc.pool.Take(reg, lr.lac);
      Some(Scene(WithLoc(sc.rs, i, InReg(reg)), if lr.span.lastUse == NO_USE then taken.Give(reg) else taken))
    case None => if allow then Some(Scene(WithLoc(sc.rs, i, Spilled), sc.pool)) else None
  }

  lemma AssignStepIs(sc: Scene, allow: bool, i: nat, got: Got)
    requires i < |sc.rs|
    requires var lr := sc.rs[i]; sc.pool.IsAnswer(lr.kind, lr.lac, lr.span, allow, got)
    ensures var lr, st := sc.rs[i], sc.pool.After(got, sc.rs[i].lac);
      AssignStep(sc, allow, i) ==
        match got
        case GotNone => None
        case GotSpill => Some(Scene(WithLoc(sc.rs, i, Spilled), st))
        case GotReg(reg) => Some(Scene(WithLoc(sc.rs, i, InReg(reg)), if lr.span.lastUse == NO_USE then st.Give(reg) else st))
    ensures got.GotReg? ==> RegOk(got.reg, sc.rs[i].kind)
  {
    AnswerIs(sc.pool, sc.rs[i].kind, sc.rs[i].lac, sc.rs[i].span, allow, got);
    hide PoolState.Candidate, Answer, PoolState.Give, PoolState.Take;
  }

  ghost function DefStep(sc: Scene, allow: bool, i: nat): Option<Scene>
    requires i < |sc.rs|
  {
    var lr := sc.rs[i];
    match AssignStep(sc, allow, i)
    case None => None
    case Some(sc1) =>
      if sc1.rs[i].loc != Spilled then Some(sc1)
      else
        var c := Claim(sc1, lr.kind, lr.span.defPos, lr.span.defPos, i - 1);
        match c.got case Some(reg) => Some(c.scene.(pool := c.scene.pool.Give(reg))) case None => None
  }

  lemma AssignedReg(sc: Scene, i: nat, reg: CpuReg)
    requires i < |sc.rs| && Allocates(sc.rs[i]) && Scanned(sc.rs, i, sc.rs[i].span.defPos, sc.pool)
    requires RegOk(reg, sc.rs[i].kind) && sc.pool.Candidate(reg, sc.rs[i].lac, sc.rs[i].span)
    ensures var rs', st := WithLoc(sc.rs, i, InReg(reg)), sc.pool.Take(reg, sc.rs[i].lac);
      Scanned(rs', i + 1, sc.rs[i].span.defPos, if sc.rs[i].span.lastUse == NO_USE then st.Give(reg) else st)
  {
    hide Scanned, TempFree, PoolState.Candidate;
    var lr := sc.rs[i];
    AssignKeeps(sc.rs, i, sc.pool, reg);
    if lr.span.lastUse == NO_USE { GiveFree(WithLoc(sc.rs, i, InReg(reg)), i + 1, lr.span.defPos, sc.pool.Take(reg, lr.lac), reg); }
  }

  lemma AssignStepKeeps(sc: Scene, allow: bool, i: nat)
    requires i < |sc.rs| && Allocates(sc.rs[i]) && Scanned(sc.rs, i, sc.rs[i].span.defPos, sc.pool)
    ensures StepDone(sc, allow, i, sc.rs[i].span.defPos, AssignStep(sc, allow, i))
  {
    var lr := sc.rs[i];
    LocOnly(sc.rs, i);
    hide Scanned, PoolState.Candidate, SameButLocs, NoSpilled, Allocates;
    var got := Answer(sc.pool, lr.kind, lr.lac, lr.span);
    if got.Some? { AssignedReg(sc, i, got.value); } else if allow { SpilledKeeps(sc.rs, i, sc.pool); }
  }

  lemma DefMayPick(rs: seq<LiveRange>, i: nat)
    requires WfRanges(rs) && i < |rs| && Allocates(rs[i]) && rs[i].loc == Spilled
    ensures MayPick(rs, i + 1, rs[i].span.defPos, rs[i].kind, rs[i].span.defPos, i - 1)
  {
    EarlierStarts(rs, i, rs[i].span.defPos);
    hide WfRanges;
  }

  /** The two halves of handling a definition. */
  lemma DefStepIs(sc: Scene, allow: bool, i: nat)
    requires i < |sc.rs| && Allocates(sc.rs[i]) && Scanned(sc.rs, i, sc.rs[i].span.defPos, sc.pool)
    ensures var lr, p, next := sc.rs[i], sc.rs[i].span.defPos, AssignStep(sc, allow, i);
      && (next == None ==> DefStep(sc, allow, i) == None)
      && (next.Some? ==> SameButLocs(sc.rs, next.value.rs) && Placed(next.value.rs, i + 1))
      && (next.Some? && next.value.rs[i].loc != Spilled ==> DefStep(sc, allow, i) == next)
      && (next.Some? && next.value.rs[i].loc == Spilled ==>
            var c := Claim(next.value, lr.kind, p, p, i - 1);
            && DefStep(sc, allow, i) == (if c.got.Some? then Some(c.scene.(pool := c.scene.pool.Give(c.got.value))) else None)
            && SameButLocs(next.value.rs, c.scene.rs) && (c.got.Some? ==> c.got.value.no < NumRegs(c.got.value.kind)))
  {
    AssignStepKeeps(sc, allow, i);
    hide Scanned, Placed, AssignStep, Claim, SameButLocs, NoSpilled, PoolState.Give, Allocates, WfRanges, MayPick, TempsFree, TempFree;
    var lr, p, next := sc.rs[i], sc.rs[i].span.defPos, AssignStep(sc, allow, i);
    if next.Some? {
      var sc1 := next.value;
      ScannedParts(sc1.rs, i + 1, p, sc1.pool);
      SameKindAndSpan(sc.rs, sc1.rs, i);
      if sc1.rs[i].loc == Spilled {
        ClaimedReg(sc1, lr.kind, p, p, i - 1);
        DefMayPick(sc1.rs, i);
        NoTempsFree(sc1.rs, i + 1, p);
        ClaimKeeps(sc1, lr.kind, p, p, i - 1, i + 1, p, []);
      }
    }
  }

  lemma DefStepKeeps(sc: Scene, allow: bool, i: nat)
    requires i < |sc.rs| && Allocates(sc.rs[i]) && Scanned(sc.rs, i, sc.rs[i].span.defPos, sc.pool)
    ensures StepDone(sc, allow, i, sc.rs[i].span.defPos, DefStep(sc, allow, i))
  {
    var lr, p, next := sc.rs[i], sc.rs[i].span.defPos, AssignStep(sc, allow, i);
    AssignStepKeeps(sc, allow, i);
    if next.Some? {
      var sc1 := next.value;
      SameKindAndSpan(sc.rs, sc1.rs, i);
      if sc1.rs[i].loc == Spilled {
        assert allow by { hide Scanned; }
        assert WfRanges(sc1.rs) by { hide WfRanges, Placed, Free, Apart, Clear, Reserves, PoolState.Valid; }
        DefMayPick(sc1.rs, i);
        NoTempsFree(sc1.rs, i + 1, p);
        hide Scanned, TempFree, TempsFree, SameButLocs, Claim, AssignStep, MayPick, Allocates, WfRanges;
        ClaimKeeps(sc1, lr.kind, p, p, i - 1, i + 1, p, []);
        var c := Claim(sc1, lr.kind, p, p, i - 1);
        ChangedTwice(sc.rs, sc1.rs, c.scene.rs);
        if c.got.Some? { GiveFree(c.scene.rs, i + 1, p, c.scene.pool, c.got.value); }
      }
    }
    hide Scanned, SameButLocs, NoSpilled, AssignStep, Claim, Allocates;
  }

  // -- the whole scan

  ghost function Step(sc: Scene, allow: bool, i: nat): Option<Scene>
    requires i < |sc.rs|
  {
    var lr := sc.rs[i];
    if lr.uses != [] then UseStep(sc, allow, i) else if lr.preAlloc || lr.ignore then Some(sc) else DefStep(sc, allow, i)
  }

  /** After the first i ranges; None if the allocator gave up before. */
  ghost function SceneAt(sc: Scene, allow: bool, i: nat): Option<Scene>
    requires i <= |sc.rs|
  {
    if i == 0 then Some(sc)
    else
      match SceneAt(sc, allow, i - 1)
      case None => None
      case Some(s) => if i <= |s.rs| then Step(s, allow, i - 1) else None
  }

  /** Where the scan is before range i. */
  function PosAt(rs: seq<LiveRange>, i: nat): int
    requires i <= |rs|
  {
    if i == 0 then BEFORE_BBL - 1 else rs[i - 1].span.defPos
  }

  lemma PosGrows(rs: seq<LiveRange>, i: nat)
    requires WfRanges(rs) && i < |rs|
    ensures PosAt(rs, i) <= rs[i].span.defPos && (rs[i].uses != [] ==> PosAt(rs, i) <= rs[i].span.defPos - 1)
  {
    assert WfRange(rs, i);
    if i > 0 { SortedDefs(rs, i - 1, i); }
  }

  lemma StepKeeps(sc: Scene, allow: bool, i: nat)
    requires i < |sc.rs| && Scanned(sc.rs, i, PosAt(sc.rs, i), sc.pool)
    ensures StepDone(sc, allow, i, sc.rs[i].span.defPos, Step(sc, allow, i))
  {
    assert WfRanges(sc.rs) by { hide WfRanges, Placed, Free, Apart, Clear, Reserves, PoolState.Valid; }
    PosGrows(sc.rs, i);
    hide Scanned, SameButLocs, NoSpilled, UseStep, DefStep, WfRanges;
    var lr, t := sc.rs[i], PosAt(sc.rs, i);
    if lr.uses != [] {
      LaterIsWeaker(sc.rs, i, t, lr.span.defPos - 1, sc.pool);
      UseStepKeeps(sc, allow, i);
    } else {
      LaterIsWeaker(sc.rs, i, t, lr.span.defPos, sc.pool);
      if lr.preAlloc || lr.ignore {
        SkipKeeps(sc.rs, i, lr.span.defPos, sc.pool);
        NothingChanged(sc.rs);
      } else {
        DefStepKeeps(sc, allow, i);
      }
    }
  }

  /** What holds at every moment of the scan. */
  ghost predicate SceneKeeps(sc: Scene, allow: bool, i: nat, now: Option<Scene>)
    requires i <= |sc.rs|
  {
    now.Some? ==>
      && Scanned(now.value.rs, i, PosAt(sc.rs, i), now.value.pool) && SameButLocs(sc.rs, now.value.rs)
      && (!allow && NoSpilled(sc.rs) ==> NoSpilled(now.value.rs))
  }

  lemma SamePos(rs: seq<LiveRange>, rs': seq<LiveRange>, i: nat)
    requires SameButLocs(rs, rs') && i < |rs|
    ensures |rs'| == |rs| && PosAt(rs', i) == PosAt(rs, i) && rs'[i].span == rs[i].span
  {
  }

  lemma {:induction false} ScanKeeps(sc: Scene, allow: bool, i: nat)
    requires i <= |sc.rs| && Scanned(sc.rs, 0, BEFORE_BBL - 1, sc.pool)
    ensures SceneKeeps(sc, allow, i, SceneAt(sc, allow, i))
  {
    hide Scanned, SameButLocs, NoSpilled, Step;
    if i == 0 {
      NothingChanged(sc.rs);
    } else {
      ScanKeeps(sc, allow, i - 1);
      var now := SceneAt(sc, allow, i - 1);
      if now.Some? {
        SamePos(sc.rs, now.value.rs, i - 1);
        StepKeeps(now.value, allow, i - 1);
        if Step(now.value, allow, i - 1).Some? { ChangedTwice(sc.rs, now.value.rs, Step(now.value, allow, i - 1).value.rs); }
      }
    }
  }

  /** How a scan from sc ends. */
  ghost predicate EndsAs(sc: Scene, allow: bool, ok: bool, rs: seq<LiveRange>) {
    var end := SceneAt(sc, allow, |sc.rs|);
    if ok then end.Some? && end.value.rs == rs else end == None
  }

  lemma AskNone(sc: Scene, kind: Kind, pos: int)
    ensures Ask(sc, kind, pos).got == None ==> Ask(sc, kind, pos).scene == sc
    ensures Ask(sc, kind, pos).got.Some? ==> RegOk(Ask(sc, kind, pos).got.value, kind)
  {
    hide PoolState.Candidate;
  }

  lemma ClaimedReg(sc: Scene, kind: Kind, pos: int, spilledDef: int, i: int)
    requires i < |sc.rs|
    ensures var c := Claim(sc, kind, pos, spilledDef, i); c.got.Some? ==> RegOk(c.got.value, kind)
  {
    hide Ask, Unassign, Spillable;
    AskNone(sc, kind, pos);
    var k := Pick(sc.rs, i, spilledDef, kind);
    if k >= 0 { AskNone(Unassign(sc, k), kind, pos); }
  }

  lemma ScannedParts(rs: seq<LiveRange>, n: nat, t: int, st: PoolState)
    requires Scanned(rs, n, t, st)
    ensures WfRanges(rs) && Placed(rs, n) && n <= |rs|
    ensures n == |rs| ==> Allocated(rs)
  {
    hide WfRanges, Placed, Free, Apart, Clear, Reserves, PoolState.Valid;
  }

  lemma ServedNow(sc: Scene, allow: bool, i: nat, x: nat, now: Scene, temps: seq<CpuReg>)
    requires i < |sc.rs| && x <= |sc.rs[i].uses| && Scanned(sc.rs, i, sc.rs[i].span.defPos - 1, sc.pool)
    requires Serve(sc, allow, i, x) == Serving(now, temps)
    ensures var p := sc.rs[i].span.defPos;
      && Scanned(now.rs, i, p - 1, now.pool) && TempsFree(now.rs, i, p - 1, temps)
      && |now.rs| == |sc.rs| && now.rs[i].span == sc.rs[i].span && now.rs[i].uses == sc.rs[i].uses && WfRanges(now.rs) && Placed(now.rs, i)
  {
    ServeKeeps(sc, allow, i, x);
    hide Scanned, TempsFree, SameButLocs, Serve, WfRanges, Placed;
    SameKindAndSpan(sc.rs, now.rs, i);
    ScannedParts(now.rs, i, sc.rs[i].span.defPos - 1, now.pool);
  }

  lemma NoTempsFree(rs: seq<LiveRange>, n: nat, t: int)
    ensures TempsFree(rs, n, t, [])
  {
  }

  lemma TempsOk(rs: seq<LiveRange>, n: nat, t: int, temps: seq<CpuReg>)
    requires TempsFree(rs, n, t, temps)
    ensures forall x :: 0 <= x < |temps| ==> temps[x].no < NumRegs(temps[x].kind)
  {
  }

  lemma {:induction false} ServeStays(sc: Scene, allow: bool, i: nat, x: nat, y: nat)
    requires i < |sc.rs| && x <= y <= |sc.rs[i].uses| && Serve(sc, allow, i, x) == Failed
    ensures Serve(sc, allow, i, y) == Failed
  {
    if x < y { ServeStays(sc, allow, i, x, y - 1); }
  }

  lemma {:induction false} ScanStays(sc: Scene, allow: bool, i: nat, j: nat)
    requires i <= j <= |sc.rs| && SceneAt(sc, allow, i) == None
    ensures SceneAt(sc, allow, j) == None
  {
    if i < j { ScanStays(sc, allow, i, j - 1); }
  }

  lemma NothingSpilledYet(rs: seq<LiveRange>, st: PoolState)
    requires Scanned(rs, 0, BEFORE_BBL - 1, st)
    ensures NoSpilled(rs)
  {
    hide WfRanges, Free, Apart, Clear, Reserves, PoolState.Valid;
  }

  /** From where on the pool is asked when range i is next. */
  function QueryAt(rs: seq<LiveRange>, i: nat): int
    requires i <= |rs|
  {
    if i == 0 then BEFORE_BBL else rs[i - 1].span.defPos
  }

  lemma SceneStarts(sc: Scene, allow: bool)
    ensures SceneAt(sc, allow, 0) == Some(sc) && QueryAt(sc.rs, 0) == BEFORE_BBL
  {
  }

  /** Range i is next. */
  lemma ReadyFor(sc: Scene, allow: bool, i: nat, now: Scene)
    requires i < |sc.rs| && Scanned(sc.rs, 0, BEFORE_BBL - 1, sc.pool) && SceneAt(sc, allow, i) == Some(now)
    ensures |now.rs| == |sc.rs| && SceneAt(sc, allow, i + 1) == Step(now, allow, i)
    ensures var p := now.rs[i].span.defPos;
      && p == sc.rs[i].span.defPos == QueryAt(sc.rs, i + 1) && QueryAt(sc.rs, i) <= p
      && Scanned(now.rs, i, p, now.pool) && (now.rs[i].uses != [] ==> Scanned(now.rs, i, p - 1, now.pool))
  {
    ScanKeeps(sc, allow, i);
    hide Scanned, SameButLocs, WfRanges, Placed, Step, NoSpilled;
    ScannedParts(now.rs, i, PosAt(sc.rs, i), now.pool);
    SamePos(sc.rs, now.rs, i);
    PosGrows(now.rs, i);
    StartsInside(now.rs, i);
    LaterIsWeaker(now.rs, i, PosAt(sc.rs, i), now.rs[i].span.defPos, now.pool);
    if now.rs[i].uses != [] { LaterIsWeaker(now.rs, i, PosAt(sc.rs, i), now.rs[i].span.defPos - 1, now.pool); }
  }

  lemma StartsInside(rs: seq<LiveRange>, i: nat)
    requires WfRanges(rs) && i < |rs|
    ensures BEFORE_BBL <= rs[i].span.defPos
  {
    assert WfRange(rs, i);
  }

  lemma SameCount(rs: seq<LiveRange>, rs': seq<LiveRange>)
    requires SameButLocs(rs, rs')
    ensures |rs'| == |rs|
  {
  }

  lemma ScanEnds(sc: Scene, allow: bool, now: Scene)
    requires Scanned(sc.rs, 0, BEFORE_BBL - 1, sc.pool) && NoSpilled(sc.rs) && SceneAt(sc, allow, |sc.rs|) == Some(now) && |now.rs| == |sc.rs|
    ensures Allocated(now.rs) && (!allow ==> NoSpilled(now.rs))
  {
    ScanKeeps(sc, allow, |sc.rs|);
    hide Scanned, SameButLocs, NoSpilled, Allocated;
    ScannedParts(now.rs, |now.rs|, PosAt(sc.rs, |sc.rs|), now.pool);
  }

  // ---------------------------------------------------------------- the allocator

  /** The allocator at work. `ranges` are the live ranges in sorted order. */
  class Scan {
    var ranges: seq<LiveRange>
    const pool: RegPoolArm

    constructor (ranges: seq<LiveRange>, pool: RegPoolArm)
      ensures this.ranges == ranges && this.pool == pool
    {
      this.ranges, this.pool := ranges, pool;
    }

    /** The pool answers requests from position pos on. */
    ghost predicate At(pos: int)
      reads this, pool.Repr()
    {
      this !in pool.Repr() && pool.Valid(pos)
    }

    ghost function Now(): Scene
      requires pool.Sized()
      reads this, pool.Repr()
    {
      Scene(ranges, pool.State())
    }

    lemma Later(pos: int, pos': int)
      requires At(pos) && pos <= pos'
      ensures At(pos')
    {
    }

    method GiveBack(reg: CpuReg, ghost pos: int)
      requires At(pos) && reg.no < NumRegs(reg.kind)
      modifies pool
      ensures At(pos) && Now() == old(Now()).(pool := old(Now()).pool.Give(reg))
    {
      hide RegPoolArm.State, PoolState.Give;
      pool.GiveBackAvailableReg(reg);
    }

    /** A scratch register for a moment at pos. */
    method GetTemp(kind: Kind, pos: int) returns (got: Option<CpuReg>)
      requires At(pos)
      modifies pool.Repr()
      ensures At(pos) && Claimed(got, Now()) == Ask(old(Now()), kind, pos)
    {
      ghost var st := pool.State();
      hide RegPoolArm.State, RegPoolArm.Valid, RegPoolArm.Lists, PoolState.Candidate, PoolState.Take, PoolState.IsAnswer, Answer;
      var reg := pool.GetAvailableReg(kind, false, WhileAt(pos));
      AnswerIs(st, kind, false, WhileAt(pos), pool.allowSpilling, reg);
      got := if reg.GotReg? then Some(reg.reg) else None;
    }

    /** Takes the register away from the nearest range, from i down, that ends after pos. */
    method SpillEarlierLiveRange(kind: Kind, pos: int, i: int, ghost n: nat, ghost p: int) returns (ok: bool)
      requires At(p) && Placed(ranges, n) && -1 <= i < n <= |ranges|
      modifies this`ranges, pool
      ensures At(p) && (ok <==> Pick(old(ranges), i, pos, kind) >= 0)
      ensures Now() == if ok then Unassign(old(Now()), Pick(old(ranges), i, pos, kind)) else old(Now())
    {
      PickedHasRegister(ranges, n, i, pos, kind);
      hide Spillable, RegPoolArm.State, RegPoolArm.Valid, RegPoolArm.Lists, PoolState.Give, Placed;
      var k := i;
      while k >= 0
        invariant -1 <= k <= i && Pick(ranges, i, pos, kind) == Pick(ranges, k, pos, kind)
      {
        var lr := ranges[k];
        if Spillable(lr, pos, kind) {
          ranges := WithLoc(ranges, k, Spilled);
          GiveBack(lr.loc.cpu, p);
          return true;
        }
        k := k - 1;
      }
      return false;
    }

    /** Makes room for a scratch register if there is none. */
    method NeedTemp(kind: Kind, pos: int, spilledDef: int, i: int, ghost n: nat) returns (got: Option<CpuReg>)
      requires At(pos) && Placed(ranges, n) && -1 <= i < n <= |ranges|
      modifies this`ranges, pool.Repr()
      ensures At(pos) && Claimed(got, Now()) == Claim(old(Now()), kind, pos, spilledDef, i)
    {
      ghost var sc := Now();
      hide Placed, Ask, Unassign, RegPoolArm.State, RegPoolArm.Valid, RegPoolArm.Lists;
      got := GetTemp(kind, pos);
      AskNone(sc, kind, pos);
      if got == None {
        var ok := SpillEarlierLiveRange(kind, spilledDef, i, n, pos);
        if ok { got := GetTemp(kind, pos); }
      }
    }

    /** The registers of the ranges read for the last time here go back. */
    method HandleUseLiveRange(i: nat)
      requires i < |ranges| && At(ranges[i].span.defPos) && WfRanges(ranges) && Placed(ranges, i)
      modifies pool
      ensures At(ranges[i].span.defPos) && Now() == EndUses(old(Now()), ranges[i].span.defPos, ranges[i].uses, |ranges[i].uses|)
    {
      var p, uses := ranges[i].span.defPos, ranges[i].uses;
      hide RegPoolArm.State, RegPoolArm.Valid, RegPoolArm.Lists, PoolState.Give, WfRanges, Placed;
      for x := 0 to |uses|
        invariant At(p) && Now() == EndUses(old(Now()), p, uses, x)
      {
        var u := uses[x];
        if EndsHere(ranges, u, p) {
          EndingHasRegister(ranges, i, u, p);
          GiveBack(ranges[u].loc.cpu, p);
        }
      }
    }

    method SetLoc(k: nat, loc: Loc, ghost pos: int)
      requires k < |ranges| && At(pos)
      modifies this`ranges
      ensures At(pos) && Now() == old(Now()).(rs := WithLoc(old(ranges), k, loc)) && ranges == Now().rs
    {
      ranges := WithLoc(ranges, k, loc);
    }

    /** The pool's answer for range i. */
    method AskFor(i: nat) returns (got: Got)
      requires i < |ranges| && At(ranges[i].span.defPos)
      modifies pool.Repr()
      ensures At(ranges[i].span.defPos) && ranges == old(ranges)
      ensures var lr := ranges[i]; old(Now()).pool.IsAnswer(lr.kind, lr.lac, lr.span, pool.allowSpilling, got)
      ensures Now() == old(Now()).(pool := old(Now()).pool.After(got, ranges[i].lac))
    {
      hide PoolState.IsAnswer, PoolState.After, RegPoolArm.State, RegPoolArm.Valid;
      got := pool.GetAvailableReg(ranges[i].kind, ranges[i].lac, ranges[i].span);
    }

    /** The next range gets a register, or is spilled; one that is never read gives it back at once. */
    method HandleDefLiveRange(i: nat) returns (ok: bool)
      requires i < |ranges| && At(ranges[i].span.defPos)
      modifies this`ranges, pool.Repr()
      ensures At(old(ranges)[i].span.defPos) && (!ok ==> ranges == old(ranges))
      ensures AssignStep(old(Now()), pool.allowSpilling, i) == if ok then Some(Now()) else None
    {
      var lr := ranges[i];
      ghost var sc := Now();
      hide PoolState.IsAnswer, PoolState.After, PoolState.Give, RegPoolArm.State, RegPoolArm.Valid, AssignStep;
      var got := AskFor(i);
      AssignStepIs(sc, pool.allowSpilling, i, got);
      match got {
        case GotNone => ok := false;
        case GotSpill =>
          SetLoc(i, Spilled, lr.span.defPos);
          ok := true;
        case GotReg(reg) =>
          SetLoc(i, InReg(reg), lr.span.defPos);
          if lr.span.lastUse == NO_USE { GiveBack(reg, lr.span.defPos); }
          ok := true;
      }
    }

    /** As above; a spilled range needs a scratch register right here. */
    method HandleDefLiveRangeFancy(i: nat) returns (ok: bool)
      requires i < |ranges| && Allocates(ranges[i]) && At(ranges[i].span.defPos)
      requires Scanned(ranges, i, ranges[i].span.defPos, pool.State())
      modifies this`ranges, pool.Repr()
      ensures At(old(ranges)[i].span.defPos) && SameButLocs(old(ranges), ranges)
      ensures DefStep(old(Now()), pool.allowSpilling, i) == if ok then Some(Now()) else None
    {
      var lr, p := ranges[i], ranges[i].span.defPos;
      ghost var sc := Now();
      DefStepIs(sc, pool.allowSpilling, i);
      NothingChanged(ranges);
      hide Scanned, Placed, AssignStep, DefStep, Claim, SameButLocs, RegPoolArm.State, RegPoolArm.Valid, PoolState.Give, Allocates;
      ok := HandleDefLiveRange(i);
      if ok && ranges[i].loc == Spilled {
        ghost var now := Now();
        var tmp := NeedTemp(lr.kind, p, p, i - 1, i + 1);
        ChangedTwice(sc.rs, now.rs, ranges);
        match tmp {
          case None => ok := false;
          case Some(reg) => GiveBack(reg, p);
        }
      }
    }

    /** Range u is read by record i; if it was spilled it needs a scratch register. */
    method ScratchFor(i: nat, u: nat, temps0: seq<CpuReg>) returns (ok: bool, temps: seq<CpuReg>)
      requires i < |ranges| && At(ranges[i].span.defPos) && WfRanges(ranges) && u in ranges[i].uses
      requires Scanned(ranges, i, ranges[i].span.defPos - 1, pool.State()) && TempsFree(ranges, i, ranges[i].span.defPos - 1, temps0)
      modifies this`ranges, pool.Repr()
      ensures At(old(ranges)[i].span.defPos) && SameButLocs(old(ranges), ranges)
      ensures ServeOne(old(Now()), temps0, pool.allowSpilling, i, old(ranges)[i].span.defPos, u) == if ok then Serving(Now(), temps) else Failed
    {
      var p := ranges[i].span.defPos;
      ghost var sc := Now();
      NothingChanged(ranges);
      UseMayPick(ranges, i, u);
      ScannedParts(ranges, i, p - 1, pool.State());
      hide Scanned, TempFree, TempsFree, SameButLocs, Claim, RegPoolArm.State, RegPoolArm.Valid, RegPoolArm.Lists, WfRanges, Placed, MayPick;
      ok, temps := true, temps0;
      if NeedsScratch(ranges, u) {
        if !pool.allowSpilling { return false, []; }
        ClaimKeeps(sc, ranges[u].kind, p, ranges[u].span.defPos, i - 1, i, p - 1, temps0);
        var tmp := NeedTemp(ranges[u].kind, p, ranges[u].span.defPos, i - 1, i);
        if tmp == None { return false, []; }
        temps := temps0 + [tmp.value];
      }
    }

    /** Every spilled range read here needs a scratch register, all at the same time. */
    method ServeReads(i: nat) returns (ok: bool, temps: seq<CpuReg>)
      requires i < |ranges| && At(ranges[i].span.defPos) && Scanned(ranges, i, ranges[i].span.defPos - 1, pool.State())
      modifies this`ranges, pool.Repr()
      ensures At(old(ranges)[i].span.defPos) && SameButLocs(old(ranges), ranges)
      ensures Serve(old(Now()), pool.allowSpilling, i, |old(ranges)[i].uses|) == if ok then Serving(Now(), temps) else Failed
    {
      var p, uses := ranges[i].span.defPos, ranges[i].uses;
      ghost var sc, allow := Now(), pool.allowSpilling;
      temps := [];
      NothingChanged(ranges);
      hide Scanned, TempFree, TempsFree, SameButLocs, Serve, ServeOne, ServingKeeps, RegPoolArm.State, RegPoolArm.Valid, WfRanges, Placed;
      ServeStarts(sc, allow, i);
      for x := 0 to |uses|
        invariant At(p) && Serve(sc, allow, i, x) == Serving(Now(), temps) && SameButLocs(sc.rs, ranges)
      {
        ServedNow(sc, allow, i, x, Now(), temps);
        ServeNext(sc, allow, i, x, Now(), temps);
        ghost var now := Now();
        ok, temps := ScratchFor(i, uses[x], temps);
        ChangedTwice(sc.rs, now.rs, ranges);
        if !ok {
          ServeStays(sc, allow, i, x + 1, |uses|);
          return;
        }
      }
      ok := true;
    }

    /** What is read here for the last time goes back, and so do the scratch registers. */
    method HandleUseLiveRangeFancy(i: nat) returns (ok: bool)
      requires i < |ranges| && At(ranges[i].span.defPos) && ranges[i].uses != []
      requires Scanned(ranges, i, ranges[i].span.defPos - 1, pool.State())
      modifies this`ranges, pool.Repr()
      ensures At(old(ranges)[i].span.defPos) && SameButLocs(old(ranges), ranges)
      ensures UseStep(old(Now()), pool.allowSpilling, i) == if ok then Some(Now()) else None
    {
      var p, uses := ranges[i].span.defPos, ranges[i].uses;
      ghost var sc, allow := Now(), pool.allowSpilling;
      hide Scanned, TempFree, TempsFree, SameButLocs, Serve, UseStep, RegPoolArm.State, RegPoolArm.Valid, WfRanges, Placed;
      var temps;
      ok, temps := ServeReads(i);
      UseStepIs(sc, allow, i, if ok then Serving(Now(), temps) else Failed);
      if ok {
        ServedNow(sc, allow, i, |uses|, Now(), temps);
        TempsOk(ranges, i, p - 1, temps);
        HandleUseLiveRange(i);
        GiveAll(temps, p);
      }
    }

    method GiveAll(temps: seq<CpuReg>, ghost p: int)
      requires At(p) && forall x :: 0 <= x < |temps| ==> temps[x].no < NumRegs(temps[x].kind)
      modifies pool
      ensures At(p) && Now() == GiveTemps(old(Now()), temps, |temps|)
    {
      ghost var sc := Now();
      hide RegPoolArm.State, RegPoolArm.Valid, PoolState.Give;
      for x := 0 to |temps|
        invariant At(p) && pool.Sized() && Now() == GiveTemps(sc, temps, x)
      {
        GiveBack(temps[x], p);
      }
    }

    /** The next range or record. */
    method HandleRange(i: nat) returns (ok: bool)
      requires i < |ranges| && At(ranges[i].span.defPos) && Scanned(ranges, i, ranges[i].span.defPos, pool.State())
      requires ranges[i].uses != [] ==> Scanned(ranges, i, ranges[i].span.defPos - 1, pool.State())
      modifies this`ranges, pool.Repr()
      ensures At(old(ranges)[i].span.defPos) && SameButLocs(old(ranges), ranges)
      ensures Step(old(Now()), pool.allowSpilling, i) == if ok then Some(Now()) else None
    {
      var lr := ranges[i];
      NothingChanged(ranges);
      hide Scanned, SameButLocs, UseStep, DefStep, RegPoolArm.State, RegPoolArm.Valid, RegPoolArm.Lists;
      ok := true;
      if lr.uses != [] {
        ok := HandleUseLiveRangeFancy(i);
      } else if !(lr.preAlloc || lr.ignore) {
        ok := HandleDefLiveRangeFancy(i);
      }
    }

    /** One turn of the scan that began with sc. */
    method NextRange(i: nat, ghost sc: Scene) returns (ok: bool)
      requires i < |sc.rs| == |ranges| && At(QueryAt(sc.rs, i)) && Scanned(sc.rs, 0, BEFORE_BBL - 1, sc.pool)
      requires SceneAt(sc, pool.allowSpilling, i) == Some(Now()) && SameButLocs(sc.rs, ranges)
      modifies this`ranges, pool.Repr()
      ensures |ranges| == |sc.rs| && pool.Sized() && SameButLocs(sc.rs, ranges)
      ensures ok ==> At(QueryAt(sc.rs, i + 1)) && SceneAt(sc, pool.allowSpilling, i + 1) == Some(Now())
      ensures !ok ==> SceneAt(sc, pool.allowSpilling, |sc.rs|) == None
    {
      ghost var now, allow := Now(), pool.allowSpilling;
      ReadyFor(sc, allow, i, now);
      Later(QueryAt(sc.rs, i), ranges[i].span.defPos);
      hide Scanned, SameButLocs, Step, SceneAt, QueryAt, RegPoolArm.State, RegPoolArm.Valid;
      ok := HandleRange(i);
      ChangedTwice(sc.rs, now.rs, ranges);
      SameCount(sc.rs, ranges);
      if !ok { ScanStays(sc, allow, i + 1, |sc.rs|); }
    }

    /** One turn after the other. */
    method HandleAll() returns (ok: bool)
      requires At(BEFORE_BBL) && Scanned(ranges, 0, BEFORE_BBL - 1, pool.State())
      modifies this`ranges, pool.Repr()
      ensures pool.Sized() && SameButLocs(old(ranges), ranges)
      ensures SceneAt(old(Now()), pool.allowSpilling, |old(ranges)|) == if ok then Some(Now()) else None
    {
      ghost var sc := Now();
      NothingChanged(ranges);
      SceneStarts(sc, pool.allowSpilling);
      hide Scanned, SameButLocs, SceneAt, QueryAt, RegPoolArm.State, RegPoolArm.Valid;
      var i := 0;
      while i < |ranges|
        invariant i <= |ranges| == |sc.rs| && pool.Sized() && SameButLocs(sc.rs, ranges) && At(QueryAt(sc.rs, i))
        invariant SceneAt(sc, pool.allowSpilling, i) == Some(Now())
      {
        ok := NextRange(i, sc);
        if !ok { return; }
        i := i + 1;
      }
      ok := true;
    }

    /** The whole scan. If it succeeds, everything has its place; without permission to spill nothing
        is spilled. */
    method RegisterAssignerLinearScanFancy() returns (ok: bool)
      requires At(BEFORE_BBL) && Scanned(ranges, 0, BEFORE_BBL - 1, pool.State())
      modifies this`ranges, pool.Repr()
      ensures SceneAt(old(Now()), pool.allowSpilling, |old(ranges)|) == if ok then Some(Now()) else None
      ensures SameButLocs(old(ranges), ranges)
      ensures ok ==> Allocated(ranges)
      ensures ok && !pool.allowSpilling ==> NoSpilled(ranges)
    {
      ghost var sc, allow := Now(), pool.allowSpilling;
      NothingSpilledYet(ranges, pool.State());
      hide Scanned, SameButLocs, NoSpilled, Allocated, SceneAt, RegPoolArm.State, RegPoolArm.Valid;
      ok := HandleAll();
      SameCount(sc.rs, ranges);
      if ok { ScanEnds(sc, allow, Now()); }
    }
  }
}
