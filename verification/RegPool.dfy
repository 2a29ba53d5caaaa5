/** The machine register pool of the A32 back end: single and double precision registers that
    overlap, registers that survive calls and registers that do not, and the stretches for which a
    register is spoken for. */
module RegPool {
  // ---------------------------------------------------------------- registers

  datatype Kind = Gpr | Flt | Dbl

  datatype CpuReg = CpuReg(kind: Kind, no: nat)

  /** One bit of an allocation mask; floating-point bits are single precision registers. */
  datatype Bit = GprBit(no: nat) | FltBit(no: nat)

  function NumRegs(kind: Kind): nat {
    match kind
    case Gpr => 16
    case Flt => 32
    case Dbl => 16
  }

  /** Doubles occupy two adjacent singles, as the hardware has it. */
  function AllocMask(reg: CpuReg): set<Bit> {
    match reg.kind
    case Gpr => {GprBit(reg.no)}
    case Flt => {FltBit(reg.no)}
    case Dbl => {FltBit(2 * reg.no), FltBit(2 * reg.no + 1)}
  }

  /** r6..r11 and s16..s31. */
  predicate CalleeSaved(b: Bit) {
    match b
    case GprBit(n) => 6 <= n < 12
    case FltBit(n) => 16 <= n
  }

  predicate IsGpr(b: Bit) { b.GprBit? }

  predicate SurvivesCalls(reg: CpuReg) {
    match reg.kind
    case Gpr => CalleeSaved(GprBit(reg.no))
    case Flt => CalleeSaved(FltBit(reg.no))
    case Dbl => CalleeSaved(FltBit(2 * reg.no))
  }

  lemma MaskInClass(reg: CpuReg, b: Bit)
    requires b in AllocMask(reg)
    ensures CalleeSaved(b) <==> SurvivesCalls(reg)
    ensures IsGpr(b) <==> reg.kind.Gpr?
  {
  }

  /** Masks overlap exactly when the architecture lets the registers overlap. */
  lemma MasksOverlapIff(a: CpuReg, b: CpuReg)
    ensures AllocMask(a) * AllocMask(b) != {} <==>
      match (a.kind, b.kind)
      case (Gpr, Gpr) => a.no == b.no
      case (Flt, Flt) => a.no == b.no
      case (Dbl, Dbl) => a.no == b.no
      case (Flt, Dbl) => a.no / 2 == b.no
      case (Dbl, Flt) => a.no == b.no / 2
      case _ => false
  {
    var both := AllocMask(a) * AllocMask(b);
    if a == b {
      assert (if a.kind.Gpr? then GprBit(a.no) else if a.kind.Flt? then FltBit(a.no) else FltBit(2 * a.no)) in both;
    } else if a.kind.Flt? && b.kind.Dbl? && a.no / 2 == b.no {
      assert FltBit(a.no) in both;
    } else if a.kind.Dbl? && b.kind.Flt? && a.no == b.no / 2 {
      assert FltBit(b.no) in both;
    }
  }

  // ---------------------------------------------------------------- reserved stretches

  const BEFORE_BBL: int := -32000
  const AFTER_BBL: int := 32000
  const NO_USE: int := 32001

  datatype Span = Span(defPos: int, lastUse: int)

  predicate Before(a: Span, b: Span) {
    a.defPos < b.defPos || (a.defPos == b.defPos && a.lastUse < b.lastUse)
  }

  /** A range may end where another starts. */
  predicate Overlaps(a: Span, b: Span) {
    a.lastUse > b.defPos && a.defPos < b.lastUse
  }

  /** That is, there is a place after which both are live. */
  lemma OverlapsIff(a: Span, b: Span)
    requires a.defPos < a.lastUse && b.defPos < b.lastUse
    ensures Overlaps(a, b) <==> exists t: int :: Inside(a, t) && Inside(b, t)
  {
    if Overlaps(a, b) {
      var t := if a.defPos < b.defPos then b.defPos else a.defPos;
      assert Inside(a, t) && Inside(b, t);
    }
  }

  predicate Inside(a: Span, t: int) { a.defPos <= t < a.lastUse }

  predicate Conflict(ranges: seq<Span>, lr: Span) {
    exists k :: 0 <= k < |ranges| && Overlaps(ranges[k], lr)
  }

  /** The stretches during which one register is spoken for. */
  class PreAllocation {
    var ranges: seq<Span>
    var current: nat

    constructor ()
      ensures ranges == [] && current == 0
    {
      ranges, current := [], 0;
    }

    /** Fit for queries that start at `pos` or later. */
    ghost predicate Ready(pos: int)
      reads this
    {
      && (forall j, k :: 0 <= j < k < |ranges| ==> Before(ranges[j], ranges[k]))
      && current <= |ranges|
      && (forall k :: 0 <= k < current ==> ranges[k].lastUse <= pos)
    }

    method Add(lr: Span)
      requires current == 0 && Ready(BEFORE_BBL)
      requires ranges != [] ==> Before(ranges[|ranges| - 1], lr)
      modifies this`ranges
      ensures ranges == old(ranges) + [lr] && Ready(BEFORE_BBL)
    {
      ranges := ranges + [lr];
    }

    /** The cursor never goes back, and still every stretch is taken into account. */
    method HasConflict(lr: Span) returns (conflict: bool)
      requires Ready(lr.defPos)
      modifies this`current
      ensures Ready(lr.defPos)
      ensures conflict <==> Conflict(ranges, lr)
    {
      while current < |ranges|
        invariant Ready(lr.defPos)
        decreases |ranges| - current
      {
        var top := ranges[current];
        if top.lastUse <= lr.defPos {
          current := current + 1;
        } else {
          if !(top.defPos < lr.lastUse) {
            forall k | 0 <= k < |ranges| ensures !Overlaps(ranges[k], lr) {
              if k > current { assert Before(ranges[current], ranges[k]); }
            }
          }
          return top.defPos < lr.lastUse;
        }
      }
      return false;
    }
  }

  // ---------------------------------------------------------------- the pool

  datatype Got = GotReg(reg: CpuReg) | GotSpill | GotNone

  predicate InRange(b: Bit) {
    match b
    case GprBit(n) => n < 16
    case FltBit(n) => n < 32
  }

  const ALL_BITS: set<Bit> := (set n: nat | n < 16 :: GprBit(n)) + (set n: nat | n < 32 :: FltBit(n))

  lemma AllBitsInRange()
    ensures forall b :: b in ALL_BITS <==> InRange(b)
  {
  }

  /** What a pool holds: the available bits of either class and, per bit, the reserved stretches. */
  datatype PoolState = PoolState(lac: set<Bit>, notLac: set<Bit>, reserved: map<Bit, seq<Span>>) {
    function Available(): set<Bit> { lac + notLac }

    predicate Valid() {
      && (forall b :: b in lac ==> CalleeSaved(b) && InRange(b))
      && (forall b :: b in notLac ==> !CalleeSaved(b) && InRange(b))
      && reserved.Keys == ALL_BITS
    }

    predicate NoConflict(reg: CpuReg, lr: Span) {
      forall b :: b in AllocMask(reg) && b in reserved ==> !Conflict(reserved[b], lr)
    }

    /** The register may be handed out for lr. */
    predicate Candidate(reg: CpuReg, lac: bool, lr: Span) {
      AllocMask(reg) <= (if lac then this.lac else notLac) && NoConflict(reg, lr)
    }

    /** Stretches of one bit come in ascending order. */
    predicate MayReserve(b: Bit, lr: Span) {
      b in reserved ==> reserved[b] == [] || Before(reserved[b][|reserved[b]| - 1], lr)
    }

    /** Bit b is spoken for during lr. */
    function Reserve(b: Bit, lr: Span): PoolState
      requires b in reserved
    {
      this.(reserved := reserved[b := reserved[b] + [lr]])
    }

    function ReserveReg(reg: CpuReg, lr: Span): PoolState
      requires reserved.Keys == ALL_BITS && reg.no < NumRegs(reg.kind)
    {
      AllBitsInRange();
      match reg.kind
      case Gpr => Reserve(GprBit(reg.no), lr)
      case Flt => Reserve(FltBit(reg.no), lr)
      case Dbl => Reserve(FltBit(2 * reg.no), lr).Reserve(FltBit(2 * reg.no + 1), lr)
    }

    function Take(reg: CpuReg, lac: bool): PoolState {
      if lac then this.(lac := this.lac - AllocMask(reg)) else this.(notLac := notLac - AllocMask(reg))
    }

    /** The answer to a request: the lowest numbered candidate of the kind, or none if there is none. */
    predicate IsAnswer(kind: Kind, lac: bool, lr: Span, allowSpilling: bool, got: Got) {
      match got
      case GotReg(reg) =>
        && reg.kind == kind && reg.no < NumRegs(kind) && Candidate(reg, lac, lr)
        && forall n: nat :: n < reg.no ==> !Candidate(CpuReg(kind, n), lac, lr)
      case _ =>
        && got == (if allowSpilling then GotSpill else GotNone)
        && forall n: nat :: n < NumRegs(kind) ==> !Candidate(CpuReg(kind, n), lac, lr)
    }

    lemma AnswerReg(reg: CpuReg, lac: bool, lr: Span, allowSpilling: bool)
      requires reg.no < NumRegs(reg.kind) && Candidate(reg, lac, lr)
      requires forall n: nat :: n < reg.no ==> !Candidate(CpuReg(reg.kind, n), lac, lr)
      ensures IsAnswer(reg.kind, lac, lr, allowSpilling, GotReg(reg))
    {
      hide Candidate;
    }

    function After(got: Got, lac: bool): PoolState {
      if got.GotReg? then Take(got.reg, lac) else this
    }

    /** A register goes back to the class it belongs to, available or not. */
    function Give(reg: CpuReg): PoolState {
      if SurvivesCalls(reg) then this.(lac := lac + AllocMask(reg)) else this.(notLac := notLac + AllocMask(reg))
    }
  }

  class RegPoolArm {
    const allowSpilling: bool
    var gprLac: set<Bit>
    var gprNotLac: set<Bit>
    var fltLac: set<Bit>
    var fltNotLac: set<Bit>
    const gprReserved: seq<PreAllocation>
    const fltReserved: seq<PreAllocation>

    constructor (allowSpilling: bool, gprLac: set<Bit>, gprNotLac: set<Bit>, fltLac: set<Bit>, fltNotLac: set<Bit>)
      requires PoolMasks(gprLac, gprNotLac, fltLac, fltNotLac)
      ensures Valid(BEFORE_BBL) && Separate() && Unqueried() && fresh(Repr())
      ensures this.allowSpilling == allowSpilling
      ensures State() == PoolState(gprLac + fltLac, gprNotLac + fltNotLac, map b | b in ALL_BITS :: [])
    {
      this.allowSpilling := allowSpilling;
      this.gprLac, this.gprNotLac, this.fltLac, this.fltNotLac := gprLac, gprNotLac, fltLac, fltNotLac;
      var gs := NewPreAllocations(16);
      var fs := NewPreAllocations(32);
      gprReserved, fltReserved := gs, fs;
      new;
      assert forall b :: InRange(b) ==> ReservedFor(b).ranges == [] && ReservedFor(b).current == 0;
      NothingReserved();
      hide InRange, Reserved;
    }

    lemma NothingReserved()
      requires Sized() && forall b :: InRange(b) ==> ReservedFor(b).ranges == []
      ensures Reserved() == map b | b in ALL_BITS :: []
    {
      AllBitsInRange();
    }

    static method NewPreAllocations(n: nat) returns (ps: seq<PreAllocation>)
      ensures |ps| == n && forall j :: 0 <= j < n ==> fresh(ps[j]) && ps[j].ranges == [] && ps[j].current == 0
      ensures forall j, k :: 0 <= j < k < n ==> ps[j] != ps[k]
    {
      ps := [];
      while |ps| < n
        invariant |ps| <= n && forall j :: 0 <= j < |ps| ==> fresh(ps[j]) && ps[j].ranges == [] && ps[j].current == 0
        invariant forall j, k :: 0 <= j < k < |ps| ==> ps[j] != ps[k]
        decreases n - |ps|
      {
        var p := new PreAllocation();
        ps := ps + [p];
      }
    }

    predicate Sized() { |gprReserved| == 16 && |fltReserved| == 32 }

    function ReservedFor(b: Bit): PreAllocation
      requires Sized() && InRange(b)
    {
      match b
      case GprBit(n) => gprReserved[n]
      case FltBit(n) => fltReserved[n]
    }

    ghost function Lists(): set<object> {
      (set p: object | p in gprReserved) + (set p: object | p in fltReserved)
    }

    ghost function Repr(): set<object> { {this} + Lists() }

    /** Every bit has a list of its own. */
    ghost predicate Separate()
      requires Sized()
    {
      forall b, c :: InRange(b) && InRange(c) && b != c ==> ReservedFor(b) != ReservedFor(c)
    }

    ghost predicate Unqueried()
      requires Sized()
      reads Lists()
    {
      forall b :: InRange(b) ==> ReservedFor(b).current == 0
    }

    ghost function Reserved(): map<Bit, seq<Span>>
      requires Sized()
      reads Lists()
    {
      AllBitsInRange();
      map b | b in ALL_BITS :: ReservedFor(b).ranges
    }

    ghost function State(): PoolState
      requires Sized()
      reads Repr()
    {
      PoolState(gprLac + fltLac, gprNotLac + fltNotLac, Reserved())
    }

    /** Fit for requests from position `pos` on. */
    ghost predicate Valid(pos: int)
      reads Repr()
    {
      && Sized() && PoolMasks(gprLac, gprNotLac, fltLac, fltNotLac)
      && forall b :: InRange(b) ==> ReservedFor(b).Ready(pos)
    }

    function GetAvailable(lac: bool, isGpr: bool): set<Bit>
      reads this
    {
      if isGpr then (if lac then gprLac else gprNotLac) else (if lac then fltLac else fltNotLac)
    }

    method SetAvailable(lac: bool, isGpr: bool, available: set<Bit>)
      modifies this
      ensures gprLac == if isGpr && lac then available else old(gprLac)
      ensures gprNotLac == if isGpr && !lac then available else old(gprNotLac)
      ensures fltLac == if !isGpr && lac then available else old(fltLac)
      ensures fltNotLac == if !isGpr && !lac then available else old(fltNotLac)
    {
      if isGpr {
        if lac { gprLac := available; } else { gprNotLac := available; }
      } else {
        if lac { fltLac := available; } else { fltNotLac := available; }
      }
    }

    lemma ReservedAt(b: Bit)
      requires Sized() && InRange(b)
      ensures b in State().reserved && State().reserved[b] == ReservedFor(b).ranges
    {
      AllBitsInRange();
    }

    method AddForBit(b: Bit, lr: Span)
      requires Valid(BEFORE_BBL) && Separate() && Unqueried() && InRange(b)
      requires State().MayReserve(b, lr)
      modifies Lists()
      ensures Valid(BEFORE_BBL) && Unqueried()
      ensures b in old(State()).reserved && State() == old(State()).Reserve(b, lr)
    {
      ReservedAt(b);
      ReservedFor(b).Add(lr);
      assert Reserved() == old(Reserved())[b := old(Reserved())[b] + [lr]];
    }

    /** A reserved stretch for a machine register; a double reserves both its halves. */
    method AddReservedRange(reg: CpuReg, lr: Span)
      requires Valid(BEFORE_BBL) && Separate() && Unqueried() && reg.no < NumRegs(reg.kind)
      requires forall b :: b in AllocMask(reg) ==> State().MayReserve(b, lr)
      modifies Lists()
      ensures Valid(BEFORE_BBL) && Unqueried()
      ensures State() == old(State()).ReserveReg(reg, lr)
    {
      assert reg.kind.Dbl? ==> State().MayReserve(FltBit(2 * reg.no + 1), lr);
      hide State, Valid, Unqueried, Separate;
      match reg.kind {
        case Gpr => AddForBit(GprBit(reg.no), lr);
        case Flt => AddForBit(FltBit(reg.no), lr);
        case Dbl =>
          AddForBit(FltBit(2 * reg.no), lr);
          AddForBit(FltBit(2 * reg.no + 1), lr);
      }
    }

    method BitHasConflict(b: Bit, lr: Span) returns (conflict: bool)
      requires Valid(lr.defPos) && InRange(b)
      modifies Lists()
      ensures Valid(lr.defPos) && State() == old(State())
      ensures b in State().reserved && (conflict <==> Conflict(State().reserved[b], lr))
    {
      ReservedAt(b);
      hide Conflict;
      conflict := ReservedFor(b).HasConflict(lr);
      assert Reserved() == old(Reserved());
    }

    method HasConflict(reg: CpuReg, lr: Span) returns (conflict: bool)
      requires Valid(lr.defPos) && reg.no < NumRegs(reg.kind)
      modifies Lists()
      ensures Valid(lr.defPos) && State() == old(State())
      ensures conflict <==> !State().NoConflict(reg, lr)
    {
      hide Conflict, Valid, State;
      match reg.kind {
        case Gpr =>
          conflict := BitHasConflict(GprBit(reg.no), lr);
        case Flt =>
          conflict := BitHasConflict(FltBit(reg.no), lr);
        case Dbl =>
          conflict := BitHasConflict(FltBit(2 * reg.no), lr);
          if !conflict { conflict := BitHasConflict(FltBit(2 * reg.no + 1), lr); }
      }
    }

    /** The one class that may hold registers of a kind decides. */
    lemma CandidateIff(reg: CpuReg, lac: bool, lr: Span, pos: int)
      requires Valid(pos)
      ensures State().Candidate(reg, lac, lr) <==> AllocMask(reg) <= GetAvailable(lac, reg.kind.Gpr?) && State().NoConflict(reg, lr)
    {
      hide PoolState.NoConflict;
      forall b | b in AllocMask(reg) ensures IsGpr(b) <==> reg.kind.Gpr? { MaskInClass(reg, b); }
    }

    method TakeReg(reg: CpuReg, lac: bool, ghost pos: int)
      requires Valid(pos)
      modifies this
      ensures Valid(pos) && State() == old(State()).Take(reg, lac)
    {
      TakeFromClass(gprLac, gprNotLac, fltLac, fltNotLac, reg);
      hide Reserved, AllocMask, PoolMasks, PreAllocation.Ready;
      SetAvailable(lac, reg.kind.Gpr?, GetAvailable(lac, reg.kind.Gpr?) - AllocMask(reg));
    }

    /** Hands out the lowest numbered register of the kind that is available and not spoken for
        during lr. */
    method GetAvailableReg(kind: Kind, lac: bool, lr: Span) returns (got: Got)
      requires Valid(lr.defPos)
      modifies Repr()
      ensures Valid(lr.defPos)
      ensures old(State()).IsAnswer(kind, lac, lr, allowSpilling, got)
      ensures State() == old(State()).After(got, lac)
    {
      ghost var st := State();
      hide Valid, State, Conflict, PoolMasks, AllocMask, PoolState.NoConflict, PoolState.Candidate, PoolState.Take, GetAvailable, NumRegs;
      var available := GetAvailable(lac, kind.Gpr?);
      for n := 0 to NumRegs(kind)
        invariant Valid(lr.defPos) && State() == st && available == GetAvailable(lac, kind.Gpr?)
        invariant forall k: nat :: k < n ==> !st.Candidate(CpuReg(kind, k), lac, lr)
      {
        var reg := CpuReg(kind, n);
        CandidateIff(reg, lac, lr, lr.defPos);
        if AllocMask(reg) <= available {
          var conflict := HasConflict(reg, lr);
          if !conflict {
            TakeReg(reg, lac, lr.defPos);
            st.AnswerReg(reg, lac, lr, allowSpilling);
            return GotReg(reg);
          }
        }
      }
      return if allowSpilling then GotSpill else GotNone;
    }

    method GiveBackAvailableReg(reg: CpuReg)
      requires Sized() && reg.no < NumRegs(reg.kind) && PoolMasks(gprLac, gprNotLac, fltLac, fltNotLac)
      modifies this
      ensures PoolMasks(gprLac, gprNotLac, fltLac, fltNotLac)
      ensures State() == old(State()).Give(reg)
    {
      var mask := AllocMask(reg);
      var isLac := exists b :: b in mask && CalleeSaved(b);
      GiveToClass(gprLac, gprNotLac, fltLac, fltNotLac, reg, isLac);
      hide AllocMask, CalleeSaved, SurvivesCalls, Reserved, PoolMasks;
      SetAvailable(isLac, reg.kind.Gpr?, GetAvailable(isLac, reg.kind.Gpr?) + mask);
    }
  }

  lemma GiveToClass(gprLac: set<Bit>, gprNotLac: set<Bit>, fltLac: set<Bit>, fltNotLac: set<Bit>, reg: CpuReg, isLac: bool)
    requires PoolMasks(gprLac, gprNotLac, fltLac, fltNotLac) && reg.no < NumRegs(reg.kind)
    requires isLac <==> exists b :: b in AllocMask(reg) && CalleeSaved(b)
    ensures isLac == SurvivesCalls(reg)
    ensures reg.kind.Gpr? && isLac ==> PoolMasks(gprLac + AllocMask(reg), gprNotLac, fltLac, fltNotLac)
    ensures reg.kind.Gpr? && !isLac ==> PoolMasks(gprLac, gprNotLac + AllocMask(reg), fltLac, fltNotLac)
    ensures !reg.kind.Gpr? && isLac ==> PoolMasks(gprLac, gprNotLac, fltLac + AllocMask(reg), fltNotLac)
    ensures !reg.kind.Gpr? && !isLac ==> PoolMasks(gprLac, gprNotLac, fltLac, fltNotLac + AllocMask(reg))
    ensures gprLac + AllocMask(reg) + fltLac == gprLac + fltLac + AllocMask(reg)
    ensures gprNotLac + AllocMask(reg) + fltNotLac == gprNotLac + fltNotLac + AllocMask(reg)
    ensures gprLac + (fltLac + AllocMask(reg)) == gprLac + fltLac + AllocMask(reg)
    ensures gprNotLac + (fltNotLac + AllocMask(reg)) == gprNotLac + fltNotLac + AllocMask(reg)
  {
    forall b | b in AllocMask(reg) ensures (CalleeSaved(b) <==> SurvivesCalls(reg)) && (IsGpr(b) <==> reg.kind.Gpr?) { MaskInClass(reg, b); }
    MaskHasBit(reg);
  }

  lemma MaskHasBit(reg: CpuReg)
    ensures exists b :: b in AllocMask(reg)
  {
    assert (if reg.kind.Gpr? then GprBit(reg.no) else if reg.kind.Flt? then FltBit(reg.no) else FltBit(2 * reg.no)) in AllocMask(reg);
  }

  /** Taking a mask out of the class it came from takes it out of the union as well. */
  lemma TakeFromClass(gprLac: set<Bit>, gprNotLac: set<Bit>, fltLac: set<Bit>, fltNotLac: set<Bit>, reg: CpuReg)
    requires PoolMasks(gprLac, gprNotLac, fltLac, fltNotLac)
    ensures PoolMasks(gprLac - AllocMask(reg), gprNotLac, fltLac, fltNotLac) && PoolMasks(gprLac, gprNotLac - AllocMask(reg), fltLac, fltNotLac)
    ensures PoolMasks(gprLac, gprNotLac, fltLac - AllocMask(reg), fltNotLac) && PoolMasks(gprLac, gprNotLac, fltLac, fltNotLac - AllocMask(reg))
    ensures reg.kind.Gpr? ==>
      (gprLac - AllocMask(reg)) + fltLac == gprLac + fltLac - AllocMask(reg) &&
      (gprNotLac - AllocMask(reg)) + fltNotLac == gprNotLac + fltNotLac - AllocMask(reg)
    ensures !reg.kind.Gpr? ==>
      gprLac + (fltLac - AllocMask(reg)) == gprLac + fltLac - AllocMask(reg) &&
      gprNotLac + (fltNotLac - AllocMask(reg)) == gprNotLac + fltNotLac - AllocMask(reg)
  {
    forall b | b in AllocMask(reg) ensures IsGpr(b) <==> reg.kind.Gpr? { MaskInClass(reg, b); }
  }

  predicate PoolMasks(gprLac: set<Bit>, gprNotLac: set<Bit>, fltLac: set<Bit>, fltNotLac: set<Bit>) {
    && (forall b :: b in gprLac ==> IsGpr(b) && CalleeSaved(b) && b.no < 16)
    && (forall b :: b in gprNotLac ==> IsGpr(b) && !CalleeSaved(b) && b.no < 16)
    && (forall b :: b in fltLac ==> !IsGpr(b) && CalleeSaved(b) && b.no < 32)
    && (forall b :: b in fltNotLac ==> !IsGpr(b) && !CalleeSaved(b) && b.no < 32)
  }
}
