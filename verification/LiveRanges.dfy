/** The live ranges of a block, found in one backward walk. They say the same as liveness at every
    single instruction (`Describes`). */
module LiveRanges {
  import opened IR
  import opened Liveness
  import opened RegPool

  datatype Loc = Unassigned | Spilled | InReg(cpu: CpuReg)

  /** A stretch of a register's life, or, with `uses`, the place where the ranges in `uses` are read. */
  datatype LiveRange = LiveRange(span: Span, reg: RegId, kind: Kind, uses: seq<nat>, lac: bool, preAlloc: bool, ignore: bool, loc: Loc)

  /** The ranges the allocator decides on. */
  predicate Allocates(lr: LiveRange) { lr.uses == [] && !lr.ignore && !lr.preAlloc }

  function Bits(lr: LiveRange): set<Bit> { if lr.loc.InReg? then AllocMask(lr.loc.cpu) else {} }

  predicate RegOk(cpu: CpuReg, kind: Kind) { cpu.kind == kind && cpu.no < NumRegs(kind) }

  predicate WfRange(rs: seq<LiveRange>, k: nat)
    requires k < |rs|
  {
    var lr := rs[k];
    if lr.uses == [] then
      BEFORE_BBL <= lr.span.defPos < lr.span.lastUse && (lr.preAlloc ==> lr.loc.InReg? && lr.loc.cpu.no < NumRegs(lr.loc.cpu.kind))
    else
      && BEFORE_BBL <= lr.span.defPos == lr.span.lastUse < NO_USE
      && forall u :: u in lr.uses ==> u < |rs| && rs[u].uses == [] && rs[u].span.defPos < lr.span.defPos <= rs[u].span.lastUse
  }

  /** The ranges are sorted by start, then end; so reads come before writes at the same place.
      There is one record of the reads of a place. */
  predicate WfRanges(rs: seq<LiveRange>) {
    && (forall j, k :: 0 <= j < k < |rs| ==> !Before(rs[k].span, rs[j].span))
    && (forall j, k :: 0 <= j < k < |rs| && rs[j].uses != [] && rs[k].uses != [] ==> rs[j].span.defPos != rs[k].span.defPos)
    && (forall k :: 0 <= k < |rs| ==> WfRange(rs, k))
  }

  // ---------------------------------------------------------------- what the ranges say

  function InsIn(code: seq<Ins>, ids: seq<InsId>, p: nat): Ins
    requires p < |ids|
  {
    InsAt(code, ids[p])
  }

  /** r is live right after instruction p; p == -1 is the start of the block. */
  predicate LiveAfter(code: seq<Ins>, ids: seq<InsId>, out: set<RegId>, p: int, r: RegId) {
    -1 <= p < |ids| && r in LiveAt(code, ids, p + 1, out)
  }

  /** The range is of register r and holds it from instruction p to the next. */
  predicate Covers(lr: LiveRange, r: RegId, p: int) {
    lr.uses == [] && lr.reg == r && lr.span.defPos <= p < lr.span.lastUse < NO_USE
  }

  ghost predicate SomeCovers(rs: seq<LiveRange>, r: RegId, p: int) {
    exists j :: 0 <= j < |rs| && Covers(rs[j], r, p)
  }

  /** Where a range may start and end. */
  predicate EndsRight(code: seq<Ins>, ids: seq<InsId>, out: set<RegId>, lr: LiveRange) {
    && (lr.span.defPos == BEFORE_BBL || (0 <= lr.span.defPos < |ids| && DstOf(InsIn(code, ids, lr.span.defPos)) == Some(lr.reg)))
    && (if lr.span.lastUse == NO_USE then 0 <= lr.span.defPos && !LiveAfter(code, ids, out, lr.span.defPos, lr.reg)
        else if lr.span.lastUse == AFTER_BBL then lr.reg in out
        else 0 <= lr.span.lastUse < |ids| && UsesReg(InsIn(code, ids, lr.span.lastUse), lr.reg))
    && lr.span.defPos < lr.span.lastUse
  }

  predicate CallBetween(code: seq<Ins>, ids: seq<InsId>, a: int, b: int) {
    exists c: nat :: a < c < b && c < |ids| && IsCall(InsIn(code, ids, c).opcode)
  }

  /** The record of the reads of instruction p names, for every register read there, a range that
      holds it up to there. */
  ghost predicate ReadsRecorded(rs: seq<LiveRange>, code: seq<Ins>, ids: seq<InsId>, rec: LiveRange) {
    && 0 <= rec.span.defPos < |ids| && rec.span.lastUse == rec.span.defPos
    && (forall u :: u in rec.uses ==> u < |rs| && rs[u].uses == [] && rs[u].span.defPos < rec.span.defPos <= rs[u].span.lastUse < NO_USE)
    && (forall r :: UsesReg(InsIn(code, ids, rec.span.defPos), r) <==> exists u :: u in rec.uses && u < |rs| && rs[u].reg == r)
  }

  /** The ranges say exactly what instruction-level liveness says. */
  ghost predicate Describes(rs: seq<LiveRange>, code: seq<Ins>, ids: seq<InsId>, out: set<RegId>) {
    && (forall p, r :: -1 <= p < |ids| ==> (LiveAfter(code, ids, out, p, r) <==> SomeCovers(rs, r, p)))
    && (forall j :: 0 <= j < |rs| && rs[j].uses == [] ==> RangeRight(code, ids, out, rs[j]))
    && (forall j :: 0 <= j < |rs| && rs[j].uses != [] ==> ReadsRecorded(rs, code, ids, rs[j]))
    && (forall i, j :: 0 <= i < j < |rs| && rs[i].reg == rs[j].reg && rs[i].uses == [] && rs[j].uses == [] ==>
          rs[i].span.defPos != rs[j].span.defPos)
    && (forall i, j :: 0 <= i < j < |rs| && rs[i].uses != [] && rs[j].uses != [] ==> rs[i].span.defPos != rs[j].span.defPos)
    && (forall p: nat, r :: p < |ids| && UsesReg(InsIn(code, ids, p), r) ==> HasRecord(rs, p))
    && (forall p: nat, r :: p < |ids| && DstOf(InsIn(code, ids, p)) == Some(r) ==> SomeStarts(rs, r, p))
  }

  /** The reads of instruction p are on record. */
  ghost predicate HasRecord(rs: seq<LiveRange>, p: int) {
    exists j :: 0 <= j < |rs| && rs[j].uses != [] && rs[j].span.defPos == p
  }

  ghost predicate SomeStarts(rs: seq<LiveRange>, r: RegId, p: int) {
    exists j :: 0 <= j < |rs| && rs[j].uses == [] && rs[j].reg == r && rs[j].span.defPos == p
  }

  /** Live across a call means: a call strictly inside. */
  predicate RangeRight(code: seq<Ins>, ids: seq<InsId>, out: set<RegId>, lr: LiveRange) {
    && EndsRight(code, ids, out, lr)
    && (lr.lac <==> lr.span.lastUse < NO_USE && CallBetween(code, ids, lr.span.defPos, lr.span.lastUse))
  }

  predicate KindsRight(rs: seq<LiveRange>, kindOf: RegId -> Kind) {
    forall k :: 0 <= k < |rs| && rs[k].uses == [] ==> rs[k].kind == kindOf(rs[k].reg)
  }

  /** The ranges have the kinds of their registers, and nothing is allocated yet. */
  ghost predicate OfKind(rs: seq<LiveRange>, kindOf: RegId -> Kind) {
    forall j :: 0 <= j < |rs| ==>
      !rs[j].preAlloc && !rs[j].ignore && rs[j].loc == Unassigned && (rs[j].uses == [] ==> rs[j].kind == kindOf(rs[j].reg))
  }

  // ---------------------------------------------------------------- the walk

  /** Coverage is right from instruction lo on. */
  ghost predicate CoveredFrom(rs: seq<LiveRange>, code: seq<Ins>, ids: seq<InsId>, out: set<RegId>, lo: int) {
    forall p, r :: lo <= p < |ids| && -1 <= p ==> (LiveAfter(code, ids, out, p, r) <==> SomeCovers(rs, r, p))
  }

  /** A range whose end is known and whose start is still to come (BEFORE_BBL stands in for it). */
  predicate OpenRange(code: seq<Ins>, ids: seq<InsId>, out: set<RegId>, lr: LiveRange, r: RegId, k: nat) {
    && lr.uses == [] && lr.reg == r && lr.span.defPos == BEFORE_BBL && !lr.lac
    && (if lr.span.lastUse == AFTER_BBL then r in out
        else k <= lr.span.lastUse < |ids| && UsesReg(InsIn(code, ids, lr.span.lastUse), r))
  }

  /** last_use: the open range of every register in `live`. */
  ghost predicate Opens(rs: seq<LiveRange>, code: seq<Ins>, ids: seq<InsId>, out: set<RegId>, open: map<RegId, nat>, live: set<RegId>, k: nat) {
    && open.Keys == live
    && forall r :: r in open ==> open[r] < |rs| && OpenRange(code, ids, out, rs[open[r]], r, k)
  }

  predicate IsOpen(open: map<RegId, nat>, rs: seq<LiveRange>, j: nat)
    requires j < |rs|
  {
    rs[j].reg in open && open[rs[j].reg] == j
  }

  /** The other ranges are complete and start at instruction k or later. */
  ghost predicate Closed(rs: seq<LiveRange>, code: seq<Ins>, ids: seq<InsId>, out: set<RegId>, open: map<RegId, nat>, k: nat) {
    forall j :: 0 <= j < |rs| && rs[j].uses == [] && !IsOpen(open, rs, j) ==> k <= rs[j].span.defPos && RangeRight(code, ids, out, rs[j])
  }

  ghost predicate Records(rs: seq<LiveRange>, code: seq<Ins>, ids: seq<InsId>, k: nat) {
    && (forall j :: 0 <= j < |rs| && rs[j].uses != [] ==> k <= rs[j].span.defPos && ReadsRecorded(rs, code, ids, rs[j]))
    && (forall i, j :: 0 <= i < j < |rs| && rs[i].uses != [] && rs[j].uses != [] ==> rs[i].span.defPos != rs[j].span.defPos)
    && (forall p: nat, r :: k <= p < |ids| && UsesReg(InsIn(code, ids, p), r) ==> HasRecord(rs, p))
  }

  /** Some record at the place where range j is read for the last time names it. */
  ghost predicate EndNamed(rs: seq<LiveRange>, j: nat) {
    exists i: nat :: EndsAt(rs, j, i)
  }

  /** Record i says that range j is read there for the last time. */
  predicate EndsAt(rs: seq<LiveRange>, j: nat, i: nat) {
    j < |rs| && i < |rs| && j in rs[i].uses && rs[i].span.defPos == rs[j].span.lastUse
  }

  predicate NoneTwice(uses: seq<nat>) {
    forall x, y :: 0 <= x < y < |uses| ==> uses[x] != uses[y]
  }

  /** The last reads at instruction k or later are on record, and no record names a range twice. */
  ghost predicate EndsNamed(rs: seq<LiveRange>, k: nat) {
    && (forall j: nat :: j < |rs| && rs[j].uses == [] && k <= rs[j].span.lastUse < AFTER_BBL ==> EndNamed(rs, j))
    && (forall i :: 0 <= i < |rs| ==> NoneTwice(rs[i].uses))
  }

  lemma EndsNamedKept(rs: seq<LiveRange>, rs': seq<LiveRange>, k: nat)
    requires EndsNamed(rs, k) && |rs| <= |rs'|
    requires forall j :: 0 <= j < |rs| ==> rs'[j].uses == rs[j].uses && rs'[j].span.lastUse == rs[j].span.lastUse
    requires forall j :: 0 <= j < |rs| && rs[j].uses != [] ==> rs'[j].span == rs[j].span
    requires forall j :: |rs| <= j < |rs'| ==> NoneTwice(rs'[j].uses) && !(rs'[j].uses == [] && k <= rs'[j].span.lastUse < AFTER_BBL)
    ensures EndsNamed(rs', k)
  {
    hide NoneTwice;
    forall j: nat | j < |rs'| && rs'[j].uses == [] && k <= rs'[j].span.lastUse < AFTER_BBL ensures EndNamed(rs', j) {
      assert EndNamed(rs, j);
      var i: nat :| EndsAt(rs, j, i);
      assert EndsAt(rs', j, i);
    }
  }

  /** The reads of instruction k are on record now, if there are any. */
  lemma EndsNamedNow(rs: seq<LiveRange>, rs': seq<LiveRange>, code: seq<Ins>, ids: seq<InsId>, out: set<RegId>, open: map<RegId, nat>, live: set<RegId>, k: nat, uses: seq<nat>)
    requires k < |ids| <= AFTER_BBL && Opens(rs, code, ids, out, open, live, k) && Closed(rs, code, ids, out, open, k)
    requires EndsNamed(rs, k + 1) && Named(rs, open, uses, UsesOf(InsIn(code, ids, k)))
    requires if uses == [] then rs' == rs else |rs'| == |rs| + 1 && rs'[..|rs|] == rs && rs'[|rs|].uses == uses && rs'[|rs|].span.defPos == k
    ensures EndsNamed(rs', k)
  {
    hide NoneTwice, UsesOf;
    assert forall j :: 0 <= j < |rs| ==> rs'[j] == rs'[..|rs|][j];
    EndsNamedKept(rs, rs', k + 1);
    forall j: nat | j < |rs'| && rs'[j].uses == [] && rs'[j].span.lastUse == k ensures EndNamed(rs', j) {
      LastReadOpen(rs, code, ids, out, open, live, k, j);
      assert EndsAt(rs', j, |rs|);
    }
  }

  lemma LastReadOpen(rs: seq<LiveRange>, code: seq<Ins>, ids: seq<InsId>, out: set<RegId>, open: map<RegId, nat>, live: set<RegId>, k: nat, j: nat)
    requires k < |ids| <= AFTER_BBL && Opens(rs, code, ids, out, open, live, k) && Closed(rs, code, ids, out, open, k)
    requires j < |rs| && rs[j].uses == [] && rs[j].span.lastUse == k
    ensures rs[j].reg in UsesOf(InsIn(code, ids, k)) && rs[j].reg in open && open[rs[j].reg] == j
  {
    hide LiveAfter, CallBetween;
    assert IsOpen(open, rs, j);
    assert OpenRange(code, ids, out, rs[open[rs[j].reg]], rs[j].reg, k);
    hide UsesReg, UsesOf, InsIn;
    assert UsesReg(InsIn(code, ids, k), rs[j].reg);
  }

  ghost predicate DistinctStarts(rs: seq<LiveRange>) {
    forall i, j :: 0 <= i < j < |rs| && rs[i].reg == rs[j].reg && rs[i].uses == [] && rs[j].uses == [] ==>
      rs[i].span.defPos != rs[j].span.defPos
  }

  ghost predicate Starts(rs: seq<LiveRange>, code: seq<Ins>, ids: seq<InsId>, k: nat) {
    forall p: nat, r :: k <= p < |ids| && DstOf(InsIn(code, ids, p)) == Some(r) ==> SomeStarts(rs, r, p)
  }

  /** The first call at or after instruction k, or -1. */
  ghost predicate FirstCall(code: seq<Ins>, ids: seq<InsId>, k: nat, call: int) {
    && (call == -1 ==> forall c: nat :: k <= c < |ids| ==> !IsCall(InsIn(code, ids, c).opcode))
    && (call != -1 ==> k <= call < |ids| && IsCall(InsIn(code, ids, call).opcode))
    && (forall c: nat :: k <= c < call && c < |ids| ==> !IsCall(InsIn(code, ids, c).opcode))
  }

  /** The state of the walk when the registers in `live` are live at the top of what was seen;
      ranges start at `defs` or later, records stand at `recs` or later. */
  ghost predicate Walk(rs: seq<LiveRange>, code: seq<Ins>, ids: seq<InsId>, out: set<RegId>, open: map<RegId, nat>, live: set<RegId>,
                       k: nat, defs: nat, recs: nat) {
    && Opens(rs, code, ids, out, open, live, k) && Closed(rs, code, ids, out, open, defs)
    && CoveredFrom(rs, code, ids, out, k) && Records(rs, code, ids, recs) && DistinctStarts(rs) && Starts(rs, code, ids, defs) && EndsNamed(rs, recs)
  }

  lemma CoverageKept(rs: seq<LiveRange>, rs': seq<LiveRange>, code: seq<Ins>, ids: seq<InsId>, out: set<RegId>, lo: nat)
    requires CoveredFrom(rs, code, ids, out, lo) && |rs| <= |rs'|
    requires forall j, r, p :: 0 <= j < |rs| && lo <= p ==> (Covers(rs'[j], r, p) <==> Covers(rs[j], r, p))
    requires forall j, r, p :: |rs| <= j < |rs'| && lo <= p ==> !Covers(rs'[j], r, p)
    ensures CoveredFrom(rs', code, ids, out, lo)
  {
    hide Covers, LiveAfter;
    forall p, r | lo <= p < |ids| ensures LiveAfter(code, ids, out, p, r) <==> SomeCovers(rs', r, p) {
      if SomeCovers(rs, r, p) {
        var j :| 0 <= j < |rs| && Covers(rs[j], r, p);
        assert Covers(rs'[j], r, p);
      }
      if SomeCovers(rs', r, p) {
        var j :| 0 <= j < |rs'| && Covers(rs'[j], r, p);
        assert j < |rs| && Covers(rs[j], r, p);
      }
    }
  }

  /** One instruction up: there, exactly the open ranges cover. */
  lemma CoverageBefore(rs: seq<LiveRange>, code: seq<Ins>, ids: seq<InsId>, out: set<RegId>, open: map<RegId, nat>, k: nat)
    requires |ids| <= AFTER_BBL && k <= |ids|
    requires CoveredFrom(rs, code, ids, out, k) && Opens(rs, code, ids, out, open, LiveAt(code, ids, k, out), k)
    requires Closed(rs, code, ids, out, open, k)
    ensures CoveredFrom(rs, code, ids, out, k - 1)
  {
    hide LiveAt, RangeRight;
    forall p, r | k - 1 <= p < |ids| ensures LiveAfter(code, ids, out, p, r) <==> SomeCovers(rs, r, p) {
      if p == k - 1 {
        if r in open {
          assert OpenRange(code, ids, out, rs[open[r]], r, k);
          assert Covers(rs[open[r]], r, p);
        }
        if SomeCovers(rs, r, p) {
          var j :| 0 <= j < |rs| && Covers(rs[j], r, p);
          assert IsOpen(open, rs, j);
        }
      }
    }
  }

  function NewRange(r: RegId, kind: Kind, defPos: int, lastUse: int): LiveRange {
    LiveRange(Span(defPos, lastUse), r, kind, [], false, false, false, Unassigned)
  }

  // -- opening a range at a read

  lemma OpensClosed(rs: seq<LiveRange>, code: seq<Ins>, ids: seq<InsId>, out: set<RegId>, open: map<RegId, nat>, k: nat, r: RegId, kind: Kind)
    requires Closed(rs, code, ids, out, open, k) && DistinctStarts(rs) && r !in open
    ensures var rs' := rs + [NewRange(r, kind, BEFORE_BBL, k)]; Closed(rs', code, ids, out, open[r := |rs|], k) && DistinctStarts(rs')
  {
    var rs', open' := rs + [NewRange(r, kind, BEFORE_BBL, k)], open[r := |rs|];
    hide RangeRight;
    forall j | 0 <= j < |rs'| && rs'[j].uses == [] && !IsOpen(open', rs', j) ensures k <= rs'[j].span.defPos && RangeRight(code, ids, out, rs'[j]) {
      assert rs'[j] == rs[j] && !IsOpen(open, rs, j);
    }
    forall i, j | 0 <= i < j < |rs'| && rs'[i].reg == rs'[j].reg && rs'[i].uses == [] && rs'[j].uses == []
      ensures rs'[i].span.defPos != rs'[j].span.defPos
    {
      if j == |rs| { assert !IsOpen(open, rs, i); }
    }
  }

  lemma OpensAt(rs: seq<LiveRange>, code: seq<Ins>, ids: seq<InsId>, out: set<RegId>, open: map<RegId, nat>, live: set<RegId>,
                k: nat, recs: nat, r: RegId, kind: Kind)
    requires |ids| <= AFTER_BBL && k < |ids| && k < recs && Walk(rs, code, ids, out, open, live, k, k, recs)
    requires r !in open && UsesReg(InsIn(code, ids, k), r)
    ensures Walk(rs + [NewRange(r, kind, BEFORE_BBL, k)], code, ids, out, open[r := |rs|], live + {r}, k, k, recs)
  {
    var rs', open' := rs + [NewRange(r, kind, BEFORE_BBL, k)], open[r := |rs|];
    hide UsesReg, LiveAfter, CallBetween;
    CoverageKept(rs, rs', code, ids, out, k);
    RecordsKept(rs, rs', code, ids, recs);
    EndsNamedKept(rs, rs', recs);
    StartsKept(rs, rs', code, ids, k);
    OpensClosed(rs, code, ids, out, open, k, r, kind);
    hide RangeRight, SomeCovers, Records, Starts, CoveredFrom, EndsNamed, Closed, DistinctStarts;
  }

  /** Records only depend on reads, registers and on starts staying early. */
  lemma RecordsKept(rs: seq<LiveRange>, rs': seq<LiveRange>, code: seq<Ins>, ids: seq<InsId>, k: nat)
    requires Records(rs, code, ids, k) && |rs| <= |rs'|
    requires forall j :: 0 <= j < |rs| ==> rs'[j].uses == rs[j].uses && rs'[j].reg == rs[j].reg && rs'[j].span.lastUse == rs[j].span.lastUse
    requires forall j :: 0 <= j < |rs| && rs'[j].span.defPos != rs[j].span.defPos ==> rs[j].uses == [] && rs'[j].span.defPos < k
    requires forall j :: |rs| <= j < |rs'| ==> rs'[j].uses == []
    ensures Records(rs', code, ids, k)
  {
    forall j | 0 <= j < |rs'| && rs'[j].uses != [] ensures k <= rs'[j].span.defPos && ReadsRecorded(rs', code, ids, rs'[j]) {
      assert ReadsRecorded(rs, code, ids, rs[j]);
      RecordKept(rs, rs', code, ids, rs[j], rs'[j]);
      hide ReadsRecorded;
    }
  }

  lemma RecordKept(rs: seq<LiveRange>, rs': seq<LiveRange>, code: seq<Ins>, ids: seq<InsId>, rec: LiveRange, rec': LiveRange)
    requires ReadsRecorded(rs, code, ids, rec) && |rs| <= |rs'|
    requires rec'.span == rec.span && rec'.uses == rec.uses
    requires forall j :: 0 <= j < |rs| ==> rs'[j].uses == rs[j].uses && rs'[j].reg == rs[j].reg && rs'[j].span.lastUse == rs[j].span.lastUse
    requires forall j :: 0 <= j < |rs| && rs'[j].span.defPos != rs[j].span.defPos ==> rs'[j].span.defPos < rec.span.defPos
    ensures ReadsRecorded(rs', code, ids, rec')
  {
    hide UsesReg;
    var p := rec.span.defPos;
    forall r ensures UsesReg(InsIn(code, ids, p), r) <==> exists u :: u in rec'.uses && u < |rs'| && rs'[u].reg == r {
      if UsesReg(InsIn(code, ids, p), r) {
        var u :| u in rec.uses && u < |rs| && rs[u].reg == r;
        assert u in rec'.uses && rs'[u].reg == r;
      }
      if u :| u in rec'.uses && u < |rs'| && rs'[u].reg == r {
        assert u in rec.uses && u < |rs| && rs[u].reg == r;
      }
    }
  }

  lemma StartsKept(rs: seq<LiveRange>, rs': seq<LiveRange>, code: seq<Ins>, ids: seq<InsId>, k: nat)
    requires Starts(rs, code, ids, k) && |rs| <= |rs'|
    requires forall j :: 0 <= j < |rs| ==> rs'[j].uses == rs[j].uses && rs'[j].reg == rs[j].reg
    requires forall j :: 0 <= j < |rs| && k <= rs[j].span.defPos ==> rs'[j].span.defPos == rs[j].span.defPos
    ensures Starts(rs', code, ids, k)
  {
    hide DstOf;
    forall p: nat, r | k <= p < |ids| && DstOf(InsIn(code, ids, p)) == Some(r) ensures SomeStarts(rs', r, p) {
      assert SomeStarts(rs, r, p);
      var j :| 0 <= j < |rs| && rs[j].uses == [] && rs[j].reg == r && rs[j].span.defPos == p;
      assert rs'[j].uses == [] && rs'[j].reg == r && rs'[j].span.defPos == p;
    }
  }

  // -- closing a range at a write

  function Finalized(lr: LiveRange, defPos: int, call: int): LiveRange {
    lr.(span := lr.span.(defPos := defPos), lac := lr.lac || (call != -1 && call < lr.span.lastUse))
  }

  lemma LacIsRight(code: seq<Ins>, ids: seq<InsId>, k: int, call: int, lastUse: int)
    requires -1 <= k && FirstCall(code, ids, k + 1, call) && lastUse <= AFTER_BBL && |ids| <= AFTER_BBL
    ensures CallBetween(code, ids, k, lastUse) <==> call != -1 && call < lastUse
  {
    hide IsCall, InsIn;
    if CallBetween(code, ids, k, lastUse) {
      var c: nat :| k < c < lastUse && c < |ids| && IsCall(InsIn(code, ids, c).opcode);
      assert k + 1 <= c;
    }
  }

  lemma LacFromTop(code: seq<Ins>, ids: seq<InsId>, lastUse: int)
    ensures CallBetween(code, ids, BEFORE_BBL, lastUse) <==> CallBetween(code, ids, -1, lastUse)
  {
    hide IsCall, InsIn;
  }

  lemma WalkIs(rs: seq<LiveRange>, code: seq<Ins>, ids: seq<InsId>, out: set<RegId>, open: map<RegId, nat>, live: set<RegId>,
               k: nat, defs: nat, recs: nat)
    ensures Walk(rs, code, ids, out, open, live, k, defs, recs) <==>
      && Opens(rs, code, ids, out, open, live, k) && Closed(rs, code, ids, out, open, defs)
      && CoveredFrom(rs, code, ids, out, k) && Records(rs, code, ids, recs) && DistinctStarts(rs) && Starts(rs, code, ids, defs)
      && EndsNamed(rs, recs)
  {
    hide Opens, Closed, CoveredFrom, Records, DistinctStarts, Starts, EndsNamed;
  }

  lemma OpensHasIndex(rs: seq<LiveRange>, code: seq<Ins>, ids: seq<InsId>, out: set<RegId>, open: map<RegId, nat>, live: set<RegId>,
                      k: nat, r: RegId)
    requires Opens(rs, code, ids, out, open, live, k) && r in open
    ensures open[r] < |rs| && rs[open[r]].uses == [] && rs[open[r]].reg == r && rs[open[r]].span.defPos == BEFORE_BBL
  {
    assert OpenRange(code, ids, out, rs[open[r]], r, k);
  }

  lemma ClosingCovers(rs: seq<LiveRange>, code: seq<Ins>, ids: seq<InsId>, out: set<RegId>, open: map<RegId, nat>, live: set<RegId>, k: nat,
                      r: RegId, call: int)
    requires Opens(rs, code, ids, out, open, live, k + 1) && r in open && CoveredFrom(rs, code, ids, out, k)
    ensures CoveredFrom(rs[open[r] := Finalized(rs[open[r]], k, call)], code, ids, out, k)
  {
    OpensHasIndex(rs, code, ids, out, open, live, k + 1, r);
    hide Opens, CoveredFrom;
    CoverageKept(rs, rs[open[r] := Finalized(rs[open[r]], k, call)], code, ids, out, k);
  }

  lemma FinalizedIs(lr: LiveRange, defPos: int, call: int)
    ensures var now := Finalized(lr, defPos, call);
      && now.uses == lr.uses && now.reg == lr.reg && now.span == lr.span.(defPos := defPos)
      && BEFORE_BBL < 0
  {
  }

  lemma ClosingRecords(rs: seq<LiveRange>, code: seq<Ins>, ids: seq<InsId>, out: set<RegId>, open: map<RegId, nat>, live: set<RegId>, k: nat,
                       r: RegId, call: int)
    requires k < |ids| && Opens(rs, code, ids, out, open, live, k + 1) && r in open && DstOf(InsIn(code, ids, k)) == Some(r)
    requires Records(rs, code, ids, k + 1) && EndsNamed(rs, k + 1) && Starts(rs, code, ids, k + 1)
    ensures var rs' := rs[open[r] := Finalized(rs[open[r]], k, call)];
      Records(rs', code, ids, k + 1) && EndsNamed(rs', k + 1) && Starts(rs', code, ids, k)
  {
    hide *;
    OpensHasIndex(rs, code, ids, out, open, live, k + 1, r);
    FinalizedIs(rs[open[r]], k, call);
    var rs' := rs[open[r] := Finalized(rs[open[r]], k, call)];
    RecordsKept(rs, rs', code, ids, k + 1);
    EndsNamedKept(rs, rs', k + 1);
    StartsAlso(rs, rs', code, ids, k, open[r]);
  }

  lemma DeadCovers(rs: seq<LiveRange>, code: seq<Ins>, ids: seq<InsId>, out: set<RegId>, k: nat, r: RegId, kind: Kind)
    requires CoveredFrom(rs, code, ids, out, k)
    ensures CoveredFrom(rs + [NewRange(r, kind, k, NO_USE)], code, ids, out, k)
  {
    hide CoveredFrom;
    CoverageKept(rs, rs + [NewRange(r, kind, k, NO_USE)], code, ids, out, k);
  }

  lemma DeadRecords(rs: seq<LiveRange>, code: seq<Ins>, ids: seq<InsId>, out: set<RegId>, open: map<RegId, nat>, live: set<RegId>, k: nat,
                    r: RegId, kind: Kind)
    requires k < |ids| && DstOf(InsIn(code, ids, k)) == Some(r) && r !in open && Closed(rs, code, ids, out, open, k + 1)
    requires Records(rs, code, ids, k + 1) && EndsNamed(rs, k + 1) && Starts(rs, code, ids, k + 1) && DistinctStarts(rs)
    ensures var rs' := rs + [NewRange(r, kind, k, NO_USE)];
      Records(rs', code, ids, k + 1) && EndsNamed(rs', k + 1) && Starts(rs', code, ids, k) && DistinctStarts(rs')
  {
    hide Records, EndsNamed, Starts, DstOf, InsIn, RangeRight;
    var rs' := rs + [NewRange(r, kind, k, NO_USE)];
    RecordsKept(rs, rs', code, ids, k + 1);
    EndsNamedKept(rs, rs', k + 1);
    StartsAlso(rs, rs', code, ids, k, |rs|);
    forall i, j | 0 <= i < j < |rs'| && rs'[i].reg == rs'[j].reg && rs'[i].uses == [] && rs'[j].uses == []
      ensures rs'[i].span.defPos != rs'[j].span.defPos
    {
      if j == |rs| { assert !IsOpen(open, rs, i); }
    }
  }

  lemma DeadCloses(rs: seq<LiveRange>, code: seq<Ins>, ids: seq<InsId>, out: set<RegId>, open: map<RegId, nat>, live: set<RegId>, k: nat,
                   r: RegId, kind: Kind)
    requires |ids| <= AFTER_BBL && k < |ids| && live == LiveAt(code, ids, k + 1, out) && DstOf(InsIn(code, ids, k)) == Some(r)
    requires Opens(rs, code, ids, out, open, live, k + 1) && Closed(rs, code, ids, out, open, k + 1) && r !in open
    ensures var rs' := rs + [NewRange(r, kind, k, NO_USE)];
      Opens(rs', code, ids, out, open, live - {r}, k) && Closed(rs', code, ids, out, open, k)
  {
    var rs' := rs + [NewRange(r, kind, k, NO_USE)];
    assert !LiveAfter(code, ids, out, k, r);
    assert RangeRight(code, ids, out, rs'[|rs|]);
    hide LiveAfter, CallBetween, UsesReg, DstOf, RangeRight, LiveAt;
    forall q | q in open ensures open[q] < |rs'| && OpenRange(code, ids, out, rs'[open[q]], q, k) {
      assert OpenRange(code, ids, out, rs[open[q]], q, k + 1);
    }
    hide OpenRange;
    forall j | 0 <= j < |rs'| && rs'[j].uses == [] && !IsOpen(open, rs', j) ensures k <= rs'[j].span.defPos && RangeRight(code, ids, out, rs'[j]) {
      if j < |rs| { assert rs'[j] == rs[j] && !IsOpen(open, rs, j); }
    }
  }

  lemma ClosesAt(rs: seq<LiveRange>, code: seq<Ins>, ids: seq<InsId>, out: set<RegId>, open: map<RegId, nat>, live: set<RegId>, k: nat,
                 r: RegId, call: int)
    requires |ids| <= AFTER_BBL && k < |ids| && Walk(rs, code, ids, out, open, live, k + 1, k + 1, k + 1) && CoveredFrom(rs, code, ids, out, k)
    requires r in open && DstOf(InsIn(code, ids, k)) == Some(r) && FirstCall(code, ids, k + 1, call)
    ensures var rs' := rs[open[r] := Finalized(rs[open[r]], k, call)];
      Walk(rs', code, ids, out, open - {r}, live - {r}, k, k, k + 1)
  {
    hide *;
    WalkIs(rs, code, ids, out, open, live, k + 1, k + 1, k + 1);
    OpensHasIndex(rs, code, ids, out, open, live, k + 1, r);
    var rs' := rs[open[r] := Finalized(rs[open[r]], k, call)];
    ClosedOneMore(rs, code, ids, out, open, live, k, r, call);
    ClosedDistinct(rs, code, ids, out, open, live, k, r, call);
    ClosingCovers(rs, code, ids, out, open, live, k, r, call);
    ClosingRecords(rs, code, ids, out, open, live, k, r, call);
    WalkIs(rs', code, ids, out, open - {r}, live - {r}, k, k, k + 1);
  }

  lemma ClosedOneMore(rs: seq<LiveRange>, code: seq<Ins>, ids: seq<InsId>, out: set<RegId>, open: map<RegId, nat>, live: set<RegId>, k: nat,
                      r: RegId, call: int)
    requires |ids| <= AFTER_BBL && k < |ids| && r in open && DstOf(InsIn(code, ids, k)) == Some(r) && FirstCall(code, ids, k + 1, call)
    requires Opens(rs, code, ids, out, open, live, k + 1) && Closed(rs, code, ids, out, open, k + 1)
    ensures var rs' := rs[open[r] := Finalized(rs[open[r]], k, call)];
      Opens(rs', code, ids, out, open - {r}, live - {r}, k) && Closed(rs', code, ids, out, open - {r}, k)
  {
    var idx := open[r];
    var lr := Finalized(rs[idx], k, call);
    var rs', open' := rs[idx := lr], open - {r};
    assert OpenRange(code, ids, out, rs[idx], r, k + 1);
    LacIsRight(code, ids, k, call, lr.span.lastUse);
    hide LiveAfter, CallBetween, UsesReg, DstOf, FirstCall;
    forall q | q in open' ensures open'[q] < |rs'| && OpenRange(code, ids, out, rs'[open'[q]], q, k) {
      assert OpenRange(code, ids, out, rs[open[q]], q, k + 1);
    }
    assert RangeRight(code, ids, out, lr);
    hide RangeRight, OpenRange;
    forall j | 0 <= j < |rs'| && rs'[j].uses == [] && !IsOpen(open', rs', j) ensures k <= rs'[j].span.defPos && RangeRight(code, ids, out, rs'[j]) {
      if j != idx { assert rs'[j] == rs[j] && !IsOpen(open, rs, j); }
    }
    assert open'.Keys == live - {r};
  }

  lemma ClosedDistinct(rs: seq<LiveRange>, code: seq<Ins>, ids: seq<InsId>, out: set<RegId>, open: map<RegId, nat>, live: set<RegId>, k: nat,
                       r: RegId, call: int)
    requires r in open && Opens(rs, code, ids, out, open, live, k + 1) && Closed(rs, code, ids, out, open, k + 1) && DistinctStarts(rs)
    ensures DistinctStarts(rs[open[r] := Finalized(rs[open[r]], k, call)])
  {
    var idx := open[r];
    assert OpenRange(code, ids, out, rs[idx], r, k + 1);
    var rs' := rs[idx := Finalized(rs[idx], k, call)];
    hide RangeRight, OpenRange;
    forall i, j | 0 <= i < j < |rs'| && rs'[i].reg == rs'[j].reg && rs'[i].uses == [] && rs'[j].uses == []
      ensures rs'[i].span.defPos != rs'[j].span.defPos
    {
      if i == idx { assert !IsOpen(open, rs, j); }
      if j == idx { assert !IsOpen(open, rs, i); }
    }
  }

  lemma StartsAlso(rs: seq<LiveRange>, rs': seq<LiveRange>, code: seq<Ins>, ids: seq<InsId>, k: nat, idx: nat)
    requires k < |ids| && Starts(rs, code, ids, k + 1) && |rs| <= |rs'| && idx < |rs'|
    requires forall j :: 0 <= j < |rs| ==> rs'[j].uses == rs[j].uses && rs'[j].reg == rs[j].reg
    requires forall j :: 0 <= j < |rs| && k + 1 <= rs[j].span.defPos ==> rs'[j].span.defPos == rs[j].span.defPos
    requires DstOf(InsIn(code, ids, k)) == Some(rs'[idx].reg) && rs'[idx].uses == [] && rs'[idx].span.defPos == k
    ensures Starts(rs', code, ids, k)
  {
    hide DstOf;
    StartsKept(rs, rs', code, ids, k + 1);
    forall p: nat, r | k <= p < |ids| && DstOf(InsIn(code, ids, p)) == Some(r) ensures SomeStarts(rs', r, p) {
      if p == k { assert rs'[idx].reg == r; }
    }
  }

  /** A write nobody reads. */
  lemma DeadAt(rs: seq<LiveRange>, code: seq<Ins>, ids: seq<InsId>, out: set<RegId>, open: map<RegId, nat>, live: set<RegId>, k: nat,
               r: RegId, kind: Kind)
    requires |ids| <= AFTER_BBL && k < |ids| && Walk(rs, code, ids, out, open, live, k + 1, k + 1, k + 1) && CoveredFrom(rs, code, ids, out, k)
    requires r !in open && DstOf(InsIn(code, ids, k)) == Some(r) && live == LiveAt(code, ids, k + 1, out)
    ensures Walk(rs + [NewRange(r, kind, k, NO_USE)], code, ids, out, open, live - {r}, k, k, k + 1)
  {
    hide *;
    WalkIs(rs, code, ids, out, open, live, k + 1, k + 1, k + 1);
    DeadCloses(rs, code, ids, out, open, live, k, r, kind);
    DeadCovers(rs, code, ids, out, k, r, kind);
    DeadRecords(rs, code, ids, out, open, live, k, r, kind);
    WalkIs(rs + [NewRange(r, kind, k, NO_USE)], code, ids, out, open, live - {r}, k, k, k + 1);
  }

  /** No write. */
  lemma NoDefAt(rs: seq<LiveRange>, code: seq<Ins>, ids: seq<InsId>, out: set<RegId>, open: map<RegId, nat>, live: set<RegId>, k: nat)
    requires k < |ids| && Walk(rs, code, ids, out, open, live, k + 1, k + 1, k + 1) && CoveredFrom(rs, code, ids, out, k)
    requires DstOf(InsIn(code, ids, k)) == None
    ensures Walk(rs, code, ids, out, open, live, k, k, k + 1)
  {
    hide LiveAfter, CallBetween, UsesReg, RangeRight, SomeCovers, CoveredFrom, Records, DstOf;
    forall q | q in open ensures OpenRange(code, ids, out, rs[open[q]], q, k) {
      assert OpenRange(code, ids, out, rs[open[q]], q, k + 1);
    }
  }

  // -- the record of the reads

  /** `uses` holds the open ranges of the registers in `read`. */
  ghost predicate Named(rs: seq<LiveRange>, open: map<RegId, nat>, uses: seq<nat>, read: set<RegId>) {
    && (forall u :: u in uses ==> u < |rs| && rs[u].reg in read && rs[u].reg in open && open[rs[u].reg] == u)
    && (forall r :: r in read ==> r in open && open[r] in uses) && NoneTwice(uses)
  }

  lemma NamedOneMore(rs: seq<LiveRange>, rs': seq<LiveRange>, open: map<RegId, nat>, open': map<RegId, nat>, uses: seq<nat>, read: set<RegId>, r: RegId)
    requires Named(rs, open, uses, read)
    requires |rs| <= |rs'| && forall j :: 0 <= j < |rs| ==> rs'[j] == rs[j]
    requires r in open' && open'[r] < |rs'| && rs'[open'[r]].reg == r
    requires open' == open || (r !in open && open' == open[r := open'[r]])
    ensures Named(rs', open', if open'[r] in uses then uses else uses + [open'[r]], read + {r})
  {
  }

  lemma RecordAt(rs: seq<LiveRange>, code: seq<Ins>, ids: seq<InsId>, out: set<RegId>, open: map<RegId, nat>, live: set<RegId>, k: nat,
                 rec: LiveRange)
    requires |ids| <= AFTER_BBL && k < |ids| && Walk(rs, code, ids, out, open, live, k, k, k + 1)
    requires rec.uses != [] && rec.span == Span(k, k) && Named(rs, open, rec.uses, UsesOf(InsIn(code, ids, k)))
    ensures Walk(rs + [rec], code, ids, out, open, live, k, k, k)
  {
    var rs' := rs + [rec];
    var ins := InsIn(code, ids, k);
    assert ReadsRecorded(rs', code, ids, rec) by {
      forall u | u in rec.uses
        ensures u < |rs'| && rs'[u].uses == [] && rs'[u].span.defPos < k <= rs'[u].span.lastUse < NO_USE
      {
        assert OpenRange(code, ids, out, rs[open[rs[u].reg]], rs[u].reg, k);
      }
      forall r ensures UsesReg(ins, r) <==> exists u :: u in rec.uses && u < |rs'| && rs'[u].reg == r {
        assert UsesReg(ins, r) <==> r in UsesOf(ins);
        hide UsesOf, UsesReg;
        if r in UsesOf(ins) { assert open[r] in rec.uses && rs'[open[r]] == rs[open[r]] && rs[open[r]].reg == r; }
      }
    }
    EndsNamedNow(rs, rs', code, ids, out, open, live, k, rec.uses);
    RecordAdded(rs, rec, code, ids, out, open, live, k);
  }

  lemma RecordClosed(rs: seq<LiveRange>, rec: LiveRange, code: seq<Ins>, ids: seq<InsId>, out: set<RegId>, open: map<RegId, nat>, k: nat)
    requires Closed(rs, code, ids, out, open, k) && Records(rs, code, ids, k + 1) && rec.uses != [] && rec.span.defPos == k
    requires ReadsRecorded(rs + [rec], code, ids, rec)
    ensures Closed(rs + [rec], code, ids, out, open, k) && Records(rs + [rec], code, ids, k)
  {
    var rs' := rs + [rec];
    hide RangeRight;
    forall j | 0 <= j < |rs'| && rs'[j].uses == [] && !IsOpen(open, rs', j) ensures k <= rs'[j].span.defPos && RangeRight(code, ids, out, rs'[j]) {
      assert rs'[j] == rs[j] && !IsOpen(open, rs, j);
    }
    forall j | 0 <= j < |rs'| && rs'[j].uses != [] ensures k <= rs'[j].span.defPos && ReadsRecorded(rs', code, ids, rs'[j]) {
      if j < |rs| { RecordKept(rs, rs', code, ids, rs[j], rs[j]); }
    }
    forall p: nat, r | k <= p < |ids| && UsesReg(InsIn(code, ids, p), r) ensures HasRecord(rs', p) {
      HasRecordMore(rs, rec, p);
      if p > k { assert HasRecord(rs, p); }
    }
    hide ReadsRecorded, HasRecord;
  }

  lemma HasRecordMore(rs: seq<LiveRange>, rec: LiveRange, p: int)
    ensures HasRecord(rs, p) || (rec.uses != [] && rec.span.defPos == p) ==> HasRecord(rs + [rec], p)
  {
    var rs' := rs + [rec];
    if HasRecord(rs, p) {
      var j :| 0 <= j < |rs| && rs[j].uses != [] && rs[j].span.defPos == p;
      assert rs'[j] == rs[j];
    } else if rec.uses != [] && rec.span.defPos == p {
      assert rs'[|rs|] == rec;
    }
  }

  lemma RecordAdded(rs: seq<LiveRange>, rec: LiveRange, code: seq<Ins>, ids: seq<InsId>, out: set<RegId>, open: map<RegId, nat>, live: set<RegId>, k: nat)
    requires Walk(rs, code, ids, out, open, live, k, k, k + 1) && rec.uses != [] && rec.span.defPos == k
    requires ReadsRecorded(rs + [rec], code, ids, rec) && EndsNamed(rs + [rec], k)
    ensures Walk(rs + [rec], code, ids, out, open, live, k, k, k)
  {
    var rs' := rs + [rec];
    hide RangeRight, LiveAfter, OpenRange;
    CoverageKept(rs, rs', code, ids, out, k);
    StartsKept(rs, rs', code, ids, k);
    RecordClosed(rs, rec, code, ids, out, open, k);
    hide ReadsRecorded, CoveredFrom, SomeCovers, Starts, EndsNamed, Closed, Records;
  }

  // -- the top of the block

  /** The walk is over; the ranges in `open` still have to be finalized. */
  ghost predicate Finishing(rs: seq<LiveRange>, code: seq<Ins>, ids: seq<InsId>, out: set<RegId>, open: map<RegId, nat>) {
    && (forall r :: r in open ==> open[r] < |rs| && OpenRange(code, ids, out, rs[open[r]], r, 0))
    && (forall j :: 0 <= j < |rs| && rs[j].uses == [] && !IsOpen(open, rs, j) ==> RangeRight(code, ids, out, rs[j]))
    && CoveredFrom(rs, code, ids, out, -1) && Records(rs, code, ids, 0) && DistinctStarts(rs) && Starts(rs, code, ids, 0) && EndsNamed(rs, 0)
  }

  lemma FinishOne(rs: seq<LiveRange>, code: seq<Ins>, ids: seq<InsId>, out: set<RegId>, open: map<RegId, nat>, r: RegId, call: int)
    requires |ids| <= AFTER_BBL && Finishing(rs, code, ids, out, open) && r in open && FirstCall(code, ids, 0, call)
    ensures open[r] < |rs|
    ensures Finishing(rs[open[r] := Finalized(rs[open[r]], BEFORE_BBL, call)], code, ids, out, open - {r})
  {
    hide CoveredFrom, Records, DistinctStarts, Starts, EndsNamed, RangeRight, LiveAfter, FirstCall;
    var idx := open[r];
    assert OpenRange(code, ids, out, rs[idx], r, 0);
    var rs', open' := rs[idx := Finalized(rs[idx], BEFORE_BBL, call)], open - {r};
    FinishedRange(code, ids, out, rs[idx], r, call);
    hide OpenRange;
    forall j | 0 <= j < |rs'| && rs'[j].uses == [] && !IsOpen(open', rs', j) ensures RangeRight(code, ids, out, rs'[j]) {
      if j != idx { assert rs'[j] == rs[j] && !IsOpen(open, rs, j); }
    }
    SameSpans(rs, rs', code, ids, out);
  }

  lemma FinishedRange(code: seq<Ins>, ids: seq<InsId>, out: set<RegId>, lr: LiveRange, r: RegId, call: int)
    requires |ids| <= AFTER_BBL && OpenRange(code, ids, out, lr, r, 0) && FirstCall(code, ids, 0, call)
    ensures RangeRight(code, ids, out, Finalized(lr, BEFORE_BBL, call)) && Finalized(lr, BEFORE_BBL, call).span == lr.span
  {
    LacIsRight(code, ids, -1, call, lr.span.lastUse);
    LacFromTop(code, ids, lr.span.lastUse);
    hide LiveAfter, FirstCall, CallBetween;
  }

  lemma SameSpans(rs: seq<LiveRange>, rs': seq<LiveRange>, code: seq<Ins>, ids: seq<InsId>, out: set<RegId>)
    requires |rs'| == |rs|
    requires forall j :: 0 <= j < |rs| ==> rs'[j].span == rs[j].span && rs'[j].reg == rs[j].reg && rs'[j].uses == rs[j].uses
    requires CoveredFrom(rs, code, ids, out, -1) && Records(rs, code, ids, 0) && DistinctStarts(rs) && Starts(rs, code, ids, 0) && EndsNamed(rs, 0)
    ensures CoveredFrom(rs', code, ids, out, -1) && Records(rs', code, ids, 0) && DistinctStarts(rs') && Starts(rs', code, ids, 0)
    ensures EndsNamed(rs', 0)
  {
    hide *;
    RecordsKept(rs, rs', code, ids, 0);
    StartsKept(rs, rs', code, ids, 0);
    EndsNamedKept(rs, rs', 0);
    SameCoverage(rs, rs', code, ids, out);
    SameStarts(rs, rs');
  }

  lemma SameStarts(rs: seq<LiveRange>, rs': seq<LiveRange>)
    requires |rs'| == |rs| && DistinctStarts(rs)
    requires forall j :: 0 <= j < |rs| ==> rs'[j].span == rs[j].span && rs'[j].reg == rs[j].reg && rs'[j].uses == rs[j].uses
    ensures DistinctStarts(rs')
  {
  }

  lemma SameCoverage(rs: seq<LiveRange>, rs': seq<LiveRange>, code: seq<Ins>, ids: seq<InsId>, out: set<RegId>)
    requires |rs'| == |rs| && CoveredFrom(rs, code, ids, out, -1)
    requires forall j :: 0 <= j < |rs| ==> rs'[j].span == rs[j].span && rs'[j].reg == rs[j].reg && rs'[j].uses == rs[j].uses
    ensures CoveredFrom(rs', code, ids, out, -1)
  {
    hide LiveAfter;
    forall p, r | -1 <= p < |ids| ensures LiveAfter(code, ids, out, p, r) <==> SomeCovers(rs', r, p) {
      if SomeCovers(rs, r, p) {
        var j :| 0 <= j < |rs| && Covers(rs[j], r, p);
        assert Covers(rs'[j], r, p);
      }
      if SomeCovers(rs', r, p) {
        var j :| 0 <= j < |rs'| && Covers(rs'[j], r, p);
        assert Covers(rs[j], r, p);
      }
    }
  }

  lemma Finished(rs: seq<LiveRange>, code: seq<Ins>, ids: seq<InsId>, out: set<RegId>)
    requires Finishing(rs, code, ids, out, map[])
    ensures Describes(rs, code, ids, out) && EndsNamed(rs, 0)
  {
    hide RangeRight, OpenRange, LiveAfter, ReadsRecorded, SomeStarts, SomeCovers, EndsNamed;
    forall j | 0 <= j < |rs| && rs[j].uses == [] ensures RangeRight(code, ids, out, rs[j]) { assert !IsOpen(map[], rs, j); }
  }

  lemma WalkEnds(rs: seq<LiveRange>, code: seq<Ins>, ids: seq<InsId>, out: set<RegId>, open: map<RegId, nat>, live: set<RegId>)
    requires Walk(rs, code, ids, out, open, live, 0, 0, 0) && CoveredFrom(rs, code, ids, out, -1)
    ensures Finishing(rs, code, ids, out, open)
  {
    hide RangeRight, OpenRange, CoveredFrom, Records, DistinctStarts, Starts, EndsNamed;
  }

  // ---------------------------------------------------------------- the code

  ghost predicate JustOpened(rs: seq<LiveRange>, open: map<RegId, nat>, done: set<RegId>, kindOf: RegId -> Kind) {
    && open.Keys == done
    && (forall r :: r in open ==> open[r] < |rs|)
    && (forall j :: 0 <= j < |rs| ==> rs[j] == NewRange(rs[j].reg, kindOf(rs[j].reg), BEFORE_BBL, AFTER_BBL) && IsOpen(open, rs, j))
    && (forall r :: r in open ==> rs[open[r]].reg == r)
  }

  lemma NothingOpened(kindOf: RegId -> Kind)
    ensures JustOpened([], map[], {}, kindOf)
  {
  }

  lemma OpenOneMore(rs: seq<LiveRange>, open: map<RegId, nat>, done: set<RegId>, kindOf: RegId -> Kind, r: RegId)
    requires JustOpened(rs, open, done, kindOf) && r !in done
    ensures JustOpened(rs + [NewRange(r, kindOf(r), BEFORE_BBL, AFTER_BBL)], open[r := |rs|], done + {r}, kindOf)
  {
    var rs', open' := rs + [NewRange(r, kindOf(r), BEFORE_BBL, AFTER_BBL)], open[r := |rs|];
    forall j | 0 <= j < |rs'| ensures rs'[j] == NewRange(rs'[j].reg, kindOf(rs'[j].reg), BEFORE_BBL, AFTER_BBL) && IsOpen(open', rs', j) {
      if j < |rs| { assert IsOpen(open, rs, j) && rs'[j] == rs[j]; }
    }
  }

  lemma JustOpenedWalk(rs: seq<LiveRange>, open: map<RegId, nat>, code: seq<Ins>, ids: seq<InsId>, out: set<RegId>, kindOf: RegId -> Kind)
    requires |ids| <= AFTER_BBL && JustOpened(rs, open, out, kindOf)
    ensures Walk(rs, code, ids, out, open, out, |ids|, |ids|, |ids|) && OfKind(rs, kindOf)
  {
    hide RangeRight;
    forall i, j | 0 <= i < j < |rs| ensures rs[i].reg != rs[j].reg { assert IsOpen(open, rs, i) && IsOpen(open, rs, j); }
  }

  /** Keeps `live_out` open at the end of the block. */
  method OpenLiveOut(code: seq<Ins>, ids: seq<InsId>, out: set<RegId>, kindOf: RegId -> Kind)
    returns (rs: seq<LiveRange>, open: map<RegId, nat>)
    requires |ids| <= AFTER_BBL
    ensures Walk(rs, code, ids, out, open, out, |ids|, |ids|, |ids|)
    ensures OfKind(rs, kindOf)
  {
    rs, open := [], map[];
    var todo := out;
    ghost var done: set<RegId> := {};
    hide *;
    NothingOpened(kindOf);
    while todo != {}
      invariant done == out - todo && todo <= out && JustOpened(rs, open, done, kindOf)
      decreases |todo|
    {
      var r :| r in todo;
      OpenOneMore(rs, open, done, kindOf, r);
      rs, open := rs + [NewRange(r, kindOf(r), BEFORE_BBL, AFTER_BBL)], open[r := |rs|];
      todo, done := todo - {r}, done + {r};
    }
    assert done == out;
    JustOpenedWalk(rs, open, code, ids, out, kindOf);
  }

  /** One register that is read: its range, opened if need be, is named once. */
  method OpenRead(code: seq<Ins>, ids: seq<InsId>, ghost out: set<RegId>, kindOf: RegId -> Kind, k: nat, r: RegId, rs0: seq<LiveRange>,
                  open0: map<RegId, nat>, uses0: seq<nat>, ghost live: set<RegId>, ghost read: set<RegId>)
    returns (rs: seq<LiveRange>, open: map<RegId, nat>, uses: seq<nat>)
    requires |ids| <= AFTER_BBL && k < |ids| && Walk(rs0, code, ids, out, open0, live, k, k, k + 1)
    requires UsesReg(InsIn(code, ids, k), r) && Named(rs0, open0, uses0, read) && OfKind(rs0, kindOf)
    ensures Walk(rs, code, ids, out, open, live + {r}, k, k, k + 1) && Named(rs, open, uses, read + {r}) && OfKind(rs, kindOf)
  {
    rs, open, uses := rs0, open0, uses0;
    hide Walk, UsesReg, Named;
    if r !in open {
      OpensAt(rs, code, ids, out, open, live, k, k + 1, r, kindOf(r));
      rs, open := rs + [NewRange(r, kindOf(r), BEFORE_BBL, k)], open[r := |rs|];
    } else {
      OpenIsLive(rs, code, ids, out, open, live, k, k + 1, r);
    }
    NamedOneMore(rs0, rs, open0, open, uses, read, r);
    if open[r] !in uses { uses := uses + [open[r]]; }
  }

  /** The ranges of the registers an instruction reads, opened where needed, and their list. */
  method OpenReads(code: seq<Ins>, ids: seq<InsId>, ghost out: set<RegId>, kindOf: RegId -> Kind, k: nat, rs0: seq<LiveRange>,
                   open0: map<RegId, nat>, ghost live: set<RegId>)
    returns (rs: seq<LiveRange>, open: map<RegId, nat>, uses: seq<nat>)
    requires |ids| <= AFTER_BBL && k < |ids| && Walk(rs0, code, ids, out, open0, live, k, k, k + 1)
    requires WfIns(InsIn(code, ids, k)) && OfKind(rs0, kindOf)
    ensures Walk(rs, code, ids, out, open, live + UsesOf(InsIn(code, ids, k)), k, k, k + 1)
    ensures Named(rs, open, uses, UsesOf(InsIn(code, ids, k))) && OfKind(rs, kindOf)
  {
    var ins := InsIn(code, ids, k);
    rs, open, uses := rs0, open0, [];
    NothingRead(ins, live);
    assert NumDefs(ins.opcode) <= |ins.operands| && Named(rs, open, uses, {});
    hide *;
    for n := NumDefs(ins.opcode) to |ins.operands|
      invariant Walk(rs, code, ids, out, open, live + ReadBefore(ins, n), k, k, k + 1)
      invariant Named(rs, open, uses, ReadBefore(ins, n)) && OfKind(rs, kindOf)
    {
      ReadNext(ins, n, live);
      if ins.operands[n].RegOp? {
        var r := ins.operands[n].reg;
        OperandIsRead(ins, n);
        rs, open, uses := OpenRead(code, ids, out, kindOf, k, r, rs, open, uses, live + ReadBefore(ins, n), ReadBefore(ins, n));
      }
    }
    ReadBeforeEnd(ins);
  }

  lemma NothingRead(ins: Ins, live: set<RegId>)
    requires NumDefs(ins.opcode) <= |ins.operands|
    ensures ReadBefore(ins, NumDefs(ins.opcode)) == {} && live + {} == live
  {
  }

  lemma ReadNext(ins: Ins, n: nat, live: set<RegId>)
    requires NumDefs(ins.opcode) <= n < |ins.operands|
    ensures ins.operands[n].RegOp? ==>
      ReadBefore(ins, n + 1) == ReadBefore(ins, n) + {ins.operands[n].reg} &&
      live + ReadBefore(ins, n + 1) == live + ReadBefore(ins, n) + {ins.operands[n].reg}
    ensures !ins.operands[n].RegOp? ==> ReadBefore(ins, n + 1) == ReadBefore(ins, n)
  {
    ReadOneMore(ins, n);
    hide ReadBefore;
  }

  lemma OperandIsRead(ins: Ins, n: nat)
    requires NumDefs(ins.opcode) <= n < |ins.operands| && ins.operands[n].RegOp?
    ensures UsesReg(ins, ins.operands[n].reg)
  {
    assert ins.operands[n] == RegOp(ins.operands[n].reg);
  }

  lemma OpenIsLive(rs: seq<LiveRange>, code: seq<Ins>, ids: seq<InsId>, out: set<RegId>, open: map<RegId, nat>, live: set<RegId>,
                   k: nat, recs: nat, r: RegId)
    requires Walk(rs, code, ids, out, open, live, k, k, recs) && r in open
    ensures r in live && live + {r} == live && open[r] < |rs| && rs[open[r]].reg == r
  {
    hide Closed, CoveredFrom, Records, DistinctStarts, Starts, UsesReg, InsIn, EndsNamed;
    assert OpenRange(code, ids, out, rs[open[r]], r, k);
  }

  /** The write of an instruction, if any, starts a range. */
  method CloseWrite(code: seq<Ins>, ids: seq<InsId>, ghost out: set<RegId>, kindOf: RegId -> Kind, k: nat, rs0: seq<LiveRange>,
                    open0: map<RegId, nat>, lastCall: int)
    returns (rs: seq<LiveRange>, open: map<RegId, nat>)
    requires |ids| <= AFTER_BBL && k < |ids| && Walk(rs0, code, ids, out, open0, LiveAt(code, ids, k + 1, out), k + 1, k + 1, k + 1)
    requires CoveredFrom(rs0, code, ids, out, k)
    requires DstOf(InsIn(code, ids, k)).Some? ==> FirstCall(code, ids, k + 1, lastCall)
    requires OfKind(rs0, kindOf)
    ensures Walk(rs, code, ids, out, open, LiveAt(code, ids, k + 1, out) - DefsOf(InsIn(code, ids, k)), k, k, k + 1)
    ensures OfKind(rs, kindOf)
  {
    hide Walk, CoveredFrom, FirstCall, LiveAt, InsIn, OfKind, HasRecord;
    rs, open := rs0, open0;
    ghost var live := LiveAt(code, ids, k + 1, out);
    var ins := InsIn(code, ids, k);
    match DstOf(ins) {
      case None =>
        NoDefAt(rs, code, ids, out, open, live, k);
        assert live - DefsOf(ins) == live;
      case Some(r) =>
        assert DefsOf(ins) == {r};
        if r in open {
          ClosesAt(rs, code, ids, out, open, live, k, r, lastCall);
          OpenHasIndex(rs, code, ids, out, open, live, k + 1, r);
          FinalizedKind(rs, kindOf, open[r], k, lastCall);
          rs, open := rs[open[r] := Finalized(rs[open[r]], k, lastCall)], open - {r};
        } else {
          NewKind(rs, kindOf, r, k, NO_USE);
          DeadAt(rs, code, ids, out, open, live, k, r, kindOf(r));
          rs := rs + [NewRange(r, kindOf(r), k, NO_USE)];
        }
    }
    hide DstOf, DefsOf;
  }

  lemma FinalizedKind(rs: seq<LiveRange>, kindOf: RegId -> Kind, j: nat, defPos: int, call: int)
    requires OfKind(rs, kindOf) && j < |rs|
    ensures OfKind(rs[j := Finalized(rs[j], defPos, call)], kindOf)
  {
  }

  lemma NewKind(rs: seq<LiveRange>, kindOf: RegId -> Kind, r: RegId, defPos: int, lastUse: int)
    requires OfKind(rs, kindOf)
    ensures OfKind(rs + [NewRange(r, kindOf(r), defPos, lastUse)], kindOf)
  {
  }

  lemma OpenHasIndex(rs: seq<LiveRange>, code: seq<Ins>, ids: seq<InsId>, out: set<RegId>, open: map<RegId, nat>, live: set<RegId>,
                     k: nat, r: RegId)
    requires Walk(rs, code, ids, out, open, live, k, k, k) && r in open
    ensures open[r] < |rs|
  {
    hide Closed, CoveredFrom, Records, DistinctStarts, Starts, OpenRange, EndsNamed;
  }

  /** One instruction of the walk: its write, its reads, and the record of the reads. */
  method WalkIns(code: seq<Ins>, ids: seq<InsId>, ghost out: set<RegId>, kindOf: RegId -> Kind, k: nat, rs0: seq<LiveRange>,
                 open0: map<RegId, nat>, lastCall: int)
    returns (rs: seq<LiveRange>, open: map<RegId, nat>)
    requires |ids| <= AFTER_BBL && k < |ids| && Walk(rs0, code, ids, out, open0, LiveAt(code, ids, k + 1, out), k + 1, k + 1, k + 1)
    requires CoveredFrom(rs0, code, ids, out, k)
    requires DstOf(InsIn(code, ids, k)).Some? ==> FirstCall(code, ids, k + 1, lastCall)
    requires WfIns(InsIn(code, ids, k)) && OfKind(rs0, kindOf)
    ensures Walk(rs, code, ids, out, open, LiveAt(code, ids, k, out), k, k, k)
    ensures CoveredFrom(rs, code, ids, out, k - 1) && OfKind(rs, kindOf)
  {
    hide *;
    ghost var live := LiveAt(code, ids, k + 1, out) - DefsOf(InsIn(code, ids, k));
    LiveHere(code, ids, k, out);
    rs, open := CloseWrite(code, ids, out, kindOf, k, rs0, open0, lastCall);
    var uses: seq<nat>;
    rs, open, uses := OpenReads(code, ids, out, kindOf, k, rs, open, live);
    if uses != [] {
      var rec := LiveRange(Span(k, k), RegNo(0), Gpr, uses, false, false, false, Unassigned);
      RecordAt(rs, code, ids, out, open, LiveAt(code, ids, k, out), k, rec);
      RecordHasNoKind(rs, rec, kindOf);
      rs := rs + [rec];
    } else {
      RecordsNothing(rs, code, ids, out, open, LiveAt(code, ids, k, out), k);
    }
    CoverageAt(rs, code, ids, out, open, k);
  }

  lemma RecordHasNoKind(rs: seq<LiveRange>, rec: LiveRange, kindOf: RegId -> Kind)
    requires OfKind(rs, kindOf) && rec.uses != [] && !rec.preAlloc && !rec.ignore && rec.loc == Unassigned
    ensures OfKind(rs + [rec], kindOf)
  {
  }

  /** The ranges still open reach back to the start of the block. */
  method FinalizeOpen(code: seq<Ins>, ids: seq<InsId>, ghost out: set<RegId>, kindOf: RegId -> Kind, rs0: seq<LiveRange>,
                      open0: map<RegId, nat>, lastCall: int)
    returns (rs: seq<LiveRange>)
    requires |ids| <= AFTER_BBL && Finishing(rs0, code, ids, out, open0) && FirstCall(code, ids, 0, lastCall) && OfKind(rs0, kindOf)
    ensures Describes(rs, code, ids, out) && OfKind(rs, kindOf) && EndsNamed(rs, 0)
  {
    var open: map<RegId, nat> := open0;
    rs := rs0;
    hide Finishing, FirstCall, Describes, EndsNamed;
    while open != map[]
      invariant Finishing(rs, code, ids, out, open) && OfKind(rs, kindOf)
      decreases |open|
    {
      var r :| r in open;
      FinishOne(rs, code, ids, out, open, r, lastCall);
      rs, open := rs[open[r] := Finalized(rs[open[r]], BEFORE_BBL, lastCall)], open - {r};
    }
    Finished(rs, code, ids, out);
  }

  /** What is live where in a block, as ranges, in no particular order. */
  method BblGetLiveRanges(code: seq<Ins>, ids: seq<InsId>, out: set<RegId>, kindOf: RegId -> Kind) returns (rs: seq<LiveRange>)
    requires |ids| <= AFTER_BBL && forall i :: i in ids ==> WfIns(InsAt(code, i))
    ensures Describes(rs, code, ids, out) && OfKind(rs, kindOf) && EndsNamed(rs, 0)
  {
    var open: map<RegId, nat>;
    rs, open := OpenLiveOut(code, ids, out, kindOf);
    var lastCall := -1;
    CallsAtEnd(code, ids);
    LiveAtEnd(code, ids, out);
    CoverageAt(rs, code, ids, out, open, |ids|);
    hide Walk, CoveredFrom, FirstCall, LiveAt, WfIns, OfKind, DstOf, Describes, IsCall, InsAt, Finishing, EndsNamed;
    for k := |ids| downto 0
      invariant Walk(rs, code, ids, out, open, LiveAt(code, ids, k, out), k, k, k)
      invariant CoveredFrom(rs, code, ids, out, k - 1) && FirstCall(code, ids, k, lastCall) && OfKind(rs, kindOf)
    {
      assert ids[k] in ids;
      CallsAbove(code, ids, k, lastCall);
      if IsCall(InsIn(code, ids, k).opcode) { lastCall := k; }
      rs, open := WalkIns(code, ids, out, kindOf, k, rs, open, lastCall);
    }
    WalkEnds(rs, code, ids, out, open, LiveAt(code, ids, 0, out));
    rs := FinalizeOpen(code, ids, out, kindOf, rs, open, lastCall);
  }

  lemma LiveAtEnd(code: seq<Ins>, ids: seq<InsId>, out: set<RegId>)
    ensures LiveAt(code, ids, |ids|, out) == out
  {
  }

  lemma CoverageAt(rs: seq<LiveRange>, code: seq<Ins>, ids: seq<InsId>, out: set<RegId>, open: map<RegId, nat>, k: nat)
    requires |ids| <= AFTER_BBL && k <= |ids| && Walk(rs, code, ids, out, open, LiveAt(code, ids, k, out), k, k, k)
    ensures CoveredFrom(rs, code, ids, out, k - 1)
  {
    hide Opens, Closed, CoveredFrom, Records, DistinctStarts, Starts, LiveAt, EndsNamed;
    CoverageBefore(rs, code, ids, out, open, k);
  }

  lemma CallsAtEnd(code: seq<Ins>, ids: seq<InsId>)
    ensures FirstCall(code, ids, |ids|, -1)
  {
  }

  lemma CallsAbove(code: seq<Ins>, ids: seq<InsId>, k: nat, call: int)
    requires k < |ids| && FirstCall(code, ids, k + 1, call)
    ensures FirstCall(code, ids, k, if IsCall(InsIn(code, ids, k).opcode) then k else call)
    ensures IsCall(InsIn(code, ids, k).opcode) ==> DstOf(InsIn(code, ids, k)) == None
  {
  }

  lemma LiveHere(code: seq<Ins>, ids: seq<InsId>, k: nat, out: set<RegId>)
    requires k < |ids|
    ensures LiveAt(code, ids, k, out) == LiveAt(code, ids, k + 1, out) - DefsOf(InsIn(code, ids, k)) + UsesOf(InsIn(code, ids, k))
  {
    hide UsesOf, DefsOf, InsAt;
  }

  lemma RecordsNothing(rs: seq<LiveRange>, code: seq<Ins>, ids: seq<InsId>, out: set<RegId>, open: map<RegId, nat>, live: set<RegId>, k: nat)
    requires Walk(rs, code, ids, out, open, live, k, k, k + 1)
    requires k < |ids| <= AFTER_BBL && Named(rs, open, [], UsesOf(InsIn(code, ids, k)))
    ensures Walk(rs, code, ids, out, open, live, k, k, k)
  {
    EndsNamedNow(rs, rs, code, ids, out, open, live, k, []);
    hide Opens, Closed, CoveredFrom, DistinctStarts, Starts, ReadsRecorded, EndsNamed;
  }
}
