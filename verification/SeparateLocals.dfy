/** Giving every separate use of a local register a register of its own. Afterwards whatever lives
    within a block is set by one instruction only, which is what register allocation builds on. */
module SeparateLocals {
  import opened IR
  import opened Liveness

  /** The registers that instructions got instead of the one they wrote. */
  type Names = map<InsId, RegId>

  function DstName(names: Names, i: InsId, r: RegId): RegId { if i in names then names[i] else r }

  /** The name by which position k of a block finds the value of register q, when the positions below
      `pos` are renamed. */
  function NameOf(code: seq<Ins>, ids: seq<InsId>, names: Names, pos: nat, k: nat, q: RegId): RegId
    requires k <= |ids|
  {
    if k == 0 then q
    else if DstOf(InsAt(code, ids[k - 1])) == Some(q) then (if k - 1 < pos then DstName(names, ids[k - 1], q) else q)
    else NameOf(code, ids, names, pos, k - 1, q)
  }

  function RenamedOp(code: seq<Ins>, ids: seq<InsId>, names: Names, pos: nat, k: nat, n: nat): Operand
    requires k < |ids| && n < |InsAt(code, ids[k]).operands|
  {
    var ins := InsAt(code, ids[k]);
    var op := ins.operands[n];
    if !op.RegOp? then op
    else if n < NumDefs(ins.opcode) then RegOp(if k < pos then DstName(names, ids[k], op.reg) else op.reg)
    else RegOp(NameOf(code, ids, names, pos, k, op.reg))
  }

  /** Instruction k of a block renamed. */
  function Renamed(code: seq<Ins>, ids: seq<InsId>, names: Names, pos: nat, k: nat): Ins
    requires k < |ids|
  {
    var ins := InsAt(code, ids[k]);
    ins.(operands := seq(|ins.operands|, n requires 0 <= n < |ins.operands| => RenamedOp(code, ids, names, pos, k, n)))
  }

  ghost predicate RenamedTo(code: seq<Ins>, code': seq<Ins>, ids: seq<InsId>, names: Names, pos: nat) {
    forall k: nat :: k < |ids| ==> InsAt(code', ids[k]) == Renamed(code, ids, names, pos, k)
  }

  predicate Distinct(ids: seq<InsId>) { forall i, j :: 0 <= i < j < |ids| ==> ids[i] != ids[j] }

  /** Position pos gets renamed, the positions before keep their names. */
  ghost predicate OneMoreName(ids: seq<InsId>, names: Names, names': Names, pos: nat)
    requires pos < |ids|
  {
    forall i :: i != ids[pos] ==> (i in names' <==> i in names) && (i in names ==> names'[i] == names[i])
  }

  lemma {:induction false} NameStep(code: seq<Ins>, ids: seq<InsId>, names: Names, names': Names, pos: nat, k: nat, q: RegId)
    requires pos < |ids| && k <= |ids| && Distinct(ids) && OneMoreName(ids, names, names', pos)
    ensures k <= pos ==> NameOf(code, ids, names', pos + 1, k, q) == NameOf(code, ids, names, pos, k, q)
    ensures k > pos ==>
      NameOf(code, ids, names', pos + 1, k, q) ==
      (if DstOf(InsAt(code, ids[pos])) == Some(q) && !DefinedIn(code, ids, pos + 1, k, q) then DstName(names', ids[pos], q)
       else NameOf(code, ids, names, pos, k, q))
  {
    hide InsAt, DstOf, DefinedIn;
    if k > pos + 1 {
      NameStep(code, ids, names, names', pos, k - 1, q);
      DefinedUpTo(code, ids, pos + 1, k, q);
    } else if k == pos + 1 {
      NameStep(code, ids, names, names', pos, k - 1, q);
      NothingDefined(code, ids, pos + 1, q);
    } else if k > 0 {
      NameStep(code, ids, names, names', pos, k - 1, q);
    }
  }

  lemma DefinedUpTo(code: seq<Ins>, ids: seq<InsId>, from: nat, to: nat, q: RegId)
    requires from < to <= |ids|
    ensures DefinedIn(code, ids, from, to, q) <==> DefinedIn(code, ids, from, to - 1, q) || DstOf(InsAt(code, ids[to - 1])) == Some(q)
  {
    hide InsAt, DstOf;
    if DefinedIn(code, ids, from, to, q) && DstOf(InsAt(code, ids[to - 1])) != Some(q) {
      var j: nat :| from <= j < to && DstOf(InsAt(code, ids[j])) == Some(q);
      assert j < to - 1;
    }
  }

  /** A name is the register itself or a new one. */
  lemma {:induction false} NameIsOwnOrNew(code: seq<Ins>, ids: seq<InsId>, names: Names, pos: nat, k: nat, q: RegId)
    requires k <= |ids|
    ensures var x := NameOf(code, ids, names, pos, k, q);
      x == q || exists j: nat :: j < k && j < pos && DstOf(InsAt(code, ids[j])) == Some(q) && ids[j] in names && names[ids[j]] == x
  {
    hide InsAt, DstOf;
    if k > 0 { NameIsOwnOrNew(code, ids, names, pos, k - 1, q); }
  }

  /** After a position that is still to be renamed, its register goes by its own name. */
  lemma {:induction false} OwnNameAfter(code: seq<Ins>, ids: seq<InsId>, names: Names, pos: nat, k: nat, q: RegId)
    requires pos < k <= |ids| && DstOf(InsAt(code, ids[pos])) == Some(q)
    ensures NameOf(code, ids, names, pos, k, q) == q
  {
    hide InsAt, DstOf;
    if k > pos + 1 { OwnNameAfter(code, ids, names, pos, k - 1, q); }
  }

  // ---------------------------------------------------------------- which, and to what

  /** An instruction gets a new register unless its own may be seen outside the block, or it is the
      first to set it. */
  predicate MustRename(code: seq<Ins>, kept: set<RegId>, defIns: map<RegId, InsId>, i: InsId) {
    match DstOf(InsAt(code, i))
    case None => false
    case Some(r) => r !in kept && !(r in defIns && defIns[r] == i)
  }

  ghost predicate NamesFor(names: Names, code: seq<Ins>, kept: set<RegId>, defIns: map<RegId, InsId>, seen: set<InsId>) {
    forall i :: i in names <==> i in seen && MustRename(code, kept, defIns, i)
  }

  /** New registers are unlike any other and unlike each other. */
  predicate Fresh(names: Names, base: nat, next: nat) {
    && (forall i :: i in names ==> base <= names[i].no < next)
    && (forall i, j :: i in names && j in names && i != j ==> names[i] != names[j])
  }

  predicate OpsBelow(ins: Ins, base: nat) {
    forall n :: 0 <= n < |ins.operands| && ins.operands[n].RegOp? ==> ins.operands[n].reg.no < base
  }

  predicate RegsBelow(code: seq<Ins>, base: nat) {
    forall i :: 0 <= i < |code| ==> OpsBelow(code[i], base)
  }

  // ---------------------------------------------------------------- the code

  function SubstOp(op: Operand, src: RegId, dst: RegId): Operand { if op == RegOp(src) then RegOp(dst) else op }

  /** The instruction with its reads of src turned into reads of dst. */
  function Subst(ins: Ins, src: RegId, dst: RegId): Ins {
    ins.(operands := seq(|ins.operands|, n requires 0 <= n < |ins.operands| =>
                           if n < NumDefs(ins.opcode) then ins.operands[n] else SubstOp(ins.operands[n], src, dst)))
  }

  method InsRenameReg(ins0: Ins, src: RegId, dst: RegId) returns (ins: Ins, done: bool)
    requires WfIns(ins0)
    ensures ins == Subst(ins0, src, dst) && (done <==> DstOf(ins0) == Some(src))
  {
    ins, done := ins0, false;
    for n := 0 to |ins0.operands|
      invariant ins == ins0.(operands := ins.operands) && |ins.operands| == |ins0.operands|
      invariant forall j :: 0 <= j < |ins.operands| ==> ins.operands[j] == if j < n then Subst(ins0, src, dst).operands[j] else ins0.operands[j]
      invariant done <==> n > 0 && DstOf(ins0) == Some(src)
    {
      if ins.operands[n] == RegOp(src) {
        if n < NumDefs(ins.opcode) {
          done := true;
        } else {
          ins := ins.(operands := ins.operands[n := RegOp(dst)]);
        }
      }
    }
  }

  ghost predicate InRange(ids: seq<InsId>, code: seq<Ins>) { forall i :: i in ids ==> i < |code| && WfIns(code[i]) }

  /** Reads of src from position `from` on, up to those of the next instruction that sets it. */
  ghost predicate SubstFrom(code: seq<Ins>, code': seq<Ins>, ids: seq<InsId>, from: nat, to: nat, src: RegId, dst: RegId)
    requires from <= to <= |ids|
  {
    && |code'| == |code|
    && (forall i :: i !in ids ==> InsAt(code', i) == InsAt(code, i))
    && (forall k: nat :: k < |ids| ==>
          InsAt(code', ids[k]) ==
          if k < from || to <= k || DefinedIn(code, ids, from, k, src) then InsAt(code, ids[k]) else Subst(InsAt(code, ids[k]), src, dst))
  }

  method BblRenameReg(fun: Fun, ids: seq<InsId>, pos: nat, src: RegId, dst: RegId)
    requires pos <= |ids| && Distinct(ids) && InRange(ids, fun.code)
    modifies fun`code
    ensures SubstFrom(old(fun.code), fun.code, ids, pos, |ids|, src, dst)
  {
    ghost var code := fun.code;
    SubstStarts(code, ids, pos, src, dst);
    NothingDefined(code, ids, pos, src);
    hide SubstFrom, DefinedIn, WfIns, DstOf, Distinct;
    for k := pos to |ids|
      invariant SubstFrom(code, fun.code, ids, pos, k, src, dst) && !DefinedIn(code, ids, pos, k, src)
    {
      InBlock(code, fun.code, ids, pos, k, src, dst);
      var ins, done := InsRenameReg(fun.code[ids[k]], src, dst);
      ghost var before := fun.code;
      fun.code := fun.code[ids[k] := ins];
      SubstOneMore(code, before, ids, pos, k, src, dst);
      DefinedUpTo(code, ids, pos, k + 1, src);
      if done {
        SubstEnds(code, fun.code, ids, pos, k + 1, src, dst);
        return;
      }
    }
  }

  lemma SubstStarts(code: seq<Ins>, ids: seq<InsId>, pos: nat, src: RegId, dst: RegId)
    requires pos <= |ids|
    ensures SubstFrom(code, code, ids, pos, pos, src, dst)
  {
    hide DefinedIn;
  }

  lemma InBlock(code: seq<Ins>, code': seq<Ins>, ids: seq<InsId>, pos: nat, k: nat, src: RegId, dst: RegId)
    requires InRange(ids, code) && pos <= k < |ids| && SubstFrom(code, code', ids, pos, k, src, dst)
    ensures ids[k] < |code'| == |code| && code'[ids[k]] == InsAt(code, ids[k]) && WfIns(code'[ids[k]])
  {
    assert ids[k] in ids;
    assert InsAt(code', ids[k]) == InsAt(code, ids[k]);
    hide DefinedIn, WfIns;
  }

  lemma SubstOneMore(code: seq<Ins>, code': seq<Ins>, ids: seq<InsId>, pos: nat, k: nat, src: RegId, dst: RegId)
    requires Distinct(ids) && InRange(ids, code) && pos <= k < |ids| && SubstFrom(code, code', ids, pos, k, src, dst)
    requires !DefinedIn(code, ids, pos, k, src) && ids[k] < |code'|
    ensures SubstFrom(code, code'[ids[k] := Subst(InsAt(code, ids[k]), src, dst)], ids, pos, k + 1, src, dst)
  {
    hide DefinedIn, Subst, WfIns;
    var code'' := code'[ids[k] := Subst(InsAt(code, ids[k]), src, dst)];
    forall i ensures InsAt(code'', i) == if i == ids[k] then Subst(InsAt(code, ids[k]), src, dst) else InsAt(code', i) {}
    hide InsAt;
    forall j: nat | j < |ids| && j != k ensures ids[j] != ids[k] {}
    assert ids[k] in ids;
  }

  lemma SubstEnds(code: seq<Ins>, code': seq<Ins>, ids: seq<InsId>, pos: nat, k: nat, src: RegId, dst: RegId)
    requires pos <= k <= |ids| && SubstFrom(code, code', ids, pos, k, src, dst) && DefinedIn(code, ids, pos, k, src)
    ensures SubstFrom(code, code', ids, pos, |ids|, src, dst)
  {
    hide InsAt, Subst, DstOf;
    forall j: nat | k <= j < |ids| ensures DefinedIn(code, ids, pos, j, src) {
      var x: nat :| pos <= x < k && DstOf(InsAt(code, ids[x])) == Some(src);
    }
    hide DefinedIn;
  }

  // ---------------------------------------------------------------- one block

  lemma OpBelow(code: seq<Ins>, base: nat, i: InsId, n: nat)
    requires RegsBelow(code, base) && n < |InsAt(code, i).operands| && InsAt(code, i).operands[n].RegOp?
    ensures InsAt(code, i).operands[n].reg.no < base
  {
    if i < |code| { assert OpsBelow(code[i], base); }
  }

  lemma DstBelow(code: seq<Ins>, base: nat, i: InsId)
    requires RegsBelow(code, base) && DstOf(InsAt(code, i)).Some?
    ensures DstOf(InsAt(code, i)).value.no < base
  {
    OpBelow(code, base, i, 0);
  }

  /** How the operands change when position pos is renamed. */
  lemma OpStep(code: seq<Ins>, ids: seq<InsId>, names: Names, names': Names, pos: nat, k: nat, n: nat, base: nat, next: nat)
    requires pos < |ids| && k < |ids| && n < |InsAt(code, ids[k]).operands|
    requires Distinct(ids) && RegsBelow(code, base) && Fresh(names, base, next) && OneMoreName(ids, names, names', pos)
    ensures k != pos && n < NumDefs(InsAt(code, ids[k]).opcode) ==>
      RenamedOp(code, ids, names', pos + 1, k, n) == RenamedOp(code, ids, names, pos, k, n)
    ensures k <= pos && NumDefs(InsAt(code, ids[k]).opcode) <= n ==>
      RenamedOp(code, ids, names', pos + 1, k, n) == RenamedOp(code, ids, names, pos, k, n)
    ensures k > pos && NumDefs(InsAt(code, ids[k]).opcode) <= n ==>
      RenamedOp(code, ids, names', pos + 1, k, n) ==
      match DstOf(InsAt(code, ids[pos]))
      case None => RenamedOp(code, ids, names, pos, k, n)
      case Some(r) =>
        if DefinedIn(code, ids, pos + 1, k, r) then RenamedOp(code, ids, names, pos, k, n)
        else SubstOp(RenamedOp(code, ids, names, pos, k, n), r, DstName(names', ids[pos], r))
  {
    var op := InsAt(code, ids[k]).operands[n];
    hide DefinedIn;
    assert k != pos ==> ids[k] != ids[pos];
    if op.RegOp? && NumDefs(InsAt(code, ids[k]).opcode) <= n {
      NameStep(code, ids, names, names', pos, k, op.reg);
      if k > pos && DstOf(InsAt(code, ids[pos])).Some? {
        var r := DstOf(InsAt(code, ids[pos])).value;
        NameMeets(code, ids, names, pos, k, op.reg, r, base, next);
      }
      hide InsAt, NameOf, DstOf;
    }
  }

  /** Only r itself goes by the name r where r is about to be renamed. */
  lemma NameMeets(code: seq<Ins>, ids: seq<InsId>, names: Names, pos: nat, k: nat, q: RegId, r: RegId, base: nat, next: nat)
    requires pos < k <= |ids| && RegsBelow(code, base) && Fresh(names, base, next) && DstOf(InsAt(code, ids[pos])) == Some(r)
    ensures NameOf(code, ids, names, pos, k, q) == r <==> q == r
  {
    DstBelow(code, base, ids[pos]);
    hide InsAt, DstOf, RegsBelow;
    if q == r { OwnNameAfter(code, ids, names, pos, k, q); } else { NameIsOwnOrNew(code, ids, names, pos, k, q); }
    hide NameOf;
  }

  lemma RenamedKeepsForm(code: seq<Ins>, ids: seq<InsId>, names: Names, pos: nat, k: nat)
    requires k < |ids|
    ensures WfIns(InsAt(code, ids[k])) ==> WfIns(Renamed(code, ids, names, pos, k))
    ensures k >= pos ==> DstOf(Renamed(code, ids, names, pos, k)) == DstOf(InsAt(code, ids[k]))
  {
    hide NameOf, InsAt;
  }

  lemma StillDefined(code: seq<Ins>, code': seq<Ins>, ids: seq<InsId>, names: Names, pos: nat, from: nat, to: nat, r: RegId)
    requires RenamedTo(code, code', ids, names, pos) && pos <= from <= to <= |ids|
    ensures DefinedIn(code', ids, from, to, r) <==> DefinedIn(code, ids, from, to, r)
  {
    forall j: nat | from <= j < to ensures DstOf(InsAt(code', ids[j])) == DstOf(InsAt(code, ids[j])) {
      RenamedKeepsForm(code, ids, names, pos, j);
    }
    hide InsAt, DstOf, Renamed;
    if DefinedIn(code, ids, from, to, r) {
      var j: nat :| from <= j < to && DstOf(InsAt(code, ids[j])) == Some(r);
      assert DstOf(InsAt(code', ids[j])) == Some(r);
    }
  }

  /** A position that keeps its name, or sets nothing. */
  lemma KeepStep(code: seq<Ins>, code': seq<Ins>, ids: seq<InsId>, names: Names, pos: nat, base: nat, next: nat)
    requires pos < |ids| && ids[pos] !in names && RenamedTo(code, code', ids, names, pos)
    requires Distinct(ids) && RegsBelow(code, base) && Fresh(names, base, next)
    ensures RenamedTo(code, code', ids, names, pos + 1)
  {
    forall k: nat | k < |ids| ensures Renamed(code, ids, names, pos + 1, k) == Renamed(code, ids, names, pos, k) {
      forall n: nat | n < |InsAt(code, ids[k]).operands| ensures RenamedOp(code, ids, names, pos + 1, k, n) == RenamedOp(code, ids, names, pos, k, n) {
        OpStep(code, ids, names, names, pos, k, n, base, next);
        hide NameOf, InsAt, DefinedIn, RegsBelow;
      }
      hide RenamedOp, RegsBelow, InsAt;
    }
    hide Renamed, RegsBelow;
  }

  function WithDst(ins: Ins, d: RegId): Ins
    requires DstOf(ins).Some?
  {
    ins.(operands := ins.operands[0 := RegOp(d)])
  }

  /** The new name at pos itself, and in what follows. */
  lemma NewNameStep(code: seq<Ins>, code0: seq<Ins>, code1: seq<Ins>, code2: seq<Ins>, ids: seq<InsId>, names: Names, pos: nat,
                    r: RegId, d: RegId, base: nat, next: nat)
    requires pos < |ids| && RenamedTo(code, code0, ids, names, pos) && ids[pos] !in names && ids[pos] < |code0|
    requires Distinct(ids) && RegsBelow(code, base) && Fresh(names, base, next)
    requires DstOf(InsAt(code0, ids[pos])) == Some(r) && code1 == code0[ids[pos] := WithDst(code0[ids[pos]], d)]
    requires SubstFrom(code1, code2, ids, pos + 1, |ids|, r, d)
    ensures RenamedTo(code, code2, ids, names[ids[pos] := d], pos + 1)
  {
    var names' := names[ids[pos] := d];
    RenamedKeepsForm(code, ids, names, pos, pos);
    forall k: nat | k < |ids| ensures InsAt(code2, ids[k]) == Renamed(code, ids, names', pos + 1, k) {
      hide DefinedIn, RegsBelow;
      assert k != pos ==> ids[k] != ids[pos];
      if k > pos { DefinedAfter(code, code0, code1, ids, names, pos, k, r); }
      NewNameAt(code, ids, names, pos, k, r, d, base, next);
      hide Renamed, Subst, WithDst, DstOf, NumDefs, Fresh, Distinct;
    }
  }

  lemma DefinedAfter(code: seq<Ins>, code0: seq<Ins>, code1: seq<Ins>, ids: seq<InsId>, names: Names, pos: nat, k: nat, r: RegId)
    requires pos < k <= |ids| && RenamedTo(code, code0, ids, names, pos) && Distinct(ids)
    requires |code1| == |code0| && forall i :: i != ids[pos] ==> InsAt(code1, i) == InsAt(code0, i)
    ensures DefinedIn(code1, ids, pos + 1, k, r) <==> DefinedIn(code, ids, pos + 1, k, r)
  {
    StillDefined(code, code0, ids, names, pos, pos + 1, k, r);
    hide RenamedTo, InsAt, DstOf;
    forall j: nat | pos + 1 <= j < k ensures InsAt(code1, ids[j]) == InsAt(code0, ids[j]) {}
    if DefinedIn(code0, ids, pos + 1, k, r) {
      var j: nat :| pos + 1 <= j < k && DstOf(InsAt(code0, ids[j])) == Some(r);
      assert DstOf(InsAt(code1, ids[j])) == Some(r);
    }
  }

  lemma NewNameAt(code: seq<Ins>, ids: seq<InsId>, names: Names, pos: nat, k: nat, r: RegId, d: RegId, base: nat, next: nat)
    requires pos < |ids| && k < |ids| && ids[pos] !in names && DstOf(InsAt(code, ids[pos])) == Some(r)
    requires Distinct(ids) && RegsBelow(code, base) && Fresh(names, base, next)
    ensures DstOf(Renamed(code, ids, names, pos, pos)) == Some(r)
    ensures var was, now := Renamed(code, ids, names, pos, k), Renamed(code, ids, names[ids[pos] := d], pos + 1, k);
      now == if k < pos then was else if k == pos then WithDst(was, d) else if DefinedIn(code, ids, pos + 1, k, r) then was else Subst(was, r, d)
  {
    var names' := names[ids[pos] := d];
    RenamedKeepsForm(code, ids, names, pos, pos);
    var was, now := Renamed(code, ids, names, pos, k), Renamed(code, ids, names', pos + 1, k);
    var what := if k < pos then was else if k == pos then WithDst(was, d) else if DefinedIn(code, ids, pos + 1, k, r) then was else Subst(was, r, d);
    forall n: nat | n < |InsAt(code, ids[k]).operands| ensures now.operands[n] == what.operands[n] {
      OpStep(code, ids, names, names', pos, k, n, base, next);
      hide NameOf, InsAt, DefinedIn, RegsBelow, Fresh;
    }
    assert now.operands == what.operands;
    hide NameOf, InsAt, DefinedIn, RegsBelow, RenamedOp;
  }

  function Below(ids: seq<InsId>, pos: nat): set<InsId>
    requires pos <= |ids|
  {
    set k | 0 <= k < pos :: ids[k]
  }

  lemma BelowNext(ids: seq<InsId>, pos: nat)
    requires pos < |ids|
    ensures Below(ids, pos + 1) == Below(ids, pos) + {ids[pos]}
    ensures Distinct(ids) ==> ids[pos] !in Below(ids, pos)
  {
  }

  /** Code where the block has its new names up to pos, and the names given so far. */
  ghost predicate Midway(code: seq<Ins>, code': seq<Ins>, ids: seq<InsId>, kept: set<RegId>, defIns: map<RegId, InsId>,
                         names: Names, seen: set<InsId>, pos: nat, base: nat, next: nat)
    requires pos <= |ids|
  {
    && |code'| == |code| && RenamedTo(code, code', ids, names, pos) && base <= next
    && Fresh(names, base, next) && NamesFor(names, code, kept, defIns, seen + Below(ids, pos))
  }

  lemma MidwayStarts(code: seq<Ins>, code': seq<Ins>, ids: seq<InsId>, kept: set<RegId>, defIns: map<RegId, InsId>,
                     names: Names, seen: set<InsId>, base: nat, next: nat)
    requires |code'| == |code| && (forall i :: i in ids ==> InsAt(code', i) == InsAt(code, i)) && base <= next
    requires Fresh(names, base, next) && NamesFor(names, code, kept, defIns, seen)
    requires forall i :: i in ids ==> i !in seen
    ensures Midway(code, code', ids, kept, defIns, names, seen, 0, base, next)
  {
    assert seen + Below(ids, 0) == seen;
    forall k: nat | k < |ids| ensures InsAt(code', ids[k]) == Renamed(code, ids, names, 0, k) {
      assert ids[k] in ids;
      forall n: nat | n < |InsAt(code, ids[k]).operands| ensures RenamedOp(code, ids, names, 0, k, n) == InsAt(code, ids[k]).operands[n] {
        if InsAt(code, ids[k]).operands[n].RegOp? { NameIsOwnOrNew(code, ids, names, 0, k, InsAt(code, ids[k]).operands[n].reg); }
        hide NameOf, DstOf, InsAt;
      }
      assert Renamed(code, ids, names, 0, k).operands == InsAt(code, ids[k]).operands;
      hide RenamedOp;
    }
    hide Renamed, MustRename;
  }

  lemma MidwayIns(code: seq<Ins>, code': seq<Ins>, ids: seq<InsId>, kept: set<RegId>, defIns: map<RegId, InsId>,
                  names: Names, seen: set<InsId>, pos: nat, base: nat, next: nat)
    requires pos < |ids| && InRange(ids, code) && Distinct(ids) && Midway(code, code', ids, kept, defIns, names, seen, pos, base, next)
    requires ids[pos] !in seen
    ensures ids[pos] < |code'| && ids[pos] !in names && DstOf(code'[ids[pos]]) == DstOf(InsAt(code, ids[pos])) && InRange(ids, code')
  {
    forall k: nat | k < |ids| ensures ids[k] < |code'| && WfIns(code'[ids[k]]) {
      assert ids[k] in ids;
      RenamedKeepsForm(code, ids, names, pos, k);
      hide Renamed, WfIns, Fresh, NamesFor, Distinct;
    }
    assert InsAt(code', ids[pos]) == Renamed(code, ids, names, pos, pos);
    RenamedKeepsForm(code, ids, names, pos, pos);
    BelowNext(ids, pos);
    hide Renamed, WfIns, MustRename, InsAt, DstOf, Below, Fresh;
  }

  lemma MidwayKeeps(code: seq<Ins>, code': seq<Ins>, ids: seq<InsId>, kept: set<RegId>, defIns: map<RegId, InsId>,
                    names: Names, seen: set<InsId>, pos: nat, base: nat, next: nat)
    requires pos < |ids| && Distinct(ids) && RegsBelow(code, base) && Midway(code, code', ids, kept, defIns, names, seen, pos, base, next)
    requires ids[pos] !in names && !MustRename(code, kept, defIns, ids[pos])
    ensures Midway(code, code', ids, kept, defIns, names, seen, pos + 1, base, next)
  {
    KeepStep(code, code', ids, names, pos, base, next);
    BelowNext(ids, pos);
    hide RenamedTo, RegsBelow, MustRename, Below, Fresh;
  }

  lemma MidwayRenames(code: seq<Ins>, code0: seq<Ins>, code1: seq<Ins>, code2: seq<Ins>, ids: seq<InsId>, kept: set<RegId>,
                      defIns: map<RegId, InsId>, names: Names, seen: set<InsId>, pos: nat, base: nat, next: nat, r: RegId)
    requires pos < |ids| && Distinct(ids) && RegsBelow(code, base) && Midway(code, code0, ids, kept, defIns, names, seen, pos, base, next)
    requires ids[pos] !in names && MustRename(code, kept, defIns, ids[pos]) && ids[pos] < |code0|
    requires DstOf(code0[ids[pos]]) == Some(r) && code1 == code0[ids[pos] := WithDst(code0[ids[pos]], RegNo(next))]
    requires SubstFrom(code1, code2, ids, pos + 1, |ids|, r, RegNo(next))
    ensures Midway(code, code2, ids, kept, defIns, names[ids[pos] := RegNo(next)], seen, pos + 1, base, next + 1)
  {
    NewNameStep(code, code0, code1, code2, ids, names, pos, r, RegNo(next), base, next);
    BelowNext(ids, pos);
    assert |code2| == |code1|;
    hide RenamedTo, RegsBelow, MustRename, Below, SubstFrom;
  }

  lemma OthersUntouched(code0: seq<Ins>, code1: seq<Ins>, code2: seq<Ins>, ids: seq<InsId>, pos: nat, ins: Ins, src: RegId, dst: RegId)
    requires pos < |ids| && ids[pos] < |code0| && code1 == code0[ids[pos] := ins] && SubstFrom(code1, code2, ids, pos + 1, |ids|, src, dst)
    ensures forall i :: i !in ids ==> InsAt(code2, i) == InsAt(code0, i)
  {
    assert ids[pos] in ids;
    hide Subst, DefinedIn;
  }

  /** Nothing outside the block changed. */
  ghost predicate OthersSame(ids: seq<InsId>, code: seq<Ins>, code': seq<Ins>, names: Names, names': Names) {
    && (forall i :: i !in ids ==> InsAt(code', i) == InsAt(code, i) && (i in names' <==> i in names))
    && (forall i :: i !in ids && i in names ==> names'[i] == names[i])
  }

  lemma OthersStill(ids: seq<InsId>, code: seq<Ins>, code0: seq<Ins>, code1: seq<Ins>, names: Names, names0: Names, names1: Names)
    requires OthersSame(ids, code, code0, names, names0) && OthersSame(ids, code0, code1, names0, names1)
    ensures OthersSame(ids, code, code1, names, names1)
  {
    hide InsAt;
  }

  lemma OthersNow(ids: seq<InsId>, code: seq<Ins>, code': seq<Ins>, names: Names, i: InsId, d: RegId)
    requires i in ids && forall i :: i !in ids ==> InsAt(code', i) == InsAt(code, i)
    ensures OthersSame(ids, code, code', names, names[i := d])
  {
    hide InsAt;
  }

  lemma OthersAtFirst(ids: seq<InsId>, code: seq<Ins>, names: Names)
    ensures OthersSame(ids, code, code, names, names)
  {
  }

  /** The setting at pos gets a new register, and so do the reads of it. */
  method SeparateAt(fun: Fun, ids: seq<InsId>, pos: nat, r: RegId, ghost kept: set<RegId>, ghost defIns: map<RegId, InsId>, ghost base: nat,
                    next: nat, ghost code: seq<Ins>, ghost names: Names, ghost seen: set<InsId>)
    requires pos < |ids| && Distinct(ids) && RegsBelow(code, base) && InRange(ids, code) && ids[pos] !in seen
    requires Midway(code, fun.code, ids, kept, defIns, names, seen, pos, base, next)
    requires MustRename(code, kept, defIns, ids[pos]) && ids[pos] < |fun.code| && DstOf(fun.code[ids[pos]]) == Some(r)
    modifies fun`code
    ensures var names' := names[ids[pos] := RegNo(next)];
      && Midway(code, fun.code, ids, kept, defIns, names', seen, pos + 1, base, next + 1)
      && OthersSame(ids, old(fun.code), fun.code, names, names')
  {
    hide *;
    MidwayIns(code, fun.code, ids, kept, defIns, names, seen, pos, base, next);
    var i := ids[pos];
    assert i in ids;
    ghost var code0 := fun.code;
    fun.code := fun.code[i := WithDst(fun.code[i], RegNo(next))];
    StaysInRange(code0, ids, i, RegNo(next));
    ghost var code1 := fun.code;
    BblRenameReg(fun, ids, pos + 1, r, RegNo(next));
    MidwayRenames(code, code0, code1, fun.code, ids, kept, defIns, names, seen, pos, base, next, r);
    OthersUntouched(code0, code1, fun.code, ids, pos, code1[i], r, RegNo(next));
    OthersNow(ids, code0, fun.code, names, i, RegNo(next));
  }

  /** One block: every later setting of a local register, and what reads it, gets a new register. */
  method BblSeparate(fun: Fun, ids: seq<InsId>, kept: set<RegId>, defIns: map<RegId, InsId>, ghost base: nat, next0: nat,
                     ghost code: seq<Ins>, ghost names0: Names, ghost seen: set<InsId>)
    returns (next: nat, ghost names: Names)
    requires Distinct(ids) && InRange(ids, code) && RegsBelow(code, base) && base <= next0
    requires |fun.code| == |code| && (forall i :: i in ids ==> InsAt(fun.code, i) == InsAt(code, i)) && (forall i :: i in ids ==> i !in seen)
    requires Fresh(names0, base, next0) && NamesFor(names0, code, kept, defIns, seen)
    modifies fun`code
    ensures Midway(code, fun.code, ids, kept, defIns, names, seen, |ids|, base, next)
    ensures OthersSame(ids, old(fun.code), fun.code, names0, names)
  {
    next, names := next0, names0;
    MidwayStarts(code, fun.code, ids, kept, defIns, names, seen, base, next);
    ghost var before := fun.code;
    hide *;
    OthersAtFirst(ids, before, names);
    for pos := 0 to |ids|
      invariant Midway(code, fun.code, ids, kept, defIns, names, seen, pos, base, next)
      invariant OthersSame(ids, before, fun.code, names0, names)
    {
      var i := ids[pos];
      assert i in ids;
      MidwayIns(code, fun.code, ids, kept, defIns, names, seen, pos, base, next);
      MustRenameIs(code, kept, defIns, i);
      var dst := DstOf(fun.code[i]);
      if dst == None || dst.value in kept || (dst.value in defIns && defIns[dst.value] == i) {
        MidwayKeeps(code, fun.code, ids, kept, defIns, names, seen, pos, base, next);
      } else {
        ghost var code0 := fun.code;
        SeparateAt(fun, ids, pos, dst.value, kept, defIns, base, next, code, names, seen);
        OthersStill(ids, before, code0, fun.code, names0, names, names[i := RegNo(next)]);
        names := names[i := RegNo(next)];
        next := next + 1;
      }
    }
  }

  lemma MustRenameIs(code: seq<Ins>, kept: set<RegId>, defIns: map<RegId, InsId>, i: InsId)
    ensures MustRename(code, kept, defIns, i) <==>
      DstOf(InsAt(code, i)).Some? && var r := DstOf(InsAt(code, i)).value; r !in kept && !(r in defIns && defIns[r] == i)
  {
  }

  lemma StaysInRange(code: seq<Ins>, ids: seq<InsId>, i: InsId, d: RegId)
    requires InRange(ids, code) && i in ids && DstOf(code[i]).Some?
    ensures InRange(ids, code[i := WithDst(code[i], d)])
  {
    forall j | j in ids && j != i ensures code[i := WithDst(code[i], d)][j] == code[j] {}
    assert WfIns(WithDst(code[i], d));
    hide WfIns, WithDst;
  }

  // ---------------------------------------------------------------- the function

  lemma {:induction false} NameFrame(code: seq<Ins>, ids: seq<InsId>, names: Names, names': Names, pos: nat, k: nat, q: RegId)
    requires k <= |ids| && forall i :: i in ids ==> DstName(names', i, q) == DstName(names, i, q)
    ensures NameOf(code, ids, names', pos, k, q) == NameOf(code, ids, names, pos, k, q)
  {
    hide InsAt, DstOf, DstName;
    if k > 0 {
      NameFrame(code, ids, names, names', pos, k - 1, q);
      assert ids[k - 1] in ids;
    }
  }

  lemma RenamedFrame(code: seq<Ins>, code1: seq<Ins>, code2: seq<Ins>, ids: seq<InsId>, names: Names, names': Names, pos: nat)
    requires RenamedTo(code, code1, ids, names, pos) && forall i :: i in ids ==> InsAt(code2, i) == InsAt(code1, i)
    requires forall i, q :: i in ids ==> DstName(names', i, q) == DstName(names, i, q)
    ensures RenamedTo(code, code2, ids, names', pos)
  {
    forall k: nat | k < |ids| ensures Renamed(code, ids, names', pos, k) == Renamed(code, ids, names, pos, k) {
      assert ids[k] in ids;
      forall n: nat | n < |InsAt(code, ids[k]).operands| ensures RenamedOp(code, ids, names', pos, k, n) == RenamedOp(code, ids, names, pos, k, n) {
        if InsAt(code, ids[k]).operands[n].RegOp? { NameFrame(code, ids, names, names', pos, k, InsAt(code, ids[k]).operands[n].reg); }
        hide NameOf, InsAt, DstOf, DstName;
      }
      hide RenamedOp, InsAt, DstName;
    }
    hide Renamed, InsAt, DstName;
    forall k: nat | k < |ids| ensures InsAt(code2, ids[k]) == InsAt(code1, ids[k]) { assert ids[k] in ids; }
  }

  ghost predicate BlockSeparated(f: Fn, code: seq<Ins>, names: Names, b: BblId) {
    RenamedTo(f.code, code, Ids(f, b), names, |Ids(f, b)|)
  }

  ghost predicate BlockUntouched(f: Fn, code: seq<Ins>, b: BblId) {
    forall i :: i in Ids(f, b) ==> InsAt(code, i) == InsAt(f.code, i)
  }

  /** The blocks in `done` have their new names, the others are as before. */
  ghost predicate SeparatedSoFar(f: Fn, code: seq<Ins>, kept: set<RegId>, defIns: map<RegId, InsId>, names: Names, seen: set<InsId>,
                                 done: set<BblId>, base: nat, next: nat) {
    && |code| == |f.code| && base <= next && done <= f.blocks
    && Fresh(names, base, next) && NamesFor(names, f.code, kept, defIns, seen)
    && (forall b :: b in f.blocks ==> if b in done then BlockSeparated(f, code, names, b) else BlockUntouched(f, code, b))
    && (forall b, i :: b in f.blocks && i in Ids(f, b) ==> (i in seen <==> b in done))
  }

  /** g is f with local registers separated. */
  ghost predicate Separated(f: Fn, g: Fn, kept: set<RegId>, defIns: map<RegId, InsId>, names: Names, base: nat, next: nat) {
    && g == f.(code := g.code) && |g.code| == |f.code| && Fresh(names, base, next)
    && (forall b :: b in f.blocks ==> BlockSeparated(f, g.code, names, b))
    && (forall b, i :: b in f.blocks && i in Ids(f, b) ==> (i in names <==> MustRename(f.code, kept, defIns, i)))
    && (forall i :: i in names ==> MustRename(f.code, kept, defIns, i))
  }

  lemma SeparatedAll(f: Fn, g: Fn, kept: set<RegId>, defIns: map<RegId, InsId>, names: Names, seen: set<InsId>, base: nat, next: nat)
    requires SeparatedSoFar(f, g.code, kept, defIns, names, seen, f.blocks, base, next) && g == f.(code := g.code)
    ensures Separated(f, g, kept, defIns, names, base, next)
  {
    hide BlockSeparated, BlockUntouched, Fresh, MustRename;
  }

  lemma SeparatedNone(f: Fn, kept: set<RegId>, defIns: map<RegId, InsId>, base: nat)
    ensures SeparatedSoFar(f, f.code, kept, defIns, map[], {}, {}, base, base)
  {
    hide BlockSeparated;
  }

  lemma SeparatedOneMore(f: Fn, code0: seq<Ins>, code1: seq<Ins>, kept: set<RegId>, defIns: map<RegId, InsId>, names0: Names, names1: Names,
                         seen: set<InsId>, done: set<BblId>, b: BblId, base: nat, next0: nat, next1: nat)
    requires UniqueIds(f) && b in f.blocks && b !in done && SeparatedSoFar(f, code0, kept, defIns, names0, seen, done, base, next0)
    requires Midway(f.code, code1, Ids(f, b), kept, defIns, names1, seen, |Ids(f, b)|, base, next1)
    requires OthersSame(Ids(f, b), code0, code1, names0, names1)
    ensures SeparatedSoFar(f, code1, kept, defIns, names1, seen + Below(Ids(f, b), |Ids(f, b)|), done + {b}, base, next1)
  {
    forall c | c in f.blocks
      ensures if c in done + {b} then BlockSeparated(f, code1, names1, c) else BlockUntouched(f, code1, c)
    {
      if c != b { OtherBlockKept(f, code0, code1, names0, names1, b, c); }
      hide BlockUntouched, NamesFor, UniqueIds, OthersSame, Fresh, RenamedTo;
    }
    forall c, i | c in f.blocks && i in Ids(f, c) ensures i in seen + Below(Ids(f, b), |Ids(f, b)|) <==> c in done + {b} {
      hide NamesFor, OthersSame, RenamedTo, Fresh, InsAt;
    }
    hide RenamedTo, BlockSeparated, BlockUntouched, NamesFor, Fresh, UniqueIds, OthersSame, Below;
  }

  lemma OtherBlockKept(f: Fn, code0: seq<Ins>, code1: seq<Ins>, names0: Names, names1: Names, b: BblId, c: BblId)
    requires UniqueIds(f) && b in f.blocks && c in f.blocks && b != c && OthersSame(Ids(f, b), code0, code1, names0, names1)
    ensures BlockSeparated(f, code0, names0, c) ==> BlockSeparated(f, code1, names1, c)
    ensures BlockUntouched(f, code0, c) ==> BlockUntouched(f, code1, c)
  {
    forall i | i in Ids(f, c) ensures i !in Ids(f, b) {}
    hide RenamedTo, InsAt;
    if BlockSeparated(f, code0, names0, c) {
      RenamedFrame(f.code, code0, code1, Ids(f, c), names0, names1, |Ids(f, c)|);
    }
  }

  lemma BlockReady(f: Fn, code: seq<Ins>, kept: set<RegId>, defIns: map<RegId, InsId>, names: Names, seen: set<InsId>, done: set<BblId>,
                   b: BblId, base: nat, next: nat)
    requires WfCode(f) && b in f.blocks && b !in done && SeparatedSoFar(f, code, kept, defIns, names, seen, done, base, next)
    ensures Distinct(Ids(f, b)) && InRange(Ids(f, b), f.code) && |code| == |f.code| && base <= next
    ensures (forall i :: i in Ids(f, b) ==> InsAt(code, i) == InsAt(f.code, i)) && (forall i :: i in Ids(f, b) ==> i !in seen)
    ensures Fresh(names, base, next) && NamesFor(names, f.code, kept, defIns, seen)
  {
    assert BlockUntouched(f, code, b) by { hide UniqueIds, BlockUntouched, BlockSeparated, NamesFor, Fresh; }
    hide WfIns, InsAt, BlockSeparated, NamesFor, Fresh;
  }

  // ---------------------------------------------------------------- what has a new name

  /** Position j of a block is the last one before k that sets q. */
  ghost predicate LastSet(code: seq<Ins>, ids: seq<InsId>, j: nat, k: nat, q: RegId) {
    && j < k <= |ids| && DstOf(InsAt(code, ids[j])) == Some(q)
    && forall x: nat :: j < x < k ==> DstOf(InsAt(code, ids[x])) != Some(q)
  }

  ghost predicate NeverSet(code: seq<Ins>, ids: seq<InsId>, k: nat, q: RegId) {
    forall x: nat :: x < k && x < |ids| ==> DstOf(InsAt(code, ids[x])) != Some(q)
  }

  /** Instruction i sets what it set where that may be seen outside its block or i is the first to set
      it, and a register from `base` on everywhere else. */
  ghost predicate SetsAsNamed(code: seq<Ins>, code': seq<Ins>, kept: set<RegId>, defIns: map<RegId, InsId>, base: nat, next: nat, i: InsId) {
    match DstOf(InsAt(code, i))
    case None => DstOf(InsAt(code', i)) == None
    case Some(r) =>
      if r in kept || (r in defIns && defIns[r] == i) then DstOf(InsAt(code', i)) == Some(r)
      else DstOf(InsAt(code', i)).Some? && base <= DstOf(InsAt(code', i)).value.no < next
  }

  /** Position k reads what the last position that set the register in the block now sets. */
  ghost predicate ReadsAsNamed(code: seq<Ins>, code': seq<Ins>, ids: seq<InsId>, k: nat)
    requires k < |ids|
  {
    var ins, ins' := InsAt(code, ids[k]), InsAt(code', ids[k]);
    && ins'.opcode == ins.opcode && ins'.defs == ins.defs && |ins'.operands| == |ins.operands|
    && (forall n :: 0 <= n < |ins.operands| && !ins.operands[n].RegOp? ==> ins'.operands[n] == ins.operands[n])
    && (forall n, j: nat :: NumDefs(ins.opcode) <= n < |ins.operands| && ins.operands[n].RegOp? && LastSet(code, ids, j, k, ins.operands[n].reg) ==>
          ins'.operands[n].RegOp? && Some(ins'.operands[n].reg) == DstOf(InsAt(code', ids[j])))
    && (forall n :: NumDefs(ins.opcode) <= n < |ins.operands| && ins.operands[n].RegOp? && NeverSet(code, ids, k, ins.operands[n].reg) ==>
          ins'.operands[n] == ins.operands[n])
  }

  /** g is f but for the names of registers within blocks; no new name is given twice. */
  ghost predicate NamedApart(f: Fn, g: Fn, kept: set<RegId>, defIns: map<RegId, InsId>, base: nat, next: nat) {
    && g == f.(code := g.code) && |g.code| == |f.code|
    && (forall b, i :: b in f.blocks && i in Ids(f, b) ==> SetsAsNamed(f.code, g.code, kept, defIns, base, next, i))
    && (forall b, k: nat :: b in f.blocks && k < |Ids(f, b)| ==> ReadsAsNamed(f.code, g.code, Ids(f, b), k))
    && (forall i, j :: InFun(f, i) && InFun(f, j) && i != j && DstOf(InsAt(g.code, i)) == DstOf(InsAt(g.code, j)) ==> NotNew(g.code, i, base))
  }

  ghost predicate NotNew(code: seq<Ins>, i: InsId, base: nat) {
    DstOf(InsAt(code, i)).Some? ==> DstOf(InsAt(code, i)).value.no < base
  }

  lemma {:induction false} NameIsLast(code: seq<Ins>, ids: seq<InsId>, names: Names, j: nat, k: nat, q: RegId)
    requires LastSet(code, ids, j, k, q)
    ensures NameOf(code, ids, names, |ids|, k, q) == DstName(names, ids[j], q)
  {
    hide InsAt, DstOf, DstName;
    if j < k - 1 {
      var less: nat := k - 1;
      assert DstOf(InsAt(code, ids[less])) != Some(q);
      NameIsLast(code, ids, names, j, less, q);
    }
  }

  lemma {:induction false} NameIsOwn(code: seq<Ins>, ids: seq<InsId>, names: Names, k: nat, q: RegId)
    requires k <= |ids| && NeverSet(code, ids, k, q)
    ensures NameOf(code, ids, names, |ids|, k, q) == q
  {
    hide InsAt, DstOf, DstName;
    if k > 0 {
      var less: nat := k - 1;
      assert DstOf(InsAt(code, ids[less])) != Some(q);
      NameIsOwn(code, ids, names, less, q);
    }
  }

  lemma NamedIns(code: seq<Ins>, ids: seq<InsId>, names: Names, k: nat, n: nat)
    requires k < |ids| && n < |InsAt(code, ids[k]).operands|
    ensures var ins, ins' := InsAt(code, ids[k]), Renamed(code, ids, names, |ids|, k);
      && |ins'.operands| == |ins.operands|
      && (!ins.operands[n].RegOp? ==> ins'.operands[n] == ins.operands[n])
      && (ins.operands[n].RegOp? && NumDefs(ins.opcode) <= n ==> ins'.operands[n] == RegOp(NameOf(code, ids, names, |ids|, k, ins.operands[n].reg)))
  {
    hide InsAt, NameOf;
  }

  lemma NamedForm(code: seq<Ins>, ids: seq<InsId>, names: Names, k: nat)
    requires k < |ids|
    ensures var ins, ins' := InsAt(code, ids[k]), Renamed(code, ids, names, |ids|, k);
      && ins'.opcode == ins.opcode && ins'.defs == ins.defs && |ins'.operands| == |ins.operands|
      && (DstOf(ins) == None ==> DstOf(ins') == None)
      && (forall r :: DstOf(ins) == Some(r) ==> DstOf(ins') == Some(DstName(names, ids[k], r)))
  {
    hide InsAt, NameOf;
  }

  lemma ReadsAreNamed(f: Fn, g: Fn, names: Names, b: BblId, k: nat)
    requires BlockSeparated(f, g.code, names, b) && k < |Ids(f, b)|
    ensures ReadsAsNamed(f.code, g.code, Ids(f, b), k)
  {
    var ids := Ids(f, b);
    var ins, ins' := InsAt(f.code, ids[k]), InsAt(g.code, ids[k]);
    hide InsAt, DstOf, Renamed, NameOf, DstName, LastSet, NeverSet;
    NamedForm(f.code, ids, names, k);
    forall n: nat | n < |ins.operands|
      ensures !ins.operands[n].RegOp? ==> ins'.operands[n] == ins.operands[n]
      ensures NumDefs(ins.opcode) <= n && ins.operands[n].RegOp? ==>
        ins'.operands[n] == RegOp(NameOf(f.code, ids, names, |ids|, k, ins.operands[n].reg))
    {
      NamedIns(f.code, ids, names, k, n);
    }
    forall n, j: nat | NumDefs(ins.opcode) <= n < |ins.operands| && ins.operands[n].RegOp? && LastSet(f.code, ids, j, k, ins.operands[n].reg)
      ensures ins'.operands[n].RegOp? && Some(ins'.operands[n].reg) == DstOf(InsAt(g.code, ids[j]))
    {
      NameIsLast(f.code, ids, names, j, k, ins.operands[n].reg);
      LastSetIs(f.code, ids, j, k, ins.operands[n].reg);
      NamedForm(f.code, ids, names, j);
    }
    forall n | NumDefs(ins.opcode) <= n < |ins.operands| && ins.operands[n].RegOp? && NeverSet(f.code, ids, k, ins.operands[n].reg)
      ensures ins'.operands[n] == ins.operands[n]
    {
      NameIsOwn(f.code, ids, names, k, ins.operands[n].reg);
    }
  }

  lemma LastSetIs(code: seq<Ins>, ids: seq<InsId>, j: nat, k: nat, q: RegId)
    requires LastSet(code, ids, j, k, q)
    ensures j < k <= |ids| && DstOf(InsAt(code, ids[j])) == Some(q)
  {
    hide InsAt, DstOf;
  }

  lemma SetsAreNamed(f: Fn, g: Fn, kept: set<RegId>, defIns: map<RegId, InsId>, names: Names, base: nat, next: nat, b: BblId, i: InsId)
    requires Separated(f, g, kept, defIns, names, base, next) && b in f.blocks && i in Ids(f, b)
    ensures SetsAsNamed(f.code, g.code, kept, defIns, base, next, i)
    ensures i !in names ==> DstOf(InsAt(g.code, i)) == DstOf(InsAt(f.code, i))
    ensures i in names ==> DstOf(InsAt(g.code, i)) == Some(names[i])
  {
    assert BlockSeparated(f, g.code, names, b) by { hide BlockSeparated, MustRename; }
    var ids := Ids(f, b);
    var k: nat :| k < |ids| && ids[k] == i;
    NamedForm(f.code, ids, names, k);
    MustRenameIs(f.code, kept, defIns, i);
    assert InsAt(g.code, ids[k]) == Renamed(f.code, ids, names, |ids|, k);
    hide InsAt, DstOf, Renamed, BlockSeparated, MustRename;
  }

  lemma SeparatedIsNamedApart(f: Fn, g: Fn, kept: set<RegId>, defIns: map<RegId, InsId>, names: Names, base: nat, next: nat)
    requires RegsBelow(f.code, base) && Separated(f, g, kept, defIns, names, base, next)
    ensures NamedApart(f, g, kept, defIns, base, next)
  {
    SeparatedParts(f, g, kept, defIns, names, base, next);
    hide Separated, BlockSeparated, SetsAsNamed, ReadsAsNamed, InsAt, DstOf, RegsBelow;
    forall b, i | b in f.blocks && i in Ids(f, b) ensures SetsAsNamed(f.code, g.code, kept, defIns, base, next, i) {
      SetsAreNamed(f, g, kept, defIns, names, base, next, b, i);
    }
    forall b, k: nat | b in f.blocks && k < |Ids(f, b)| ensures ReadsAsNamed(f.code, g.code, Ids(f, b), k) {
      ReadsAreNamed(f, g, names, b, k);
    }
    forall i, j | InFun(f, i) && InFun(f, j) && i != j && DstOf(InsAt(g.code, i)) == DstOf(InsAt(g.code, j)) ensures NotNew(g.code, i, base) {
      NewNamesApart(f, g, kept, defIns, names, base, next, i, j);
    }
  }

  lemma SeparatedParts(f: Fn, g: Fn, kept: set<RegId>, defIns: map<RegId, InsId>, names: Names, base: nat, next: nat)
    requires Separated(f, g, kept, defIns, names, base, next)
    ensures g == f.(code := g.code) && |g.code| == |f.code| && Fresh(names, base, next)
    ensures forall b :: b in f.blocks ==> BlockSeparated(f, g.code, names, b)
  {
    hide BlockSeparated, MustRename, Fresh;
  }

  lemma NewNamesApart(f: Fn, g: Fn, kept: set<RegId>, defIns: map<RegId, InsId>, names: Names, base: nat, next: nat, i: InsId, j: InsId)
    requires RegsBelow(f.code, base) && Separated(f, g, kept, defIns, names, base, next)
    requires InFun(f, i) && InFun(f, j) && i != j && DstOf(InsAt(g.code, i)) == DstOf(InsAt(g.code, j))
    ensures NotNew(g.code, i, base)
  {
    var b :| b in f.blocks && i in Ids(f, b);
    var c :| c in f.blocks && j in Ids(f, c);
    SetsAreNamed(f, g, kept, defIns, names, base, next, b, i);
    SetsAreNamed(f, g, kept, defIns, names, base, next, c, j);
    SeparatedParts(f, g, kept, defIns, names, base, next);
    hide Separated, SetsAsNamed, InsAt, DstOf, RegsBelow;
    if DstOf(InsAt(f.code, i)).Some? { DstBelow(f.code, base, i); }
    if DstOf(InsAt(f.code, j)).Some? { DstBelow(f.code, base, j); }
  }

  /** Local registers are all but those in `kept`; `base` is where unused register numbers start. */
  method FunSeparateLocalRegUsage(fun: Fun, kept: set<RegId>, defIns: map<RegId, InsId>, base: nat) returns (next: nat, ghost names: Names)
    requires WfCode(fun.View()) && WfOrder(fun.View()) && RegsBelow(fun.code, base)
    modifies fun`code
    ensures Separated(old(fun.View()), fun.View(), kept, defIns, names, base, next)
    ensures NamedApart(old(fun.View()), fun.View(), kept, defIns, base, next)
  {
    ghost var f := fun.View();
    ghost var seen: set<InsId>, done: set<BblId> := {}, {};
    next, names := base, map[];
    SeparatedNone(f, kept, defIns, base);
    hide NamedApart, SeparatedSoFar, Separated, WfCode, Midway, OthersSame, Distinct, InRange, RegsBelow, NamesFor, Fresh, Below, InsAt;
    for k := 0 to |fun.order|
      invariant fun.View() == f.(code := fun.code)
      invariant SeparatedSoFar(f, fun.code, kept, defIns, names, seen, done, base, next)
      invariant done <= f.blocks && forall j :: 0 <= j < |f.order| ==> (f.order[j] in done <==> j < k)
    {
      var b := fun.order[k];
      assert b in f.blocks;
      BlockReady(f, fun.code, kept, defIns, names, seen, done, b, base, next);
      var ids := Ids(fun.View(), b);
      ghost var code0, names0, next0 := fun.code, names, next;
      next, names := BblSeparate(fun, ids, kept, defIns, base, next, f.code, names, seen);
      SeparatedOneMore(f, code0, fun.code, kept, defIns, names0, names, seen, done, b, base, next0, next);
      seen, done := seen + Below(ids, |ids|), done + {b};
    }
    assert done == f.blocks;
    SeparatedAll(f, fun.View(), kept, defIns, names, seen, base, next);
    SeparatedIsNamedApart(f, fun.View(), kept, defIns, names, base, next);
  }

  // ---------------------------------------------------------------- runs

  /** Registers that a block may read where they are set in the block or belong to `kept`. */
  predicate Known(code: seq<Ins>, ids: seq<InsId>, kept: set<RegId>, k: nat, q: RegId)
    requires k <= |ids|
  {
    q in kept || DefinedIn(code, ids, 0, k, q)
  }

  /** Local registers are set before they are read, block by block. */
  ghost predicate LocalsSetFirst(code: seq<Ins>, ids: seq<InsId>, kept: set<RegId>) {
    forall k: nat, q :: k < |ids| && UsesReg(InsAt(code, ids[k]), q) ==> Known(code, ids, kept, k, q)
  }

  /** That is what it means not to be live at the start of the block. */
  lemma LiveInsSetFirst(code: seq<Ins>, ids: seq<InsId>, out: set<RegId>, kept: set<RegId>)
    requires LiveAt(code, ids, 0, out) <= kept
    ensures LocalsSetFirst(code, ids, kept)
  {
    hide InsAt, UsesReg, DefinedIn, LiveAt;
    forall k: nat, q | k < |ids| && UsesReg(InsAt(code, ids[k]), q) ensures Known(code, ids, kept, k, q) {
      LiveAtIff(code, ids, 0, out, q);
      if !DefinedIn(code, ids, 0, k, q) { assert ExposedAt(code, ids, 0, k, q); }
    }
  }

  /** What is needed of the names. */
  ghost predicate GoodNames(code: seq<Ins>, kept: set<RegId>, names: Names, base: nat, next: nat) {
    && RegsBelow(code, base) && Fresh(names, base, next)
    && forall i :: i in names ==> DstOf(InsAt(code, i)).Some? && DstOf(InsAt(code, i)).value !in kept
  }

  /** Two registers never go by the same name. */
  lemma NamesApart(code: seq<Ins>, ids: seq<InsId>, kept: set<RegId>, names: Names, base: nat, next: nat, k: nat, q: RegId, r: RegId)
    requires k < |ids| && GoodNames(code, kept, names, base, next) && q.no < base && q != r && DstOf(InsAt(code, ids[k])) == Some(r)
    ensures NameOf(code, ids, names, |ids|, k, q) != DstName(names, ids[k], r)
  {
    NameIsOwnOrNew(code, ids, names, |ids|, k, q);
    DstBelow(code, base, ids[k]);
    hide NameOf, RegsBelow, InsAt, DstOf;
  }

  lemma {:induction false} KeptName(code: seq<Ins>, ids: seq<InsId>, kept: set<RegId>, names: Names, base: nat, next: nat, k: nat, q: RegId)
    requires k <= |ids| && GoodNames(code, kept, names, base, next) && q in kept
    ensures NameOf(code, ids, names, |ids|, k, q) == q
  {
    hide RegsBelow, InsAt, DstOf, Fresh;
    if k > 0 { KeptName(code, ids, kept, names, base, next, k - 1, q); }
  }

  /** Before position k: the same memory and events, and every known register under its name. */
  ghost predicate InNames(code: seq<Ins>, ids: seq<InsId>, kept: set<RegId>, names: Names, base: nat, k: nat, s: State, t: State)
    requires k <= |ids|
  {
    && s.mem == t.mem && s.trace == t.trace
    && forall q: RegId :: q.no < base && Known(code, ids, kept, k, q) ==> ReadReg(t.regs, NameOf(code, ids, names, |ids|, k, q)) == ReadReg(s.regs, q)
  }

  lemma SameReads(m: Machine, code: seq<Ins>, ids: seq<InsId>, kept: set<RegId>, names: Names, base: nat, k: nat, s: State, t: State)
    requires k < |ids| && RegsBelow(code, base) && LocalsSetFirst(code, ids, kept) && InNames(code, ids, kept, names, base, k, s, t)
    ensures UseVals(m, Renamed(code, ids, names, |ids|, k), t.regs) == UseVals(m, InsAt(code, ids[k]), s.regs)
  {
    var ins, ins' := InsAt(code, ids[k]), Renamed(code, ids, names, |ids|, k);
    var d := NumDefs(ins.opcode);
    if d <= |ins.operands| {
      forall n | d <= n < |ins.operands| ensures Eval(m, ins'.operands[n], t.regs) == Eval(m, ins.operands[n], s.regs) {
        if ins.operands[n].RegOp? {
          OpBelow(code, base, ids[k], n);
          assert UsesReg(ins, ins.operands[n].reg) by { assert ins.operands[n] == RegOp(ins.operands[n].reg); }
        }
        hide NameOf, InsAt, Known, RegsBelow, UsesReg, NumDefs, ReadReg;
      }
      hide NameOf, InsAt, LocalsSetFirst, InNames, RegsBelow, NumDefs, RenamedOp, Eval;
      assert Vals(m, ins'.operands[d..], t.regs) == Vals(m, ins.operands[d..], s.regs);
    }
  }

  lemma RenamedDst(code: seq<Ins>, ids: seq<InsId>, names: Names, k: nat)
    requires k < |ids|
    ensures var was, now := DstOf(InsAt(code, ids[k])), DstOf(Renamed(code, ids, names, |ids|, k));
      now == match was case None => None case Some(r) => Some(DstName(names, ids[k], r))
    ensures Renamed(code, ids, names, |ids|, k).opcode == InsAt(code, ids[k]).opcode
  {
    hide NameOf, InsAt, DstName;
  }

  lemma NamedStep(m: Machine, code: seq<Ins>, ids: seq<InsId>, kept: set<RegId>, names: Names, base: nat, next: nat, k: nat, s: State, t: State)
    requires k < |ids| && GoodNames(code, kept, names, base, next) && LocalsSetFirst(code, ids, kept)
    requires InNames(code, ids, kept, names, base, k, s, t)
    ensures InNames(code, ids, kept, names, base, k + 1, ExecIns(m, InsAt(code, ids[k]), s), ExecIns(m, Renamed(code, ids, names, |ids|, k), t))
  {
    var ins, ins' := InsAt(code, ids[k]), Renamed(code, ids, names, |ids|, k);
    SameReads(m, code, ids, kept, names, base, k, s, t);
    RenamedDst(code, ids, names, k);
    var s', t' := ExecIns(m, ins, s), ExecIns(m, ins', t);
    ExecSets(m, ins, s);
    ExecSets(m, ins', t);
    hide UseVals, Effect, LocalsSetFirst, ExecIns, Renamed, InsAt, DstOf, DefinedIn, RegsBelow;
    forall q: RegId | q.no < base && Known(code, ids, kept, k + 1, q)
      ensures ReadReg(t'.regs, NameOf(code, ids, names, |ids|, k + 1, q)) == ReadReg(s'.regs, q)
    {
      DefinedUpTo(code, ids, 0, k + 1, q);
      if DstOf(ins) != Some(q) && DstOf(ins).Some? {
        NamesApart(code, ids, kept, names, base, next, k, q, DstOf(ins).value);
      }
      hide GoodNames, DstName;
    }
  }

  lemma ExecSets(m: Machine, ins: Ins, s: State)
    ensures var o := Effect(m, ins.opcode, UseVals(m, ins, s.regs), s.mem, s.trace); var s' := ExecIns(m, ins, s);
      && s'.mem == o.mem && s'.trace == o.trace
      && forall q :: ReadReg(s'.regs, q) == if DstOf(ins) == Some(q) then o.result else ReadReg(s.regs, q)
  {
    hide Effect, UseVals, DstOf;
  }

  lemma {:induction false} NamedThroughBlock(m: Machine, code: seq<Ins>, code': seq<Ins>, ids: seq<InsId>, kept: set<RegId>, names: Names,
                                             base: nat, next: nat, k: nat, s: State, t: State)
    requires k <= |ids| && GoodNames(code, kept, names, base, next) && LocalsSetFirst(code, ids, kept) && RenamedTo(code, code', ids, names, |ids|)
    requires InNames(code, ids, kept, names, base, 0, s, t)
    ensures InNames(code, ids, kept, names, base, k, ExecIds(m, code, ids, k, s), ExecIds(m, code', ids, k, t))
  {
    hide InNames, ExecIns, GoodNames, LocalsSetFirst, Renamed;
    if k > 0 {
      NamedThroughBlock(m, code, code', ids, kept, names, base, next, k - 1, s, t);
      NamedStep(m, code, ids, kept, names, base, next, k - 1, ExecIds(m, code, ids, k - 1, s), ExecIds(m, code', ids, k - 1, t));
      hide InsAt;
    }
  }

  // -- the way out of a block

  lemma SameExit(m: Machine, f: Fn, g: Fn, b: BblId, s: State, t: State)
    requires BblAt(g, b) == BblAt(f, b) && g.jtbs == f.jtbs
    requires LastIns(g, b).opcode == LastIns(f, b).opcode && |LastIns(g, b).operands| == |LastIns(f, b).operands|
    requires forall n :: 0 <= n < |LastIns(f, b).operands| && !LastIns(f, b).operands[n].RegOp? ==> LastIns(g, b).operands[n] == LastIns(f, b).operands[n]
    requires forall n :: 0 <= n < |LastIns(f, b).operands| && LastIns(f, b).operands[n].RegOp? ==> LastIns(g, b).operands[n].RegOp?
    requires IsTerminator(LastIns(f, b).opcode) ==> UseVals(m, LastIns(g, b), t.regs) == UseVals(m, LastIns(f, b), s.regs)
    ensures EdgeNext(m, g, b, t) == EdgeNext(m, f, b, s)
  {
    hide UseVals, LastIns, BblAt;
  }

  lemma NamedTerminator(m: Machine, f: Fn, g: Fn, b: BblId, kept: set<RegId>, names: Names, base: nat, next: nat, s: State, t: State)
    requires g == f.(code := g.code) && BlockSeparated(f, g.code, names, b) && GoodNames(f.code, kept, names, base, next)
    requires LocalsSetFirst(f.code, Ids(f, b), kept) && InNames(f.code, Ids(f, b), kept, names, base, 0, s, t)
    requires IsTerminator(LastIns(f, b).opcode)
    ensures UseVals(m, LastIns(g, b), ExecBbl(m, g, b, t).regs) == UseVals(m, LastIns(f, b), ExecBbl(m, f, b, s).regs)
  {
    hide InNames, LocalsSetFirst, UseVals, ExecIns, NameOf, RenamedTo, Renamed;
    var ids := Ids(f, b);
    var k := |ids| - 1;
    var s', t' := ExecIds(m, f.code, ids, k, s), ExecIds(m, g.code, ids, k, t);
    LastRenamed(f, g, b, names);
    NamedThroughBlock(m, f.code, g.code, ids, kept, names, base, next, k, s, t);
    SameReads(m, f.code, ids, kept, names, base, k, s', t') by { hide RegsBelow, Fresh, BlockSeparated, LastIns, ExecIds; }
    TerminatorSetsNothing(m, LastIns(f, b), s');
    TerminatorSetsNothing(m, LastIns(g, b), t');
    hide GoodNames;
  }

  lemma LastRenamed(f: Fn, g: Fn, b: BblId, names: Names)
    requires g == f.(code := g.code) && BlockSeparated(f, g.code, names, b)
    ensures var ids, last, last' := Ids(f, b), LastIns(f, b), LastIns(g, b);
      && last'.opcode == last.opcode && |last'.operands| == |last.operands|
      && (forall n :: 0 <= n < |last.operands| && !last.operands[n].RegOp? ==> last'.operands[n] == last.operands[n])
      && (forall n :: 0 <= n < |last.operands| && last.operands[n].RegOp? ==> last'.operands[n].RegOp?)
      && (ids != [] ==> last' == Renamed(f.code, ids, names, |ids|, |ids| - 1))
  {
    hide NameOf, InsAt;
    if Ids(f, b) != [] {
      var k: nat := |Ids(f, b)| - 1;
      assert InsAt(g.code, Ids(f, b)[k]) == Renamed(f.code, Ids(f, b), names, |Ids(f, b)|, k);
    }
  }

  lemma NamedExit(m: Machine, f: Fn, g: Fn, b: BblId, kept: set<RegId>, names: Names, base: nat, next: nat, s: State, t: State)
    requires g == f.(code := g.code) && BlockSeparated(f, g.code, names, b) && GoodNames(f.code, kept, names, base, next)
    requires LocalsSetFirst(f.code, Ids(f, b), kept) && InNames(f.code, Ids(f, b), kept, names, base, 0, s, t)
    ensures EdgeNext(m, g, b, ExecBbl(m, g, b, t)) == EdgeNext(m, f, b, ExecBbl(m, f, b, s))
  {
    hide InNames, GoodNames, LocalsSetFirst, EdgeNext, UseVals, LastIns, Renamed, BlockSeparated, ExecBbl;
    if IsTerminator(LastIns(f, b).opcode) { NamedTerminator(m, f, g, b, kept, names, base, next, s, t); }
    LastRenamed(f, g, b, names);
    SameExit(m, f, g, b, ExecBbl(m, f, b, s), ExecBbl(m, g, b, t));
  }

  lemma TerminatorSetsNothing(m: Machine, ins: Ins, s: State)
    requires IsTerminator(ins.opcode)
    ensures ExecIns(m, ins, s).regs == s.regs
  {
    hide UseVals;
  }

  /** Same memory and events, and the same in the registers `kept`. */
  ghost predicate AgreeOn(kept: set<RegId>, s: State, t: State) {
    s.mem == t.mem && s.trace == t.trace && forall r :: r in kept ==> ReadReg(s.regs, r) == ReadReg(t.regs, r)
  }

  ghost predicate VisitsAgree(f: Fn, kept: set<RegId>, v: Visit, w: Visit) {
    && (v.At? <==> w.At?) && (v.At? ==> v.bbl == w.bbl && v.bbl in f.blocks)
    && AgreeOn(kept, v.state, w.state)
  }

  /** No run can tell f and g apart by blocks, memory, events and the registers `kept`. */
  ghost predicate SameRunsOn(f: Fn, g: Fn, kept: set<RegId>) {
    forall m: Machine, s0: State, n: nat :: VisitsAgree(f, kept, Run(m, f, s0, n), Run(m, g, s0, n))
  }

  lemma NamesAtStart(code: seq<Ins>, ids: seq<InsId>, kept: set<RegId>, names: Names, base: nat, s: State, t: State)
    requires AgreeOn(kept, s, t)
    ensures InNames(code, ids, kept, names, base, 0, s, t)
  {
  }

  lemma NamesAtEnd(code: seq<Ins>, ids: seq<InsId>, kept: set<RegId>, names: Names, base: nat, next: nat, s: State, t: State)
    requires InNames(code, ids, kept, names, base, |ids|, s, t) && GoodNames(code, kept, names, base, next) && forall r :: r in kept ==> r.no < base
    ensures AgreeOn(kept, s, t)
  {
    hide GoodNames, NameOf;
    forall r | r in kept ensures ReadReg(s.regs, r) == ReadReg(t.regs, r) { KeptName(code, ids, kept, names, base, next, |ids|, r); }
  }

  /** What the pass needs to know about its input. */
  ghost predicate Separable(f: Fn, kept: set<RegId>, base: nat) {
    && WfLayout(f) && RegsBelow(f.code, base) && (forall r :: r in kept ==> r.no < base)
    && (forall b :: b in f.blocks ==> WfEdges(f, b) && LocalsSetFirst(f.code, Ids(f, b), kept))
  }

  ghost predicate SeparatedBy(f: Fn, g: Fn, kept: set<RegId>, names: Names, base: nat, next: nat) {
    g == f.(code := g.code) && GoodNames(f.code, kept, names, base, next) && forall b :: b in f.blocks ==> BlockSeparated(f, g.code, names, b)
  }

  lemma SeparatedStep(m: Machine, f: Fn, g: Fn, kept: set<RegId>, names: Names, base: nat, next: nat, v: Visit, w: Visit)
    requires Separable(f, kept, base) && SeparatedBy(f, g, kept, names, base, next) && VisitsAgree(f, kept, v, w)
    ensures VisitsAgree(f, kept, RunStep(m, f, v), RunStep(m, g, w))
  {
    if v.At? {
      var b, s, t := v.bbl, v.state, w.state;
      var ids := Ids(f, b);
      hide RegsBelow, GoodNames, LocalsSetFirst, EdgeNext, AgreeOn, InNames, WfEdges, WfLayout;
      NamesAtStart(f.code, ids, kept, names, base, s, t);
      NamedThroughBlock(m, f.code, g.code, ids, kept, names, base, next, |ids|, s, t);
      NamesAtEnd(f.code, ids, kept, names, base, next, ExecBbl(m, f, b, s), ExecBbl(m, g, b, t));
      NamedExit(m, f, g, b, kept, names, base, next, s, t);
      NextInside(m, f, b, ExecBbl(m, f, b, s));
      hide ExecBbl, BlockSeparated;
    }
  }

  lemma {:induction false} SeparatedRunsAgree(m: Machine, f: Fn, g: Fn, kept: set<RegId>, names: Names, base: nat, next: nat, s0: State, n: nat)
    requires Separable(f, kept, base) && SeparatedBy(f, g, kept, names, base, next)
    ensures VisitsAgree(f, kept, Run(m, f, s0, n), Run(m, g, s0, n))
  {
    if n == 0 {
      hide RegsBelow, WfEdges, LocalsSetFirst, BlockSeparated, GoodNames;
    } else {
      hide *;
      SeparatedRunsAgree(m, f, g, kept, names, base, next, s0, n - 1);
      SeparatedStep(m, f, g, kept, names, base, next, Run(m, f, s0, n - 1), Run(m, g, s0, n - 1));
      RunOneMore(m, f, s0, n);
      RunOneMore(m, g, s0, n);
    }
  }

  lemma RunOneMore(m: Machine, f: Fn, s0: State, n: nat)
    requires n > 0
    ensures Run(m, f, s0, n) == RunStep(m, f, Run(m, f, s0, n - 1))
  {
  }

  /** Separating local registers cannot be noticed, except in the local registers. */
  lemma SeparationKeepsRuns(f: Fn, g: Fn, kept: set<RegId>, defIns: map<RegId, InsId>, names: Names, base: nat, next: nat)
    requires Separable(f, kept, base) && Separated(f, g, kept, defIns, names, base, next)
    ensures SameRunsOn(f, g, kept)
  {
    NamesAreGood(f, g, kept, defIns, names, base, next);
    hide Separable, Separated, SeparatedBy, VisitsAgree;
    forall m: Machine, s0: State, n: nat ensures VisitsAgree(f, kept, Run(m, f, s0, n), Run(m, g, s0, n)) {
      SeparatedRunsAgree(m, f, g, kept, names, base, next, s0, n);
    }
  }

  lemma NamesAreGood(f: Fn, g: Fn, kept: set<RegId>, defIns: map<RegId, InsId>, names: Names, base: nat, next: nat)
    requires RegsBelow(f.code, base) && Separated(f, g, kept, defIns, names, base, next)
    ensures SeparatedBy(f, g, kept, names, base, next)
  {
    hide BlockSeparated, RegsBelow, Fresh, DstOf, InsAt;
  }

  // ---------------------------------------------------------------- set once

  ghost predicate InFun(f: Fn, i: InsId) { exists b :: b in f.blocks && i in Ids(f, b) }

  /** A register outside `kept` is set by one instruction at most. */
  ghost predicate SetOnce(f: Fn, kept: set<RegId>) {
    forall i, j :: InFun(f, i) && InFun(f, j) && i != j && DstOf(InsAt(f.code, i)).Some? && DstOf(InsAt(f.code, i)).value !in kept ==>
      DstOf(InsAt(f.code, j)) != DstOf(InsAt(f.code, i))
  }

  lemma DstAfter(f: Fn, g: Fn, kept: set<RegId>, defIns: map<RegId, InsId>, names: Names, base: nat, next: nat, i: InsId)
    requires RegsBelow(f.code, base) && Separated(f, g, kept, defIns, names, base, next) && InFun(f, i)
    ensures var was, now := DstOf(InsAt(f.code, i)), DstOf(InsAt(g.code, i));
      && (was == None <==> now == None)
      && (was.Some? ==> was.value.no < base && now.value == DstName(names, i, was.value) && (i in names <==> MustRename(f.code, kept, defIns, i)))
  {
    var b :| b in f.blocks && i in Ids(f, b);
    var ids := Ids(f, b);
    var k: nat :| k < |ids| && ids[k] == i;
    assert BlockSeparated(f, g.code, names, b) by { hide BlockSeparated, MustRename; }
    assert InsAt(g.code, ids[k]) == Renamed(f.code, ids, names, |ids|, k);
    RenamedDst(f.code, ids, names, k);
    if DstOf(InsAt(f.code, i)).Some? { DstBelow(f.code, base, i); }
    hide Renamed, RegsBelow, MustRename, InsAt, DstOf, Fresh;
  }

  /** Afterwards every local register has one instruction that sets it. */
  lemma SeparatedSetOnce(f: Fn, g: Fn, kept: set<RegId>, defIns: map<RegId, InsId>, names: Names, base: nat, next: nat)
    requires RegsBelow(f.code, base) && Separated(f, g, kept, defIns, names, base, next)
    ensures SetOnce(g, kept)
  {
    forall i, j | InFun(g, i) && InFun(g, j) && i != j && DstOf(InsAt(g.code, i)).Some? && DstOf(InsAt(g.code, i)).value !in kept
      ensures DstOf(InsAt(g.code, j)) != DstOf(InsAt(g.code, i))
    {
      SameInFun(f, g, i);
      SameInFun(f, g, j);
      DstAfter(f, g, kept, defIns, names, base, next, i);
      DstAfter(f, g, kept, defIns, names, base, next, j);
      hide RegsBelow, InFun, BlockSeparated, InsAt, DstOf;
    }
  }

  lemma SameInFun(f: Fn, g: Fn, i: InsId)
    requires g == f.(code := g.code)
    ensures InFun(g, i) <==> InFun(f, i)
  {
    if InFun(g, i) { var b :| b in g.blocks && i in Ids(g, b); assert i in Ids(f, b); }
    if InFun(f, i) { var b :| b in f.blocks && i in Ids(f, b); assert i in Ids(g, b); }
  }

  lemma {:induction false} NameIsSet(code: seq<Ins>, code': seq<Ins>, ids: seq<InsId>, names: Names, k: nat, q: RegId)
    requires k <= |ids| && RenamedTo(code, code', ids, names, |ids|) && DefinedIn(code, ids, 0, k, q)
    ensures DefinedIn(code', ids, 0, k, NameOf(code, ids, names, |ids|, k, q))
  {
    assert k > 0;
    var x := NameOf(code, ids, names, |ids|, k, q);
    DefinedUpTo(code, ids, 0, k, q);
    DefinedUpTo(code', ids, 0, k, x);
    RenamedDst(code, ids, names, k - 1);
    hide Renamed, InsAt, DstOf, DefinedIn;
    if DstOf(InsAt(code, ids[k - 1])) == Some(q) {
      assert DstOf(InsAt(code', ids[k - 1])) == Some(x);
    } else {
      NameIsSet(code, code', ids, names, k - 1, q);
    }
  }

  /** Local registers are still set before they are read. */
  lemma SeparatedSetFirst(f: Fn, g: Fn, b: BblId, kept: set<RegId>, names: Names, base: nat, next: nat)
    requires b in f.blocks && BlockSeparated(f, g.code, names, b) && GoodNames(f.code, kept, names, base, next) && LocalsSetFirst(f.code, Ids(f, b), kept)
    ensures LocalsSetFirst(g.code, Ids(f, b), kept)
  {
    var ids := Ids(f, b);
    hide DefinedIn, NameOf, GoodNames, InsAt;
    forall k: nat, x | k < |ids| && UsesReg(InsAt(g.code, ids[k]), x) ensures Known(g.code, ids, kept, k, x) {
      var q := UseBefore(f.code, ids, names, k, x);
      assert Known(f.code, ids, kept, k, q);
      if q in kept { KeptName(f.code, ids, kept, names, base, next, k, q); } else { NameIsSet(f.code, g.code, ids, names, k, q); }
      hide Renamed, UsesReg;
    }
  }

  lemma UseBefore(code: seq<Ins>, ids: seq<InsId>, names: Names, k: nat, x: RegId) returns (q: RegId)
    requires k < |ids| && UsesReg(Renamed(code, ids, names, |ids|, k), x)
    ensures UsesReg(InsAt(code, ids[k]), q) && NameOf(code, ids, names, |ids|, k, q) == x
  {
    hide NameOf, InsAt;
    var ins, ins' := InsAt(code, ids[k]), Renamed(code, ids, names, |ids|, k);
    var n :| NumDefs(ins'.opcode) <= n < |ins'.operands| && ins'.operands[n] == RegOp(x);
    assert ins.operands[n].RegOp?;
    q := ins.operands[n].reg;
    assert ins.operands[n] == RegOp(q);
  }
}
