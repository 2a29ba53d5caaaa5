/** Spilling: registers move to stack slots, every read is preceded by a load into a scratch register
    and every write followed by a store. The spilled block does what the block did, also where an
    instruction reads and writes the same spilled register. */
module Spill {
  import opened IR
  import opened Liveness
  import opened RegPool
  import opened MachineCode

  // ---------------------------------------------------------------- blocks as lists

  function Iota(n: nat): (ids: seq<InsId>)
    ensures |ids| == n && forall k :: 0 <= k < n ==> ids[k] == k
  {
    seq(n, k requires 0 <= k < n => k)
  }

  /** What is live before a list of instructions when `out` is live after it. */
  function Live(body: seq<Ins>, out: set<RegId>): set<RegId> {
    if body == [] then out else LiveBefore(body[0], Live(body[1..], out))
  }

  function RunList(m: Machine, frame: set<nat>, body: seq<Ins>, s: Virtual): Virtual {
    if body == [] then s else RunList(m, frame, body[1..], ExecVirtual(m, frame, body[0], s))
  }

  lemma {:induction false} LiveIsLiveAt(body: seq<Ins>, k: nat, out: set<RegId>)
    requires k <= |body|
    ensures LiveAt(body, Iota(|body|), k, out) == Live(body[k..], out)
    decreases |body| - k
  {
    if k < |body| {
      LiveIsLiveAt(body, k + 1, out);
      assert body[k..][1..] == body[k + 1..];
      hide LiveBefore;
    } else {
      assert body[k..] == [];
    }
  }

  lemma {:induction false} LiveOfConcat(a: seq<Ins>, b: seq<Ins>, out: set<RegId>)
    ensures Live(a + b, out) == Live(a, Live(b, out))
  {
    if a == [] {
      assert a + b == b;
    } else {
      assert (a + b)[1..] == a[1..] + b;
      LiveOfConcat(a[1..], b, out);
      hide LiveBefore;
    }
  }

  lemma {:induction false} RunOfConcat(m: Machine, frame: set<nat>, a: seq<Ins>, b: seq<Ins>, s: Virtual)
    ensures RunList(m, frame, a + b, s) == RunList(m, frame, b, RunList(m, frame, a, s))
  {
    if a == [] {
      assert a + b == b;
    } else {
      assert (a + b)[1..] == a[1..] + b;
      hide ExecVirtual;
      RunOfConcat(m, frame, a[1..], b, ExecVirtual(m, frame, a[0], s));
    }
  }

  lemma {:induction false} RunIsExecIds(m: Machine, frame: set<nat>, body: seq<Ins>, k: nat, s: Virtual)
    requires k <= |body|
    ensures ExecVirtualIds(m, frame, body, Iota(|body|), k, s) == RunList(m, frame, body[..k], s)
  {
    if k > 0 {
      RunIsExecIds(m, frame, body, k - 1, s);
      assert body[..k] == body[..k - 1] + [body[k - 1]];
      RunOfConcat(m, frame, body[..k - 1], [body[k - 1]], s);
      assert [body[k - 1]][1..] == [];
      hide ExecVirtual;
    } else {
      assert body[..0] == [];
    }
  }

  // ---------------------------------------------------------------- the rewrite

  type SlotMap = map<RegId, nat>

  function LoadIns(scratch: RegId, slot: nat): Ins {
    Ins(LdStk, [RegOp(scratch), StkOp(slot), ConstOp(0)], [None, None, None])
  }

  function StoreIns(slot: nat, scratch: RegId): Ins {
    Ins(StStk, [StkOp(slot), ConstOp(0), RegOp(scratch)], [None, None, None])
  }

  /** The scratch register that stands in for operand n; `base` is the first unused number. */
  function Scratch(base: nat, n: nat): RegId { RegNo(base + n) }

  predicate IsSpilled(op: Operand, slotOf: SlotMap) { op.RegOp? && op.reg in slotOf }

  function SpilledOperand(op: Operand, slotOf: SlotMap, base: nat, n: nat): Operand {
    if IsSpilled(op, slotOf) then RegOp(Scratch(base, n)) else op
  }

  /** Operands from n on go to scratch registers. */
  function SpilledFrom(ins: Ins, slotOf: SlotMap, base: nat, n: nat): Ins {
    ins.(operands := seq(|ins.operands|, k requires 0 <= k < |ins.operands| =>
      if n <= k then SpilledOperand(ins.operands[k], slotOf, base, k) else ins.operands[k]))
  }

  /** The loads for the operands from n on, last operand first. */
  function Loads(ins: Ins, slotOf: SlotMap, base: nat, n: nat): seq<Ins>
    requires n <= |ins.operands|
    decreases |ins.operands| - n
  {
    if n == |ins.operands| then []
    else
      Loads(ins, slotOf, base, n + 1) +
      if NumDefs(ins.opcode) <= n && IsSpilled(ins.operands[n], slotOf) then [LoadIns(Scratch(base, n), slotOf[ins.operands[n].reg])] else []
  }

  function Stores(ins: Ins, slotOf: SlotMap, base: nat): seq<Ins> {
    if NumDefs(ins.opcode) == 1 && |ins.operands| > 0 && IsSpilled(ins.operands[0], slotOf)
    then [StoreIns(slotOf[ins.operands[0].reg], Scratch(base, 0))] else []
  }

  function Expand(ins: Ins, slotOf: SlotMap, base: nat): seq<Ins> {
    Loads(ins, slotOf, base, 0) + [SpilledFrom(ins, slotOf, base, 0)] + Stores(ins, slotOf, base)
  }

  function SpillList(body: seq<Ins>, slotOf: SlotMap, base: nat): seq<Ins> {
    if body == [] then []
    else Expand(body[0], slotOf, base) + SpillList(body[1..], slotOf, base + |body[0].operands|)
  }

  /** Walks the operands backwards, as every write comes first and is stored last. */
  method SpillOperands(ins: Ins, slotOf: SlotMap, base: nat) returns (before: seq<Ins>, main: Ins, after: seq<Ins>)
    requires WfIns(ins)
    ensures before == Loads(ins, slotOf, base, 0) && main == SpilledFrom(ins, slotOf, base, 0) && after == Stores(ins, slotOf, base)
  {
    before, after, main := [], [], ins;
    assert SpilledFrom(ins, slotOf, base, |ins.operands|) == ins;
    for n := |ins.operands| downto 0
      invariant main == SpilledFrom(ins, slotOf, base, n)
      invariant before == Loads(ins, slotOf, base, n)
      invariant after == if n == 0 then Stores(ins, slotOf, base) else []
    {
      var op := main.operands[n];
      assert op == ins.operands[n];
      if IsSpilled(op, slotOf) {
        var scratch := Scratch(base, n);
        main := main.(operands := main.operands[n := RegOp(scratch)]);
        if n < NumDefs(ins.opcode) {
          after := after + [StoreIns(slotOf[op.reg], scratch)];
        } else {
          before := before + [LoadIns(scratch, slotOf[op.reg])];
        }
      }
      assert main.operands == SpilledFrom(ins, slotOf, base, n).operands;
    }
    if |ins.operands| == 0 { assert Stores(ins, slotOf, base) == []; }
  }

  // ---------------------------------------------------------------- what the rewrite leaves

  ghost function MovedOperand(op: Operand, slotOf: SlotMap, scratch: RegId): Operand {
    if op.RegOp? && op.reg in slotOf then RegOp(scratch) else op
  }

  /** Every operand that is a spilled register became a register of its own, the others stayed. */
  ghost predicate OperandsMoved(ins: Ins, main: Ins, slotOf: SlotMap, base: nat) {
    && main.opcode == ins.opcode && main.defs == ins.defs && |main.operands| == |ins.operands|
    && (forall n :: 0 <= n < |ins.operands| ==> main.operands[n] == MovedOperand(ins.operands[n], slotOf, RegNo(base + n)))
  }

  predicate IsLoad(ins: Ins, scratch: RegId, slot: nat) {
    ins == Ins(LdStk, [RegOp(scratch), StkOp(slot), ConstOp(0)], [None, None, None])
  }

  /** `at` are the positions of the spilled registers that are read, from `from` on, in falling order,
      and there is one load for each of them. */
  ghost predicate LoadedAt(ins: Ins, slotOf: SlotMap, base: nat, from: nat, loads: seq<Ins>, at: seq<nat>) {
    && |loads| == |at|
    && (forall i, j :: 0 <= i < j < |at| ==> at[j] < at[i])
    && (forall n: nat :: n in at <==>
          from <= n < |ins.operands| && NumDefs(ins.opcode) <= n && ins.operands[n].RegOp? && ins.operands[n].reg in slotOf)
    && (forall j :: 0 <= j < |at| ==> at[j] in at && IsLoad(loads[j], RegNo(base + at[j]), slotOf[ins.operands[at[j]].reg]))
  }

  /** One store, if the register written is spilled, and none otherwise. */
  ghost predicate StoredAfter(ins: Ins, slotOf: SlotMap, base: nat, stores: seq<Ins>) {
    if DstOf(ins).Some? && DstOf(ins).value in slotOf
    then stores == [Ins(StStk, [StkOp(slotOf[DstOf(ins).value]), ConstOp(0), RegOp(RegNo(base))], [None, None, None])]
    else stores == []
  }

  /** The loads, the instruction, the store, and nothing else. */
  ghost predicate InsSpilled(ins: Ins, slotOf: SlotMap, base: nat, out: seq<Ins>) {
    exists loads, main, stores, at ::
      && out == loads + [main] + stores && LoadedAt(ins, slotOf, base, 0, loads, at)
      && OperandsMoved(ins, main, slotOf, base) && StoredAfter(ins, slotOf, base, stores)
  }

  /** The instructions of a block one after the other, with scratch registers of their own. */
  ghost predicate BblSpilled(body: seq<Ins>, slotOf: SlotMap, base: nat, out: seq<Ins>) {
    if body == [] then out == []
    else exists n: nat ::
      n <= |out| && InsSpilled(body[0], slotOf, base, out[..n]) && BblSpilled(body[1..], slotOf, base + |body[0].operands|, out[n..])
  }

  lemma {:induction false} LoadsAreAt(ins: Ins, slotOf: SlotMap, base: nat, n: nat) returns (at: seq<nat>)
    requires n <= |ins.operands|
    ensures LoadedAt(ins, slotOf, base, n, Loads(ins, slotOf, base, n), at)
    decreases |ins.operands| - n
  {
    if n == |ins.operands| {
      at := [];
    } else {
      var rest := LoadsAreAt(ins, slotOf, base, n + 1);
      at := rest + if NumDefs(ins.opcode) <= n && IsSpilled(ins.operands[n], slotOf) then [n] else [];
      OneMoreAt(ins, slotOf, base, n, Loads(ins, slotOf, base, n + 1), rest, Loads(ins, slotOf, base, n), at);
    }
  }

  lemma OneMoreAt(ins: Ins, slotOf: SlotMap, base: nat, n: nat, loads: seq<Ins>, at: seq<nat>, loads': seq<Ins>, at': seq<nat>)
    requires n < |ins.operands| && LoadedAt(ins, slotOf, base, n + 1, loads, at)
    requires var here := NumDefs(ins.opcode) <= n && IsSpilled(ins.operands[n], slotOf);
      && at' == at + (if here then [n] else [])
      && loads' == loads + if here then [LoadIns(Scratch(base, n), slotOf[ins.operands[n].reg])] else []
    ensures LoadedAt(ins, slotOf, base, n, loads', at')
  {
    forall j | 0 <= j < |at| ensures at[j] > n { assert at[j] in at; }
    forall j | 0 <= j < |at'| ensures at'[j] in at' && IsLoad(loads'[j], RegNo(base + at'[j]), slotOf[ins.operands[at'[j]].reg]) {
      assert j < |at| ==> at[j] in at;
    }
    if NumDefs(ins.opcode) <= n && IsSpilled(ins.operands[n], slotOf) { assert at'[|at|] == n; }
  }

  lemma ExpandIsSpilled(ins: Ins, slotOf: SlotMap, base: nat)
    requires WfIns(ins)
    ensures InsSpilled(ins, slotOf, base, Expand(ins, slotOf, base))
  {
    var loads, main, stores := Loads(ins, slotOf, base, 0), SpilledFrom(ins, slotOf, base, 0), Stores(ins, slotOf, base);
    var at := LoadsAreAt(ins, slotOf, base, 0);
    MainIsMoved(ins, slotOf, base);
    assert StoredAfter(ins, slotOf, base, stores);
    hide LoadedAt, OperandsMoved, StoredAfter, Loads, SpilledFrom, Stores;
    assert Expand(ins, slotOf, base) == loads + [main] + stores;
  }

  lemma MainIsMoved(ins: Ins, slotOf: SlotMap, base: nat)
    ensures OperandsMoved(ins, SpilledFrom(ins, slotOf, base, 0), slotOf, base)
  {
  }

  lemma {:induction false} ListIsSpilled(body: seq<Ins>, slotOf: SlotMap, base: nat)
    requires forall k :: 0 <= k < |body| ==> WfIns(body[k])
    ensures BblSpilled(body, slotOf, base, SpillList(body, slotOf, base))
  {
    hide WfIns, Expand, InsSpilled;
    if body != [] {
      var first, rest := Expand(body[0], slotOf, base), SpillList(body[1..], slotOf, base + |body[0].operands|);
      ExpandIsSpilled(body[0], slotOf, base);
      ListIsSpilled(body[1..], slotOf, base + |body[0].operands|);
      SpillListStep(body, slotOf, base);
      assert (first + rest)[..|first|] == first && (first + rest)[|first|..] == rest;
    }
  }

  method InsSpillRegs(ins: Ins, slotOf: SlotMap, base: nat) returns (out: seq<Ins>)
    requires WfIns(ins)
    ensures out == Expand(ins, slotOf, base)
    ensures InsSpilled(ins, slotOf, base, out)
  {
    var before, main, after := SpillOperands(ins, slotOf, base);
    ExpandIsSpilled(ins, slotOf, base);
    return before + [main] + after;
  }

  method BblSpillRegs(body: seq<Ins>, slotOf: SlotMap, base: nat) returns (out: seq<Ins>)
    requires forall k :: 0 <= k < |body| ==> WfIns(body[k])
    ensures out == SpillList(body, slotOf, base)
    ensures BblSpilled(body, slotOf, base, out)
  {
    hide BblSpilled;
    out := [];
    var next: nat := base;
    assert body[0..] == body && out + SpillList(body, slotOf, base) == SpillList(body, slotOf, base);
    hide Expand, SpillList, WfIns, InsSpilled;
    for k := 0 to |body|
      invariant SpillList(body, slotOf, base) == out + SpillList(body[k..], slotOf, next)
    {
      SpillListNext(body, k, slotOf, next, out);
      var expanded := InsSpillRegs(body[k], slotOf, next);
      out, next := out + expanded, next + |body[k].operands|;
    }
    SpillListEnd(body, slotOf, next);
    ListIsSpilled(body, slotOf, base);
  }

  lemma SpillListStep(body: seq<Ins>, slotOf: SlotMap, base: nat)
    requires body != []
    ensures SpillList(body, slotOf, base) == Expand(body[0], slotOf, base) + SpillList(body[1..], slotOf, base + |body[0].operands|)
  {
    hide Expand;
  }

  lemma SpillListNext(body: seq<Ins>, k: nat, slotOf: SlotMap, next: nat, out: seq<Ins>)
    requires k < |body|
    ensures out + SpillList(body[k..], slotOf, next) ==
      (out + Expand(body[k], slotOf, next)) + SpillList(body[k + 1..], slotOf, next + |body[k].operands|)
  {
    SpillListStep(body[k..], slotOf, next);
    assert body[k..][1..] == body[k + 1..];
    hide Expand, SpillList;
  }

  lemma SpillListEnd(body: seq<Ins>, slotOf: SlotMap, base: nat)
    ensures SpillList(body[|body|..], slotOf, base) == []
  {
    assert body[|body|..] == [];
  }

  // ---------------------------------------------------------------- liveness

  /** Only registers numbered below base occur. */
  predicate Below(ins: Ins, base: nat) {
    forall n :: 0 <= n < |ins.operands| && ins.operands[n].RegOp? ==> ins.operands[n].reg.no < base
  }

  predicate AllBelow(body: seq<Ins>, base: nat) { forall k :: 0 <= k < |body| ==> Below(body[k], base) && WfIns(body[k]) }

  predicate RegsBelow(rs: set<RegId>, base: nat) { forall r :: r in rs ==> r.no < base }

  /** A load makes its scratch register dead before it and adds nothing. */
  lemma LiveBeforeLoad(scratch: RegId, slot: nat, live: set<RegId>)
    ensures LiveBefore(LoadIns(scratch, slot), live) == live - {scratch}
  {
    var ins := LoadIns(scratch, slot);
    assert DefsOf(ins) == {scratch};
    assert UsesOf(ins) == {};
  }

  lemma LiveBeforeStore(scratch: RegId, slot: nat, live: set<RegId>)
    ensures LiveBefore(StoreIns(slot, scratch), live) == live + {scratch}
  {
    var ins := StoreIns(slot, scratch);
    assert DefsOf(ins) == {};
    assert ins.operands[2] == RegOp(scratch);
    assert forall r :: r in UsesOf(ins) <==> r == scratch;
  }

  /** The scratch registers loaded for operands from n on. */
  function ScratchRegs(ins: Ins, slotOf: SlotMap, base: nat, n: nat): set<RegId> {
    set k | n <= k < |ins.operands| && NumDefs(ins.opcode) <= k && IsSpilled(ins.operands[k], slotOf) :: Scratch(base, k)
  }

  lemma {:induction false} LiveBeforeLoads(ins: Ins, slotOf: SlotMap, base: nat, n: nat, live: set<RegId>)
    requires n <= |ins.operands|
    ensures Live(Loads(ins, slotOf, base, n), live) == live - ScratchRegs(ins, slotOf, base, n)
    decreases |ins.operands| - n
  {
    if n == |ins.operands| {
      assert ScratchRegs(ins, slotOf, base, n) == {};
    } else {
      var rest := Loads(ins, slotOf, base, n + 1);
      if NumDefs(ins.opcode) <= n && IsSpilled(ins.operands[n], slotOf) {
        var ld := LoadIns(Scratch(base, n), slotOf[ins.operands[n].reg]);
        LiveOfConcat(rest, [ld], live);
        LiveBeforeLoad(Scratch(base, n), slotOf[ins.operands[n].reg], live);
        assert [ld][1..] == [] && Live([ld], live) == live - {Scratch(base, n)};
        LiveBeforeLoads(ins, slotOf, base, n + 1, live - {Scratch(base, n)});
        assert ScratchRegs(ins, slotOf, base, n) == ScratchRegs(ins, slotOf, base, n + 1) + {Scratch(base, n)};
      } else {
        LiveBeforeLoads(ins, slotOf, base, n + 1, live);
        assert Loads(ins, slotOf, base, n) == rest + [] == rest;
        assert ScratchRegs(ins, slotOf, base, n) == ScratchRegs(ins, slotOf, base, n + 1);
      }
    }
  }

  lemma SpilledIns(ins: Ins, slotOf: SlotMap, base: nat)
    requires WfIns(ins)
    ensures var main := SpilledFrom(ins, slotOf, base, 0);
      && WfIns(main) && main.opcode == ins.opcode
      && DstOf(main) == (if DstOf(ins).Some? && DstOf(ins).value in slotOf then Some(Scratch(base, 0)) else DstOf(ins))
      && UsesOf(main) == (UsesOf(ins) - slotOf.Keys) + ScratchRegs(ins, slotOf, base, 0)
  {
    var main := SpilledFrom(ins, slotOf, base, 0);
    forall r ensures r in UsesOf(main) <==> r in (UsesOf(ins) - slotOf.Keys) + ScratchRegs(ins, slotOf, base, 0) {
      if UsesReg(main, r) {
        var n :| NumDefs(ins.opcode) <= n < |ins.operands| && main.operands[n] == RegOp(r);
        if !IsSpilled(ins.operands[n], slotOf) { assert ins.operands[n] == RegOp(r) && UsesReg(ins, r); }
      }
      if UsesReg(ins, r) && r !in slotOf {
        var n :| NumDefs(ins.opcode) <= n < |ins.operands| && ins.operands[n] == RegOp(r);
        assert main.operands[n] == RegOp(r);
      }
      if r in ScratchRegs(ins, slotOf, base, 0) {
        var n :| 0 <= n < |ins.operands| && NumDefs(ins.opcode) <= n && IsSpilled(ins.operands[n], slotOf) && r == Scratch(base, n);
        assert main.operands[n] == RegOp(r);
      }
      hide UsesOf;
    }
  }

  /** Before the expansion of an instruction exactly what was live before it is live, without the
      spilled registers. */
  lemma LiveBeforeExpand(ins: Ins, slotOf: SlotMap, base: nat, live: set<RegId>)
    requires WfIns(ins) && Below(ins, base) && RegsBelow(live, base)
    ensures Live(Expand(ins, slotOf, base), live - slotOf.Keys) == LiveBefore(ins, live) - slotOf.Keys
  {
    var main, loads, stores := SpilledFrom(ins, slotOf, base, 0), Loads(ins, slotOf, base, 0), Stores(ins, slotOf, base);
    var after := live - slotOf.Keys;
    SpilledIns(ins, slotOf, base);
    LiveOfConcat(loads + [main], stores, after);
    LiveOfConcat(loads, [main], Live(stores, after));
    assert [main][1..] == [];
    LiveBeforeStores(ins, slotOf, base, after);
    LiveBeforeLoads(ins, slotOf, base, 0, LiveBefore(main, Live(stores, after)));
    assert Expand(ins, slotOf, base) == loads + [main] + stores;
    BelowUses(ins, base);
    hide Loads, Stores, SpilledFrom, UsesOf, Below;
    MainLive(ins, main, slotOf, base, live, Live(stores, after));
  }

  lemma BelowUses(ins: Ins, base: nat)
    requires Below(ins, base)
    ensures RegsBelow(UsesOf(ins), base) && (DstOf(ins).Some? ==> DstOf(ins).value.no < base)
  {
  }

  lemma LiveBeforeStores(ins: Ins, slotOf: SlotMap, base: nat, after: set<RegId>)
    ensures Live(Stores(ins, slotOf, base), after) == after + (if DstOf(ins).Some? && DstOf(ins).value in slotOf then {Scratch(base, 0)} else {})
  {
    if DstOf(ins).Some? && DstOf(ins).value in slotOf {
      LiveBeforeStore(Scratch(base, 0), slotOf[ins.operands[0].reg], after);
      assert Stores(ins, slotOf, base)[1..] == [];
      hide LiveBefore;
    }
  }

  lemma MainLive(ins: Ins, main: Ins, slotOf: SlotMap, base: nat, live: set<RegId>, mid: set<RegId>)
    requires DstOf(main) == (if DstOf(ins).Some? && DstOf(ins).value in slotOf then Some(Scratch(base, 0)) else DstOf(ins))
    requires UsesOf(main) == (UsesOf(ins) - slotOf.Keys) + ScratchRegs(ins, slotOf, base, 0)
    requires mid == (live - slotOf.Keys) + (if DstOf(ins).Some? && DstOf(ins).value in slotOf then {Scratch(base, 0)} else {})
    requires RegsBelow(live, base) && RegsBelow(UsesOf(ins), base)
    ensures LiveBefore(main, mid) - ScratchRegs(ins, slotOf, base, 0) == LiveBefore(ins, live) - slotOf.Keys
  {
    forall r | r in ScratchRegs(ins, slotOf, base, 0) ensures base <= r.no {}
    hide UsesOf, ScratchRegs, DstOf;
  }

  lemma LiveBelow(body: seq<Ins>, base: nat, out: set<RegId>)
    requires AllBelow(body, base) && RegsBelow(out, base)
    ensures RegsBelow(Live(body, out), base)
  {
    if body != [] {
      LiveBelow(body[1..], base, out);
      BelowUses(body[0], base);
      hide UsesOf, DefsOf, Below;
    }
  }

  lemma {:induction false} LiveAfterSpill(body: seq<Ins>, slotOf: SlotMap, base: nat, limit: nat, out: set<RegId>)
    requires AllBelow(body, limit) && RegsBelow(out, limit) && limit <= base && out !! slotOf.Keys
    ensures Live(SpillList(body, slotOf, base), out) == Live(body, out) - slotOf.Keys
  {
    if body != [] {
      var rest := SpillList(body[1..], slotOf, base + |body[0].operands|);
      LiveAfterSpill(body[1..], slotOf, base + |body[0].operands|, limit, out);
      LiveOfConcat(Expand(body[0], slotOf, base), rest, out);
      LiveBelow(body[1..], limit, out);
      BelowMore(body[0], Live(body[1..], out), limit, base);
      LiveBeforeExpand(body[0], slotOf, base, Live(body[1..], out));
      hide Expand, LiveBefore, Below;
    }
  }

  lemma BelowMore(ins: Ins, live: set<RegId>, limit: nat, base: nat)
    requires limit <= base && Below(ins, limit) && RegsBelow(live, limit)
    ensures Below(ins, base) && RegsBelow(live, base)
  {
  }

  // ---------------------------------------------------------------- runs

  /** Slots made by spilling are not otherwise in use, and no two registers share one. */
  predicate OwnSlots(slotOf: SlotMap) {
    forall q, r :: q in slotOf && r in slotOf && q != r ==> slotOf[q] != slotOf[r]
  }

  predicate AvoidsSlots(ins: Ins, frame: set<nat>) {
    forall n :: 0 <= n < |ins.operands| && ins.operands[n].StkOp? ==> ins.operands[n].stk !in frame
  }

  /** Where the spilled run keeps the value of r. */
  function Kept(slotOf: SlotMap, t: Virtual, r: RegId): int {
    if r in slotOf then SlotAt(t.world.slots, slotOf[r]) else ReadReg(t.regs, r)
  }

  /** Same memory and events; every live register is in its slot, or unchanged. */
  ghost predicate SpillMatches(slotOf: SlotMap, live: set<RegId>, s: Virtual, t: Virtual) {
    && s.world.mem == t.world.mem && s.world.trace == t.world.trace
    && forall r :: r in live ==> Kept(slotOf, t, r) == ReadReg(s.regs, r)
  }

  lemma LoadRuns(m: Machine, frame: set<nat>, scratch: RegId, slot: nat, t: Virtual)
    requires slot in frame
    ensures ExecVirtual(m, frame, LoadIns(scratch, slot), t) == Virtual(t.regs[scratch := SlotAt(t.world.slots, slot)], t.world)
  {
    hide UseVals;
  }

  lemma StoreRuns(m: Machine, frame: set<nat>, scratch: RegId, slot: nat, t: Virtual)
    requires slot in frame
    ensures ExecVirtual(m, frame, StoreIns(slot, scratch), t) ==
      Virtual(t.regs, t.world.(slots := t.world.slots[slot := ReadReg(t.regs, scratch)]))
  {
    var ins := StoreIns(slot, scratch);
    assert UseVals(m, ins, t.regs)[2] == Eval(m, ins.operands[0..][2], t.regs);
  }

  /** After the loads every scratch register holds what its slot holds. */
  ghost predicate Filled(ins: Ins, slotOf: SlotMap, base: nat, n: nat, t: Virtual, t': Virtual) {
    && t'.world == t.world
    && (forall k: nat :: n <= k < |ins.operands| && NumDefs(ins.opcode) <= k && IsSpilled(ins.operands[k], slotOf) ==>
          ReadReg(t'.regs, Scratch(base, k)) == SlotAt(t.world.slots, slotOf[ins.operands[k].reg]))
    && (forall r: RegId :: r.no < base ==> ReadReg(t'.regs, r) == ReadReg(t.regs, r))
  }

  lemma OneMoreFilled(ins: Ins, slotOf: SlotMap, base: nat, n: nat, t: Virtual, t1: Virtual)
    requires n < |ins.operands| && IsSpilled(ins.operands[n], slotOf) && Filled(ins, slotOf, base, n + 1, t, t1)
    ensures Filled(ins, slotOf, base, n, t, Virtual(t1.regs[Scratch(base, n) := SlotAt(t1.world.slots, slotOf[ins.operands[n].reg])], t1.world))
  {
  }

  lemma {:induction false} LoadsRun(m: Machine, ins: Ins, slotOf: SlotMap, base: nat, n: nat, t: Virtual)
    requires n <= |ins.operands|
    ensures Filled(ins, slotOf, base, n, t, RunList(m, slotOf.Values, Loads(ins, slotOf, base, n), t))
    decreases |ins.operands| - n
  {
    if n < |ins.operands| {
      LoadsRun(m, ins, slotOf, base, n + 1, t);
      var rest, t1 := Loads(ins, slotOf, base, n + 1), RunList(m, slotOf.Values, Loads(ins, slotOf, base, n + 1), t);
      if NumDefs(ins.opcode) <= n && IsSpilled(ins.operands[n], slotOf) {
        var slot := slotOf[ins.operands[n].reg];
        var ld := LoadIns(Scratch(base, n), slot);
        hide ExecVirtual, Filled, LoadIns;
        RunOfConcat(m, slotOf.Values, rest, [ld], t);
        LoadRuns(m, slotOf.Values, Scratch(base, n), slot, t1);
        assert [ld][1..] == [];
        OneMoreFilled(ins, slotOf, base, n, t, t1);
      } else {
        assert Loads(ins, slotOf, base, n) == rest + [] == rest;
      }
    }
  }

  /** One operand, read from its scratch register or as it was. */
  lemma SpilledRead(m: Machine, ins: Ins, slotOf: SlotMap, base: nat, s: Virtual, t: Virtual, t1: Virtual, n: nat)
    requires Below(ins, base) && SpillMatches(slotOf, UsesOf(ins), s, t) && Filled(ins, slotOf, base, 0, t, t1)
    requires NumDefs(ins.opcode) <= n < |ins.operands|
    ensures Eval(m, SpilledOperand(ins.operands[n], slotOf, base, n), t1.regs) == Eval(m, ins.operands[n], s.regs)
  {
    hide UsesOf;
    if ins.operands[n].RegOp? {
      assert ins.operands[n] == RegOp(ins.operands[n].reg) && UsesReg(ins, ins.operands[n].reg);
      assert Kept(slotOf, t, ins.operands[n].reg) == ReadReg(s.regs, ins.operands[n].reg);
    }
  }

  lemma UseValAt(m: Machine, ins: Ins, regs: Regs, n: nat)
    requires NumDefs(ins.opcode) <= n < |ins.operands|
    ensures |UseVals(m, ins, regs)| == |ins.operands| - NumDefs(ins.opcode)
    ensures UseVals(m, ins, regs)[n - NumDefs(ins.opcode)] == Eval(m, ins.operands[n], regs)
  {
    hide Eval;
  }

  lemma MainOperand(ins: Ins, slotOf: SlotMap, base: nat, n: nat)
    requires n < |ins.operands|
    ensures var main := SpilledFrom(ins, slotOf, base, 0);
      main.opcode == ins.opcode && |main.operands| == |ins.operands| && main.operands[n] == SpilledOperand(ins.operands[n], slotOf, base, n)
  {
    hide SpilledOperand;
  }

  lemma SpilledValue(m: Machine, ins: Ins, slotOf: SlotMap, base: nat, s: Virtual, t: Virtual, t1: Virtual, n: nat)
    requires Below(ins, base) && SpillMatches(slotOf, UsesOf(ins), s, t) && Filled(ins, slotOf, base, 0, t, t1)
    requires NumDefs(ins.opcode) <= n < |ins.operands|
    ensures var vs, vs' := UseVals(m, ins, s.regs), UseVals(m, SpilledFrom(ins, slotOf, base, 0), t1.regs);
      && |vs'| == |vs| == |ins.operands| - NumDefs(ins.opcode)
      && vs'[n - NumDefs(ins.opcode)] == vs[n - NumDefs(ins.opcode)]
  {
    hide *;
    MainOperand(ins, slotOf, base, n);
    UseValAt(m, ins, s.regs, n);
    UseValAt(m, SpilledFrom(ins, slotOf, base, 0), t1.regs, n);
    SpilledRead(m, ins, slotOf, base, s, t, t1, n);
  }

  lemma SpilledCount(m: Machine, ins: Ins, slotOf: SlotMap, base: nat, regs: Regs, regs': Regs)
    requires WfIns(ins)
    ensures |UseVals(m, SpilledFrom(ins, slotOf, base, 0), regs')| == |UseVals(m, ins, regs)| == |ins.operands| - NumDefs(ins.opcode)
  {
    hide Eval, SpilledOperand;
  }

  lemma SpilledReads(m: Machine, ins: Ins, slotOf: SlotMap, base: nat, s: Virtual, t: Virtual, t1: Virtual)
    requires WfIns(ins) && Below(ins, base) && SpillMatches(slotOf, UsesOf(ins), s, t) && Filled(ins, slotOf, base, 0, t, t1)
    ensures UseVals(m, SpilledFrom(ins, slotOf, base, 0), t1.regs) == UseVals(m, ins, s.regs)
  {
    hide *;
    var vs, vs' := UseVals(m, ins, s.regs), UseVals(m, SpilledFrom(ins, slotOf, base, 0), t1.regs);
    SpilledCount(m, ins, slotOf, base, s.regs, t1.regs);
    forall n: nat | n < |vs| ensures vs'[n] == vs[n] {
      SpilledValue(m, ins, slotOf, base, s, t, t1, n + NumDefs(ins.opcode));
    }
  }

  lemma SpilledPerforms(m: Machine, ins: Ins, slotOf: SlotMap, base: nat, vs: seq<int>, w: World, w': World)
    requires AvoidsSlots(ins, slotOf.Values) && w.mem == w'.mem && w.trace == w'.trace
    ensures var main := SpilledFrom(ins, slotOf, base, 0);
      var d, d' := Perform(m, {}, ins, vs, w), Perform(m, slotOf.Values, main, vs, w');
      && d.result == d'.result && d.world.mem == d'.world.mem && d.world.trace == d'.world.trace && d'.world.slots == w'.slots
  {
    hide Effect;
  }

  lemma StoresRun(m: Machine, ins: Ins, slotOf: SlotMap, base: nat, t: Virtual)
    ensures RunList(m, slotOf.Values, Stores(ins, slotOf, base), t) ==
      if DstOf(ins).Some? && DstOf(ins).value in slotOf
      then Virtual(t.regs, t.world.(slots := t.world.slots[slotOf[DstOf(ins).value] := ReadReg(t.regs, Scratch(base, 0))]))
      else t
  {
    if DstOf(ins).Some? && DstOf(ins).value in slotOf {
      var slot := slotOf[ins.operands[0].reg];
      StoreRuns(m, slotOf.Values, Scratch(base, 0), slot, t);
      assert Stores(ins, slotOf, base) == [StoreIns(slot, Scratch(base, 0))];
      assert [StoreIns(slot, Scratch(base, 0))][1..] == [];
      hide ExecVirtual;
    }
  }

  /** One instruction, also when it reads and writes the same spilled register. */
  lemma ExpandRuns(m: Machine, ins: Ins, slotOf: SlotMap, base: nat, live: set<RegId>, s: Virtual, t: Virtual)
    requires WfIns(ins) && Below(ins, base) && RegsBelow(live, base) && OwnSlots(slotOf) && AvoidsSlots(ins, slotOf.Values)
    requires SpillMatches(slotOf, LiveBefore(ins, live), s, t)
    ensures SpillMatches(slotOf, live, ExecVirtual(m, {}, ins, s), RunList(m, slotOf.Values, Expand(ins, slotOf, base), t))
  {
    var frame := slotOf.Values;
    var main, loads, stores := SpilledFrom(ins, slotOf, base, 0), Loads(ins, slotOf, base, 0), Stores(ins, slotOf, base);
    assert Expand(ins, slotOf, base) == loads + [main] + stores;
    assert UsesOf(ins) <= LiveBefore(ins, live);
    hide ExecVirtual, Loads, Stores, SpilledFrom, UsesOf;
    RunOfConcat(m, frame, loads + [main], stores, t);
    RunOfConcat(m, frame, loads, [main], t);
    assert [main][1..] == [];
    LoadsRun(m, ins, slotOf, base, 0, t);
    var t1 := RunList(m, frame, loads, t);
    var t2 := ExecVirtual(m, frame, main, t1);
    assert RunList(m, frame, Expand(ins, slotOf, base), t) == RunList(m, frame, stores, t2);
    SpilledReads(m, ins, slotOf, base, s, t, t1);
    StoresRun(m, ins, slotOf, base, t2);
    SpilledIns(ins, slotOf, base);
    MainRuns(m, ins, main, slotOf, base, live, s, t, t1);
  }

  lemma KeptBesides(ins: Ins, slotOf: SlotMap, live: set<RegId>, s: Virtual, t: Virtual)
    requires SpillMatches(slotOf, LiveBefore(ins, live), s, t)
    ensures forall r :: r in live && DstOf(ins) != Some(r) ==> Kept(slotOf, t, r) == ReadReg(s.regs, r)
  {
    forall r | r in live && DstOf(ins) != Some(r) ensures Kept(slotOf, t, r) == ReadReg(s.regs, r) {
      assert r in LiveBefore(ins, live);
    }
  }

  lemma MainRuns(m: Machine, ins: Ins, main: Ins, slotOf: SlotMap, base: nat, live: set<RegId>, s: Virtual, t: Virtual, t1: Virtual)
    requires Below(ins, base) && RegsBelow(live, base) && OwnSlots(slotOf) && AvoidsSlots(ins, slotOf.Values)
    requires main == SpilledFrom(ins, slotOf, base, 0) && SpillMatches(slotOf, LiveBefore(ins, live), s, t) && Filled(ins, slotOf, base, 0, t, t1)
    requires UseVals(m, main, t1.regs) == UseVals(m, ins, s.regs)
    requires DstOf(main) == (if DstOf(ins).Some? && DstOf(ins).value in slotOf then Some(Scratch(base, 0)) else DstOf(ins))
    ensures var t2 := ExecVirtual(m, slotOf.Values, main, t1);
      SpillMatches(slotOf, live, ExecVirtual(m, {}, ins, s),
        if DstOf(ins).Some? && DstOf(ins).value in slotOf
        then Virtual(t2.regs, t2.world.(slots := t2.world.slots[slotOf[DstOf(ins).value] := ReadReg(t2.regs, Scratch(base, 0))]))
        else t2)
  {
    hide UseVals, Perform, SpilledFrom, LiveBefore, AvoidsSlots, UsesOf;
    SpilledPerforms(m, ins, slotOf, base, UseVals(m, ins, s.regs), s.world, t1.world);
    BelowUses(ins, base);
    KeptBesides(ins, slotOf, live, s, t);
    hide DstOf, Below;
  }

  /** What a block and its spilling have in common with the rest of it. */
  ghost predicate SpillSetting(body: seq<Ins>, slotOf: SlotMap, base: nat, limit: nat, out: set<RegId>) {
    && AllBelow(body, limit) && RegsBelow(out, limit) && limit <= base && OwnSlots(slotOf)
    && forall k :: 0 <= k < |body| ==> AvoidsSlots(body[k], slotOf.Values)
  }

  lemma SpillRunsOne(m: Machine, body: seq<Ins>, slotOf: SlotMap, base: nat, limit: nat, out: set<RegId>, s: Virtual, t: Virtual)
    requires body != [] && SpillSetting(body, slotOf, base, limit, out) && SpillMatches(slotOf, Live(body, out), s, t)
    ensures var base', s1, t1 := base + |body[0].operands|, ExecVirtual(m, {}, body[0], s), RunList(m, slotOf.Values, Expand(body[0], slotOf, base), t);
      && SpillSetting(body[1..], slotOf, base', limit, out) && SpillMatches(slotOf, Live(body[1..], out), s1, t1)
      && RunList(m, {}, body, s) == RunList(m, {}, body[1..], s1)
      && RunList(m, slotOf.Values, SpillList(body, slotOf, base), t) == RunList(m, slotOf.Values, SpillList(body[1..], slotOf, base'), t1)
  {
    RunListStep(m, {}, body, s, out);
    SpillListStep(body, slotOf, base);
    SplitBody(body, slotOf, base, limit, out);
    hide *;
    LiveBelow(body[1..], limit, out);
    BelowMore(body[0], Live(body[1..], out), limit, base);
    ExpandRuns(m, body[0], slotOf, base, Live(body[1..], out), s, t);
    RunOfConcat(m, slotOf.Values, Expand(body[0], slotOf, base), SpillList(body[1..], slotOf, base + |body[0].operands|), t);
  }

  lemma {:induction false} SpillRuns(m: Machine, body: seq<Ins>, slotOf: SlotMap, base: nat, limit: nat, out: set<RegId>, s: Virtual, t: Virtual)
    requires SpillSetting(body, slotOf, base, limit, out) && SpillMatches(slotOf, Live(body, out), s, t)
    ensures SpillMatches(slotOf, out, RunList(m, {}, body, s), RunList(m, slotOf.Values, SpillList(body, slotOf, base), t))
    decreases |body|
  {
    hide *;
    if body != [] {
      SpillRunsOne(m, body, slotOf, base, limit, out, s, t);
      SpillRuns(m, body[1..], slotOf, base + |body[0].operands|, limit, out, ExecVirtual(m, {}, body[0], s),
                RunList(m, slotOf.Values, Expand(body[0], slotOf, base), t));
    } else {
      EmptyBody(m, body, slotOf, base, out, s, t);
    }
  }

  lemma EmptyBody(m: Machine, body: seq<Ins>, slotOf: SlotMap, base: nat, out: set<RegId>, s: Virtual, t: Virtual)
    requires body == []
    ensures Live(body, out) == out && RunList(m, {}, body, s) == s
    ensures RunList(m, slotOf.Values, SpillList(body, slotOf, base), t) == t
  {
  }

  lemma SplitBody(body: seq<Ins>, slotOf: SlotMap, base: nat, limit: nat, out: set<RegId>)
    requires body != [] && SpillSetting(body, slotOf, base, limit, out)
    ensures SpillSetting(body[1..], slotOf, base + |body[0].operands|, limit, out)
    ensures AllBelow(body[1..], limit) && RegsBelow(out, limit) && limit <= base && OwnSlots(slotOf)
    ensures AvoidsSlots(body[0], slotOf.Values) && Below(body[0], limit) && WfIns(body[0])
  {
    hide AvoidsSlots, Below, WfIns;
  }

  lemma RunListStep(m: Machine, frame: set<nat>, body: seq<Ins>, s: Virtual, out: set<RegId>)
    requires body != []
    ensures RunList(m, frame, body, s) == RunList(m, frame, body[1..], ExecVirtual(m, frame, body[0], s))
    ensures Live(body, out) == LiveBefore(body[0], Live(body[1..], out))
  {
    hide ExecVirtual, LiveBefore;
  }
}
