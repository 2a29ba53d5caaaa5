/** The whole of local allocation for a block: allocate, spill what did not fit, allocate again. If
    it comes to an end without giving up, the block on machine registers behaves like the block on
    virtual ones (`BblRegAllocOrSpill`). */
module BlockAlloc {
  import opened IR
  import opened Liveness
  import opened RegPool
  import opened LiveRanges
  import opened LinearScan
  import opened MachineCode
  import opened LocalAlloc
  import opened ScanLaws
  import opened Spill
  import Frame

  // ---------------------------------------------------------------- the coloring, list by list

  /** The write of `ins` and a call there spare the assigned registers live after it. */
  ghost predicate ColoredHead(ins: Ins, after: set<RegId>, cpu: Assignment) {
    && (forall r, q :: DstOf(ins) == Some(r) && r in cpu && q in after && q in cpu && q != r ==> AllocMask(cpu[r]) !! AllocMask(cpu[q]))
    && (IsCall(ins.opcode) ==> forall q :: q in after && q in cpu ==> SurvivesCalls(cpu[q]))
  }

  ghost predicate ColoredBody(body: seq<Ins>, out: set<RegId>, cpu: Assignment) {
    forall k :: 0 <= k < |body| ==> ColoredHead(body[k], Live(body[k + 1..], out), cpu)
  }

  lemma ColoredBodyIff(body: seq<Ins>, out: set<RegId>, cpu: Assignment, k: nat)
    requires k < |body|
    ensures FixedColoredAt(body, Iota(|body|), out, cpu, k) <==> ColoredHead(body[k], Live(body[k + 1..], out), cpu)
  {
    LiveIsLiveAt(body, k + 1, out);
    hide AllocMask, DstOf, SurvivesCalls, LiveAt;
  }

  lemma ColoredOfConcat(a: seq<Ins>, b: seq<Ins>, out: set<RegId>, cpu: Assignment)
    requires ColoredBody(a, Live(b, out), cpu) && ColoredBody(b, out, cpu)
    ensures ColoredBody(a + b, out, cpu)
  {
    hide ColoredHead, Live;
    forall k | 0 <= k < |a + b| ensures ColoredHead((a + b)[k], Live((a + b)[k + 1..], out), cpu) {
      if k < |a| {
        assert (a + b)[k + 1..] == a[k + 1..] + b;
        LiveOfConcat(a[k + 1..], b, out);
      } else {
        assert (a + b)[k + 1..] == b[k - |a| + 1..];
      }
    }
  }

  predicate Unassigned(regs: set<RegId>, cpu: Assignment) { forall r :: r in regs ==> r !in cpu }

  /** Assigned registers are numbered below the scratch registers and are not spilled. */
  predicate Assigned(cpu: Assignment, slotOf: SlotMap, base: nat) {
    forall r :: r in cpu ==> r.no < base && r !in slotOf
  }

  lemma LoadColored(scratch: RegId, slot: nat, live: set<RegId>, cpu: Assignment)
    requires scratch !in cpu
    ensures ColoredBody([LoadIns(scratch, slot)], live, cpu)
  {
    var ld := LoadIns(scratch, slot);
    assert DstOf(ld) == Some(scratch);
    assert ColoredHead(ld, live, cpu) by { hide AllocMask; }
    hide ColoredHead;
    assert [ld][1..] == [] && Live([], live) == live;
  }

  lemma LoadsStep(ins: Ins, slotOf: SlotMap, base: nat, n: nat)
    requires n < |ins.operands|
    ensures Loads(ins, slotOf, base, n) == Loads(ins, slotOf, base, n + 1) +
      if NumDefs(ins.opcode) <= n && IsSpilled(ins.operands[n], slotOf) then [LoadIns(Scratch(base, n), slotOf[ins.operands[n].reg])] else []
  {
  }

  lemma NothingColored(live: set<RegId>, cpu: Assignment)
    ensures ColoredBody([], live, cpu)
  {
  }

  lemma ScratchIsUnassigned(cpu: Assignment, slotOf: SlotMap, base: nat, n: nat)
    requires Assigned(cpu, slotOf, base)
    ensures Scratch(base, n) !in cpu
  {
  }

  lemma {:induction false} LoadsColored(ins: Ins, slotOf: SlotMap, base: nat, n: nat, live: set<RegId>, cpu: Assignment)
    requires n <= |ins.operands| && Assigned(cpu, slotOf, base)
    ensures ColoredBody(Loads(ins, slotOf, base, n), live, cpu)
    decreases |ins.operands| - n
  {
    NothingColored(live, cpu);
    if n < |ins.operands| {
      LoadsStep(ins, slotOf, base, n);
      ScratchIsUnassigned(cpu, slotOf, base, n);
      hide ColoredBody, Loads, LoadIns, Scratch, Assigned, Live, NumDefs;
      var rest := Loads(ins, slotOf, base, n + 1);
      if NumDefs(ins.opcode) <= n && IsSpilled(ins.operands[n], slotOf) {
        var ld := LoadIns(Scratch(base, n), slotOf[ins.operands[n].reg]);
        LoadColored(Scratch(base, n), slotOf[ins.operands[n].reg], live, cpu);
        LoadsColored(ins, slotOf, base, n + 1, Live([ld], live), cpu);
        ColoredOfConcat(rest, [ld], live, cpu);
      } else {
        LoadsColored(ins, slotOf, base, n + 1, live, cpu);
        assert rest + [] == rest;
      }
    }
  }

  lemma StoresColored(ins: Ins, slotOf: SlotMap, base: nat, live: set<RegId>, cpu: Assignment)
    ensures ColoredBody(Stores(ins, slotOf, base), live, cpu)
  {
    var st := Stores(ins, slotOf, base);
    forall k | 0 <= k < |st| ensures ColoredHead(st[k], Live(st[k + 1..], live), cpu) {
      assert DstOf(st[k]) == None;
    }
  }

  lemma ExpandColored(ins: Ins, slotOf: SlotMap, base: nat, live: set<RegId>, cpu: Assignment)
    requires WfIns(ins) && ColoredHead(ins, live, cpu) && Assigned(cpu, slotOf, base)
    ensures ColoredBody(Expand(ins, slotOf, base), live - slotOf.Keys, cpu)
  {
    var main, loads, stores := SpilledFrom(ins, slotOf, base, 0), Loads(ins, slotOf, base, 0), Stores(ins, slotOf, base);
    var after := live - slotOf.Keys;
    SpilledIns(ins, slotOf, base);
    LiveBeforeStores(ins, slotOf, base, after);
    var mid := Live(stores, after);
    assert forall q :: q in mid && q in cpu ==> q in live;
    assert ColoredHead(main, mid, cpu) by { hide AllocMask, SurvivesCalls, UsesOf, SpilledFrom, Stores; }
    assert [main][1..] == [];
    assert ColoredBody([main], mid, cpu);
    StoresColored(ins, slotOf, base, after, cpu);
    LoadsColored(ins, slotOf, base, 0, Live([main], mid), cpu);
    hide ColoredBody, Stores, Loads, SpilledFrom, Live;
    ColoredOfConcat(loads, [main], mid, cpu);
    ColoredOfConcat(loads + [main], stores, after, cpu);
  }

  lemma {:induction false} SpillColored(body: seq<Ins>, slotOf: SlotMap, base: nat, limit: nat, out: set<RegId>, cpu: Assignment)
    requires AllBelow(body, limit) && RegsBelow(out, limit) && limit <= base && out !! slotOf.Keys && Assigned(cpu, slotOf, limit)
    requires ColoredBody(body, out, cpu)
    ensures ColoredBody(SpillList(body, slotOf, base), out, cpu)
    decreases |body|
  {
    hide *;
    if body != [] {
      ColoredSplit(body, limit, out, cpu);
      BelowScratch(cpu, slotOf, limit, base);
      SpillListStep(body, slotOf, base);
      var base' := base + |body[0].operands|;
      SpillColored(body[1..], slotOf, base', limit, out, cpu);
      LiveAfterSpill(body[1..], slotOf, base', limit, out);
      ExpandColored(body[0], slotOf, base, Live(body[1..], out), cpu);
      ColoredOfConcat(Expand(body[0], slotOf, base), SpillList(body[1..], slotOf, base'), out, cpu);
    } else {
      NothingToSpill(body, slotOf, base, out, cpu);
    }
  }

  lemma NothingToSpill(body: seq<Ins>, slotOf: SlotMap, base: nat, out: set<RegId>, cpu: Assignment)
    requires body == []
    ensures ColoredBody(SpillList(body, slotOf, base), out, cpu)
    ensures SetsOnce(SpillList(body, slotOf, base), cpu, base, base + |FlatOperands(body)|)
  {
  }

  lemma ColoredSplit(body: seq<Ins>, limit: nat, out: set<RegId>, cpu: Assignment)
    requires body != [] && ColoredBody(body, out, cpu) && AllBelow(body, limit)
    ensures ColoredHead(body[0], Live(body[1..], out), cpu) && ColoredBody(body[1..], out, cpu) && AllBelow(body[1..], limit) && WfIns(body[0])
  {
    hide ColoredHead, Live, Below, WfIns;
    assert ColoredHead(body[0], Live(body[0 + 1..], out), cpu);
    forall k | 0 <= k < |body[1..]| ensures ColoredHead(body[1..][k], Live(body[1..][k + 1..], out), cpu) {
      assert ColoredHead(body[k + 1], Live(body[k + 1 + 1..], out), cpu);
      assert body[1..][k + 1..] == body[k + 1 + 1..];
    }
  }

  lemma BelowScratch(cpu: Assignment, slotOf: SlotMap, limit: nat, base: nat)
    requires Assigned(cpu, slotOf, limit) && limit <= base
    ensures Assigned(cpu, slotOf, base)
  {
  }

  // ---------------------------------------------------------------- scratch registers are set once

  /** Registers without a machine register are set once, and only those numbered lo..hi. */
  ghost predicate SetsOnce(body: seq<Ins>, cpu: Assignment, lo: nat, hi: nat) {
    && (forall p, q :: 0 <= p < q < |body| && SetsNew(body[p], cpu) ==> DstOf(body[q]) != DstOf(body[p]))
    && (forall p :: 0 <= p < |body| && SetsNew(body[p], cpu) ==> lo <= DstOf(body[p]).value.no < hi)
  }

  predicate SetsNew(ins: Ins, cpu: Assignment) { DstOf(ins).Some? && DstOf(ins).value !in cpu }

  lemma SetsOnceConcat(a: seq<Ins>, b: seq<Ins>, cpu: Assignment, lo: nat, mid: nat, hi: nat)
    requires SetsOnce(a, cpu, lo, mid) && SetsOnce(b, cpu, mid, hi) && lo <= mid <= hi
    ensures SetsOnce(a + b, cpu, lo, hi) && SetsOnce(b + a, cpu, lo, hi)
  {
    hide DstOf;
  }

  lemma {:induction false} LoadsSetOnce(ins: Ins, slotOf: SlotMap, base: nat, n: nat, cpu: Assignment)
    requires n <= |ins.operands|
    ensures SetsOnce(Loads(ins, slotOf, base, n), cpu, base + (if n < NumDefs(ins.opcode) then NumDefs(ins.opcode) else n), base + |ins.operands|) ||
            NumDefs(ins.opcode) > |ins.operands|
    decreases |ins.operands| - n
  {
    if n < |ins.operands| && NumDefs(ins.opcode) <= |ins.operands| {
      LoadsSetOnce(ins, slotOf, base, n + 1, cpu);
      var rest := Loads(ins, slotOf, base, n + 1);
      if NumDefs(ins.opcode) <= n && IsSpilled(ins.operands[n], slotOf) {
        var ld := LoadIns(Scratch(base, n), slotOf[ins.operands[n].reg]);
        assert DstOf(ld) == Some(Scratch(base, n));
        assert SetsOnce([ld], cpu, base + n, base + n + 1);
        hide SetsOnce;
        SetsOnceConcat([ld], rest, cpu, base + n, base + n + 1, base + |ins.operands|);
      } else {
        assert Loads(ins, slotOf, base, n) == rest + [] == rest;
      }
    }
  }

  /** What an instruction sets has a machine register or was spilled. */
  predicate DstPlaced(ins: Ins, slotOf: SlotMap, cpu: Assignment) {
    DstOf(ins).Some? ==> DstOf(ins).value in cpu || DstOf(ins).value in slotOf
  }

  predicate AllPlaced(body: seq<Ins>, slotOf: SlotMap, cpu: Assignment) {
    forall k :: 0 <= k < |body| ==> DstPlaced(body[k], slotOf, cpu)
  }

  lemma ExpandSetsOnce(ins: Ins, slotOf: SlotMap, base: nat, cpu: Assignment)
    requires WfIns(ins) && DstPlaced(ins, slotOf, cpu)
    ensures SetsOnce(Expand(ins, slotOf, base), cpu, base, base + |ins.operands|)
  {
    var main, loads, stores := SpilledFrom(ins, slotOf, base, 0), Loads(ins, slotOf, base, 0), Stores(ins, slotOf, base);
    var d, n := NumDefs(ins.opcode), |ins.operands|;
    assert Expand(ins, slotOf, base) == loads + [main] + stores && d <= n;
    MainSetsOnce(ins, slotOf, base, cpu);
    StoresSetNothing(ins, slotOf, base, cpu);
    hide *;
    LoadsSetOnce(ins, slotOf, base, 0, cpu);
    SetsOnceConcat([main], loads, cpu, base, base + d, base + n);
    SetsOnceConcat(stores, loads + [main], cpu, base, base, base + n);
  }

  lemma MainSetsOnce(ins: Ins, slotOf: SlotMap, base: nat, cpu: Assignment)
    requires WfIns(ins) && DstPlaced(ins, slotOf, cpu)
    ensures SetsOnce([SpilledFrom(ins, slotOf, base, 0)], cpu, base, base + NumDefs(ins.opcode))
  {
    SpilledIns(ins, slotOf, base);
    hide SpilledFrom, UsesOf;
  }

  lemma StoresSetNothing(ins: Ins, slotOf: SlotMap, base: nat, cpu: Assignment)
    ensures SetsOnce(Stores(ins, slotOf, base), cpu, base, base)
  {
    var stores := Stores(ins, slotOf, base);
    assert forall k :: 0 <= k < |stores| ==> DstOf(stores[k]) == None;
  }

  lemma {:induction false} SpillSetsOnce(body: seq<Ins>, slotOf: SlotMap, base: nat, limit: nat, cpu: Assignment)
    requires AllBelow(body, limit)
    requires AllPlaced(body, slotOf, cpu)
    ensures SetsOnce(SpillList(body, slotOf, base), cpu, base, base + |FlatOperands(body)|)
    decreases |body|
  {
    hide *;
    if body != [] {
      SetsSplit(body, slotOf, limit, cpu);
      var base' := base + |body[0].operands|;
      SpillListStep(body, slotOf, base);
      SpillSetsOnce(body[1..], slotOf, base', limit, cpu);
      ExpandSetsOnce(body[0], slotOf, base, cpu);
      SetsOnceConcat(Expand(body[0], slotOf, base), SpillList(body[1..], slotOf, base'), cpu, base, base', base + |FlatOperands(body)|);
    } else {
      NothingToSpill(body, slotOf, base, {}, cpu);
    }
  }

  lemma SetsSplit(body: seq<Ins>, slotOf: SlotMap, limit: nat, cpu: Assignment)
    requires body != [] && AllBelow(body, limit)
    requires AllPlaced(body, slotOf, cpu)
    ensures WfIns(body[0]) && AllBelow(body[1..], limit) && DstPlaced(body[0], slotOf, cpu) && AllPlaced(body[1..], slotOf, cpu)
    ensures |FlatOperands(body)| == |body[0].operands| + |FlatOperands(body[1..])|
  {
    hide DstPlaced, Below, WfIns;
  }

  /** All operands in a row: scratch register base + i stands in for operand i of these. */
  function FlatOperands(body: seq<Ins>): seq<Operand> {
    if body == [] then [] else body[0].operands + FlatOperands(body[1..])
  }

  /** A scratch register is of the kind of the register it stands in for. */
  function KindWithScratch(kindOf: RegId -> Kind, flat: seq<Operand>, base: nat): RegId -> Kind {
    (r: RegId) => if base <= r.no < base + |flat| && flat[r.no - base].RegOp? then kindOf(flat[r.no - base].reg) else kindOf(r)
  }

  lemma {:induction false} LoadsSize(ins: Ins, slotOf: SlotMap, base: nat, n: nat)
    requires n <= |ins.operands|
    ensures |Loads(ins, slotOf, base, n)| <= (if n < NumDefs(ins.opcode) <= |ins.operands| then |ins.operands| - NumDefs(ins.opcode) else |ins.operands| - n)
    decreases |ins.operands| - n
  {
    if n < |ins.operands| { LoadsSize(ins, slotOf, base, n + 1); }
  }

  /** The spilled block has at most one more instruction per operand. */
  lemma {:induction false} SpillSize(body: seq<Ins>, slotOf: SlotMap, base: nat)
    requires forall k :: 0 <= k < |body| ==> WfIns(body[k])
    ensures |SpillList(body, slotOf, base)| <= |body| + |FlatOperands(body)|
    decreases |body|
  {
    if body != [] {
      LoadsSize(body[0], slotOf, base, 0);
      SpillSize(body[1..], slotOf, base + |body[0].operands|);
      hide Loads, SpilledFrom;
    }
  }

  lemma {:induction false} SpillWf(body: seq<Ins>, slotOf: SlotMap, base: nat)
    requires forall k :: 0 <= k < |body| ==> WfIns(body[k])
    ensures forall k :: 0 <= k < |SpillList(body, slotOf, base)| ==> WfIns(SpillList(body, slotOf, base)[k])
    decreases |body|
  {
    if body != [] {
      SpillWf(body[1..], slotOf, base + |body[0].operands|);
      ExpandWf(body[0], slotOf, base);
      hide Expand, WfIns;
    }
  }

  lemma {:induction false} LoadsWf(ins: Ins, slotOf: SlotMap, base: nat, n: nat)
    requires n <= |ins.operands|
    ensures forall k :: 0 <= k < |Loads(ins, slotOf, base, n)| ==> WfIns(Loads(ins, slotOf, base, n)[k])
    decreases |ins.operands| - n
  {
    if n < |ins.operands| { LoadsWf(ins, slotOf, base, n + 1); }
  }

  lemma ExpandWf(ins: Ins, slotOf: SlotMap, base: nat)
    requires WfIns(ins)
    ensures forall k :: 0 <= k < |Expand(ins, slotOf, base)| ==> WfIns(Expand(ins, slotOf, base)[k])
  {
    LoadsWf(ins, slotOf, base, 0);
    SpilledIns(ins, slotOf, base);
    assert forall k :: 0 <= k < |Stores(ins, slotOf, base)| ==> WfIns(Stores(ins, slotOf, base)[k]);
    hide Loads, Stores, SpilledFrom, WfIns;
  }

  // ---------------------------------------------------------------- what the end of a block decides on

  /** The values the terminator of a block reads: they decide which edge is taken. */
  function ExitVals(m: Machine, body: seq<Ins>, regs: Regs): seq<int> {
    if body == [] || !IsTerminator(body[|body| - 1].opcode) then [] else UseVals(m, body[|body| - 1], regs)
  }

  lemma {:induction false} SpillListOfConcat(a: seq<Ins>, b: seq<Ins>, slotOf: SlotMap, base: nat)
    ensures SpillList(a + b, slotOf, base) == SpillList(a, slotOf, base) + SpillList(b, slotOf, base + |FlatOperands(a)|)
    decreases |a|
  {
    hide *;
    if a == [] {
      SpillConcatEmpty(a, b, slotOf, base);
    } else {
      SpillListOfConcat(a[1..], b, slotOf, base + |a[0].operands|);
      SpillConcatStep(a, b, slotOf, base);
    }
  }

  lemma SpillConcatEmpty(a: seq<Ins>, b: seq<Ins>, slotOf: SlotMap, base: nat)
    requires a == []
    ensures SpillList(a + b, slotOf, base) == SpillList(a, slotOf, base) + SpillList(b, slotOf, base + |FlatOperands(a)|)
  {
    assert a + b == b && SpillList(a, slotOf, base) == [] && [] + SpillList(b, slotOf, base) == SpillList(b, slotOf, base);
    hide SpillList;
  }

  lemma SpillConcatStep(a: seq<Ins>, b: seq<Ins>, slotOf: SlotMap, base: nat)
    requires a != []
    requires var base' := base + |a[0].operands|;
      SpillList(a[1..] + b, slotOf, base') == SpillList(a[1..], slotOf, base') + SpillList(b, slotOf, base' + |FlatOperands(a[1..])|)
    ensures SpillList(a + b, slotOf, base) == SpillList(a, slotOf, base) + SpillList(b, slotOf, base + |FlatOperands(a)|)
  {
    ConcatFacts(a, b);
    hide *;
    var base' := base + |a[0].operands|;
    SpillListStep(a + b, slotOf, base);
    SpillListStep(a, slotOf, base);
    Associates(Expand(a[0], slotOf, base), SpillList(a[1..], slotOf, base'), SpillList(b, slotOf, base' + |FlatOperands(a[1..])|));
  }

  lemma ConcatFacts(a: seq<Ins>, b: seq<Ins>)
    requires a != []
    ensures a + b != [] && (a + b)[1..] == a[1..] + b && (a + b)[0] == a[0]
    ensures |FlatOperands(a)| == |a[0].operands| + |FlatOperands(a[1..])|
  {
  }

  lemma Associates(x: seq<Ins>, y: seq<Ins>, z: seq<Ins>)
    ensures x + (y + z) == (x + y) + z
  {
  }

  lemma TerminatorQuiet(m: Machine, frame: set<nat>, ins: Ins, s: Virtual)
    requires IsTerminator(ins.opcode)
    ensures ExecVirtual(m, frame, ins, s).regs == s.regs && DstOf(ins) == None && !IsCall(ins.opcode)
  {
    hide UseVals, Effect;
  }

  lemma FrontSetting(init: seq<Ins>, last: Ins, slotOf: SlotMap, base: nat, limit: nat, out: set<RegId>)
    requires SpillSetting(init + [last], slotOf, base, limit, out)
    ensures SpillSetting(init, slotOf, base, limit, LiveBefore(last, out)) && Below(last, limit) && WfIns(last) && AvoidsSlots(last, slotOf.Values)
    ensures OwnSlots(slotOf) && limit <= base && RegsBelow(out, limit)
  {
    var body := init + [last];
    assert body[|init|] == last;
    forall k | 0 <= k < |init| ensures Below(init[k], limit) && WfIns(init[k]) && AvoidsSlots(init[k], slotOf.Values) { assert body[k] == init[k]; }
    BelowUses(last, limit);
    hide Below, WfIns, AvoidsSlots, UsesOf, OwnSlots;
  }

  /** The spilled terminator reads the same values. */
  lemma SpillExit(m: Machine, init: seq<Ins>, last: Ins, slotOf: SlotMap, base: nat, limit: nat, out: set<RegId>, s: Virtual, t: Virtual)
    requires SpillSetting(init + [last], slotOf, base, limit, out) && IsTerminator(last.opcode)
    requires SpillMatches(slotOf, Live(init + [last], out), s, t)
    ensures var base' := base + |FlatOperands(init)|;
      var main := SpilledFrom(last, slotOf, base', 0);
      && SpillList(init + [last], slotOf, base) == SpillList(init, slotOf, base) + Loads(last, slotOf, base', 0) + [main]
      && IsTerminator(main.opcode)
      && UseVals(m, main, RunList(m, slotOf.Values, SpillList(init + [last], slotOf, base), t).regs) ==
         UseVals(m, last, RunList(m, {}, init + [last], s).regs)
  {
    hide *;
    var base', frame := base + |FlatOperands(init)|, slotOf.Values;
    var main, loads, front := SpilledFrom(last, slotOf, base', 0), Loads(last, slotOf, base', 0), SpillList(init, slotOf, base);
    SpillListLast(init, last, slotOf, base);
    FrontSetting(init, last, slotOf, base, limit, out);
    LiveOfConcat(init, [last], out);
    LiveOfOne(last, out);
    SpillRuns(m, init, slotOf, base, limit, LiveBefore(last, out), s, t);
    ExitReads(m, last, slotOf, base', limit, out, RunList(m, {}, init, s), RunList(m, frame, front, t));
    TerminatorEnds(m, {}, init, last, s);
    TerminatorEnds(m, frame, front + loads, main, t);
    RunOfConcat(m, frame, front, loads, t);
  }

  lemma LiveOfOne(ins: Ins, out: set<RegId>)
    ensures Live([ins], out) == LiveBefore(ins, out)
  {
    assert [ins][1..] == [];
  }

  lemma SpillListLast(init: seq<Ins>, last: Ins, slotOf: SlotMap, base: nat)
    requires IsTerminator(last.opcode)
    ensures var base' := base + |FlatOperands(init)|;
      var main := SpilledFrom(last, slotOf, base', 0);
      SpillList(init + [last], slotOf, base) == SpillList(init, slotOf, base) + Loads(last, slotOf, base', 0) + [main] && IsTerminator(main.opcode)
  {
    var base' := base + |FlatOperands(init)|;
    SpillListOfConcat(init, [last], slotOf, base);
    SpillListStep([last], slotOf, base');
    assert [last][1..] == [] && SpillList([last][1..], slotOf, base' + |last.operands|) == [];
    assert Stores(last, slotOf, base') == [];
    hide Loads;
  }

  /** A terminator at the end leaves the registers alone. */
  lemma TerminatorEnds(m: Machine, frame: set<nat>, init: seq<Ins>, last: Ins, s: Virtual)
    requires IsTerminator(last.opcode)
    ensures RunList(m, frame, init + [last], s).regs == RunList(m, frame, init, s).regs
  {
    RunOfConcat(m, frame, init, [last], s);
    assert [last][1..] == [];
    TerminatorQuiet(m, frame, last, RunList(m, frame, init, s));
    hide ExecVirtual;
  }

  lemma ExitReads(m: Machine, last: Ins, slotOf: SlotMap, base: nat, limit: nat, out: set<RegId>, s1: Virtual, t1: Virtual)
    requires WfIns(last) && Below(last, limit) && limit <= base && SpillMatches(slotOf, LiveBefore(last, out), s1, t1)
    ensures UseVals(m, SpilledFrom(last, slotOf, base, 0), RunList(m, slotOf.Values, Loads(last, slotOf, base, 0), t1).regs) == UseVals(m, last, s1.regs)
  {
    LoadsRun(m, last, slotOf, base, 0, t1);
    assert UsesOf(last) <= LiveBefore(last, out);
    assert Below(last, base);
    SpilledReads(m, last, slotOf, base, s1, t1, RunList(m, slotOf.Values, Loads(last, slotOf, base, 0), t1));
  }

  /** The terminator on machine registers reads the same values. */
  /** The state before the last instruction, on either side. */
  lemma BeforeLast(m: Machine, abi: Abi, frame: set<nat>, body: seq<Ins>, out: set<RegId>, cpu: Assignment, s: Virtual, t: Physical)
    requires body != [] && Colored(body, Iota(|body|), out, cpu) && Matches(cpu, Live(body, out), s, t)
    ensures var ids, k, last := Iota(|body|), |body| - 1, body[|body| - 1];
      var s1, t1 := ExecVirtualIds(m, frame, body, ids, k, s), ExecPhysicalIds(m, abi, frame, cpu, body, ids, k, t);
      && UseVals(m, last, Seen(cpu, t1.file)) == UseVals(m, last, s1.regs)
      && RunList(m, frame, body, s) == ExecVirtual(m, frame, last, s1)
      && ExecPhysicalIds(m, abi, frame, cpu, body, ids, |body|, t) == ExecPhysical(m, abi, frame, cpu, last, t1)
  {
    var ids, k := Iota(|body|), |body| - 1;
    assert body[0..] == body && body[..|body|] == body && InsAt(body, ids[k]) == body[k];
    hide *;
    LiveIsLiveAt(body, 0, out);
    ColoredRunMatches(m, abi, frame, body, ids, out, cpu, k, s, t);
    var s1, t1 := ExecVirtualIds(m, frame, body, ids, k, s), ExecPhysicalIds(m, abi, frame, cpu, body, ids, k, t);
    BeforeParts(body, ids, k, out);
    MatchesFewer(cpu, LiveAt(body, ids, k, out), UsesOf(body[k]), s1, t1);
    SameReads(m, cpu, body[k], s1, t1);
    VirtualStep(m, frame, body, ids, k, s);
    PhysicalStep(m, abi, frame, cpu, body, ids, k, t);
    RunIsExecIds(m, frame, body, |body|, s);
  }

  lemma MatchesFewer(cpu: Assignment, live: set<RegId>, fewer: set<RegId>, s: Virtual, t: Physical)
    requires Matches(cpu, live, s, t) && fewer <= live
    ensures Matches(cpu, fewer, s, t)
  {
    hide ReadCpu;
  }

  lemma MachineExit(m: Machine, abi: Abi, frame: set<nat>, body: seq<Ins>, out: set<RegId>, cpu: Assignment, s: Virtual, t: Physical)
    requires Colored(body, Iota(|body|), out, cpu) && Matches(cpu, Live(body, out), s, t)
    ensures ExitVals(m, body, Seen(cpu, ExecPhysicalIds(m, abi, frame, cpu, body, Iota(|body|), |body|, t).file)) ==
            ExitVals(m, body, RunList(m, frame, body, s).regs)
  {
    hide UseVals, ExecVirtual, ExecPhysical, ExecVirtualIds, ExecPhysicalIds, Colored, Matches, LiveAt, Live, UsesOf, Seen, RunList;
    if body != [] && IsTerminator(body[|body| - 1].opcode) {
      BeforeLast(m, abi, frame, body, out, cpu, s, t);
      var ids, k := Iota(|body|), |body| - 1;
      QuietOnMachine(m, abi, frame, cpu, body[k], ExecVirtualIds(m, frame, body, ids, k, s), ExecPhysicalIds(m, abi, frame, cpu, body, ids, k, t));
    }
  }

  lemma QuietOnMachine(m: Machine, abi: Abi, frame: set<nat>, cpu: Assignment, last: Ins, s: Virtual, t: Physical)
    requires IsTerminator(last.opcode)
    ensures ExecVirtual(m, frame, last, s).regs == s.regs && ExecPhysical(m, abi, frame, cpu, last, t).file == t.file
  {
    TerminatorQuiet(m, frame, last, s);
    hide UseVals, Perform, Seen;
  }

  // ---------------------------------------------------------------- the two runs side by side

  /** On machine registers `body'` does what `body` does on virtual ones. Starting with the live
      registers in their machine registers: same memory, same events, same values for the branch
      at the end, and what is live at the end again in its machine register. */
  ghost predicate RunsOnMachine(body: seq<Ins>, out: set<RegId>, fixed: Assignment, body': seq<Ins>, cpu: Assignment, frame: set<nat>) {
    forall m: Machine, abi: Abi, s: Virtual, t: Physical :: Matches(fixed, Live(body, out), s, t) ==>
      EndsMatch(m, abi, body, out, fixed, body', cpu, frame, s, t)
  }

  ghost predicate EndsMatch(m: Machine, abi: Abi, body: seq<Ins>, out: set<RegId>, fixed: Assignment, body': seq<Ins>, cpu: Assignment,
                            frame: set<nat>, s: Virtual, t: Physical) {
    var s', t' := RunList(m, {}, body, s), ExecPhysicalIds(m, abi, frame, cpu, body', Iota(|body'|), |body'|, t);
    && s'.world.mem == t'.world.mem && s'.world.trace == t'.world.trace
    && (forall r :: r in out ==> r in fixed && ReadReg(s'.regs, r) == ReadCpu(t'.file, fixed[r]))
    && ExitVals(m, body', Seen(cpu, t'.file)) == ExitVals(m, body, s'.regs)
  }

  predicate Extends(cpu: Assignment, fixed: Assignment) { forall r :: r in fixed ==> r in cpu && cpu[r] == fixed[r] }

  /** A colored block, with or without spill slots in use, follows its own virtual run. */
  lemma ColoredEnds(m: Machine, abi: Abi, frame: set<nat>, body: seq<Ins>, out: set<RegId>, cpu: Assignment, s: Virtual, t: Physical)
    requires Colored(body, Iota(|body|), out, cpu) && Matches(cpu, Live(body, out), s, t)
    ensures var s', t' := RunList(m, frame, body, s), ExecPhysicalIds(m, abi, frame, cpu, body, Iota(|body|), |body|, t);
      Matches(cpu, out, s', t') && ExitVals(m, body, Seen(cpu, t'.file)) == ExitVals(m, body, s'.regs)
  {
    LiveIsLiveAt(body, 0, out);
    assert body[0..] == body && body[..|body|] == body;
    LiveIsLiveAt(body, |body|, out);
    assert body[|body|..] == [];
    ColoredRunMatches(m, abi, frame, body, Iota(|body|), out, cpu, |body|, s, t);
    RunIsExecIds(m, frame, body, |body|, s);
    MachineExit(m, abi, frame, body, out, cpu, s, t);
    hide Colored, Matches, ExitVals, LiveAt, ExecVirtual, ExecPhysical;
  }

  lemma MatchesOther(cpu: Assignment, fixed: Assignment, live: set<RegId>, s: Virtual, t: Physical)
    requires Extends(cpu, fixed)
    ensures Matches(fixed, live, s, t) ==> Matches(cpu, live, s, t)
    ensures Matches(cpu, live, s, t) && (forall r :: r in live ==> r in fixed) ==> Matches(fixed, live, s, t)
  {
    hide ReadCpu;
  }

  /** Nothing was spilled. */
  lemma UnspilledRuns(body: seq<Ins>, out: set<RegId>, fixed: Assignment, cpu: Assignment)
    requires Colored(body, Iota(|body|), out, cpu) && Extends(cpu, fixed) && forall r :: r in out ==> r in fixed
    ensures RunsOnMachine(body, out, fixed, body, cpu, {})
  {
    forall m: Machine, abi: Abi, s: Virtual, t: Physical | Matches(fixed, Live(body, out), s, t)
      ensures EndsMatch(m, abi, body, out, fixed, body, cpu, {}, s, t)
    {
      MatchesOther(cpu, fixed, Live(body, out), s, t);
      ColoredEnds(m, abi, {}, body, out, cpu, s, t);
      MatchesOther(cpu, fixed, out, RunList(m, {}, body, s), ExecPhysicalIds(m, abi, {}, cpu, body, Iota(|body|), |body|, t));
      hide ExitVals, Live, RunList, ExecPhysicalIds, Colored, ReadCpu, Extends;
    }
  }

  lemma SpillExitVals(m: Machine, body: seq<Ins>, slotOf: SlotMap, base: nat, limit: nat, out: set<RegId>, s: Virtual, t: Virtual)
    requires SpillSetting(body, slotOf, base, limit, out) && SpillMatches(slotOf, Live(body, out), s, t)
    ensures ExitVals(m, SpillList(body, slotOf, base), RunList(m, slotOf.Values, SpillList(body, slotOf, base), t).regs) ==
            ExitVals(m, body, RunList(m, {}, body, s).regs)
  {
    if body == [] {
      assert SpillList(body, slotOf, base) == [];
    } else {
      var init, last := body[..|body| - 1], body[|body| - 1];
      assert body == init + [last];
      if IsTerminator(last.opcode) {
        SpillExit(m, init, last, slotOf, base, limit, out, s, t);
      } else {
        NoTerminatorAtEnd(init, last, slotOf, base);
      }
      hide UseVals, SpillList, SpillMatches, SpillSetting, RunList, Loads, SpilledFrom, IsTerminator;
    }
  }

  lemma NoTerminatorAtEnd(init: seq<Ins>, last: Ins, slotOf: SlotMap, base: nat)
    requires !IsTerminator(last.opcode)
    ensures var body' := SpillList(init + [last], slotOf, base); body' != [] && !IsTerminator(body'[|body'| - 1].opcode)
  {
    var base' := base + |FlatOperands(init)|;
    SpillListOfConcat(init, [last], slotOf, base);
    SpillListStep([last], slotOf, base');
    assert [last][1..] == [] && SpillList([last][1..], slotOf, base' + |last.operands|) == [];
    var body' := SpillList(init, slotOf, base) + Expand(last, slotOf, base');
    assert SpillList(init + [last], slotOf, base) == body';
    var ex := Expand(last, slotOf, base');
    assert body'[|body'| - 1] == ex[|ex| - 1];
    hide Loads, IsTerminator;
    if Stores(last, slotOf, base') == [] { assert ex[|ex| - 1] == SpilledFrom(last, slotOf, base', 0); }
  }

  /** body' ends with the branch that body ends with, up to the registers it reads; or neither ends
      with a branch. */
  ghost predicate SameEnd(body: seq<Ins>, body': seq<Ins>) {
    if body == [] then body' == []
    else body' != [] && SameBranch(body[|body| - 1], body'[|body'| - 1])
  }

  predicate SameBranch(x: Ins, y: Ins) {
    if IsTerminator(x.opcode) then
      && y.opcode == x.opcode && |y.operands| == |x.operands|
      && forall n :: 0 <= n < |x.operands| ==> if x.operands[n].RegOp? then y.operands[n].RegOp? else y.operands[n] == x.operands[n]
    else !IsTerminator(y.opcode)
  }

  lemma SameEndItself(body: seq<Ins>)
    ensures SameEnd(body, body)
  {
  }

  lemma SpillSameEnd(body: seq<Ins>, slotOf: SlotMap, base: nat)
    ensures SameEnd(body, SpillList(body, slotOf, base))
  {
    if body == [] {
      assert SpillList(body, slotOf, base) == [];
    } else {
      var init, last := body[..|body| - 1], body[|body| - 1];
      assert body == init + [last];
      BranchSpilled(init, last, slotOf, base);
      hide SpillList, SameBranch;
    }
  }

  lemma BranchSpilled(init: seq<Ins>, last: Ins, slotOf: SlotMap, base: nat)
    ensures var body' := SpillList(init + [last], slotOf, base); body' != [] && SameBranch(last, body'[|body'| - 1])
  {
    if IsTerminator(last.opcode) {
      var base' := base + |FlatOperands(init)|;
      SpillListLast(init, last, slotOf, base);
      BranchItself(last, slotOf, base');
      hide SpillList, Loads, IsTerminator, SpilledFrom, SameBranch;
    } else {
      NoTerminatorAtEnd(init, last, slotOf, base);
      hide SpillList, IsTerminator;
    }
  }

  lemma BranchItself(last: Ins, slotOf: SlotMap, base: nat)
    requires IsTerminator(last.opcode)
    ensures SameBranch(last, SpilledFrom(last, slotOf, base, 0))
  {
  }

  /** The spilled block, colored. */
  lemma SpilledRuns(body: seq<Ins>, slotOf: SlotMap, base: nat, out: set<RegId>, fixed: Assignment, cpu: Assignment)
    requires SpillSetting(body, slotOf, base, base, out) && out !! slotOf.Keys && Live(body, out) !! slotOf.Keys
    requires var body' := SpillList(body, slotOf, base); Colored(body', Iota(|body'|), out, cpu)
    requires Extends(cpu, fixed) && forall r :: r in out ==> r in fixed
    ensures RunsOnMachine(body, out, fixed, SpillList(body, slotOf, base), cpu, slotOf.Values)
  {
    var body', frame := SpillList(body, slotOf, base), slotOf.Values;
    SettingParts(body, slotOf, base, out);
    LiveAfterSpill(body, slotOf, base, base, out);
    assert Live(body', out) == Live(body, out);
    forall m: Machine, abi: Abi, s: Virtual, t: Physical | Matches(fixed, Live(body, out), s, t)
      ensures EndsMatch(m, abi, body, out, fixed, body', cpu, frame, s, t)
    {
      hide SpillSetting, Live, SpillList, RunList, ExecPhysicalIds, Colored, ReadCpu, ExitVals, Extends, AllBelow;
      MatchesOther(cpu, fixed, Live(body, out), s, t);
      ColoredEnds(m, abi, frame, body', out, cpu, s, t);
      MatchesOther(cpu, fixed, out, RunList(m, frame, body', s), ExecPhysicalIds(m, abi, frame, cpu, body', Iota(|body'|), |body'|, t));
      assert SpillMatches(slotOf, Live(body, out), s, s);
      SpillRuns(m, body, slotOf, base, base, out, s, s);
      SpillExitVals(m, body, slotOf, base, base, out, s, s);
    }
  }

  lemma SettingParts(body: seq<Ins>, slotOf: SlotMap, base: nat, out: set<RegId>)
    requires SpillSetting(body, slotOf, base, base, out)
    ensures AllBelow(body, base) && RegsBelow(out, base) && OwnSlots(slotOf)
  {
  }

  // ---------------------------------------------------------------- allocating a block

  /** What a block must be like: the registers that cross its boundaries have machine registers that
      get along, all others are local and set once. `base` is the first unused register number and
      `slotBase` the first unused stack slot. */
  ghost predicate BlockReady(body: seq<Ins>, out: set<RegId>, fixed: Assignment, base: nat, slotBase: nat) {
    && AllBelow(body, base) && RegsBelow(out, base) && (forall r :: r in fixed ==> r.no < base)
    && FixedColored(body, Iota(|body|), out, fixed) && LocalOnce(body, Iota(|body|), out, fixed)
    && (forall k :: 0 <= k < |body| ==> StksBelow(body[k], slotBase))
    && |body| + |FlatOperands(body)| <= AFTER_BBL
  }

  predicate StksBelow(ins: Ins, slotBase: nat) {
    forall n :: 0 <= n < |ins.operands| && ins.operands[n].StkOp? ==> ins.operands[n].stk < slotBase
  }

  /** A new stack slot for every spilled register, sized and aligned for it. */
  method SlotsFor(spilled: set<RegId>, width: RegId -> nat, stks0: seq<Frame.Stk>) returns (slotOf: SlotMap, stks: seq<Frame.Stk>)
    ensures slotOf.Keys == spilled && OwnSlots(slotOf) && NewStks(slotOf, width, stks0, stks)
    ensures |stks| == |stks0| + |spilled|
  {
    slotOf, stks := map[], stks0;
    var todo := spilled;
    while todo != {}
      invariant todo <= spilled && slotOf.Keys == spilled - todo && OwnSlots(slotOf) && NewStks(slotOf, width, stks0, stks)
      invariant |stks| + |todo| == |stks0| + |spilled|
      decreases |todo|
    {
      var r :| r in todo;
      slotOf, todo, stks := slotOf[r := |stks|], todo - {r}, stks + [Frame.Stk(width(r), width(r))];
    }
  }

  /** stks is stks0 and the slots of slotOf, which are as wide as their registers. */
  ghost predicate NewStks(slotOf: SlotMap, width: RegId -> nat, stks0: seq<Frame.Stk>, stks: seq<Frame.Stk>) {
    stks0 <= stks && forall r :: r in slotOf ==> |stks0| <= slotOf[r] < |stks| && stks[slotOf[r]] == Frame.Stk(width(r), width(r))
  }

  /** body' is body with the registers of slotOf spilled, and cpu colors it. */
  ghost predicate Allocation(body: seq<Ins>, out: set<RegId>, fixed: Assignment, base: nat, body': seq<Ins>, cpu: Assignment, slotOf: SlotMap) {
    && body' == SpillList(body, slotOf, base) && SpillSetting(body, slotOf, base, base, out)
    && Colored(body', Iota(|body'|), out, cpu) && Extends(cpu, fixed)
    && out !! slotOf.Keys && Live(body, out) !! slotOf.Keys && forall r :: r in out || r in Live(body, out) ==> r in fixed
  }

  lemma {:induction false} SpillNothing(body: seq<Ins>, base: nat)
    ensures SpillList(body, map[], base) == body
  {
    if body != [] {
      SpillNothing(body[1..], base + |body[0].operands|);
      LoadNothing(body[0], base, 0);
      assert SpilledFrom(body[0], map[], base, 0).operands == body[0].operands;
      assert Expand(body[0], map[], base) == [body[0]];
      assert [body[0]] + body[1..] == body;
    }
  }

  lemma {:induction false} LoadNothing(ins: Ins, base: nat, n: nat)
    requires n <= |ins.operands|
    ensures Loads(ins, map[], base, n) == []
    decreases |ins.operands| - n
  {
    if n < |ins.operands| { LoadNothing(ins, base, n + 1); }
  }

  lemma UnspilledIs(body: seq<Ins>, out: set<RegId>, fixed: Assignment, base: nat, slotBase: nat, cpu: Assignment)
    requires BlockReady(body, out, fixed, base, slotBase) && Colored(body, Iota(|body|), out, cpu) && Extends(cpu, fixed)
    ensures Allocation(body, out, fixed, base, body, cpu, map[])
  {
    SpillNothing(body, base);
    CrossingIsFixed(body, out, fixed, base, slotBase);
    hide Live, SpillList, Colored, Extends, FixedColored, LocalOnce, WfIns, Below, FlatOperands;
  }

  /** The state after the first scan. */
  ghost predicate Halfway(body: seq<Ins>, out: set<RegId>, fixed: Assignment, base: nat, cpu: Assignment, spilled: set<RegId>) {
    && FixedColored(body, Iota(|body|), out, cpu) && Extends(cpu, fixed) && Assigned(cpu, map[], base)
    && (forall r :: r in spilled ==> r !in cpu)
    && (forall k :: 0 <= k < |body| && DstOf(body[k]).Some? ==> DstOf(body[k]).value in cpu || DstOf(body[k]).value in spilled)
  }

  lemma RangeRegBelow(rs: seq<LiveRange>, body: seq<Ins>, out: set<RegId>, fixed: Assignment, base: nat, slotBase: nat, r: RegId)
    requires BlockReady(body, out, fixed, base, slotBase) && Describes(rs, body, Iota(|body|), out) && Marked(rs, fixed) && HasRange(rs, r)
    ensures r.no < base
  {
    var j: nat :| j < |rs| && Allocates(rs[j]) && rs[j].reg == r;
    LocalStart(rs, body, Iota(|body|), out, fixed, j);
    BelowUses(body[rs[j].span.defPos], base);
    hide Describes, FixedColored, LocalOnce, DstOf;
  }

  lemma WritesHaveRanges(rs: seq<LiveRange>, body: seq<Ins>, out: set<RegId>, cpu: Assignment, spilled: set<RegId>)
    requires Describes(rs, body, Iota(|body|), out)
    requires forall j :: 0 <= j < |rs| && rs[j].uses == [] ==> (rs[j].reg in cpu <==> rs[j].reg !in spilled)
    ensures forall k :: 0 <= k < |body| && DstOf(body[k]).Some? ==> DstOf(body[k]).value in cpu || DstOf(body[k]).value in spilled
  {
    hide ReadsRecorded, RangeRight, SomeCovers, LiveAfter, DstOf;
    forall k | 0 <= k < |body| && DstOf(body[k]).Some? ensures DstOf(body[k]).value in cpu || DstOf(body[k]).value in spilled {
      assert DstOf(InsIn(body, Iota(|body|), k)) == DstOf(body[k]);
      assert SomeStarts(rs, DstOf(body[k]).value, k);
    }
  }

  lemma FirstScanDone(rs: seq<LiveRange>, body: seq<Ins>, out: set<RegId>, fixed: Assignment, base: nat, slotBase: nat, cpu: Assignment, spilled: set<RegId>)
    requires BlockReady(body, out, fixed, base, slotBase) && ScannedBlock(rs, body, Iota(|body|), out, fixed)
    requires Follows(rs, cpu) && Extends(cpu, fixed) && forall r :: r in cpu ==> cpu[r].no < NumRegs(cpu[r].kind)
    requires forall j :: 0 <= j < |rs| && rs[j].uses == [] ==> (rs[j].reg in cpu <==> rs[j].reg !in spilled)
    requires forall r :: (r in cpu && r !in fixed) || r in spilled ==> HasRange(rs, r)
    requires forall r :: r in spilled ==> r !in cpu
    ensures Halfway(body, out, fixed, base, cpu, spilled)
    ensures spilled == {} ==> Colored(body, Iota(|body|), out, cpu)
  {
    hide FixedColored, LocalOnce, Describes, WfRanges, Allocated, Marked, DstOf, Colored, Follows, HasRange, AllBelow;
    RangesColor(rs, body, Iota(|body|), out, fixed, cpu);
    forall r | r in cpu ensures r.no < base {
      if r !in fixed { RangeRegBelow(rs, body, out, fixed, base, slotBase, r); }
    }
    if spilled == {} { FullyColored(rs, body, Iota(|body|), out, cpu); }
    WritesHaveRanges(rs, body, out, cpu, spilled);
  }

  lemma SpilledIsReady(body: seq<Ins>, out: set<RegId>, fixed: Assignment, base: nat, slotBase: nat, cpu: Assignment, slotOf: SlotMap)
    requires BlockReady(body, out, fixed, base, slotBase) && Halfway(body, out, fixed, base, cpu, slotOf.Keys)
    requires OwnSlots(slotOf) && forall s :: s in slotOf.Values ==> slotBase <= s
    ensures SpillSetting(body, slotOf, base, base, out) && out !! slotOf.Keys && Live(body, out) !! slotOf.Keys
    ensures var body' := SpillList(body, slotOf, base);
      FixedColored(body', Iota(|body'|), out, cpu) && LocalOnce(body', Iota(|body'|), out, cpu)
  {
    var body' := SpillList(body, slotOf, base);
    CrossingIsFixed(body, out, fixed, base, slotBase);
    hide Below, WfIns, FixedColoredAt, LocalOnce, AllocMask, Live, SpillList, DstOf;
    forall k | 0 <= k < |body| ensures AvoidsSlots(body[k], slotOf.Values) { assert StksBelow(body[k], slotBase); }
    assert out !! slotOf.Keys && Live(body, out) !! slotOf.Keys;
    LiveAfterSpill(body, slotOf, base, base, out);
    SpillFixedColored(body, out, base, cpu, slotOf);
    assert AllPlaced(body, slotOf, cpu) by { hide AllBelow; }
    SpillSetsOnce(body, slotOf, base, base, cpu);
    SpilledLocalOnce(body', out, cpu, base, base + |FlatOperands(body)|);
  }

  lemma CrossingIsFixed(body: seq<Ins>, out: set<RegId>, fixed: Assignment, base: nat, slotBase: nat)
    requires BlockReady(body, out, fixed, base, slotBase)
    ensures forall r :: r in out || r in Live(body, out) ==> r in fixed
  {
    LiveIsLiveAt(body, 0, out);
    assert body[0..] == body;
    hide LiveAt, Live, FixedColored, AllBelow, DstOf;
  }

  lemma SpilledLocalOnce(body: seq<Ins>, out: set<RegId>, cpu: Assignment, lo: nat, hi: nat)
    requires SetsOnce(body, cpu, lo, hi) && forall r :: r in out || r in Live(body, out) ==> r in cpu
    ensures LocalOnce(body, Iota(|body|), out, cpu)
  {
    LiveIsLiveAt(body, 0, out);
    assert body[0..] == body;
    hide LiveAt, Live, DstOf;
    forall p: nat, q: nat | p < q < |body| && DstOf(InsIn(body, Iota(|body|), p)).Some? && DstOf(InsIn(body, Iota(|body|), p)).value !in cpu
      ensures DstOf(InsIn(body, Iota(|body|), q)) != DstOf(InsIn(body, Iota(|body|), p))
    {
      assert SetsNew(body[p], cpu);
    }
  }

  lemma SpillFixedColored(body: seq<Ins>, out: set<RegId>, base: nat, cpu: Assignment, slotOf: SlotMap)
    requires AllBelow(body, base) && RegsBelow(out, base) && out !! slotOf.Keys && Live(body, out) !! slotOf.Keys
    requires FixedColored(body, Iota(|body|), out, cpu) && Assigned(cpu, map[], base) && forall r :: r in slotOf.Keys ==> r !in cpu
    ensures var body' := SpillList(body, slotOf, base); FixedColored(body', Iota(|body'|), out, cpu)
  {
    var body' := SpillList(body, slotOf, base);
    assert forall k: nat :: k < |body| ==> FixedColoredAt(body, Iota(|body|), out, cpu, k);
    hide FixedColoredAt, AllocMask, SpillList, AllBelow, ColoredHead;
    forall k | 0 <= k < |body| ensures ColoredHead(body[k], Live(body[k + 1..], out), cpu) { ColoredBodyIff(body, out, cpu, k); }
    assert Assigned(cpu, slotOf, base);
    SpillColored(body, slotOf, base, base, out, cpu);
    forall k: nat | k < |body'| ensures FixedColoredAt(body', Iota(|body'|), out, cpu, k) { ColoredBodyIff(body', out, cpu, k); }
    LiveAfterSpill(body, slotOf, base, base, out);
    LiveIsLiveAt(body, 0, out);
    LiveIsLiveAt(body', 0, out);
    assert body[0..] == body && body'[0..] == body';
    hide Live, LiveAt;
  }

  /** The kind of every register of the spilled block: of a scratch register, that of the operand it
      stands in for. */
  ghost predicate KindsFor(kind: RegId -> Kind, kindOf: RegId -> Kind, body: seq<Ins>, base: nat) {
    && (forall r: RegId :: r.no < base ==> kind(r) == kindOf(r))
    && forall n: nat :: n < |FlatOperands(body)| && FlatOperands(body)[n].RegOp? ==> kind(RegNo(base + n)) == kindOf(FlatOperands(body)[n].reg)
  }

  /** How an allocation came about: the first scan and what it spilled, and then the second one with the
      registers and kinds it was given. */
  datatype Trail = Trail(first: Scene, spilled: set<RegId>, cpu1: Assignment, second: Scene, kind2: RegId -> Kind)

  /** What allocation comes to. It gives up if the first scan fails. If that spills nothing, the block
      stays and its registers are as the scan says. Else the spilled registers move to slots, and what
      is left gets its registers from a second scan, which may not spill and decides on the outcome. */
  ghost predicate BlockOutcome(body: seq<Ins>, out: set<RegId>, kindOf: RegId -> Kind, fixed: Assignment, base: nat, ok: bool, body': seq<Ins>,
                               cpu: Assignment, slotOf: SlotMap, how: Trail)
  {
    && ScanOf(how.first, body, Iota(|body|), out, kindOf, fixed)
    && match SceneAt(how.first, true, |how.first.rs|)
       case None => !ok
       case Some(end) =>
         if how.spilled == {} then ok && body' == body && slotOf == map[] && AssignedBy(end.rs, fixed, cpu, {})
         else
           && AssignedBy(end.rs, fixed, how.cpu1, how.spilled) && slotOf.Keys == how.spilled && body' == SpillList(body, slotOf, base)
           && KindsFor(how.kind2, kindOf, body, base) && ScanOf(how.second, body', Iota(|body'|), out, how.kind2, how.cpu1)
           && match SceneAt(how.second, false, |how.second.rs|)
              case None => !ok
              case Some(end2) => ok && AssignedBy(end2.rs, how.cpu1, cpu, {})
  }

  lemma FailsAtOnce(body: seq<Ins>, out: set<RegId>, kindOf: RegId -> Kind, fixed: Assignment, base: nat, body': seq<Ins>, cpu: Assignment,
                    slotOf: SlotMap, rs: seq<LiveRange>, how: Trail)
    requires ScanOf(how.first, body, Iota(|body|), out, kindOf, fixed) && EndsAs(how.first, true, false, rs)
    ensures BlockOutcome(body, out, kindOf, fixed, base, false, body', cpu, slotOf, how)
  {
    hide ScanOf, SceneAt;
  }

  lemma FitsAtOnce(body: seq<Ins>, out: set<RegId>, kindOf: RegId -> Kind, fixed: Assignment, base: nat, cpu: Assignment, rs: seq<LiveRange>, how: Trail)
    requires ScanOf(how.first, body, Iota(|body|), out, kindOf, fixed) && EndsAs(how.first, true, true, rs) && AssignedBy(rs, fixed, cpu, {})
    requires how.spilled == {}
    ensures BlockOutcome(body, out, kindOf, fixed, base, true, body, cpu, map[], how)
  {
    hide ScanOf, SceneAt, AssignedBy;
  }

  lemma FitsAfterSpilling(body: seq<Ins>, out: set<RegId>, kindOf: RegId -> Kind, fixed: Assignment, base: nat, ok: bool, body': seq<Ins>,
                          cpu: Assignment, slotOf: SlotMap, rs: seq<LiveRange>, rs2: seq<LiveRange>, how: Trail)
    requires ScanOf(how.first, body, Iota(|body|), out, kindOf, fixed) && EndsAs(how.first, true, true, rs) && AssignedBy(rs, fixed, how.cpu1, how.spilled)
    requires how.spilled != {} && slotOf.Keys == how.spilled && body' == SpillList(body, slotOf, base) && KindsFor(how.kind2, kindOf, body, base)
    requires ScanOf(how.second, body', Iota(|body'|), out, how.kind2, how.cpu1) && EndsAs(how.second, false, ok, rs2)
    requires ok ==> AssignedBy(rs2, how.cpu1, cpu, {})
    ensures BlockOutcome(body, out, kindOf, fixed, base, ok, body', cpu, slotOf, how)
  {
    hide ScanOf, SceneAt, AssignedBy, KindsFor, SpillList;
  }

  /** Registers outside of `fixed` are of the right kind, and made of bits the allocator may use or of
      bits of fixed registers. */
  ghost predicate FromPool(cpu: Assignment, fixed: Assignment, kindOf: RegId -> Kind, how: Trail) {
    forall r :: r in cpu && r !in fixed ==>
      UsesOnly(cpu[r], fixed) && RegOk(cpu[r], if how.spilled == {} || r in how.cpu1 then kindOf(r) else how.kind2(r))
  }

  /** None of the registers is the stack pointer or the program counter. */
  predicate LeavesSpAndPc(cpu: Assignment) {
    forall r :: r in cpu && cpu[r].kind.Gpr? ==> cpu[r].no != 13 && cpu[r].no != 15
  }

  lemma PoolHasNoSp(cpu: Assignment, fixed: Assignment, kindOf: RegId -> Kind, how: Trail)
    requires FromPool(cpu, fixed, kindOf, how) && LeavesSpAndPc(fixed) && Extends(cpu, fixed)
    ensures LeavesSpAndPc(cpu)
  {
    forall r | r in cpu && cpu[r].kind.Gpr? ensures cpu[r].no != 13 && cpu[r].no != 15 {
      if r !in fixed {
        assert UsesOnly(cpu[r], fixed) && GprBit(cpu[r].no) in AllocMask(cpu[r]);
        if FixedBit(fixed, GprBit(cpu[r].no)) {
          var q :| q in fixed && GprBit(cpu[r].no) in AllocMask(fixed[q]);
        }
      }
    }
  }

  lemma AssignedUses(sc: Scene, code: seq<Ins>, out: set<RegId>, kindOf: RegId -> Kind, fixed: Assignment, allow: bool, end: Scene, cpu: Assignment,
                     spilled: set<RegId>, r: RegId)
    requires |code| <= AFTER_BBL && ScanOf(sc, code, Iota(|code|), out, kindOf, fixed) && SceneAt(sc, allow, |sc.rs|) == Some(end)
    requires AssignedBy(end.rs, fixed, cpu, spilled) && r in cpu && r !in fixed
    ensures UsesOnly(cpu[r], fixed) && RegOk(cpu[r], kindOf(r))
  {
    assert GivenTo(end.rs, r, cpu[r]);
    hide ScanOf, SceneAt, GivenTo, AssignedBy, UsesOnly;
    ScanUses(sc, code, Iota(|code|), out, kindOf, fixed, allow, end, r, cpu[r]);
  }

  lemma OutcomeFromPool(body: seq<Ins>, out: set<RegId>, kindOf: RegId -> Kind, fixed: Assignment, base: nat, body': seq<Ins>, cpu: Assignment,
                        slotOf: SlotMap, how: Trail)
    requires BlockOutcome(body, out, kindOf, fixed, base, true, body', cpu, slotOf, how) && |body| <= AFTER_BBL && |body'| <= AFTER_BBL
    ensures FromPool(cpu, fixed, kindOf, how)
  {
    hide ScanOf, SceneAt, UsesOnly, SpillList, KindsFor, AssignedBy;
    var end := SceneAt(how.first, true, |how.first.rs|).value;
    forall r | r in cpu && r !in fixed
      ensures UsesOnly(cpu[r], fixed) && RegOk(cpu[r], if how.spilled == {} || r in how.cpu1 then kindOf(r) else how.kind2(r))
    {
      if how.spilled == {} {
        AssignedUses(how.first, body, out, kindOf, fixed, true, end, cpu, {}, r);
      } else {
        var end2 := SceneAt(how.second, false, |how.second.rs|).value;
        AssignedKept(end2.rs, how.cpu1, cpu, {});
        if r in how.cpu1 {
          AssignedUses(how.first, body, out, kindOf, fixed, true, end, how.cpu1, how.spilled, r);
        } else {
          AssignedUses(how.second, body', out, how.kind2, how.cpu1, false, end2, cpu, {}, r);
          forall q | q in how.cpu1 && q !in fixed ensures UsesOnly(how.cpu1[q], fixed) {
            AssignedUses(how.first, body, out, kindOf, fixed, true, end, how.cpu1, how.spilled, q);
          }
          AssignedKept(end.rs, fixed, how.cpu1, how.spilled);
          UsesTwice(cpu[r], how.cpu1, fixed);
        }
      }
    }
  }

  lemma TakesFromPool(body: seq<Ins>, out: set<RegId>, kindOf: RegId -> Kind, fixed: Assignment, base: nat, body': seq<Ins>, cpu: Assignment,
                      slotOf: SlotMap, how: Trail)
    requires BlockOutcome(body, out, kindOf, fixed, base, true, body', cpu, slotOf, how) && |body| <= AFTER_BBL && |body'| <= AFTER_BBL
    ensures FromPool(cpu, fixed, kindOf, how) && (LeavesSpAndPc(fixed) ==> LeavesSpAndPc(cpu))
  {
    OutcomeFromPool(body, out, kindOf, fixed, base, body', cpu, slotOf, how);
    assert Extends(cpu, fixed) by { OutcomeExtends(body, out, kindOf, fixed, base, body', cpu, slotOf, how); }
    hide BlockOutcome, FromPool, LeavesSpAndPc, Extends;
    if LeavesSpAndPc(fixed) { PoolHasNoSp(cpu, fixed, kindOf, how); }
  }

  lemma OutcomeExtends(body: seq<Ins>, out: set<RegId>, kindOf: RegId -> Kind, fixed: Assignment, base: nat, body': seq<Ins>, cpu: Assignment,
                       slotOf: SlotMap, how: Trail)
    requires BlockOutcome(body, out, kindOf, fixed, base, true, body', cpu, slotOf, how)
    ensures Extends(cpu, fixed)
  {
    hide ScanOf, SceneAt, SpillList, KindsFor, AssignedBy;
    var end := SceneAt(how.first, true, |how.first.rs|).value;
    if how.spilled == {} {
      AssignedKept(end.rs, fixed, cpu, {});
    } else {
      AssignedKept(end.rs, fixed, how.cpu1, how.spilled);
      AssignedKept(SceneAt(how.second, false, |how.second.rs|).value.rs, how.cpu1, cpu, {});
    }
  }

  lemma AssignedKept(rs: seq<LiveRange>, fixed: Assignment, cpu: Assignment, spilled: set<RegId>)
    requires AssignedBy(rs, fixed, cpu, spilled)
    ensures forall r :: r in fixed ==> r in cpu && cpu[r] == fixed[r]
  {
    hide GivenTo, SpilledIn;
  }

  lemma UsesTwice(reg: CpuReg, cpu: Assignment, fixed: Assignment)
    requires UsesOnly(reg, cpu) && (forall q :: q in cpu && q !in fixed ==> UsesOnly(cpu[q], fixed)) && forall q :: q in fixed ==> q in cpu && cpu[q] == fixed[q]
    ensures UsesOnly(reg, fixed)
  {
    forall b | b in AllocMask(reg) ensures MayUse(b) || FixedBit(fixed, b) {
      if FixedBit(cpu, b) {
        var q :| q in cpu && b in AllocMask(cpu[q]);
        if q in fixed { assert b in AllocMask(fixed[q]); }
      }
    }
    hide AllocMask;
  }

  lemma KindsAreFor(kindOf: RegId -> Kind, body: seq<Ins>, base: nat)
    ensures KindsFor(KindWithScratch(kindOf, FlatOperands(body), base), kindOf, body, base)
  {
    hide FlatOperands;
  }

  /** If it succeeds, the resulting block on machine registers stands in for the given one. Whether it
      succeeds, and which register goes where, is up to the two scans. */
  method BblRegAllocOrSpill(body: seq<Ins>, out: set<RegId>, kindOf: RegId -> Kind, width: RegId -> nat, fixed: Assignment, base: nat, stks0: seq<Frame.Stk>)
    returns (ok: bool, body': seq<Ins>, cpu: Assignment, slotOf: SlotMap, stks: seq<Frame.Stk>, ghost how: Trail)
    requires BlockReady(body, out, fixed, base, |stks0|)
    ensures BlockOutcome(body, out, kindOf, fixed, base, ok, body', cpu, slotOf, how)
    ensures ok ==> FromPool(cpu, fixed, kindOf, how) && (LeavesSpAndPc(fixed) ==> LeavesSpAndPc(cpu))
    ensures ok ==> RunsOnMachine(body, out, fixed, body', cpu, slotOf.Values) && Allocation(body, out, fixed, base, body', cpu, slotOf) && SameEnd(body, body')
    ensures NewStks(slotOf, width, stks0, stks)
  {
    var ids, slotBase := Iota(|body|), |stks0|;
    body', cpu, slotOf, stks := body, fixed, map[], stks0;
    assert slotOf.Values == {};
    ReadyParts(body, out, fixed, base, slotBase);
    hide BlockReady, FixedColored, LocalOnce, ScannedBlock, Halfway, SpillSetting, SpillList, Live, Colored, RunsOnMachine, Extends, OwnSlots,
         Describes, WfRanges, Marked, Allocated, Placed, Once, Follows, NoSpilled, WfIns, AllBelow, KindWithScratch, SameEnd, Allocation, NewStks, FlatOperands;
    hide BlockOutcome, ScanOf, EndsAs, AssignedBy, KindsFor, FromPool, LeavesSpAndPc;
    var rs: seq<LiveRange>;
    ghost var first: Scene;
    ok, rs, first := ScanBlock(body, ids, out, kindOf, fixed, true);
    how := Trail(first, {}, fixed, first, kindOf);
    if !ok {
      FailsAtOnce(body, out, kindOf, fixed, base, body', cpu, slotOf, rs, how);
      return;
    }
    ReadyToAssign(rs, body, out, fixed);
    var spilled: set<RegId>;
    cpu, spilled := AssignAllocatedRegs(rs, fixed);
    ExtendsFixed(cpu, fixed);
    FirstScanDone(rs, body, out, fixed, base, slotBase, cpu, spilled);
    CrossingIsFixed(body, out, fixed, base, slotBase);
    if spilled == {} {
      FitsAtOnce(body, out, kindOf, fixed, base, cpu, rs, how);
      TakesFromPool(body, out, kindOf, fixed, base, body, cpu, slotOf, how);
      UnspilledRuns(body, out, fixed, cpu);
      UnspilledIs(body, out, fixed, base, slotBase, cpu);
      SameEndItself(body);
      return;
    }
    slotOf, stks := SlotsFor(spilled, width, stks0);
    NewFrom(slotOf, width, stks0, stks);
    SpilledIsReady(body, out, fixed, base, slotBase, cpu, slotOf);
    SpillSize(body, slotOf, base);
    SpillWf(body, slotOf, base);
    body' := BblSpillRegs(body, slotOf, base);
    var cpu1, kind2 := cpu, KindWithScratch(kindOf, FlatOperands(body), base);
    KindsAreFor(kindOf, body, base);
    ghost var second, rs2;
    ok, cpu, second, rs2 := AllocateSpilled(body', out, kind2, cpu1);
    how := Trail(first, spilled, cpu1, second, kind2);
    FitsAfterSpilling(body, out, kindOf, fixed, base, ok, body', cpu, slotOf, rs, rs2, how);
    if ok {
      TakesFromPool(body, out, kindOf, fixed, base, body', cpu, slotOf, how);
      ExtendsTwice(cpu, cpu1, fixed);
      SpilledRuns(body, slotOf, base, out, fixed, cpu);
      SpillSameEnd(body, slotOf, base);
      AllocationIs(body, out, fixed, base, body', cpu, slotOf);
    }
  }

  lemma NewFrom(slotOf: SlotMap, width: RegId -> nat, stks0: seq<Frame.Stk>, stks: seq<Frame.Stk>)
    requires NewStks(slotOf, width, stks0, stks)
    ensures forall s :: s in slotOf.Values ==> |stks0| <= s
  {
  }

  lemma AllocationIs(body: seq<Ins>, out: set<RegId>, fixed: Assignment, base: nat, body': seq<Ins>, cpu: Assignment, slotOf: SlotMap)
    requires body' == SpillList(body, slotOf, base) && SpillSetting(body, slotOf, base, base, out)
    requires Colored(body', Iota(|body'|), out, cpu) && Extends(cpu, fixed)
    requires out !! slotOf.Keys && Live(body, out) !! slotOf.Keys && forall r :: r in out || r in Live(body, out) ==> r in fixed
    ensures Allocation(body, out, fixed, base, body', cpu, slotOf)
  {
  }

  /** The second scan, in which nothing may be spilled any more. */
  method AllocateSpilled(body: seq<Ins>, out: set<RegId>, kindOf: RegId -> Kind, fixed: Assignment)
    returns (ok: bool, cpu: Assignment, ghost sc: Scene, ghost end: seq<LiveRange>)
    requires |body| <= AFTER_BBL && forall k :: 0 <= k < |body| ==> WfIns(body[k])
    requires FixedColored(body, Iota(|body|), out, fixed) && LocalOnce(body, Iota(|body|), out, fixed)
    ensures ok ==> Colored(body, Iota(|body|), out, cpu) && Extends(cpu, fixed)
    ensures ScanOf(sc, body, Iota(|body|), out, kindOf, fixed) && EndsAs(sc, false, ok, end) && (ok ==> AssignedBy(end, fixed, cpu, {}))
  {
    hide ScanOf, EndsAs, AssignedBy;
    cpu := fixed;
    var ids := Iota(|body|);
    forall i | i in ids ensures WfIns(InsAt(body, i)) {}
    FixedInRange(body, out, fixed);
    hide FixedColored, LocalOnce, ScannedBlock, Colored, Extends, Describes, WfRanges, Marked, Allocated, Placed, Once, Follows, NoSpilled, WfIns;
    var rs: seq<LiveRange>;
    ok, rs, sc := ScanBlock(body, ids, out, kindOf, fixed, false);
    end := rs;
    if !ok { return; }
    ReadyToAssign(rs, body, out, fixed);
    var spilled: set<RegId>;
    cpu, spilled := AssignAllocatedRegs(rs, fixed);
    ExtendsFixed(cpu, fixed);
    SecondScanDone(rs, body, out, fixed, cpu);
  }

  lemma SecondScanDone(rs: seq<LiveRange>, body: seq<Ins>, out: set<RegId>, fixed: Assignment, cpu: Assignment)
    requires ScannedBlock(rs, body, Iota(|body|), out, fixed) && FixedColored(body, Iota(|body|), out, fixed) && LocalOnce(body, Iota(|body|), out, fixed)
    requires Follows(rs, cpu) && Extends(cpu, fixed) && forall r :: r in cpu ==> cpu[r].no < NumRegs(cpu[r].kind)
    requires forall j :: 0 <= j < |rs| && rs[j].uses == [] ==> rs[j].reg in cpu
    ensures Colored(body, Iota(|body|), out, cpu)
  {
    RangesColor(rs, body, Iota(|body|), out, fixed, cpu);
    FullyColored(rs, body, Iota(|body|), out, cpu);
    hide FixedColored, LocalOnce, Describes, WfRanges, Allocated, Marked, Colored;
  }

  lemma FixedInRange(body: seq<Ins>, out: set<RegId>, fixed: Assignment)
    requires FixedColored(body, Iota(|body|), out, fixed)
    ensures forall r :: r in fixed ==> fixed[r].no < NumRegs(fixed[r].kind)
  {
    hide FixedColoredAt, AllocMask;
  }

  lemma ReadyToAssign(rs: seq<LiveRange>, body: seq<Ins>, out: set<RegId>, fixed: Assignment)
    requires |body| <= AFTER_BBL && ScannedBlock(rs, body, Iota(|body|), out, fixed) && LocalOnce(body, Iota(|body|), out, fixed)
    ensures Marked(rs, fixed) && Placed(rs, |rs|) && Once(rs)
  {
    OnceIfLocal(rs, body, Iota(|body|), out, fixed);
    hide Describes, WfRanges, LocalOnce, Once, Marked, Placed, Apart, Clear;
  }

  lemma ReadyParts(body: seq<Ins>, out: set<RegId>, fixed: Assignment, base: nat, slotBase: nat)
    requires BlockReady(body, out, fixed, base, slotBase)
    ensures |body| + |FlatOperands(body)| <= AFTER_BBL && FixedColored(body, Iota(|body|), out, fixed) && LocalOnce(body, Iota(|body|), out, fixed)
    ensures (forall i :: i in Iota(|body|) ==> WfIns(InsAt(body, i))) && (forall k :: 0 <= k < |body| ==> WfIns(body[k]))
    ensures forall r :: r in fixed ==> fixed[r].no < NumRegs(fixed[r].kind)
  {
    FixedInRange(body, out, fixed);
    hide FixedColored, LocalOnce, WfIns, Below;
  }

  lemma ExtendsFixed(cpu: Assignment, fixed: Assignment)
    requires forall r :: r in fixed ==> r in cpu && cpu[r] == fixed[r]
    ensures Extends(cpu, fixed)
  {
  }

  lemma ExtendsTwice(c: Assignment, b: Assignment, a: Assignment)
    requires Extends(c, b) && Extends(b, a)
    ensures Extends(c, a)
  {
  }
}
