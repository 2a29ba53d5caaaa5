/** Register liveness. The worklist only compares sizes and only ever adds registers, yet ends with
    exactly the registers that some path reads before setting them (`ExactlyLive`). */
module Liveness {
  import opened IR

  // ---------------------------------------------------------------- within a block

  /** One of the instructions from..to sets register r. */
  predicate DefinedIn(code: seq<Ins>, ids: seq<InsId>, from: nat, to: nat, r: RegId)
    requires from <= to <= |ids|
  {
    exists j: nat :: from <= j < to && DstOf(InsAt(code, ids[j])) == Some(r)
  }

  predicate ExposedAt(code: seq<Ins>, ids: seq<InsId>, from: nat, k: nat, r: RegId)
    requires from <= k < |ids|
  {
    UsesReg(InsAt(code, ids[k]), r) && !DefinedIn(code, ids, from, k, r)
  }

  /** Starting at position `from`, register r is read before it is set. */
  predicate ExposedFrom(code: seq<Ins>, ids: seq<InsId>, from: nat, r: RegId)
    requires from <= |ids|
  {
    exists k: nat :: from <= k < |ids| && ExposedAt(code, ids, from, k, r)
  }

  /** What is live before an instruction when `live` is live after it. */
  function LiveBefore(ins: Ins, live: set<RegId>): set<RegId> {
    (live - DefsOf(ins)) + UsesOf(ins)
  }

  /** What is live before position k of a block when `out` is live at its end. */
  function LiveAt(code: seq<Ins>, ids: seq<InsId>, k: nat, out: set<RegId>): set<RegId>
    requires k <= |ids|
    decreases |ids| - k
  {
    if k == |ids| then out else LiveBefore(InsAt(code, ids[k]), LiveAt(code, ids, k + 1, out))
  }

  lemma DefinedOneMore(code: seq<Ins>, ids: seq<InsId>, k: nat, to: nat, r: RegId)
    requires k < to <= |ids|
    ensures DefinedIn(code, ids, k, to, r) <==> DstOf(InsAt(code, ids[k])) == Some(r) || DefinedIn(code, ids, k + 1, to, r)
  {
    hide InsAt, DstOf;
    if DefinedIn(code, ids, k, to, r) && DstOf(InsAt(code, ids[k])) != Some(r) {
      var j: nat :| k <= j < to && DstOf(InsAt(code, ids[j])) == Some(r);
      assert j != k;
    }
  }

  lemma ExposedOneMore(code: seq<Ins>, ids: seq<InsId>, k: nat, r: RegId)
    requires k < |ids|
    ensures ExposedFrom(code, ids, k, r) <==>
      UsesReg(InsAt(code, ids[k]), r) || (DstOf(InsAt(code, ids[k])) != Some(r) && ExposedFrom(code, ids, k + 1, r))
  {
    hide InsAt, DstOf, UsesReg, DefinedIn;
    NothingDefined(code, ids, k, r);
    if ExposedFrom(code, ids, k, r) {
      var j: nat :| k <= j < |ids| && ExposedAt(code, ids, k, j, r);
      if j > k {
        DefinedOneMore(code, ids, k, j, r);
        assert ExposedAt(code, ids, k + 1, j, r);
      }
    }
    if UsesReg(InsAt(code, ids[k]), r) {
      assert ExposedAt(code, ids, k, k, r);
    } else if DstOf(InsAt(code, ids[k])) != Some(r) && ExposedFrom(code, ids, k + 1, r) {
      var j: nat :| k + 1 <= j < |ids| && ExposedAt(code, ids, k + 1, j, r);
      DefinedOneMore(code, ids, k, j, r);
      assert ExposedAt(code, ids, k, j, r);
    }
  }

  lemma NothingDefined(code: seq<Ins>, ids: seq<InsId>, k: nat, r: RegId)
    requires k <= |ids|
    ensures !DefinedIn(code, ids, k, k, r)
  {
  }

  lemma NothingExposed(code: seq<Ins>, ids: seq<InsId>, r: RegId)
    ensures !ExposedFrom(code, ids, |ids|, r)
  {
  }

  /** A register is live somewhere in a block iff it is read before being set, or stays unset and
      is live at the end. */
  lemma {:induction false} LiveAtIff(code: seq<Ins>, ids: seq<InsId>, k: nat, out: set<RegId>, r: RegId)
    requires k <= |ids|
    ensures r in LiveAt(code, ids, k, out) <==>
      ExposedFrom(code, ids, k, r) || (!DefinedIn(code, ids, k, |ids|, r) && r in out)
    decreases |ids| - k
  {
    if k == |ids| {
      NothingDefined(code, ids, k, r);
      NothingExposed(code, ids, r);
    } else {
      LiveAtIff(code, ids, k + 1, out, r);
      DefinedOneMore(code, ids, k, |ids|, r);
      ExposedOneMore(code, ids, k, r);
      LiveBeforeIff(InsAt(code, ids[k]), LiveAt(code, ids, k + 1, out), r);
      hide DefinedIn, ExposedFrom, InsAt, DstOf, UsesReg, LiveBefore;
    }
  }

  lemma LiveBeforeIff(ins: Ins, live: set<RegId>, r: RegId)
    ensures r in LiveBefore(ins, live) <==> UsesReg(ins, r) || (r in live && DstOf(ins) != Some(r))
  {
  }

  // ---------------------------------------------------------------- paths

  function Ids(f: Fn, b: BblId): seq<InsId> { BblAt(f, b).inss }

  predicate Defines(f: Fn, b: BblId, r: RegId) { DefinedIn(f.code, Ids(f, b), 0, |Ids(f, b)|, r) }

  predicate Exposes(f: Fn, b: BblId, r: RegId) { ExposedFrom(f.code, Ids(f, b), 0, r) }

  /** p is a way from the start of its first block to a read of r, with no write of r before it. */
  ghost predicate ReadPath(f: Fn, p: seq<BblId>, r: RegId) {
    && p != []
    && (forall j :: 0 <= j < |p| - 1 ==> p[j + 1] in BblAt(f, p[j]).edgeOut && !Defines(f, p[j], r))
    && Exposes(f, p[|p| - 1], r)
  }

  ghost predicate ReadFrom(f: Fn, b: BblId, r: RegId) {
    exists p: seq<BblId> :: ReadPath(f, p, r) && p[0] == b
  }

  /** Some way on from the end of b reads r before setting it. */
  ghost predicate ReadAfter(f: Fn, b: BblId, r: RegId) {
    exists s :: s in BblAt(f, b).edgeOut && ReadFrom(f, s, r)
  }

  lemma ReadFromUnfolds(f: Fn, b: BblId, r: RegId)
    ensures ReadFrom(f, b, r) <==> Exposes(f, b, r) || (!Defines(f, b, r) && ReadAfter(f, b, r))
  {
    hide Exposes, Defines, BblAt;
    if ReadFrom(f, b, r) {
      var p: seq<BblId> :| ReadPath(f, p, r) && p[0] == b;
      if |p| > 1 {
        var q := p[1..];
        forall j | 0 <= j < |q| - 1 ensures q[j + 1] in BblAt(f, q[j]).edgeOut && !Defines(f, q[j], r) {
          assert p[j + 1 + 1] in BblAt(f, p[j + 1]).edgeOut && !Defines(f, p[j + 1], r);
        }
        assert ReadPath(f, q, r) && q[0] == p[1];
        assert p[0 + 1] in BblAt(f, p[0]).edgeOut && !Defines(f, p[0], r);
      }
    }
    if Exposes(f, b, r) {
      assert ReadPath(f, [b], r) && [b][0] == b;
    } else if !Defines(f, b, r) && ReadAfter(f, b, r) {
      var s :| s in BblAt(f, b).edgeOut && ReadFrom(f, s, r);
      var q: seq<BblId> :| ReadPath(f, q, r) && q[0] == s;
      var p := [b] + q;
      forall j | 0 <= j < |p| - 1 ensures p[j + 1] in BblAt(f, p[j]).edgeOut && !Defines(f, p[j], r) {
        if j > 0 { assert q[j - 1 + 1] in BblAt(f, q[j - 1]).edgeOut && !Defines(f, q[j - 1], r); }
      }
      assert ReadPath(f, p, r) && p[0] == b;
    }
  }

  // ---------------------------------------------------------------- the analysis

  /** What a block does to a live set. */
  datatype DefUse = DefUse(defs: set<RegId>, uses: set<RegId>)

  ghost predicate Summary(code: seq<Ins>, ids: seq<InsId>, k: nat, du: DefUse)
    requires k <= |ids|
  {
    forall r :: (r in du.defs <==> DefinedIn(code, ids, k, |ids|, r)) && (r in du.uses <==> ExposedFrom(code, ids, k, r))
  }

  method InsUpdateDefUse(ins: Ins, du0: DefUse) returns (du: DefUse)
    requires WfIns(ins)
    ensures du == DefUse(du0.defs + DefsOf(ins), (du0.uses - DefsOf(ins)) + UsesOf(ins))
  {
    var defs, uses := du0.defs, du0.uses;
    for n := 0 to |ins.operands|
      invariant defs == du0.defs + if n == 0 then {} else DefsOf(ins)
      invariant uses == (du0.uses - if n == 0 then {} else DefsOf(ins)) + ReadBefore(ins, n)
    {
      var op := ins.operands[n];
      ReadOneMore(ins, n);
      if op.RegOp? {
        if n < NumDefs(ins.opcode) {
          defs := defs + {op.reg};
          uses := uses - {op.reg};
        } else {
          uses := uses + {op.reg};
        }
      }
    }
    ReadBeforeEnd(ins);
    du := DefUse(defs, uses);
  }

  /** The registers read by the first n operands. */
  function ReadBefore(ins: Ins, n: nat): set<RegId>
    requires n <= |ins.operands|
  {
    set k | NumDefs(ins.opcode) <= k < n && ins.operands[k].RegOp? :: ins.operands[k].reg
  }

  lemma ReadOneMore(ins: Ins, n: nat)
    requires n < |ins.operands|
    ensures ReadBefore(ins, n + 1) == ReadBefore(ins, n) +
      if NumDefs(ins.opcode) <= n && ins.operands[n].RegOp? then {ins.operands[n].reg} else {}
  {
  }

  lemma ReadBeforeEnd(ins: Ins)
    requires WfIns(ins)
    ensures ReadBefore(ins, |ins.operands|) == UsesOf(ins)
    ensures |ins.operands| == 0 ==> DefsOf(ins) == {}
  {
  }

  /** The block summary is the composition of what its instructions do. */
  method BblDefUse(code: seq<Ins>, ids: seq<InsId>) returns (du: DefUse)
    requires forall i :: i in ids ==> WfIns(InsAt(code, i))
    ensures Summary(code, ids, 0, du)
    ensures forall out: set<RegId> :: LiveAt(code, ids, 0, out) == (out - du.defs) + du.uses
  {
    du := DefUse({}, {});
    SummaryStarts(code, ids);
    for k := |ids| downto 0
      invariant Summary(code, ids, k, du)
    {
      assert ids[k] in ids;
      ghost var du0 := du;
      du := InsUpdateDefUse(InsAt(code, ids[k]), du);
      SummaryStep(code, ids, k, du0, du);
    }
    SummaryIsLiveAt(code, ids, du);
  }

  lemma SummaryStarts(code: seq<Ins>, ids: seq<InsId>)
    ensures Summary(code, ids, |ids|, DefUse({}, {}))
  {
    forall r ensures !DefinedIn(code, ids, |ids|, |ids|, r) && !ExposedFrom(code, ids, |ids|, r) {
      NothingDefined(code, ids, |ids|, r);
      NothingExposed(code, ids, r);
    }
  }

  lemma SummaryStep(code: seq<Ins>, ids: seq<InsId>, k: nat, du0: DefUse, du: DefUse)
    requires k < |ids| && Summary(code, ids, k + 1, du0)
    requires var ins := InsAt(code, ids[k]);
      du == DefUse(du0.defs + DefsOf(ins), (du0.uses - DefsOf(ins)) + UsesOf(ins))
    ensures Summary(code, ids, k, du)
  {
    var ins := InsAt(code, ids[k]);
    forall r ensures (r in du.defs <==> DefinedIn(code, ids, k, |ids|, r)) && (r in du.uses <==> ExposedFrom(code, ids, k, r)) {
      DefinedOneMore(code, ids, k, |ids|, r);
      ExposedOneMore(code, ids, k, r);
      assert r in DefsOf(ins) <==> DstOf(ins) == Some(r);
      assert r in UsesOf(ins) <==> UsesReg(ins, r);
      hide DefinedIn, ExposedFrom, InsAt, DefsOf, UsesOf, UsesReg, DstOf;
    }
  }

  lemma SummaryIsLiveAt(code: seq<Ins>, ids: seq<InsId>, du: DefUse)
    requires Summary(code, ids, 0, du)
    ensures forall out: set<RegId> :: LiveAt(code, ids, 0, out) == (out - du.defs) + du.uses
  {
    forall out: set<RegId> ensures LiveAt(code, ids, 0, out) == (out - du.defs) + du.uses {
      forall r ensures r in LiveAt(code, ids, 0, out) <==> r in (out - du.defs) + du.uses {
        LiveAtIff(code, ids, 0, out, r);
      }
      hide LiveAt, Summary;
    }
  }

  /** What is live at the start of b when `out` is live at its end. */
  function LiveInOf(f: Fn, b: BblId, out: set<RegId>): set<RegId> {
    LiveAt(f.code, Ids(f, b), 0, out)
  }

  lemma LiveInIff(f: Fn, b: BblId, out: set<RegId>, r: RegId)
    ensures r in LiveInOf(f, b, out) <==> Exposes(f, b, r) || (!Defines(f, b, r) && r in out)
  {
    LiveAtIff(f.code, Ids(f, b), 0, out, r);
  }

  /** Predecessor lists are the successor lists read backwards. */
  ghost predicate MutualEdges(f: Fn) {
    forall b, p :: b in f.blocks ==> (p in BblAt(f, b).edgeIn <==> p in f.blocks && b in BblAt(f, p).edgeOut)
  }

  type LiveMap = map<BblId, set<RegId>>

  /** Live sets only hold what is read on some way on. */
  ghost predicate OnlyRead(f: Fn, liveOut: LiveMap) {
    forall b, r :: b in f.blocks && b in liveOut && r in liveOut[b] ==> ReadAfter(f, b, r)
  }

  /** What is live at the start of s is live at the end of every block before it, except for s's
      predecessors in `todo`. */
  ghost predicate PassedBack(f: Fn, liveIn: LiveMap, liveOut: LiveMap, s: BblId, todo: multiset<BblId>) {
    forall b :: b in f.blocks && s in BblAt(f, b).edgeOut && b !in todo && s in liveIn && b in liveOut ==> liveIn[s] <= liveOut[b]
  }

  ghost predicate InBounds(f: Fn, liveIn: LiveMap, liveOut: LiveMap, active: set<BblId>) {
    && (forall b :: b in f.blocks ==> b in liveIn && b in liveOut)
    && (forall b :: b in f.blocks ==> InBound(f, liveIn, liveOut, active, b))
  }

  /** A block's entry set lags behind its exit set, and has caught up unless the block is active. */
  ghost predicate InBound(f: Fn, liveIn: LiveMap, liveOut: LiveMap, active: set<BblId>, b: BblId)
    requires b in liveIn && b in liveOut
  {
    liveIn[b] <= LiveInOf(f, b, liveOut[b]) && (b !in active ==> liveIn[b] == LiveInOf(f, b, liveOut[b]))
  }

  /** All edges pass back, except those of the block under way to its predecessors in `todo`. */
  ghost predicate AllPassedBack(f: Fn, liveIn: LiveMap, liveOut: LiveMap, under: BblId, todo: multiset<BblId>) {
    forall s :: s in f.blocks ==> PassedBack(f, liveIn, liveOut, s, if s == under then todo else multiset{})
  }

  /** The registers not yet live at the start of a block: what termination counts. */
  ghost function MissingIn(f: Fn, regs: set<RegId>, liveIn: LiveMap): set<(BblId, RegId)> {
    set b, r | b in f.blocks && r in regs && (b !in liveIn || r !in liveIn[b]) :: (b, r)
  }

  ghost function ReadRegs(f: Fn): set<RegId> {
    set b, i, r | b in f.blocks && i in Ids(f, b) && r in UsesOf(InsAt(f.code, i)) :: r
  }

  lemma ExposedIsRead(f: Fn, b: BblId, r: RegId)
    requires b in f.blocks && Exposes(f, b, r)
    ensures r in ReadRegs(f)
  {
    var ids := Ids(f, b);
    var k: nat :| k < |ids| && ExposedAt(f.code, ids, 0, k, r);
    assert ids[k] in ids && r in UsesOf(InsAt(f.code, ids[k]));
  }

  lemma ReadAfterIsRead(f: Fn, b: BblId, r: RegId)
    requires WfLayout(f) && b in f.blocks && ReadAfter(f, b, r)
    ensures r in ReadRegs(f)
  {
    hide Exposes, Defines, ReadRegs, BblAt;
    var s :| s in BblAt(f, b).edgeOut && ReadFrom(f, s, r);
    var p: seq<BblId> :| ReadPath(f, p, r) && p[0] == s;
    PathStays(f, p, r, |p| - 1);
    ExposedIsRead(f, p[|p| - 1], r);
  }

  lemma {:induction false} PathStays(f: Fn, p: seq<BblId>, r: RegId, j: nat)
    requires WfLayout(f) && ReadPath(f, p, r) && p[0] in f.blocks && j < |p|
    ensures p[j] in f.blocks
  {
    hide Exposes, Defines, BblAt;
    if j > 0 {
      PathStays(f, p, r, j - 1);
      assert p[j - 1 + 1] in BblAt(f, p[j - 1]).edgeOut;
    }
  }

  lemma LiveInGrows(f: Fn, b: BblId, out: set<RegId>, out': set<RegId>)
    requires out <= out'
    ensures LiveInOf(f, b, out) <= LiveInOf(f, b, out')
  {
    forall r | r in LiveInOf(f, b, out) ensures r in LiveInOf(f, b, out') {
      LiveInIff(f, b, out, r);
      LiveInIff(f, b, out', r);
      hide LiveInOf, Exposes, Defines;
    }
  }

  ghost function Members(active: seq<BblId>): set<BblId> { set b | b in active }

  lemma MembersPush(active: seq<BblId>, b: BblId)
    ensures Members(active + [b]) == Members(active) + {b}
    ensures b in active <==> b in Members(active)
  {
  }

  lemma MembersPop(active: seq<BblId>)
    requires active != []
    ensures Members(active) == Members(active[..|active| - 1]) + {active[|active| - 1]}
    ensures active[|active| - 1] in Members(active)
  {
    assert active == active[..|active| - 1] + [active[|active| - 1]];
  }

  lemma NoMembers()
    ensures Members([]) == {}
  {
  }

  /** The state of the worklist while block s passes on to its predecessors in `todo`. */
  ghost predicate Consistent(f: Fn, liveIn: LiveMap, liveOut: LiveMap, active: set<BblId>, s: BblId, todo: multiset<BblId>) {
    && active <= f.blocks
    && InBounds(f, liveIn, liveOut, active)
    && OnlyRead(f, liveOut) && AllPassedBack(f, liveIn, liveOut, s, todo)
  }

  lemma ConsistentKeys(f: Fn, liveIn: LiveMap, liveOut: LiveMap, active: set<BblId>, s: BblId, todo: multiset<BblId>)
    requires Consistent(f, liveIn, liveOut, active, s, todo)
    ensures forall b :: b in f.blocks ==> b in liveIn && b in liveOut
    ensures active <= f.blocks
  {
    hide InBound, OnlyRead, AllPassedBack;
  }

  /** Entering what is live at the start of s into the exit set of every predecessor. */
  method PassBack(f: Fn, s: BblId, liveIn: LiveMap, liveOut0: LiveMap, active0: seq<BblId>)
    returns (liveOut: LiveMap, active: seq<BblId>)
    requires MutualEdges(f) && s in f.blocks
    requires Consistent(f, liveIn, liveOut0, Members(active0), s, BblAt(f, s).edgeIn)
    requires s in liveIn && forall r :: r in liveIn[s] ==> ReadFrom(f, s, r)
    ensures Consistent(f, liveIn, liveOut, Members(active), s, multiset{})
  {
    liveOut, active := liveOut0, active0;
    var todo := BblAt(f, s).edgeIn;
    hide Consistent, ReadFrom, BblAt, Members;
    while todo != multiset{}
      invariant todo <= BblAt(f, s).edgeIn
      invariant Consistent(f, liveIn, liveOut, Members(active), s, todo)
      decreases |todo|
    {
      var pred :| pred in todo;
      assert pred in f.blocks && s in BblAt(f, pred).edgeOut;
      ConsistentKeys(f, liveIn, liveOut, Members(active), s, todo);
      ghost var liveOut1, act := liveOut, Members(active);
      var oldLen := |liveOut[pred]|;
      liveOut := liveOut[pred := liveOut[pred] + liveIn[s]];
      SizeTellsGrowth(liveOut1[pred], liveOut[pred]);
      if |liveOut[pred]| > oldLen {
        MembersPush(active, pred);
        if pred !in active { active := active + [pred]; }
      }
      AfterPass(f, liveIn, liveOut1, act, liveOut, Members(active), s, pred, todo);
      todo := todo - multiset{pred};
    }
  }

  lemma AfterPass(f: Fn, liveIn: LiveMap, before: LiveMap, act: set<BblId>, liveOut: LiveMap, act': set<BblId>, s: BblId, pred: BblId,
                  todo: multiset<BblId>)
    requires s in f.blocks && pred in f.blocks && pred in todo && s in BblAt(f, pred).edgeOut
    requires Consistent(f, liveIn, before, act, s, todo)
    requires s in liveIn && pred in before && liveOut == before[pred := before[pred] + liveIn[s]]
    requires act' == act || act' == act + {pred}
    requires liveOut[pred] != before[pred] ==> pred in act'
    requires forall r :: r in liveIn[s] ==> ReadFrom(f, s, r)
    ensures Consistent(f, liveIn, liveOut, act', s, todo - multiset{pred})
  {
    hide InBounds, OnlyRead, AllPassedBack, ReadFrom, BblAt;
    BoundsAfterPass(f, liveIn, before, act, liveOut, act', s, pred);
    PassedAfterPass(f, liveIn, before, liveOut, s, pred, todo);
  }

  /** A set with room for more elements has more elements. */
  lemma SizeTellsGrowth(a: set<RegId>, b: set<RegId>)
    requires a <= b
    ensures |a| <= |b| && (|a| == |b| <==> a == b)
  {
    assert b == a + (b - a);
  }

  lemma BoundsAfterPass(f: Fn, liveIn: LiveMap, before: LiveMap, act: set<BblId>, liveOut: LiveMap, act': set<BblId>, s: BblId, pred: BblId)
    requires s in f.blocks && pred in f.blocks && s in BblAt(f, pred).edgeOut
    requires InBounds(f, liveIn, before, act) && OnlyRead(f, before)
    requires s in liveIn && pred in before && liveOut == before[pred := before[pred] + liveIn[s]]
    requires act <= act' && (liveOut[pred] != before[pred] ==> pred in act')
    requires forall r :: r in liveIn[s] ==> ReadFrom(f, s, r)
    ensures InBounds(f, liveIn, liveOut, act') && OnlyRead(f, liveOut)
  {
    hide LiveInOf, BblAt, ReadFrom;
    forall b | b in f.blocks ensures InBound(f, liveIn, liveOut, act', b) {
      assert InBound(f, liveIn, before, act, b);
      if b == pred { LiveInGrows(f, b, before[b], liveOut[b]); }
    }
    forall b, r | b in f.blocks && r in liveOut[b] ensures ReadAfter(f, b, r) {
      if !(r in before[b]) { assert b == pred && ReadFrom(f, s, r); }
    }
  }

  lemma PassedAfterPass(f: Fn, liveIn: LiveMap, before: LiveMap, liveOut: LiveMap, s: BblId, pred: BblId, todo: multiset<BblId>)
    requires pred in todo && pred in before && s in liveIn
    requires liveOut == before[pred := before[pred] + liveIn[s]]
    requires AllPassedBack(f, liveIn, before, s, todo)
    ensures AllPassedBack(f, liveIn, liveOut, s, todo - multiset{pred})
  {
    var todo' := todo - multiset{pred};
    forall c | c in f.blocks ensures PassedBack(f, liveIn, liveOut, c, if c == s then todo' else multiset{}) {
      assert PassedBack(f, liveIn, before, c, if c == s then todo else multiset{});
      hide BblAt;
    }
  }

  function NothingLive(f: Fn): LiveMap {
    map b | b in f.blocks :: {}
  }

  /** One turn of the worklist: block b was taken off, `rest` is still on. */
  method UpdateBlock(f: Fn, b: BblId, du: DefUse, liveIn0: LiveMap, liveOut0: LiveMap, rest: seq<BblId>)
    returns (liveIn: LiveMap, liveOut: LiveMap, active: seq<BblId>)
    requires WfLayout(f) && MutualEdges(f) && b in f.blocks && b in liveIn0 && b in liveOut0 && Summarized(f, b, du)
    requires Consistent(f, liveIn0, liveOut0, Members(rest) + {b}, First(f), multiset{})
    ensures Consistent(f, liveIn, liveOut, Members(active), First(f), multiset{})
    ensures |MissingIn(f, ReadRegs(f), liveIn)| < |MissingIn(f, ReadRegs(f), liveIn0)| || (liveIn == liveIn0 && active == rest)
  {
    hide *;
    liveIn, liveOut, active := liveIn0, liveOut0, rest;
    var live := (liveOut[b] - du.defs) + du.uses;
    SummaryIsLiveIn(f, b, du, liveOut[b]);
    AfterPop(f, liveIn, liveIn[b := live], liveOut, Members(rest), b);
    if |live| > |liveIn[b]| {
      liveIn := liveIn[b := live];
      liveOut, active := PassBack(f, b, liveIn, liveOut, active);
      SamePassed(f, liveIn, liveOut, Members(active), b);
    }
  }

  /** The worklist. */
  method FunLivenessFixpoint(f: Fn, summaries: map<BblId, DefUse>) returns (liveOut: LiveMap)
    requires WfLayout(f) && WfOrder(f) && MutualEdges(f)
    requires forall b :: b in f.blocks ==> b in summaries && Summarized(f, b, summaries[b])
    ensures ExactlyLive(f, liveOut)
  {
    hide *;
    var liveIn: LiveMap := NothingLive(f);
    ConsistentStarts(f);
    liveOut := NothingLive(f);
    var active := f.order;
    while active != []
      invariant Consistent(f, liveIn, liveOut, Members(active), First(f), multiset{})
      decreases |MissingIn(f, ReadRegs(f), liveIn)|, |active|
    {
      ConsistentKeys(f, liveIn, liveOut, Members(active), First(f), multiset{});
      var b, rest := active[|active| - 1], active[..|active| - 1];
      MembersPop(active);
      liveIn, liveOut, active := UpdateBlock(f, b, summaries[b], liveIn, liveOut, rest);
    }
    NoMembers();
    ConsistentEnds(f, liveIn, liveOut);
  }

  lemma SummaryIsLiveIn(f: Fn, b: BblId, du: DefUse, out: set<RegId>)
    requires Summarized(f, b, du)
    ensures LiveInOf(f, b, out) == (out - du.defs) + du.uses
  {
    hide LiveInOf;
  }

  lemma ConsistentStarts(f: Fn)
    requires WfOrder(f)
    ensures Consistent(f, NothingLive(f), NothingLive(f), Members(f.order), First(f), multiset{})
  {
    hide LiveInOf;
  }

  lemma ConsistentEnds(f: Fn, liveIn: LiveMap, liveOut: LiveMap)
    requires WfLayout(f) && Consistent(f, liveIn, liveOut, {}, First(f), multiset{})
    ensures ExactlyLive(f, liveOut)
  {
    hide AllPassedBack, InBound, LiveInOf, ReadAfter, WfLayout;
    forall b, r | b in f.blocks ensures r in liveOut[b] <==> ReadAfter(f, b, r) {
      if ReadAfter(f, b, r) { ReadIsLive(f, liveIn, liveOut, b, r); }
    }
  }

  /** The block taken off the worklist: its entry set is brought up to date. Either that changes
      nothing, or it remains to be passed back to all predecessors. */
  lemma AfterPop(f: Fn, liveIn: LiveMap, liveIn': LiveMap, liveOut: LiveMap, rest: set<BblId>, b: BblId)
    requires WfLayout(f) && MutualEdges(f) && b in f.blocks && b in liveIn && b in liveOut
    requires Consistent(f, liveIn, liveOut, rest + {b}, First(f), multiset{})
    requires liveIn' == liveIn[b := LiveInOf(f, b, liveOut[b])]
    ensures forall r :: r in liveIn'[b] ==> ReadFrom(f, b, r)
    ensures Consistent(f, liveIn', liveOut, rest, b, BblAt(f, b).edgeIn)
    ensures |liveIn'[b]| > |liveIn[b]| ==> |MissingIn(f, ReadRegs(f), liveIn')| < |MissingIn(f, ReadRegs(f), liveIn)|
    ensures |liveIn'[b]| <= |liveIn[b]| ==> Consistent(f, liveIn, liveOut, rest, First(f), multiset{})
  {
    hide *;
    ConsistentKeys(f, liveIn, liveOut, rest + {b}, First(f), multiset{});
    ConsistentParts(f, liveIn, liveOut, rest + {b}, First(f), multiset{}, b);
    BoundsAfterPop(f, liveIn, liveIn', liveOut, rest + {b}, rest, b);
    ConsistentByParts(f, liveIn', liveOut, rest, b, BblAt(f, b).edgeIn);
    SizeTellsGrowth(liveIn[b], liveIn'[b]);
    if |liveIn'[b]| > |liveIn[b]| {
      MissingShrinks(f, liveIn, liveIn', liveOut, b);
    } else {
      assert liveIn' == liveIn;
      ConsistentByParts(f, liveIn, liveOut, rest, First(f), multiset{});
    }
  }

  lemma ConsistentParts(f: Fn, liveIn: LiveMap, liveOut: LiveMap, active: set<BblId>, s: BblId, todo: multiset<BblId>, b: BblId)
    requires Consistent(f, liveIn, liveOut, active, s, todo) && b in f.blocks
    ensures InBounds(f, liveIn, liveOut, active) && OnlyRead(f, liveOut) && AllPassedBack(f, liveIn, liveOut, s, todo)
    ensures b in liveIn && b in liveOut && liveIn[b] <= LiveInOf(f, b, liveOut[b])
  {
    hide OnlyRead, AllPassedBack, LiveInOf;
    assert InBound(f, liveIn, liveOut, active, b);
  }

  lemma ConsistentByParts(f: Fn, liveIn: LiveMap, liveOut: LiveMap, active: set<BblId>, s: BblId, todo: multiset<BblId>)
    requires active <= f.blocks
    requires InBounds(f, liveIn, liveOut, active) && OnlyRead(f, liveOut) && AllPassedBack(f, liveIn, liveOut, s, todo)
    ensures Consistent(f, liveIn, liveOut, active, s, todo)
  {
    hide InBounds, OnlyRead, AllPassedBack;
  }

  lemma SamePassed(f: Fn, liveIn: LiveMap, liveOut: LiveMap, active: set<BblId>, s: BblId)
    requires Consistent(f, liveIn, liveOut, active, s, multiset{})
    ensures Consistent(f, liveIn, liveOut, active, First(f), multiset{})
  {
    hide InBounds, OnlyRead, PassedBack;
  }

  lemma BoundsAfterPop(f: Fn, before: LiveMap, liveIn: LiveMap, liveOut: LiveMap, act0: set<BblId>, act: set<BblId>, b: BblId)
    requires WfLayout(f) && MutualEdges(f) && b in f.blocks && act0 <= act + {b}
    requires InBounds(f, before, liveOut, act0) && OnlyRead(f, liveOut) && AllPassedBack(f, before, liveOut, First(f), multiset{})
    requires b in before && b in liveOut && liveIn == before[b := LiveInOf(f, b, liveOut[b])]
    ensures InBounds(f, liveIn, liveOut, act)
    ensures AllPassedBack(f, liveIn, liveOut, b, BblAt(f, b).edgeIn)
    ensures forall r :: r in liveIn[b] ==> ReadFrom(f, b, r)
  {
    forall c | c in f.blocks ensures InBound(f, liveIn, liveOut, act, c) {
      assert InBound(f, before, liveOut, act0, c);
      hide LiveInOf;
    }
    forall c | c in f.blocks ensures PassedBack(f, liveIn, liveOut, c, if c == b then BblAt(f, b).edgeIn else multiset{}) {
      assert PassedBack(f, before, liveOut, c, multiset{});
      hide LiveInOf, BblAt;
    }
    forall r | r in liveIn[b] ensures ReadFrom(f, b, r) {
      LiveInIff(f, b, liveOut[b], r);
      ReadFromUnfolds(f, b, r);
      hide LiveInOf, ReadFrom, Exposes, Defines;
    }
  }

  lemma MissingShrinks(f: Fn, before: LiveMap, liveIn: LiveMap, liveOut: LiveMap, b: BblId)
    requires WfLayout(f) && b in f.blocks && b in before && b in liveOut && OnlyRead(f, liveOut)
    requires liveIn == before[b := LiveInOf(f, b, liveOut[b])] && before[b] <= liveIn[b] && |before[b]| < |liveIn[b]|
    ensures |MissingIn(f, ReadRegs(f), liveIn)| < |MissingIn(f, ReadRegs(f), before)|
  {
    var r := ExtraElement(before[b], liveIn[b]);
    NewlyLiveIsRead(f, liveOut, b, r);
    hide ReadRegs, LiveInOf, OnlyRead, WfLayout;
    var x, y := MissingIn(f, ReadRegs(f), liveIn), MissingIn(f, ReadRegs(f), before);
    assert (b, r) in y && (b, r) !in x && x <= y;
    assert y == x + (y - x);
  }

  lemma ExtraElement(a: set<RegId>, b: set<RegId>) returns (r: RegId)
    requires a <= b && |a| < |b|
    ensures r in b && r !in a
  {
    assert b == a + (b - a);
    r :| r in b - a;
  }

  lemma NewlyLiveIsRead(f: Fn, liveOut: LiveMap, b: BblId, r: RegId)
    requires WfLayout(f) && b in f.blocks && b in liveOut && OnlyRead(f, liveOut) && r in LiveInOf(f, b, liveOut[b])
    ensures r in ReadRegs(f)
  {
    LiveInIff(f, b, liveOut[b], r);
    hide LiveInOf, Exposes, Defines, ReadAfter, ReadRegs, WfLayout;
    if Exposes(f, b, r) { ExposedIsRead(f, b, r); } else { ReadAfterIsRead(f, b, r); }
  }

  lemma {:induction false} ReadPathIsLive(f: Fn, liveIn: LiveMap, liveOut: LiveMap, p: seq<BblId>, r: RegId, j: nat)
    requires WfLayout(f) && InBounds(f, liveIn, liveOut, {}) && AllPassedBack(f, liveIn, liveOut, First(f), multiset{})
    requires ReadPath(f, p, r) && p[0] in f.blocks && j < |p|
    ensures p[j] in f.blocks && r in liveIn[p[j]]
    decreases |p| - j
  {
    PathStays(f, p, r, j);
    var b := p[j];
    LiveInIff(f, b, liveOut[b], r);
    assert InBound(f, liveIn, liveOut, {}, b);
    if j < |p| - 1 {
      assert p[j + 1] in BblAt(f, b).edgeOut && !Defines(f, b, r);
      ReadPathIsLive(f, liveIn, liveOut, p, r, j + 1);
      assert PassedBack(f, liveIn, liveOut, p[j + 1], multiset{});
      hide LiveInOf, Exposes, Defines, BblAt;
    }
  }

  lemma ReadIsLive(f: Fn, liveIn: LiveMap, liveOut: LiveMap, b: BblId, r: RegId)
    requires WfLayout(f) && InBounds(f, liveIn, liveOut, {}) && AllPassedBack(f, liveIn, liveOut, First(f), multiset{})
    requires b in f.blocks && ReadAfter(f, b, r)
    ensures r in liveOut[b]
  {
    var s :| s in BblAt(f, b).edgeOut && ReadFrom(f, s, r);
    var p: seq<BblId> :| ReadPath(f, p, r) && p[0] == s;
    ReadPathIsLive(f, liveIn, liveOut, p, r, 0);
    assert PassedBack(f, liveIn, liveOut, s, multiset{});
    hide InBounds, ReadPath, BblAt;
  }

  /** liveOut is exactly what is read later. */
  ghost predicate ExactlyLive(f: Fn, liveOut: LiveMap) {
    && (forall b :: b in f.blocks ==> b in liveOut)
    && (forall b, r :: b in f.blocks ==> (r in liveOut[b] <==> ReadAfter(f, b, r)))
  }

  method FunComputeLivenessInfo(fun: Fun)
    requires WfLayout(fun.View()) && WfOrder(fun.View()) && WfCode(fun.View()) && MutualEdges(fun.View())
    modifies fun`liveOut
    ensures ExactlyLive(fun.View(), fun.liveOut)
  {
    var f := fun.View();
    var summaries: map<BblId, DefUse> := map[];
    hide LiveAt, Summary, ReadAfter;
    for k := 0 to |f.order|
      invariant forall j :: 0 <= j < k ==> f.order[j] in summaries && Summarized(f, f.order[j], summaries[f.order[j]])
    {
      var b := f.order[k];
      assert b in f.blocks;
      WfInBlock(f, b);
      var du := BblDefUse(f.code, BblAt(f, b).inss);
      summaries := summaries[b := du];
    }
    forall b | b in f.blocks ensures b in summaries && Summarized(f, b, summaries[b]) {
      assert b in f.order;
    }
    fun.liveOut := FunLivenessFixpoint(f, summaries);
  }

  lemma WfInBlock(f: Fn, b: BblId)
    requires WfCode(f) && b in f.blocks
    ensures forall i :: i in BblAt(f, b).inss ==> WfIns(InsAt(f.code, i))
  {
    hide WfIns, UniqueIds;
  }

  ghost predicate Summarized(f: Fn, b: BblId, du: DefUse) {
    forall out: set<RegId> :: LiveInOf(f, b, out) == (out - du.defs) + du.uses
  }
}
