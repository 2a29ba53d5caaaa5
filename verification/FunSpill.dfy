/** Spilling in a whole function: every block is rewritten with one set of stack slots, and a register
    stays in its slot from block to block and around loops. Every run is the same up to where values
    are kept (`SpilledFunRuns`). */
module FunSpill {
  import opened IR
  import opened Liveness
  import opened DeadCode
  import opened MachineCode
  import opened Spill
  import BlockAlloc
  import Frame

  // ---------------------------------------------------------------- blocks as lists

  function Vals(code: seq<Ins>, ids: seq<InsId>): (body: seq<Ins>)
    ensures |body| == |ids| && forall k :: 0 <= k < |ids| ==> body[k] == InsAt(code, ids[k])
  {
    seq(|ids|, k requires 0 <= k < |ids| => InsAt(code, ids[k]))
  }

  function Body(f: Fn, b: BblId): seq<Ins> { Vals(f.code, BblAt(f, b).inss) }

  function Lift(s: State, slots: Slots): Virtual { Virtual(s.regs, World(s.mem, s.trace, slots)) }

  lemma {:induction false} ExecIsRun(m: Machine, code: seq<Ins>, ids: seq<InsId>, k: nat, s: State, slots: Slots)
    requires k <= |ids|
    ensures RunList(m, {}, Vals(code, ids)[..k], Lift(s, slots)) == Lift(ExecIds(m, code, ids, k, s), slots)
  {
    var body := Vals(code, ids);
    if k > 0 {
      ExecIsRun(m, code, ids, k - 1, s, slots);
      assert body[..k] == body[..k - 1] + [body[k - 1]];
      RunOfConcat(m, {}, body[..k - 1], [body[k - 1]], Lift(s, slots));
      VirtualIsExec(m, InsAt(code, ids[k - 1]), ExecIds(m, code, ids, k - 1, s), slots);
      assert [body[k - 1]][1..] == [];
      hide ExecVirtual, ExecIns, InsAt;
    } else {
      assert body[..0] == [];
    }
  }

  lemma BlockIsRun(m: Machine, f: Fn, b: BblId, s: State, slots: Slots)
    ensures RunList(m, {}, Body(f, b), Lift(s, slots)) == Lift(ExecBbl(m, f, b, s), slots)
  {
    var ids := BblAt(f, b).inss;
    ExecIsRun(m, f.code, ids, |ids|, s, slots);
    assert Vals(f.code, ids)[..|ids|] == Vals(f.code, ids);
    hide RunList, ExecIds, InsAt;
  }

  lemma {:induction false} LiveAtIsLive(code: seq<Ins>, ids: seq<InsId>, k: nat, out: set<RegId>)
    requires k <= |ids|
    ensures LiveAt(code, ids, k, out) == Live(Vals(code, ids)[k..], out)
    decreases |ids| - k
  {
    var body := Vals(code, ids);
    if k < |ids| {
      LiveAtIsLive(code, ids, k + 1, out);
      assert body[k..][1..] == body[k + 1..];
      hide LiveBefore, InsAt;
    } else {
      assert body[k..] == [];
    }
  }

  lemma LiveInIsLive(f: Fn, b: BblId, out: set<RegId>)
    ensures LiveInOf(f, b, out) == Live(Body(f, b), out)
  {
    LiveAtIsLive(f.code, BblAt(f, b).inss, 0, out);
    assert Body(f, b)[0..] == Body(f, b);
    hide LiveAt, Live, InsAt;
  }

  /** Where control goes after an instruction that reads vs, along the edges e. */
  function ExitOf(f: Fn, e: seq<BblId>, last: Ins, vs: seq<int>): Option<BblId> {
    match last.opcode
    case Ret | Trap => None
    case Bra => Some(TargetOf(OperandAt(last, 0)))
    case CondBra(c) =>
      var target := TargetOf(OperandAt(last, 2));
      if Holds(c, Nth(vs, 0), Nth(vs, 1)) then Some(target) else OtherEdge(e, target)
    case Switch => JtbLookup(f, OperandAt(last, 1), Nth(vs, 0))
    case _ => OnlyEdge(e)
  }

  function LastOf(body: seq<Ins>): Ins { if body == [] then NOP_INS else body[|body| - 1] }

  function ExitTo(f: Fn, b: BblId, vs: seq<int>): Option<BblId> { ExitOf(f, BblAt(f, b).edgeOut, LastIns(f, b), vs) }

  lemma LastOfBody(f: Fn, b: BblId)
    ensures LastIns(f, b) == LastOf(Body(f, b))
  {
  }

  lemma EndsAlike(f: Fn, g: Fn, e: seq<BblId>, body: seq<Ins>, body': seq<Ins>, vs: seq<int>)
    requires g.jtbs == f.jtbs && BlockAlloc.SameEnd(body, body')
    ensures ExitOf(g, e, LastOf(body'), vs) == ExitOf(f, e, LastOf(body), vs)
  {
  }

  lemma NextIsExit(m: Machine, f: Fn, b: BblId, s: State)
    ensures EdgeNext(m, f, b, s) == ExitTo(f, b, BlockAlloc.ExitVals(m, Body(f, b), s.regs))
  {
    LastOfBody(f, b);
    hide UseVals, LastIns, Body, BblAt;
  }

  // ---------------------------------------------------------------- runs with slots

  datatype SlotVisit = SlotAtBbl(bbl: BblId, state: Virtual) | SlotDone(state: Virtual)

  function SlotStep(m: Machine, frame: set<nat>, g: Fn, v: SlotVisit): SlotVisit {
    match v
    case SlotDone(_) => v
    case SlotAtBbl(b, t) =>
      var t' := RunList(m, frame, Body(g, b), t);
      match ExitTo(g, b, BlockAlloc.ExitVals(m, Body(g, b), t'.regs))
      case None => SlotDone(t')
      case Some(c) => SlotAtBbl(c, t')
  }

  function SlotRun(m: Machine, frame: set<nat>, g: Fn, t0: Virtual, n: nat): SlotVisit {
    if n == 0 then SlotAtBbl(First(g), t0) else SlotStep(m, frame, g, SlotRun(m, frame, g, t0, n - 1))
  }

  /** g is f with every block spilled; block b takes its scratch registers from bases[b] on. */
  ghost predicate SpilledFun(f: Fn, g: Fn, slotOf: SlotMap, bases: map<BblId, nat>) {
    && g.order == f.order && g.blocks == f.blocks && g.jtbs == f.jtbs
    && forall b :: b in f.blocks ==> BlockSpilled(f, g, slotOf, bases, b)
  }

  ghost predicate BlockSpilled(f: Fn, g: Fn, slotOf: SlotMap, bases: map<BblId, nat>, b: BblId) {
    b in bases && BblAt(g, b).edgeOut == BblAt(f, b).edgeOut && Body(g, b) == SpillList(Body(f, b), slotOf, bases[b])
  }

  /** What the function must be like: a liveness solution, registers below `limit`, slots of its own. */
  ghost predicate FunSetting(f: Fn, liveOut: LiveMap, slotOf: SlotMap, bases: map<BblId, nat>, limit: nat) {
    && WfLayout(f) && LiveSolution(f, liveOut) && (forall b :: b in f.blocks ==> WfEdges(f, b))
    && forall b :: b in f.blocks ==> b in bases && SpillSetting(Body(f, b), slotOf, bases[b], limit, liveOut[b])
  }

  /** The two runs are at the same block, with the same memory and events, every live register in its
      slot or unchanged; or both are over. */
  ghost predicate InSlots(f: Fn, liveOut: LiveMap, slotOf: SlotMap, v: Visit, w: SlotVisit) {
    match (v, w)
    case (At(b, s), SlotAtBbl(c, t)) => b == c && b in f.blocks && b in liveOut && SpillMatches(slotOf, LiveInOf(f, b, liveOut[b]), Lift(s, map[]), t)
    case (Done(s), SlotDone(t)) => SpillMatches(slotOf, {}, Lift(s, map[]), t)
    case _ => false
  }

  lemma MatchesLess(slotOf: SlotMap, live: set<RegId>, less: set<RegId>, s: Virtual, t: Virtual)
    requires SpillMatches(slotOf, live, s, t) && less <= live
    ensures SpillMatches(slotOf, less, s, t)
  {
    hide Spill.Kept;
  }

  /** The spilled block leads where the block leads. */
  lemma SameWaysOut(f: Fn, g: Fn, slotOf: SlotMap, bases: map<BblId, nat>, limit: nat, b: BblId, out: set<RegId>, vs: seq<int>)
    requires g.jtbs == f.jtbs && BlockSpilled(f, g, slotOf, bases, b) && SpillSetting(Body(f, b), slotOf, bases[b], limit, out)
    ensures ExitTo(g, b, vs) == ExitTo(f, b, vs)
  {
    LastOfBody(f, b);
    LastOfBody(g, b);
    BlockAlloc.SpillSameEnd(Body(f, b), slotOf, bases[b]);
    hide SpillList, SpillSetting, Body, LastIns, BblAt, ExitOf, LastOf, BlockAlloc.SameEnd;
    EndsAlike(f, g, BblAt(f, b).edgeOut, Body(f, b), Body(g, b), vs);
  }

  function StepTo(next: Option<BblId>, s: State): Visit {
    match next case None => Done(s) case Some(t) => At(t, s)
  }

  function SlotStepTo(next: Option<BblId>, t: Virtual): SlotVisit {
    match next case None => SlotDone(t) case Some(c) => SlotAtBbl(c, t)
  }

  lemma StepsAre(m: Machine, f: Fn, g: Fn, frame: set<nat>, b: BblId, s: State, t: Virtual)
    ensures var s', t' := ExecBbl(m, f, b, s), RunList(m, frame, Body(g, b), t);
      && RunStep(m, f, At(b, s)) == StepTo(EdgeNext(m, f, b, s'), s')
      && SlotStep(m, frame, g, SlotAtBbl(b, t)) == SlotStepTo(ExitTo(g, b, BlockAlloc.ExitVals(m, Body(g, b), t'.regs)), t')
  {
    hide ExecBbl, EdgeNext, RunList, Body, ExitTo;
  }

  lemma InSlotsNext(f: Fn, liveOut: LiveMap, slotOf: SlotMap, live: set<RegId>, next: Option<BblId>, s: State, t: Virtual)
    requires SpillMatches(slotOf, live, Lift(s, map[]), t)
    requires next.Some? ==> next.value in f.blocks && next.value in liveOut && LiveInOf(f, next.value, liveOut[next.value]) <= live
    ensures InSlots(f, liveOut, slotOf, StepTo(next, s), SlotStepTo(next, t))
  {
    hide SpillMatches, LiveInOf, Lift;
    if next.Some? {
      MatchesLess(slotOf, live, LiveInOf(f, next.value, liveOut[next.value]), Lift(s, map[]), t);
    } else {
      MatchesLess(slotOf, live, {}, Lift(s, map[]), t);
    }
  }

  lemma InSlotsAt(f: Fn, liveOut: LiveMap, slotOf: SlotMap, b: BblId, s: State, w: SlotVisit)
    requires InSlots(f, liveOut, slotOf, At(b, s), w)
    ensures w.SlotAtBbl? && w.bbl == b && b in f.blocks && b in liveOut
    ensures SpillMatches(slotOf, LiveInOf(f, b, liveOut[b]), Lift(s, map[]), w.state)
  {
    hide SpillMatches, LiveInOf;
  }

  lemma OverStays(m: Machine, f: Fn, g: Fn, liveOut: LiveMap, slotOf: SlotMap, v: Visit, w: SlotVisit)
    requires InSlots(f, liveOut, slotOf, v, w) && v.Done?
    ensures InSlots(f, liveOut, slotOf, RunStep(m, f, v), SlotStep(m, slotOf.Values, g, w))
  {
    hide SpillMatches;
  }

  lemma SpilledStep(m: Machine, f: Fn, g: Fn, liveOut: LiveMap, slotOf: SlotMap, bases: map<BblId, nat>, limit: nat, v: Visit, w: SlotVisit)
    requires FunSetting(f, liveOut, slotOf, bases, limit) && SpilledFun(f, g, slotOf, bases) && InSlots(f, liveOut, slotOf, v, w)
    ensures InSlots(f, liveOut, slotOf, RunStep(m, f, v), SlotStep(m, slotOf.Values, g, w))
  {
    hide *;
    if v.Done? {
      OverStays(m, f, g, liveOut, slotOf, v, w);
    } else {
      var b, s, t := v.bbl, v.state, w.state;
      var s', t' := ExecBbl(m, f, b, s), RunList(m, slotOf.Values, Body(g, b), t);
      InSlotsAt(f, liveOut, slotOf, b, s, w);
      SettingOf(f, g, liveOut, slotOf, bases, limit, b);
      LiveInIsLive(f, b, liveOut[b]);
      SpilledBlockRuns(m, f, g, slotOf, bases, limit, liveOut[b], b, s, t);
      NextIsExit(m, f, b, s');
      NextIsLive(m, f, liveOut, b, s');
      StepsAre(m, f, g, slotOf.Values, b, s, t);
      InSlotsNext(f, liveOut, slotOf, liveOut[b], EdgeNext(m, f, b, s'), s', t');
    }
  }

  lemma SettingOf(f: Fn, g: Fn, liveOut: LiveMap, slotOf: SlotMap, bases: map<BblId, nat>, limit: nat, b: BblId)
    requires FunSetting(f, liveOut, slotOf, bases, limit) && SpilledFun(f, g, slotOf, bases) && b in f.blocks
    ensures b in bases && b in liveOut && SpillSetting(Body(f, b), slotOf, bases[b], limit, liveOut[b]) && BlockSpilled(f, g, slotOf, bases, b)
    ensures g.jtbs == f.jtbs && WfLayout(f) && LiveSolution(f, liveOut) && WfEdges(f, b)
  {
    hide WfLayout, WfEdges, SpillSetting, BlockSpilled, LiveInOf;
  }

  lemma NextIsLive(m: Machine, f: Fn, liveOut: LiveMap, b: BblId, s: State)
    requires WfLayout(f) && LiveSolution(f, liveOut) && WfEdges(f, b) && b in f.blocks
    ensures var t := EdgeNext(m, f, b, s);
      t.Some? ==> t.value in f.blocks && t.value in liveOut && LiveInOf(f, t.value, liveOut[t.value]) <= liveOut[b]
  {
    NextIsEdge(m, f, b, s);
    NextInside(m, f, b, s);
    hide EdgeNext, LiveInOf, WfEdges, BblAt;
  }

  lemma SpilledBlockRuns(m: Machine, f: Fn, g: Fn, slotOf: SlotMap, bases: map<BblId, nat>, limit: nat, out: set<RegId>, b: BblId, s: State, t: Virtual)
    requires g.jtbs == f.jtbs && BlockSpilled(f, g, slotOf, bases, b) && SpillSetting(Body(f, b), slotOf, bases[b], limit, out)
    requires SpillMatches(slotOf, Live(Body(f, b), out), Lift(s, map[]), t)
    ensures var s', t' := ExecBbl(m, f, b, s), RunList(m, slotOf.Values, Body(g, b), t);
      && SpillMatches(slotOf, out, Lift(s', map[]), t')
      && ExitTo(g, b, BlockAlloc.ExitVals(m, Body(g, b), t'.regs)) == ExitTo(f, b, BlockAlloc.ExitVals(m, Body(f, b), s'.regs))
  {
    var body := Body(f, b);
    var t' := RunList(m, slotOf.Values, Body(g, b), t);
    assert Body(g, b) == SpillList(body, slotOf, bases[b]);
    BlockIsRun(m, f, b, s, map[]);
    hide Body, Live, RunList, SpillList, ExecBbl, SpillSetting, SpillMatches, ExitTo, BlockSpilled;
    SpillRuns(m, body, slotOf, bases[b], limit, out, Lift(s, map[]), t);
    BlockAlloc.SpillExitVals(m, body, slotOf, bases[b], limit, out, Lift(s, map[]), t);
    SameWaysOut(f, g, slotOf, bases, limit, b, out, BlockAlloc.ExitVals(m, Body(g, b), t'.regs));
  }

  lemma SlotRunUnfolds(m: Machine, frame: set<nat>, g: Fn, t0: Virtual, n: nat)
    requires n > 0
    ensures SlotRun(m, frame, g, t0, n) == SlotStep(m, frame, g, SlotRun(m, frame, g, t0, n - 1))
  {
    hide SlotStep;
  }

  lemma SpilledFirst(f: Fn, g: Fn, liveOut: LiveMap, slotOf: SlotMap, bases: map<BblId, nat>, limit: nat)
    requires FunSetting(f, liveOut, slotOf, bases, limit) && SpilledFun(f, g, slotOf, bases)
    ensures First(g) == First(f) && First(f) in f.blocks && First(f) in liveOut
  {
    hide WfEdges, SpillSetting, BlockSpilled, LiveInOf;
  }

  /** The whole function with its registers in slots: at every step of every run, on every machine, it is
      at the same block with the same memory and events behind it, and every live register has its
      value, in its slot or where it was. */
  lemma {:induction false} SpilledFunRuns(m: Machine, f: Fn, g: Fn, liveOut: LiveMap, slotOf: SlotMap, bases: map<BblId, nat>, limit: nat,
                                          s0: State, t0: Virtual, n: nat)
    requires FunSetting(f, liveOut, slotOf, bases, limit) && SpilledFun(f, g, slotOf, bases) && First(f) in liveOut
    requires SpillMatches(slotOf, LiveInOf(f, First(f), liveOut[First(f)]), Lift(s0, map[]), t0)
    ensures InSlots(f, liveOut, slotOf, Run(m, f, s0, n), SlotRun(m, slotOf.Values, g, t0, n))
  {
    hide *;
    SpilledFirst(f, g, liveOut, slotOf, bases, limit);
    if n > 0 {
      SpilledFunRuns(m, f, g, liveOut, slotOf, bases, limit, s0, t0, n - 1);
      SpilledStep(m, f, g, liveOut, slotOf, bases, limit, Run(m, f, s0, n - 1), SlotRun(m, slotOf.Values, g, t0, n - 1));
      RunUnfolds(m, f, s0, n);
      SlotRunUnfolds(m, slotOf.Values, g, t0, n);
    } else {
      InSlotsAtStart(m, f, g, liveOut, slotOf, s0, t0);
    }
  }

  lemma InSlotsAtStart(m: Machine, f: Fn, g: Fn, liveOut: LiveMap, slotOf: SlotMap, s0: State, t0: Virtual)
    requires First(g) == First(f) && First(f) in f.blocks && First(f) in liveOut
    requires SpillMatches(slotOf, LiveInOf(f, First(f), liveOut[First(f)]), Lift(s0, map[]), t0)
    ensures InSlots(f, liveOut, slotOf, Run(m, f, s0, 0), SlotRun(m, slotOf.Values, g, t0, 0))
  {
    hide SpillMatches, LiveInOf, First;
  }

  // ---------------------------------------------------------------- the code

  lemma NumberedIsOwn(regs: seq<RegId>, base: nat, slotOf: SlotMap)
    requires forall r :: r in slotOf <==> r in regs
    requires forall j :: 0 <= j < |regs| ==> slotOf[regs[j]] == base + j
    ensures OwnSlots(slotOf)
  {
    forall q, r | q in slotOf && r in slotOf && q != r ensures slotOf[q] != slotOf[r] {
      var i :| 0 <= i < |regs| && regs[i] == q;
      var j :| 0 <= j < |regs| && regs[j] == r;
    }
  }

  /** One new stack slot per register, sized and aligned for it. */
  method NewSlots(regs: seq<RegId>, width: RegId -> nat, stks0: seq<Frame.Stk>) returns (slotOf: SlotMap, stks: seq<Frame.Stk>)
    requires forall i, j :: 0 <= i < j < |regs| ==> regs[i] != regs[j]
    ensures OwnSlots(slotOf) && (forall r :: r in slotOf <==> r in regs)
    ensures |stks| == |stks0| + |regs|
    ensures stks0 <= stks && forall r :: r in slotOf ==> |stks0| <= slotOf[r] < |stks| && stks[slotOf[r]] == Frame.Stk(width(r), width(r))
  {
    slotOf, stks := map[], stks0;
    for k := 0 to |regs|
      invariant |stks| == |stks0| + k && stks0 <= stks && (forall r :: r in slotOf <==> r in regs[..k])
      invariant forall j :: 0 <= j < k ==> regs[j] in slotOf && slotOf[regs[j]] == |stks0| + j && stks[|stks0| + j] == Frame.Stk(width(regs[j]), width(regs[j]))
    {
      slotOf := slotOf[regs[k] := |stks|];
      stks := stks + [Frame.Stk(width(regs[k]), width(regs[k]))];
      assert regs[..k + 1] == regs[..k] + [regs[k]];
    }
    assert regs[..|regs|] == regs;
    NumberedIsOwn(regs, |stks0|, slotOf);
  }

  predicate Distinct(ids: seq<InsId>) { forall i, j :: 0 <= i < j < |ids| ==> ids[i] != ids[j] }

  ghost predicate InCode(ids: seq<InsId>, code: seq<Ins>) { forall i :: i in ids ==> i < |code| && WfIns(code[i]) }

  ghost predicate Untouched(code: seq<Ins>, now: seq<Ins>, seen: seq<InsId>)
    requires |code| <= |now|
  {
    forall i :: 0 <= i < |code| && i !in seen ==> now[i] == code[i]
  }

  ghost predicate Inside(code: seq<Ins>, now: seq<Ins>, seen: seq<InsId>, out: seq<InsId>) {
    forall i :: i in out ==> i < |now| && (i in seen || |code| <= i)
  }

  /** The first k instructions of a block are rewritten to `out`, the rest stands as in `code`. */
  ghost predicate Rewriting(code: seq<Ins>, now: seq<Ins>, ids: seq<InsId>, k: nat, out: seq<InsId>, slotOf: SlotMap, base: nat, next: nat)
    requires k <= |ids|
  {
    && |code| <= |now|
    && Untouched(code, now, ids[..k]) && Inside(code, now, ids[..k], out)
    && SpillList(Vals(code, ids), slotOf, base) == Vals(now, out) + SpillList(Vals(code, ids)[k..], slotOf, next)
  }

  lemma RewritingStarts(code: seq<Ins>, ids: seq<InsId>, slotOf: SlotMap, base: nat)
    ensures Rewriting(code, code, ids, 0, [], slotOf, base, base)
  {
    var body := Vals(code, ids);
    assert body[0..] == body && Vals(code, []) == [];
    hide SpillList;
    assert [] + SpillList(body, slotOf, base) == SpillList(body, slotOf, base);
  }

  /** Where the rewritten instruction k goes: new places for loads and stores, its old place for itself. */
  function Placed(now: seq<Ins>, i: InsId, before: seq<Ins>, main: Ins, after: seq<Ins>): seq<Ins>
    requires i < |now|
  {
    (now + before + after)[i := main]
  }

  function PlacedIds(n: nat, i: InsId, b: nat, a: nat): seq<InsId> {
    seq(b, j requires 0 <= j < b => n + j) + [i] + seq(a, j requires 0 <= j < a => n + b + j)
  }

  lemma PlacedVals(now: seq<Ins>, i: InsId, before: seq<Ins>, main: Ins, after: seq<Ins>, out: seq<InsId>)
    requires i < |now| && (forall j :: j in out ==> j < |now| && j != i)
    ensures var now', new' := Placed(now, i, before, main, after), PlacedIds(|now|, i, |before|, |after|);
      Vals(now', out + new') == Vals(now, out) + (before + [main] + after)
  {
    var now', new' := Placed(now, i, before, main, after), PlacedIds(|now|, i, |before|, |after|);
    forall k | 0 <= k < |out| ensures InsAt(now', out[k]) == InsAt(now, out[k]) { assert out[k] in out; }
    assert forall k :: 0 <= k < |new'| ==> InsAt(now', new'[k]) == (before + [main] + after)[k];
    hide Placed, PlacedIds, InsAt;
  }

  lemma NotYetSeen(ids: seq<InsId>, k: nat, code: seq<Ins>, now: seq<Ins>, out: seq<InsId>)
    requires k < |ids| && Distinct(ids) && ids[k] < |code| && Inside(code, now, ids[..k], out)
    ensures forall j :: j in out ==> j < |now| && j != ids[k]
  {
    forall j | j in out ensures j < |now| && j != ids[k] { assert j in ids[..k] || |code| <= j; }
  }

  lemma PlacedInside(code: seq<Ins>, now: seq<Ins>, seen: seq<InsId>, i: InsId, before: seq<Ins>, main: Ins, after: seq<Ins>, out: seq<InsId>)
    requires i < |code| <= |now| && Untouched(code, now, seen) && Inside(code, now, seen, out)
    ensures var now' := Placed(now, i, before, main, after);
      |now| <= |now'| && Untouched(code, now', seen + [i]) && Inside(code, now', seen + [i], out + PlacedIds(|now|, i, |before|, |after|))
  {
  }

  lemma RewritingNext(code: seq<Ins>, now: seq<Ins>, ids: seq<InsId>, k: nat, out: seq<InsId>, slotOf: SlotMap, base: nat, next: nat,
                      before: seq<Ins>, main: Ins, after: seq<Ins>)
    requires k < |ids| && Distinct(ids) && InCode(ids, code) && Rewriting(code, now, ids, k, out, slotOf, base, next)
    requires ids[k] < |code| && ids[k] < |now| && Expand(code[ids[k]], slotOf, next) == before + [main] + after
    ensures Rewriting(code, Placed(now, ids[k], before, main, after), ids, k + 1, out + PlacedIds(|now|, ids[k], |before|, |after|), slotOf, base,
                      next + |code[ids[k]].operands|)
  {
    var i := ids[k];
    var body := Vals(code, ids);
    assert ids[k] in ids && body[k] == code[i];
    assert ids[..k + 1] == ids[..k] + [i];
    NotYetSeen(ids, k, code, now, out);
    PlacedInside(code, now, ids[..k], i, before, main, after, out);
    hide Untouched, Inside, Expand, Placed, PlacedIds, Distinct, InCode, SpillList, Vals;
    PlacedVals(now, i, before, main, after, out);
    SpillListNext(body, k, slotOf, next, Vals(now, out));
  }

  lemma NextAsBefore(code: seq<Ins>, now: seq<Ins>, ids: seq<InsId>, k: nat, out: seq<InsId>, slotOf: SlotMap, base: nat, next: nat)
    requires k < |ids| && Distinct(ids) && InCode(ids, code) && Rewriting(code, now, ids, k, out, slotOf, base, next)
    ensures ids[k] < |code| <= |now| && now[ids[k]] == code[ids[k]] && WfIns(code[ids[k]])
  {
    assert ids[k] in ids;
    hide SpillList, WfIns;
  }

  /** One block; its instructions keep their places, loads and stores get new ones. */
  method BblSpill(fun: Fun, b: BblId, slotOf: SlotMap, base: nat) returns (next: nat)
    requires b.no < |fun.bbls| && Distinct(fun.bbls[b.no].inss) && InCode(fun.bbls[b.no].inss, fun.code)
    modifies fun`code, fun`bbls
    ensures |fun.bbls| == |old(fun.bbls)| && fun.bbls == old(fun.bbls)[b.no := old(fun.bbls)[b.no].(inss := fun.bbls[b.no].inss)]
    ensures Rewriting(old(fun.code), fun.code, old(fun.bbls)[b.no].inss, |old(fun.bbls)[b.no].inss|, fun.bbls[b.no].inss, slotOf, base, next)
    ensures base <= next
  {
    var ids := fun.bbls[b.no].inss;
    ghost var code := fun.code;
    var out: seq<InsId> := [];
    next := base;
    RewritingStarts(code, ids, slotOf, base);
    hide Rewriting, Expand, Loads, Stores, SpilledFrom, WfIns, Distinct, InCode;
    for k := 0 to |ids|
      invariant Rewriting(code, fun.code, ids, k, out, slotOf, base, next) && fun.bbls == old(fun.bbls) && base <= next
    {
      NextAsBefore(code, fun.code, ids, k, out, slotOf, base, next);
      var ins := fun.code[ids[k]];
      var before, main, after := SpillOperands(ins, slotOf, next);
      ExpandIs(ins, slotOf, next);
      RewritingNext(code, fun.code, ids, k, out, slotOf, base, next, before, main, after);
      out := out + PlacedIds(|fun.code|, ids[k], |before|, |after|);
      fun.code := Placed(fun.code, ids[k], before, main, after);
      next := next + |ins.operands|;
    }
    fun.bbls := fun.bbls[b.no := fun.bbls[b.no].(inss := out)];
  }

  lemma ExpandIs(ins: Ins, slotOf: SlotMap, base: nat)
    ensures Expand(ins, slotOf, base) == Loads(ins, slotOf, base, 0) + [SpilledFrom(ins, slotOf, base, 0)] + Stores(ins, slotOf, base)
  {
  }

  // -- block by block

  ghost predicate Rebuilt(f: Fn, c: Fn, slotOf: SlotMap, bases: map<BblId, nat>, b: BblId) {
    && BlockSpilled(f, c, slotOf, bases, b)
    && forall i :: i in BblAt(c, b).inss ==> i < |c.code| && (i in BblAt(f, b).inss || |f.code| <= i)
  }

  ghost predicate NotRebuilt(f: Fn, c: Fn, b: BblId) {
    BblAt(c, b) == BblAt(f, b) && forall i :: i in BblAt(f, b).inss ==> i < |f.code| <= |c.code| && c.code[i] == f.code[i]
  }

  ghost predicate SpillingFun(f: Fn, c: Fn, slotOf: SlotMap, bases: map<BblId, nat>, done: set<BblId>) {
    && c == f.(bbls := c.bbls, code := c.code) && |c.bbls| == |f.bbls| && |f.code| <= |c.code| && done <= f.blocks
    && forall b :: b in f.blocks ==> if b in done then Rebuilt(f, c, slotOf, bases, b) else NotRebuilt(f, c, b)
  }

  /** c became d by spilling block b. */
  ghost predicate BlockDone(c: Fn, d: Fn, slotOf: SlotMap, b: BblId, base: nat, next: nat) {
    && d == c.(bbls := d.bbls, code := d.code) && |d.bbls| == |c.bbls| && (forall x :: x != b ==> BblAt(d, x) == BblAt(c, x))
    && BblAt(d, b) == BblAt(c, b).(inss := BblAt(d, b).inss)
    && Rewriting(c.code, d.code, BblAt(c, b).inss, |BblAt(c, b).inss|, BblAt(d, b).inss, slotOf, base, next)
  }

  lemma RewritingEnds(code: seq<Ins>, now: seq<Ins>, ids: seq<InsId>, out: seq<InsId>, slotOf: SlotMap, base: nat, next: nat)
    requires Rewriting(code, now, ids, |ids|, out, slotOf, base, next)
    ensures Vals(now, out) == SpillList(Vals(code, ids), slotOf, base) && |code| <= |now|
    ensures forall i :: 0 <= i < |code| && i !in ids ==> now[i] == code[i]
    ensures forall i :: i in out ==> i < |now| && (i in ids || |code| <= i)
  {
    assert ids[..|ids|] == ids;
    SpillListEnd(Vals(code, ids), slotOf, next);
    hide SpillList;
    assert Vals(now, out) + [] == Vals(now, out);
  }

  lemma RebuiltNow(f: Fn, c: Fn, d: Fn, slotOf: SlotMap, bases: map<BblId, nat>, b: BblId, base: nat, next: nat)
    requires |f.code| <= |c.code| && NotRebuilt(f, c, b) && BlockDone(c, d, slotOf, b, base, next)
    ensures Rebuilt(f, d, slotOf, bases[b := base], b) && |c.code| <= |d.code|
  {
    var ids := BblAt(f, b).inss;
    RewritingEnds(c.code, d.code, ids, BblAt(d, b).inss, slotOf, base, next);
    assert Vals(c.code, ids) == Vals(f.code, ids) by { forall k | 0 <= k < |ids| ensures InsAt(c.code, ids[k]) == InsAt(f.code, ids[k]) { assert ids[k] in ids; } }
    hide SpillList, Rewriting, Vals, BblAt;
  }

  lemma OtherRebuilt(f: Fn, c: Fn, d: Fn, slotOf: SlotMap, bases: map<BblId, nat>, b: BblId, base: nat, next: nat, x: BblId)
    requires UniqueIds(f) && b in f.blocks && x in f.blocks && x != b && |f.code| <= |c.code| && BlockDone(c, d, slotOf, b, base, next)
    requires NotRebuilt(f, c, b)
    ensures Rebuilt(f, c, slotOf, bases, x) ==> Rebuilt(f, d, slotOf, bases[b := base], x)
    ensures NotRebuilt(f, c, x) ==> NotRebuilt(f, d, x)
  {
    RewritingEnds(c.code, d.code, BblAt(f, b).inss, BblAt(d, b).inss, slotOf, base, next);
    assert forall i :: i in BblAt(f, x).inss ==> i !in BblAt(f, b).inss;
    assert forall i :: i in BblAt(f, b).inss ==> i < |f.code|;
    hide UniqueIds, SpillList, Rewriting;
    if Rebuilt(f, c, slotOf, bases, x) {
      var ids := BblAt(c, x).inss;
      forall k | 0 <= k < |ids| ensures InsAt(d.code, ids[k]) == InsAt(c.code, ids[k]) { assert ids[k] in ids; }
      assert Vals(d.code, ids) == Vals(c.code, ids);
    }
    hide Vals, BblAt;
  }

  lemma SpillingNext(f: Fn, c: Fn, d: Fn, slotOf: SlotMap, bases: map<BblId, nat>, done: set<BblId>, b: BblId, base: nat, next: nat)
    requires UniqueIds(f) && SpillingFun(f, c, slotOf, bases, done) && b in f.blocks && b !in done && BlockDone(c, d, slotOf, b, base, next)
    ensures SpillingFun(f, d, slotOf, bases[b := base], done + {b})
  {
    assert NotRebuilt(f, c, b) by { hide Rebuilt, NotRebuilt; }
    RebuiltNow(f, c, d, slotOf, bases, b, base, next);
    forall x | x in f.blocks ensures if x in done + {b} then Rebuilt(f, d, slotOf, bases[b := base], x) else NotRebuilt(f, d, x) {
      hide Rebuilt, NotRebuilt, BlockDone, UniqueIds;
      if x != b { OtherRebuilt(f, c, d, slotOf, bases, b, base, next, x); }
    }
    hide Rebuilt, NotRebuilt, UniqueIds, Rewriting, BblAt;
  }

  lemma SpillingStarts(f: Fn, slotOf: SlotMap)
    requires WfCode(f)
    ensures SpillingFun(f, f, slotOf, map[], {})
  {
    hide WfIns, UniqueIds;
  }

  lemma SpillingReady(f: Fn, c: Fn, slotOf: SlotMap, bases: map<BblId, nat>, done: set<BblId>, b: BblId)
    requires WfLayout(f) && WfCode(f) && SpillingFun(f, c, slotOf, bases, done) && b in f.blocks && b !in done
    ensures b.no < |c.bbls| && Distinct(c.bbls[b.no].inss) && InCode(c.bbls[b.no].inss, c.code)
  {
    assert NotRebuilt(f, c, b) by { hide Rebuilt, NotRebuilt, WfCode; }
    hide SpillingFun, WfIns;
  }

  lemma SpillingEnds(f: Fn, c: Fn, slotOf: SlotMap, bases: map<BblId, nat>)
    requires SpillingFun(f, c, slotOf, bases, f.blocks)
    ensures SpilledFun(f, c, slotOf, bases)
  {
    forall b | b in f.blocks ensures BlockSpilled(f, c, slotOf, bases, b) { assert Rebuilt(f, c, slotOf, bases, b); hide BlockSpilled; }
    hide Rebuilt, BlockSpilled;
  }

  lemma BlockIsDone(c: Fn, d: Fn, slotOf: SlotMap, b: BblId, base: nat, next: nat)
    requires d == c.(bbls := d.bbls, code := d.code) && b.no < |c.bbls| && |d.bbls| == |c.bbls|
    requires d.bbls == c.bbls[b.no := c.bbls[b.no].(inss := d.bbls[b.no].inss)]
    requires Rewriting(c.code, d.code, c.bbls[b.no].inss, |c.bbls[b.no].inss|, d.bbls[b.no].inss, slotOf, base, next)
    ensures BlockDone(c, d, slotOf, b, base, next)
  {
    hide Rewriting;
    forall x | x != b ensures BblAt(d, x) == BblAt(c, x) { assert x.no == b.no ==> x == b; }
  }

  /** In every block the loads and stores of the spilled registers, and nothing else, are new. */
  ghost predicate EachSpilled(f: Fn, g: Fn, slotOf: SlotMap, bases: map<BblId, nat>) {
    && g.order == f.order && g.blocks == f.blocks && g.jtbs == f.jtbs
    && forall b :: b in f.blocks ==> b in bases && BblSpilled(Body(f, b), slotOf, bases[b], Body(g, b))
  }

  lemma SpilledIsEach(f: Fn, g: Fn, slotOf: SlotMap, bases: map<BblId, nat>)
    requires WfCode(f) && SpilledFun(f, g, slotOf, bases)
    ensures EachSpilled(f, g, slotOf, bases)
  {
    forall b | b in f.blocks ensures b in bases && BblSpilled(Body(f, b), slotOf, bases[b], Body(g, b)) {
      BodyWf(f, b);
      ListIsSpilled(Body(f, b), slotOf, bases[b]);
      hide SpillList, BblSpilled, Body;
    }
    hide BblSpilled, Body;
  }

  lemma BodyWf(f: Fn, b: BblId)
    requires WfCode(f) && b in f.blocks
    ensures forall k :: 0 <= k < |Body(f, b)| ==> WfIns(Body(f, b)[k])
  {
    var ids := BblAt(f, b).inss;
    forall k | 0 <= k < |ids| ensures WfIns(InsAt(f.code, ids[k])) { assert ids[k] in ids; }
    hide WfIns, UniqueIds;
  }

  /** The registers in `regs` get a stack slot each, and every block of the function uses it. Scratch
      registers are numbered from `base` on. */
  method FunSpillRegs(fun: Fun, regs: seq<RegId>, width: RegId -> nat, stks0: seq<Frame.Stk>, base: nat)
    returns (slotOf: SlotMap, stks: seq<Frame.Stk>, ghost bases: map<BblId, nat>)
    requires WfLayout(fun.View()) && WfOrder(fun.View()) && WfCode(fun.View()) && forall i, j :: 0 <= i < j < |regs| ==> regs[i] != regs[j]
    modifies fun`code, fun`bbls
    ensures SpilledFun(old(fun.View()), fun.View(), slotOf, bases) && (forall b :: b in bases ==> base <= bases[b])
    ensures EachSpilled(old(fun.View()), fun.View(), slotOf, bases)
    ensures OwnSlots(slotOf) && (forall r :: r in slotOf <==> r in regs) && |stks| == |stks0| + |regs|
    ensures stks0 <= stks && forall r :: r in slotOf ==> |stks0| <= slotOf[r] < |stks| && stks[slotOf[r]] == Frame.Stk(width(r), width(r))
  {
    slotOf, stks := NewSlots(regs, width, stks0);
    ghost var f := fun.View();
    ghost var done: set<BblId> := {};
    var next := base;
    bases := map[];
    SpillingStarts(f, slotOf);
    assert UniqueIds(f) by { hide UniqueIds, WfIns; }
    hide EachSpilled, SpillingFun, WfLayout, WfCode, Rewriting, UniqueIds, OwnSlots, Distinct, InCode;
    for n := 0 to |fun.order|
      invariant fun.View() == f.(bbls := fun.bbls, code := fun.code) && SpillingFun(f, fun.View(), slotOf, bases, done)
      invariant done <= f.blocks && forall j :: 0 <= j < |f.order| ==> (f.order[j] in done <==> j < n)
      invariant base <= next && forall b :: b in bases ==> base <= bases[b]
    {
      var b := fun.order[n];
      assert b in f.blocks;
      ghost var c := fun.View();
      ghost var base' := next;
      SpillingReady(f, c, slotOf, bases, done, b);
      next := BblSpill(fun, b, slotOf, next);
      BlockIsDone(c, fun.View(), slotOf, b, base', next);
      SpillingNext(f, c, fun.View(), slotOf, bases, done, b, base', next);
      bases, done := bases[b := base'], done + {b};
    }
    assert done == f.blocks;
    SpillingEnds(f, fun.View(), slotOf, bases);
    SpilledIsEach(f, fun.View(), slotOf, bases);
  }
}
