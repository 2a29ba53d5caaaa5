/** Why tags may be trusted. If register x carries the tag of instruction d, and every register
    d read still carries the tag it had at d, then x holds what d would compute now, on every
    run, even when loops execute d and the definitions of its sources many times
    (`ValueIsCurrent`).

    The argument follows one run. Being tagged d means that d ran since (`TagOrigin`); had a
    source of d been set again in between and got its old tag back, then d and that definition
    would each have to run before the other (`NoDescent`). */
module Avail {
  import opened IR
  import opened Steps
  import opened ReachingDefs

  /** One run of f, together with a solution for f; `live` are the registers that may be read
      before they are set in some block. */
  datatype Ctx = Ctx(m: Machine, f: Fn, s0: State, live: set<RegId>, defsIn: map<BblId, DefMap>)

  function ConfigAt(c: Ctx, n: nat): Config {
    StepN(c.m, c.f, c.s0, n)
  }

  predicate AtPoint(c: Ctx, n: nat, b: BblId, k: nat) {
    ConfigAt(c, n).Pt? && ConfigAt(c, n).bbl == b && ConfigAt(c, n).k == k
  }

  /** Instruction i is the one executed in step n. */
  predicate Executes(c: Ctx, n: nat, i: InsId) {
    var cfg := ConfigAt(c, n);
    cfg.Pt? && cfg.k < |BblAt(c.f, cfg.bbl).inss| && BblAt(c.f, cfg.bbl).inss[cfg.k] == i
  }

  predicate Writes(c: Ctx, n: nat, r: RegId) {
    var cfg := ConfigAt(c, n);
    cfg.Pt? && cfg.k < |BblAt(c.f, cfg.bbl).inss| && DstOf(InsAt(c.f.code, BblAt(c.f, cfg.bbl).inss[cfg.k])) == Some(r)
  }

  /** The registers that have a value by step n: the live ones and those set so far. */
  function Known(c: Ctx, n: nat): set<RegId> {
    if n == 0 then c.live
    else
      var cfg := ConfigAt(c, n - 1);
      Known(c, n - 1) +
        if cfg.Pt? && cfg.k < |BblAt(c.f, cfg.bbl).inss| then DefsOf(InsAt(c.f.code, BblAt(c.f, cfg.bbl).inss[cfg.k])) else {}
  }

  /** What the analysis says at a point. */
  function TagsHere(f: Fn, defsIn: map<BblId, DefMap>, b: BblId, k: nat): DefMap {
    if b in defsIn && k <= |BblAt(f, b).inss| then TagsAt(f.code, BblAt(f, b).inss, k, defsIn[b]) else map[]
  }

  function TagsNow(c: Ctx, n: nat): DefMap {
    var cfg := ConfigAt(c, n);
    if cfg.Pt? then TagsHere(c.f, c.defsIn, cfg.bbl, cfg.k) else map[]
  }

  ghost predicate WfCtx(c: Ctx) {
    && WfLayout(c.f)
    && UniqueIds(c.f)
    && (forall b :: b in c.f.blocks ==> WfEdges(c.f, b))
    && Solution(c.f, c.live, c.defsIn)
  }

  lemma {:induction false} StaysInside(c: Ctx, n: nat)
    requires WfCtx(c)
    ensures ConfigAt(c, n).Pt? ==> ConfigAt(c, n).bbl in c.f.blocks && ConfigAt(c, n).k <= |BblAt(c.f, ConfigAt(c, n).bbl).inss|
  {
    if n > 0 {
      StaysInside(c, n - 1);
      var cfg := ConfigAt(c, n - 1);
      if cfg.Pt? {
        NextInside(c.m, c.f, cfg.bbl, cfg.state);
      }
    }
  }

  /** Step n is the event a tag speaks of: its instruction runs, or its block is entered. */
  predicate IsEvent(c: Ctx, n: nat, t: Tag) {
    match t
    case DefIns(i) => Executes(c, n, i)
    case DefBbl(b) => AtPoint(c, n, b, 0)
  }

  /** One step of a run, seen by the tags: a write gives its own tag; an edge keeps a tag or
      replaces it by the tag of the block entered; nothing else changes a tag. */
  lemma TagStep(c: Ctx, n: nat, r: RegId)
    requires WfCtx(c) && ConfigAt(c, n + 1).Pt?
    ensures ConfigAt(c, n).Pt?
    ensures Writes(c, n, r) ==>
      r in TagsNow(c, n + 1) && TagsNow(c, n + 1)[r].DefIns? && IsEvent(c, n, TagsNow(c, n + 1)[r])
    ensures !Writes(c, n, r) && r in TagsNow(c, n) ==>
      && r in TagsNow(c, n + 1)
      && (TagsNow(c, n + 1)[r] == TagsNow(c, n)[r] ||
          (TagsNow(c, n + 1)[r].DefBbl? && IsEvent(c, n + 1, TagsNow(c, n + 1)[r])))
  {
    StaysInside(c, n);
    PriorIsPoint(c, n);
    hide *;
    var b, k := ConfigAt(c, n).bbl, ConfigAt(c, n).k;
    if k < |BblAt(c.f, b).inss| {
      TagStepInBlock(c, n, b, k, r);
    } else {
      TagStepAcross(c, n, b, k, r);
    }
  }

  lemma PriorIsPoint(c: Ctx, n: nat)
    requires ConfigAt(c, n + 1).Pt?
    ensures ConfigAt(c, n).Pt?
  {
    hide ExecIns, EdgeNext;
  }

  lemma TagStepInBlock(c: Ctx, n: nat, b: BblId, k: nat, r: RegId)
    requires WfCtx(c) && ConfigAt(c, n).Pt? && ConfigAt(c, n).bbl == b && ConfigAt(c, n).k == k
    requires b in c.f.blocks && k < |BblAt(c.f, b).inss|
    ensures Writes(c, n, r) ==> r in TagsNow(c, n + 1) && TagsNow(c, n + 1)[r].DefIns? && IsEvent(c, n, TagsNow(c, n + 1)[r])
    ensures !Writes(c, n, r) && r in TagsNow(c, n) ==> r in TagsNow(c, n + 1) && TagsNow(c, n + 1)[r] == TagsNow(c, n)[r]
  {
    hide *;
    ConfigInBlock(c, n, b, k);
    InBlock(c);
    NowAt(c, n, b, k);
    NowAt(c, n + 1, b, k + 1);
    WritesAt(c, n, b, k, r);
    TagsOneOn(c.f, c.defsIn, b, k, r);
  }

  lemma NowAt(c: Ctx, n: nat, b: BblId, k: nat)
    requires ConfigAt(c, n).Pt? && ConfigAt(c, n).bbl == b && ConfigAt(c, n).k == k
    ensures TagsNow(c, n) == TagsHere(c.f, c.defsIn, b, k)
  {
    hide TagsHere, ConfigAt;
  }

  lemma WritesAt(c: Ctx, n: nat, b: BblId, k: nat, r: RegId)
    requires ConfigAt(c, n).Pt? && ConfigAt(c, n).bbl == b && ConfigAt(c, n).k == k && k < |BblAt(c.f, b).inss|
    ensures Writes(c, n, r) <==> DstOf(InsAt(c.f.code, BblAt(c.f, b).inss[k])) == Some(r)
    ensures IsEvent(c, n, DefIns(BblAt(c.f, b).inss[k]))
  {
    hide DstOf, InsAt, ConfigAt;
  }

  lemma TagsOneOn(f: Fn, defsIn: map<BblId, DefMap>, b: BblId, k: nat, r: RegId)
    requires b in defsIn && k < |BblAt(f, b).inss|
    ensures var before, after, i := TagsHere(f, defsIn, b, k), TagsHere(f, defsIn, b, k + 1), BblAt(f, b).inss[k];
      if DstOf(InsAt(f.code, i)) == Some(r) then r in after && after[r] == DefIns(i)
      else r in before ==> r in after && after[r] == before[r]
  {
    hide InsAt;
  }

  lemma ConfigInBlock(c: Ctx, n: nat, b: BblId, k: nat)
    requires ConfigAt(c, n).Pt? && ConfigAt(c, n).bbl == b && ConfigAt(c, n).k == k && k < |BblAt(c.f, b).inss|
    ensures ConfigAt(c, n + 1).Pt? && ConfigAt(c, n + 1).bbl == b && ConfigAt(c, n + 1).k == k + 1
  {
    StepInBlock(c.m, c.f, c.s0, n, b, k, ConfigAt(c, n).state);
    hide ExecIns, EdgeNext, InsAt, StepN;
  }

  lemma TagStepAcross(c: Ctx, n: nat, b: BblId, k: nat, r: RegId)
    requires WfCtx(c) && ConfigAt(c, n).Pt? && ConfigAt(c, n).bbl == b && ConfigAt(c, n).k == k
    requires b in c.f.blocks && k == |BblAt(c.f, b).inss| && ConfigAt(c, n + 1).Pt?
    ensures !Writes(c, n, r)
    ensures r in TagsNow(c, n) ==>
      && r in TagsNow(c, n + 1)
      && (TagsNow(c, n + 1)[r] == TagsNow(c, n)[r] ||
          (TagsNow(c, n + 1)[r].DefBbl? && IsEvent(c, n + 1, TagsNow(c, n + 1)[r])))
  {
    StepOut(c.m, c.f, c.s0, n, b, ConfigAt(c, n).state);
    AcrossEdge(c, b, ConfigAt(c, n).state, r);
    hide ExecIns, EdgeNext, WfCtx, InsAt, StepN;
  }

  lemma InBlock(c: Ctx)
    requires WfCtx(c)
    ensures forall b :: b in c.f.blocks ==> b in c.defsIn
  {
  }

  lemma AcrossEdge(c: Ctx, b: BblId, s: State, r: RegId)
    requires WfCtx(c) && b in c.f.blocks && EdgeNext(c.m, c.f, b, s).Some?
    ensures var t, here := EdgeNext(c.m, c.f, b, s).value, TagsHere(c.f, c.defsIn, b, |BblAt(c.f, b).inss|);
      t in c.defsIn &&
      (r in here ==> r in c.defsIn[t] && (c.defsIn[t][r] == here[r] || c.defsIn[t][r] == DefBbl(t)))
  {
    NextInside(c.m, c.f, b, s);
    NextIsEdge(c.m, c.f, b, s);
    hide EdgeNext, WfEdges;
    var ids, t := BblAt(c.f, b).inss, EdgeNext(c.m, c.f, b, s).value;
    assert Edge(c.f, b, t);
    TagsAtIsUpdate(c.f.code, ids, |ids|, c.defsIn[b]);
    assert ArrivesAt(t, c.defsIn[b] + BlockDefs(c.f, b), c.defsIn[t]);
  }

  lemma KnownStep(c: Ctx, n: nat, r: RegId)
    ensures r in Known(c, n + 1) <==> r in Known(c, n) || Writes(c, n, r)
  {
    hide ExecIns, EdgeNext;
  }

  lemma KnownAtStart(c: Ctx, r: RegId)
    requires WfCtx(c) && r in Known(c, 0)
    ensures r in TagsNow(c, 0) && TagsNow(c, 0)[r].DefBbl? && IsEvent(c, 0, TagsNow(c, 0)[r])
  {
  }

  lemma {:induction false} KnownIsTagged(c: Ctx, n: nat, r: RegId)
    requires WfCtx(c) && ConfigAt(c, n).Pt? && r in Known(c, n)
    ensures r in TagsNow(c, n)
  {
    hide *;
    if n == 0 {
      KnownAtStart(c, r);
    } else {
      TagStep(c, n - 1, r);
      KnownStep(c, n - 1, r);
      if !Writes(c, n - 1, r) {
        KnownIsTagged(c, n - 1, r);
      }
    }
  }

  /** The event behind a tag has happened. */
  lemma {:induction false} TagOrigin(c: Ctx, n: nat, r: RegId) returns (e: nat)
    requires WfCtx(c) && ConfigAt(c, n).Pt? && r in Known(c, n) && r in TagsNow(c, n)
    ensures IsEvent(c, e, TagsNow(c, n)[r])
    ensures if TagsNow(c, n)[r].DefIns? then e < n else e <= n
  {
    hide *;
    if n == 0 {
      KnownAtStart(c, r);
      e := 0;
    } else {
      TagStep(c, n - 1, r);
      KnownStep(c, n - 1, r);
      if Writes(c, n - 1, r) {
        e := n - 1;
      } else {
        KnownIsTagged(c, n - 1, r);
        if TagsNow(c, n)[r] == TagsNow(c, n - 1)[r] {
          e := TagOrigin(c, n - 1, r);
        } else {
          e := n;
        }
      }
    }
  }

  /** Once a register was set, the event behind its tag is at least that recent. */
  lemma {:induction false} TagSince(c: Ctx, t: nat, n: nat, r: RegId) returns (e: nat)
    requires WfCtx(c) && t < n && ConfigAt(c, n).Pt? && Writes(c, t, r)
    ensures r in TagsNow(c, n) && IsEvent(c, e, TagsNow(c, n)[r])
    ensures if TagsNow(c, n)[r].DefIns? then t <= e < n else t < e <= n
    decreases n
  {
    hide *;
    TagStep(c, n - 1, r);
    if Writes(c, n - 1, r) {
      e := n - 1;
    } else {
      e := TagSince(c, t, n - 1, r);
      if TagsNow(c, n)[r] != TagsNow(c, n - 1)[r] {
        e := n;
      }
    }
  }

  lemma {:induction false} KnownGrows(c: Ctx, t: nat, n: nat, r: RegId)
    requires t <= n && r in Known(c, t)
    ensures r in Known(c, n)
    decreases n
  {
    hide *;
    if t < n {
      KnownGrows(c, t, n - 1, r);
      KnownStep(c, n - 1, r);
    }
  }

  /** Whenever the run comes to (b, k), instruction d has run before. */
  ghost predicate Dominates(c: Ctx, d: InsId, b: BblId, k: nat) {
    forall n: nat :: AtPoint(c, n, b, k) ==> RanBefore(c, n, d)
  }

  ghost predicate RanBefore(c: Ctx, n: nat, d: InsId) {
    exists e: nat :: e < n && Executes(c, e, d)
  }

  ghost predicate DominatesNow(c: Ctx, d: InsId, n: nat) {
    ConfigAt(c, n).Pt? && Dominates(c, d, ConfigAt(c, n).bbl, ConfigAt(c, n).k)
  }

  /** Since d ran in step `since`, up to step n, register r was not written and every point
      passed is dominated by d. */
  ghost predicate HeldSince(c: Ctx, since: nat, n: nat, r: RegId, d: InsId) {
    && since < n
    && Executes(c, since, d) && DstOf(InsAt(c.f.code, d)) == Some(r)
    && (forall t :: since < t < n ==> !Writes(c, t, r))
    && (forall t :: since < t <= n ==> DominatesNow(c, d, t))
  }

  ghost predicate Held(c: Ctx, n: nat, r: RegId, d: InsId) {
    exists since: nat :: HeldSince(c, since, n, r, d)
  }

  /** An operand of an instruction about to run: its tag is the current one. */
  ghost predicate HonestOperand(c: Ctx, n: nat, op: Operand, t: Tag) {
    && op.RegOp?
    && op.reg in Known(c, n)
    && op.reg in TagsNow(c, n) && TagsNow(c, n)[op.reg] == t
    && (t.DefIns? ==> Held(c, n, op.reg, t.ins))
  }

  ghost predicate HonestIns(c: Ctx, n: nat, ins: Ins) {
    forall l: nat :: l < |ins.operands| && l < |ins.defs| && ins.defs[l].Some? ==>
      HonestOperand(c, n, ins.operands[l], ins.defs[l].value)
  }

  /** All recorded operand tags are right, whenever their instruction runs. */
  ghost predicate Honest(c: Ctx) {
    forall n: nat, i: InsId :: Executes(c, n, i) ==> HonestIns(c, n, InsAt(c.f.code, i))
  }

  /** A definition that always finds the event before it, and an event that always finds the
      definition before it, cannot both happen. */
  lemma {:induction false} NoDescent(c: Ctx, n: nat, d: InsId, l: nat, b: BblId, k: nat)
    requires WfCtx(c) && Honest(c) && HasTag(c, d, l)
    requires forall e :: IsEvent(c, e, TagOf(c, d, l)) ==> AtPoint(c, e, b, k)
    requires Dominates(c, d, b, k) && AtPoint(c, n, b, k)
    ensures false
    decreases n
  {
    assert RanBefore(c, n, d);
    var n1: nat :| n1 < n && Executes(c, n1, d);
    assert HonestIns(c, n1, InsAt(c.f.code, d));
    var e := TagOrigin(c, n1, InsAt(c.f.code, d).operands[l].reg);
    NoDescent(c, e, d, l, b, k);
  }

  predicate HasTag(c: Ctx, d: InsId, l: nat) {
    var ins := InsAt(c.f.code, d);
    l < |ins.operands| && l < |ins.defs| && ins.defs[l].Some?
  }

  function TagOf(c: Ctx, d: InsId, l: nat): Tag
    requires HasTag(c, d, l)
  {
    InsAt(c.f.code, d).defs[l].value
  }

  lemma ExecutesAtOnePoint(c: Ctx, n: nat, n': nat, i: InsId)
    requires WfCtx(c) && Executes(c, n, i) && Executes(c, n', i)
    ensures AtPoint(c, n', ConfigAt(c, n).bbl, ConfigAt(c, n).k)
  {
    StaysInside(c, n);
    StaysInside(c, n');
    hide ConfigAt;
    var b, b' := ConfigAt(c, n).bbl, ConfigAt(c, n').bbl;
    assert i in BblAt(c.f, b).inss && i in BblAt(c.f, b').inss;
  }

  lemma {:induction false} EarlierArePoints(c: Ctx, t: nat, n: nat)
    requires t <= n && ConfigAt(c, n).Pt?
    ensures ConfigAt(c, t).Pt?
    decreases n
  {
    hide ExecIns, EdgeNext;
    if t < n { EarlierArePoints(c, t, n - 1); }
  }

  function ValueAt(c: Ctx, n: nat, r: RegId): int {
    ReadReg(ConfigAt(c, n).state.regs, r)
  }

  lemma WriteStep(c: Ctx, n: nat, r: RegId)
    requires !Writes(c, n, r)
    ensures ValueAt(c, n + 1, r) == ValueAt(c, n, r)
  {
    hide Effect, EdgeNext, UseVals;
  }

  lemma {:induction false} ValueKept(c: Ctx, t: nat, n: nat, r: RegId)
    requires t <= n && forall e :: t <= e < n ==> !Writes(c, e, r)
    ensures ValueAt(c, t, r) == ValueAt(c, n, r)
    decreases n
  {
    hide *;
    if t < n {
      ValueKept(c, t, n - 1, r);
      WriteStep(c, n - 1, r);
    }
  }

  /** A source of d is tagged by d itself: then d would always have to run before itself. */
  lemma NotItsOwnSource(c: Ctx, n: nat, d: InsId, l: nat)
    requires WfCtx(c) && Honest(c) && HasTag(c, d, l) && Executes(c, n, d)
    ensures TagOf(c, d, l) != DefIns(d)
  {
    if TagOf(c, d, l) == DefIns(d) {
      var b, k := ConfigAt(c, n).bbl, ConfigAt(c, n).k;
      forall e | IsEvent(c, e, DefIns(d)) ensures AtPoint(c, e, b, k) {
        ExecutesAtOnePoint(c, n, e, d);
      }
      forall e | AtPoint(c, e, b, k) ensures RanBefore(c, e, d) {
        assert Executes(c, e, d);
        var o := SourceRan(c, e, d, l);
      }
      NoDescent(c, n, d, l, b, k);
    }
  }

  /** When d runs, the event behind the tag of a source has happened. */
  lemma SourceRan(c: Ctx, n: nat, d: InsId, l: nat) returns (e: nat)
    requires WfCtx(c) && Honest(c) && HasTag(c, d, l) && Executes(c, n, d)
    ensures IsEvent(c, e, TagOf(c, d, l)) && (if TagOf(c, d, l).DefIns? then e < n else e <= n)
  {
    assert HonestIns(c, n, InsAt(c.f.code, d));
    assert HonestOperand(c, n, InsAt(c.f.code, d).operands[l], TagOf(c, d, l));
    e := TagOrigin(c, n, InsAt(c.f.code, d).operands[l].reg);
  }

  /** As long as a source of d has the tag it had at d, it was not written since. */
  lemma SourceKept(c: Ctx, since: nat, n: nat, x: RegId, d: InsId, l: nat, y: RegId)
    requires WfCtx(c) && Honest(c) && HeldSince(c, since, n, x, d) && ConfigAt(c, n).Pt?
    requires HasTag(c, d, l) && InsAt(c.f.code, d).operands[l] == RegOp(y)
    requires y in TagsNow(c, n) && TagsNow(c, n)[y] == TagOf(c, d, l)
    ensures forall t :: since <= t < n ==> !Writes(c, t, y)
  {
    forall t | since <= t < n ensures !Writes(c, t, y) {
      if Writes(c, t, y) {
        var e := TagSince(c, t, n, y);
        EventCannotRecur(c, since, n, x, d, l, e);
      }
    }
  }

  lemma EventCannotRecur(c: Ctx, since: nat, n: nat, x: RegId, d: InsId, l: nat, e: nat)
    requires WfCtx(c) && Honest(c) && HeldSince(c, since, n, x, d)
    requires HasTag(c, d, l) && IsEvent(c, e, TagOf(c, d, l))
    requires if TagOf(c, d, l).DefIns? then since <= e < n else since < e <= n
    ensures false
  {
    if e == since {
      NotItsOwnSource(c, since, d, l);
    } else {
      assert DominatesNow(c, d, e);
      var b, k := ConfigAt(c, e).bbl, ConfigAt(c, e).k;
      forall e' | IsEvent(c, e', TagOf(c, d, l)) ensures AtPoint(c, e', b, k) {
        if TagOf(c, d, l).DefIns? { ExecutesAtOnePoint(c, e, e', TagOf(c, d, l).ins); }
      }
      NoDescent(c, e, d, l, b, k);
    }
  }

  /** Every register d reads is tagged, and its tag is the current one. */
  ghost predicate SourcesCurrent(c: Ctx, n: nat, d: InsId) {
    var ins := InsAt(c.f.code, d);
    forall l :: NumDefs(ins.opcode) <= l < |ins.operands| && ins.operands[l].RegOp? ==>
      HasTag(c, d, l) && ins.operands[l].reg in TagsNow(c, n) && TagsNow(c, n)[ins.operands[l].reg] == TagOf(c, d, l)
  }

  /** The value d left in x is the value d would compute now. */
  lemma ValueIsCurrent(c: Ctx, n: nat, x: RegId, d: InsId)
    requires WfCtx(c) && Honest(c) && Held(c, n, x, d) && ConfigAt(c, n).Pt?
    requires WfIns(InsAt(c.f.code, d)) && IsPure(InsAt(c.f.code, d).opcode) && SourcesCurrent(c, n, d)
    ensures ValueAt(c, n, x) ==
      PureResult(c.m, InsAt(c.f.code, d).opcode, UseVals(c.m, InsAt(c.f.code, d), ConfigAt(c, n).state.regs))
  {
    var since: nat :| HeldSince(c, since, n, x, d);
    hide *;
    SourcesKept(c, since, n, x, d);
    HeldWrites(c, since, n, x, d);
    PureStep(c, since, d, x);
    ValueKept(c, since + 1, n, x);
  }

  lemma HeldWrites(c: Ctx, since: nat, n: nat, x: RegId, d: InsId)
    requires HeldSince(c, since, n, x, d)
    ensures since < n && Executes(c, since, d) && DstOf(InsAt(c.f.code, d)) == Some(x)
    ensures forall t :: since + 1 <= t < n ==> !Writes(c, t, x)
    ensures forall t :: since < t <= n ==> DominatesNow(c, d, t)
  {
    hide Executes, DominatesNow, Writes;
  }

  lemma SourcesKept(c: Ctx, since: nat, n: nat, x: RegId, d: InsId)
    requires WfCtx(c) && Honest(c) && HeldSince(c, since, n, x, d) && ConfigAt(c, n).Pt?
    requires WfIns(InsAt(c.f.code, d)) && SourcesCurrent(c, n, d)
    ensures UseVals(c.m, InsAt(c.f.code, d), ConfigAt(c, since).state.regs) ==
            UseVals(c.m, InsAt(c.f.code, d), ConfigAt(c, n).state.regs)
  {
    var ins := InsAt(c.f.code, d);
    forall l | NumDefs(ins.opcode) <= l < |ins.operands|
      ensures Eval(c.m, ins.operands[l], ConfigAt(c, since).state.regs) == Eval(c.m, ins.operands[l], ConfigAt(c, n).state.regs)
    {
      if ins.operands[l].RegOp? {
        SourceValueKept(c, since, n, x, d, l);
      }
    }
    hide ConfigAt, WfCtx, Honest, HeldSince, SourcesCurrent, InsAt;
  }

  lemma SourceValueKept(c: Ctx, since: nat, n: nat, x: RegId, d: InsId, l: nat)
    requires WfCtx(c) && Honest(c) && HeldSince(c, since, n, x, d) && ConfigAt(c, n).Pt?
    requires l < |InsAt(c.f.code, d).operands| && InsAt(c.f.code, d).operands[l].RegOp?
    requires NumDefs(InsAt(c.f.code, d).opcode) <= l && SourcesCurrent(c, n, d)
    ensures ValueAt(c, since, InsAt(c.f.code, d).operands[l].reg) == ValueAt(c, n, InsAt(c.f.code, d).operands[l].reg)
  {
    var y := InsAt(c.f.code, d).operands[l].reg;
    SourceKept(c, since, n, x, d, l, y);
    HeldWrites(c, since, n, x, d);
    hide *;
    ValueKept(c, since, n, y);
  }

  lemma PureStep(c: Ctx, n: nat, d: InsId, x: RegId)
    requires Executes(c, n, d) && IsPure(InsAt(c.f.code, d).opcode) && DstOf(InsAt(c.f.code, d)) == Some(x)
    ensures ValueAt(c, n + 1, x) ==
      PureResult(c.m, InsAt(c.f.code, d).opcode, UseVals(c.m, InsAt(c.f.code, d), ConfigAt(c, n).state.regs))
  {
    hide EdgeNext, UseVals, PureResult;
  }

  /** A source of d that still has its tag may be read in place of what d computed: it is as
      well known here as it was at d. */
  lemma SourceIsHonest(c: Ctx, n: nat, x: RegId, d: InsId, l: nat, y: RegId)
    requires WfCtx(c) && Honest(c) && Held(c, n, x, d) && ConfigAt(c, n).Pt?
    requires HasTag(c, d, l) && InsAt(c.f.code, d).operands[l] == RegOp(y)
    requires y in TagsNow(c, n) && TagsNow(c, n)[y] == TagOf(c, d, l)
    ensures HonestOperand(c, n, RegOp(y), TagOf(c, d, l))
  {
    var since: nat :| HeldSince(c, since, n, x, d);
    SourceKept(c, since, n, x, d, l, y);
    HeldWrites(c, since, n, x, d);
    SourceWasHonest(c, since, d, l);
    HonestParts(c, since, y, TagOf(c, d, l));
    hide *;
    KnownGrows(c, since, n, y);
    if TagOf(c, d, l).DefIns? {
      forall t | since < t <= n ensures DominatesNow(c, TagOf(c, d, l).ins, t) {
        assert DominatesNow(c, d, t);
        DominationIsTransitive(c, d, l, t);
      }
      HeldTransfers(c, since, n, y, TagOf(c, d, l).ins);
    }
    HonestByParts(c, n, y, TagOf(c, d, l));
  }

  lemma HonestParts(c: Ctx, n: nat, y: RegId, t: Tag)
    requires HonestOperand(c, n, RegOp(y), t)
    ensures y in Known(c, n) && (t.DefIns? ==> Held(c, n, y, t.ins))
  {
    hide Known, TagsNow, Held;
  }

  lemma HonestByParts(c: Ctx, n: nat, y: RegId, t: Tag)
    requires y in Known(c, n) && y in TagsNow(c, n) && TagsNow(c, n)[y] == t
    requires t.DefIns? ==> Held(c, n, y, t.ins)
    ensures HonestOperand(c, n, RegOp(y), t)
  {
    hide Known, TagsNow, Held;
  }

  lemma SourceWasHonest(c: Ctx, n: nat, d: InsId, l: nat)
    requires Honest(c) && HasTag(c, d, l) && Executes(c, n, d)
    ensures HonestOperand(c, n, InsAt(c.f.code, d).operands[l], TagOf(c, d, l))
  {
    assert HonestIns(c, n, InsAt(c.f.code, d));
  }

  /** Held up to `since`, and still neither written nor undominated up to n. */
  lemma HeldTransfers(c: Ctx, since: nat, n: nat, y: RegId, i: InsId)
    requires since < n && Held(c, since, y, i)
    requires forall t :: since <= t < n ==> !Writes(c, t, y)
    requires forall t :: since < t <= n ==> DominatesNow(c, i, t)
    ensures Held(c, n, y, i)
  {
    hide Executes, Writes, DominatesNow, InsAt;
    var start: nat :| HeldSince(c, start, since, y, i);
    assert HeldSince(c, start, n, y, i);
  }

  lemma DominationIsTransitive(c: Ctx, d: InsId, l: nat, t: nat)
    requires WfCtx(c) && Honest(c) && HasTag(c, d, l) && TagOf(c, d, l).DefIns? && DominatesNow(c, d, t)
    ensures DominatesNow(c, TagOf(c, d, l).ins, t)
  {
    var b, k := ConfigAt(c, t).bbl, ConfigAt(c, t).k;
    forall n | AtPoint(c, n, b, k) ensures RanBefore(c, n, TagOf(c, d, l).ins) {
      assert RanBefore(c, n, d);
      var e: nat :| e < n && Executes(c, e, d);
      var e' := SourceRan(c, e, d, l);
    }
  }

  // ---------------------------------------------------------------- fresh tags are honest

  /** A register that may be live on entry to some block is held as soon as it is tagged. */
  lemma {:induction false} HeldIfLive(c: Ctx, n: nat, r: RegId)
    requires WfCtx(c) && ConfigAt(c, n).Pt? && r in c.live
    requires r in TagsNow(c, n) && TagsNow(c, n)[r].DefIns?
    ensures Held(c, n, r, TagsNow(c, n)[r].ins)
  {
    hide *;
    var d := TagsNow(c, n)[r].ins;
    LiveTagDominates(c, n, r);
    if n == 0 {
      LiveIsKnown(c, n, r);
      KnownAtStart(c, r);
    } else {
      TagStep(c, n - 1, r);
      if Writes(c, n - 1, r) {
        EventIsExecution(c, n - 1, d);
        HeldAtOnce(c, n, r, d);
      } else {
        LiveIsKnown(c, n - 1, r);
        KnownIsTagged(c, n - 1, r);
        HeldIfLive(c, n - 1, r);
        HeldLonger(c, n, r, d);
      }
    }
  }

  lemma EventIsExecution(c: Ctx, n: nat, d: InsId)
    ensures IsEvent(c, n, DefIns(d)) <==> Executes(c, n, d)
  {
    hide Executes;
  }

  lemma HeldAtOnce(c: Ctx, n: nat, r: RegId, d: InsId)
    requires n > 0 && Executes(c, n - 1, d) && Writes(c, n - 1, r) && DominatesNow(c, d, n)
    ensures Held(c, n, r, d)
  {
    hide ConfigAt, DominatesNow;
    assert HeldSince(c, n - 1, n, r, d);
  }

  lemma HeldLonger(c: Ctx, n: nat, r: RegId, d: InsId)
    requires n > 0 && Held(c, n - 1, r, d) && !Writes(c, n - 1, r) && DominatesNow(c, d, n)
    ensures Held(c, n, r, d)
  {
    hide ConfigAt, DominatesNow, Writes, Executes;
    var since: nat :| HeldSince(c, since, n - 1, r, d);
    assert HeldSince(c, since, n, r, d);
  }

  lemma {:induction false} LiveIsKnown(c: Ctx, n: nat, r: RegId)
    requires r in c.live
    ensures r in Known(c, n)
  {
    assert r in Known(c, 0);
    KnownGrows(c, 0, n, r);
  }

  lemma LiveTagDominates(c: Ctx, n: nat, r: RegId)
    requires WfCtx(c) && ConfigAt(c, n).Pt? && r in c.live
    requires r in TagsNow(c, n) && TagsNow(c, n)[r].DefIns?
    ensures DominatesNow(c, TagsNow(c, n)[r].ins, n)
  {
    var b, k := ConfigAt(c, n).bbl, ConfigAt(c, n).k;
    forall n' | AtPoint(c, n', b, k) ensures RanBefore(c, n', TagsNow(c, n)[r].ins) {
      LiveIsKnown(c, n', r);
      assert TagsNow(c, n') == TagsNow(c, n);
      var e := TagOrigin(c, n', r);
    }
  }

  lemma BackOne(c: Ctx, n: nat, b: BblId, k: nat)
    requires AtPoint(c, n, b, k) && k > 0
    ensures n > 0 && AtPoint(c, n - 1, b, k - 1) && k - 1 < |BblAt(c.f, b).inss|
  {
    hide ExecIns, EdgeNext;
  }

  lemma {:induction false} BackInBlock(c: Ctx, n: nat, b: BblId, k: nat, j: nat)
    requires AtPoint(c, n, b, k) && j <= k
    ensures n >= k - j && AtPoint(c, n - (k - j), b, j)
    decreases k - j
  {
    hide *;
    if j < k {
      BackOne(c, n, b, k);
      BackInBlock(c, n - 1, b, k - 1, j);
      assert n - (k - j) == (n - 1) - ((k - 1) - j);
    }
  }

  /** What the block itself set last, further up, is held. */
  lemma {:induction false} HeldIfLocal(c: Ctx, n: nat, b: BblId, k: nat, j: nat, r: RegId)
    requires AtPoint(c, n, b, k) && j < k <= |BblAt(c.f, b).inss|
    requires DstOf(InsAt(c.f.code, BblAt(c.f, b).inss[j])) == Some(r)
    requires forall l :: j < l < k ==> DstOf(InsAt(c.f.code, BblAt(c.f, b).inss[l])) != Some(r)
    ensures Held(c, n, r, BblAt(c.f, b).inss[j]) && r in Known(c, n)
    decreases k
  {
    hide *;
    BackOne(c, n, b, k);
    LocalDominates(c, n, b, j, k);
    StepWrites(c, n - 1, b, k - 1);
    KnownStep(c, n - 1, r);
    if k == j + 1 {
      HeldAtOnce(c, n, r, BblAt(c.f, b).inss[j]);
    } else {
      HeldIfLocal(c, n - 1, b, k - 1, j, r);
      HeldLonger(c, n, r, BblAt(c.f, b).inss[j]);
    }
  }

  lemma StepWrites(c: Ctx, n: nat, b: BblId, k: nat)
    requires AtPoint(c, n, b, k) && k < |BblAt(c.f, b).inss|
    ensures Executes(c, n, BblAt(c.f, b).inss[k])
    ensures forall r :: Writes(c, n, r) <==> DstOf(InsAt(c.f.code, BblAt(c.f, b).inss[k])) == Some(r)
  {
    hide ConfigAt;
  }

  lemma LocalDominates(c: Ctx, n: nat, b: BblId, j: nat, k: nat)
    requires AtPoint(c, n, b, k) && j < k <= |BblAt(c.f, b).inss|
    ensures DominatesNow(c, BblAt(c.f, b).inss[j], n)
  {
    hide ConfigAt;
    forall n': nat | AtPoint(c, n', b, k) ensures RanBefore(c, n', BblAt(c.f, b).inss[j]) {
      BackInBlock(c, n', b, k, j);
      var e: nat := n' - (k - j);
      assert Executes(c, e, BblAt(c.f, b).inss[j]);
    }
  }

  /** An operand tagged by the analysis at position k of block b. */
  ghost predicate FreshOperand(f: Fn, defsIn: map<BblId, DefMap>, b: BblId, k: nat, op: Operand, t: Tag) {
    op.RegOp? && op.reg in TagsHere(f, defsIn, b, k) && TagsHere(f, defsIn, b, k)[op.reg] == t
  }

  ghost predicate FreshIns(f: Fn, defsIn: map<BblId, DefMap>, b: BblId, k: nat, ins: Ins) {
    forall l: nat :: l < |ins.operands| && l < |ins.defs| && ins.defs[l].Some? ==>
      NumDefs(ins.opcode) <= l && FreshOperand(f, defsIn, b, k, ins.operands[l], ins.defs[l].value)
  }

  ghost predicate Fresh(f: Fn, defsIn: map<BblId, DefMap>) {
    forall b, k: nat :: b in f.blocks && k < |BblAt(f, b).inss| ==>
      FreshIns(f, defsIn, b, k, InsAt(f.code, BblAt(f, b).inss[k]))
  }

  /** Right after the analysis all operand tags are honest, on every run. */
  lemma FreshIsHonest(c: Ctx)
    requires WfCtx(c) && Fresh(c.f, c.defsIn) && c.live == AllUses(c.f)
    ensures Honest(c)
  {
    forall n: nat, i: InsId | Executes(c, n, i) ensures HonestIns(c, n, InsAt(c.f.code, i)) {
      StaysInside(c, n);
      FreshInsIsHonest(c, n, ConfigAt(c, n).bbl, ConfigAt(c, n).k);
    }
  }

  lemma FreshInsIsHonest(c: Ctx, n: nat, b: BblId, k: nat)
    requires WfCtx(c) && Fresh(c.f, c.defsIn) && c.live == AllUses(c.f)
    requires AtPoint(c, n, b, k) && b in c.f.blocks && k < |BblAt(c.f, b).inss|
    ensures HonestIns(c, n, InsAt(c.f.code, BblAt(c.f, b).inss[k]))
  {
    var ins := InsAt(c.f.code, BblAt(c.f, b).inss[k]);
    assert FreshIns(c.f, c.defsIn, b, k, ins);
    forall l: nat | l < |ins.operands| && l < |ins.defs| && ins.defs[l].Some?
      ensures HonestOperand(c, n, ins.operands[l], ins.defs[l].value)
    {
      assert FreshOperand(c.f, c.defsIn, b, k, ins.operands[l], ins.defs[l].value);
      FreshUseIsHonest(c, n, b, k, ins.operands[l].reg);
    }
  }

  lemma FreshUseIsHonest(c: Ctx, n: nat, b: BblId, k: nat, y: RegId)
    requires WfCtx(c) && c.live == AllUses(c.f)
    requires AtPoint(c, n, b, k) && b in c.f.blocks && k < |BblAt(c.f, b).inss|
    requires UsesReg(InsAt(c.f.code, BblAt(c.f, b).inss[k]), y) && y in TagsNow(c, n)
    ensures HonestOperand(c, n, RegOp(y), TagsNow(c, n)[y])
  {
    var ids := BblAt(c.f, b).inss;
    TagsAreUpdate(c, n, b, k);
    if y in c.live {
      LiveIsKnown(c, n, y);
      if TagsNow(c, n)[y].DefIns? { HeldIfLive(c, n, y); }
    } else {
      UseIsExposed(c.f.code, ids, k, |ids|, y);
      assert y !in ExposedUses(c.f, b);
      var j := LocalDefIsIns(c.f.code, ids, k, y);
      HeldIfLocal(c, n, b, k, j, y);
    }
    hide Held, Known, TagsNow;
  }

  lemma TagsAreUpdate(c: Ctx, n: nat, b: BblId, k: nat)
    requires WfCtx(c) && AtPoint(c, n, b, k) && b in c.f.blocks && k <= |BblAt(c.f, b).inss|
    ensures b in c.defsIn && TagsNow(c, n) == c.defsIn[b] + DefsUpTo(c.f.code, BblAt(c.f, b).inss, k)
  {
    hide ConfigAt;
    TagsAtIsUpdate(c.f.code, BblAt(c.f, b).inss, k, c.defsIn[b]);
  }
}
