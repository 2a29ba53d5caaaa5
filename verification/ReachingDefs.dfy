/** Reaching definitions: the analysis in Base/reaching_defs.py (the "poor man's SSA").

    Every register at every point is tagged with the instruction that set it last or with the
    block where different definitions met. The main results say, for every function and every
    block order the worklist may meet,
      - the result is a solution (`Solution`), and the worklist terminates;
      - an `Ins` tag is exact (`InsTagIff`): it is there precisely when one instruction is the
        last definition on every path that defines the register at all;
      - the lookup that tags an operand never fails on a reachable block (`UseIsTagged`).
 */
module ReachingDefs {
  import opened IR

  // ---------------------------------------------------------------- one block

  function WithDst(ins: Ins, i: InsId, tags: DefMap): DefMap {
    match DstOf(ins) case Some(r) => tags[r := DefIns(i)] case None => tags
  }

  /** The tags after the first k of the instructions `ids`, when `tags` hold before them. */
  function TagsAt(code: seq<Ins>, ids: seq<InsId>, k: nat, tags: DefMap): DefMap
    requires k <= |ids|
  {
    if k == 0 then tags else WithDst(InsAt(code, ids[k - 1]), ids[k - 1], TagsAt(code, ids, k - 1, tags))
  }

  /** The last definition of each register among the first k instructions. */
  function DefsUpTo(code: seq<Ins>, ids: seq<InsId>, k: nat): DefMap
    requires k <= |ids|
  {
    TagsAt(code, ids, k, map[])
  }

  /** Registers read by the first k instructions before any of them sets them. */
  function UpUses(code: seq<Ins>, ids: seq<InsId>, k: nat): set<RegId>
    requires k <= |ids|
  {
    if k == 0 then {}
    else UpUses(code, ids, k - 1) + (UsesOf(InsAt(code, ids[k - 1])) - DefsUpTo(code, ids, k - 1).Keys)
  }

  /** Entering with `tags` and adding the local definitions is the same as replaying. */
  lemma {:induction false} TagsAtIsUpdate(code: seq<Ins>, ids: seq<InsId>, k: nat, tags: DefMap)
    requires k <= |ids|
    ensures TagsAt(code, ids, k, tags) == tags + DefsUpTo(code, ids, k)
  {
    if k > 0 {
      TagsAtIsUpdate(code, ids, k - 1, tags);
    }
  }

  lemma {:induction false} LocalDefIsIns(code: seq<Ins>, ids: seq<InsId>, k: nat, r: RegId) returns (j: nat)
    requires k <= |ids| && r in DefsUpTo(code, ids, k)
    ensures j < k && DefsUpTo(code, ids, k)[r] == DefIns(ids[j])
    ensures DstOf(InsAt(code, ids[j])) == Some(r)
    ensures forall l :: j < l < k ==> DstOf(InsAt(code, ids[l])) != Some(r)
  {
    if DstOf(InsAt(code, ids[k - 1])) == Some(r) {
      j := k - 1;
    } else {
      j := LocalDefIsIns(code, ids, k - 1, r);
    }
  }

  /** A use inside a block is either served by the block itself or exposed at its start. */
  lemma {:induction false} UseIsExposed(code: seq<Ins>, ids: seq<InsId>, k: nat, n: nat, r: RegId)
    requires k < n <= |ids| && UsesReg(InsAt(code, ids[k]), r)
    ensures r in DefsUpTo(code, ids, k) || r in UpUses(code, ids, n)
  {
    if k == n - 1 {
      assert r in UsesOf(InsAt(code, ids[k]));
    } else {
      UseIsExposed(code, ids, k, n - 1, r);
    }
  }

  lemma ReadsOneMore(ins: Ins, n: nat, r: RegId)
    requires n < |ins.operands|
    ensures ReadsFrom(ins, n, r) <==> ins.operands[n] == RegOp(r) || ReadsFrom(ins, n + 1, r)
  {
  }

  /** One instruction of `BblComputeDefs`: its sources are looked at before its destination. */
  method InsDefsAndUses(ins: Ins, i: InsId, defs0: DefMap, uses0: set<RegId>) returns (defs: DefMap, uses: set<RegId>)
    requires WfIns(ins)
    ensures defs == WithDst(ins, i, defs0)
    ensures uses == uses0 + (UsesOf(ins) - defs0.Keys)
  {
    hide ReadsFrom, UsesOf;
    defs, uses := defs0, uses0;
    var numDefs := NumDefs(ins.opcode);
    var n := |ins.operands|;
    NothingReadFrom(ins);
    while n > 0
      invariant 0 <= n <= |ins.operands|
      invariant defs == if n >= numDefs then defs0 else WithDst(ins, i, defs0)
      invariant forall r :: r in uses <==> r in uses0 || (r !in defs0 && ReadsFrom(ins, if n >= numDefs then n else numDefs, r))
    {
      n := n - 1;
      forall r ensures ReadsFrom(ins, n, r) <==> ins.operands[n] == RegOp(r) || ReadsFrom(ins, n + 1, r) {
        ReadsOneMore(ins, n, r);
      }
      if !ins.operands[n].RegOp? { continue; }
      var reg := ins.operands[n].reg;
      if n < numDefs {
        defs := defs[reg := DefIns(i)];
      } else if reg !in defs {
        uses := uses + {reg};
      }
    }
  }

  lemma NothingReadFrom(ins: Ins)
    ensures forall r :: !ReadsFrom(ins, |ins.operands|, r)
  {
  }

  method BblComputeDefs(code: seq<Ins>, ids: seq<InsId>) returns (defs: DefMap, uses: set<RegId>)
    requires forall i :: i in ids ==> i < |code| && WfIns(code[i])
    ensures defs == DefsUpTo(code, ids, |ids|)
    ensures uses == UpUses(code, ids, |ids|)
  {
    defs, uses := map[], {};
    for k := 0 to |ids|
      invariant defs == DefsUpTo(code, ids, k)
      invariant uses == UpUses(code, ids, k)
    {
      assert ids[k] in ids;
      defs, uses := InsDefsAndUses(code[ids[k]], ids[k], defs, uses);
    }
  }

  // ---------------------------------------------------------------- the specification: paths

  /** A path along edges from the first block to b. */
  ghost predicate PathTo(f: Fn, p: seq<BblId>, b: BblId) {
    && p != []
    && p[0] == First(f) && p[|p| - 1] == b
    && forall i :: 0 <= i < |p| - 1 ==> Edge(f, p[i], p[i + 1])
  }

  predicate Edge(f: Fn, b: BblId, t: BblId) {
    t in BblAt(f, b).edgeOut
  }

  ghost predicate Reachable(f: Fn, b: BblId) {
    exists p :: PathTo(f, p, b)
  }

  ghost predicate AllReachable(f: Fn) {
    forall b :: b in f.blocks ==> Reachable(f, b)
  }

  function BlockDefs(f: Fn, b: BblId): DefMap {
    DefsUpTo(f.code, BblAt(f, b).inss, |BblAt(f, b).inss|)
  }

  function ExposedUses(f: Fn, b: BblId): set<RegId> {
    UpUses(f.code, BblAt(f, b).inss, |BblAt(f, b).inss|)
  }

  lemma BlockDefIsIns(f: Fn, b: BblId, r: RegId)
    requires r in BlockDefs(f, b)
    ensures BlockDefs(f, b)[r].DefIns?
  {
    var _ := LocalDefIsIns(f.code, BblAt(f, b).inss, |BblAt(f, b).inss|, r);
  }

  ghost function AllUses(f: Fn): set<RegId> {
    set b, r | b in f.blocks && r in ExposedUses(f, b) :: r
  }

  /** What set a register last: it came in at the start of the function, or an instruction did. */
  datatype Def = Entry | ByIns(ins: InsId)

  /** The last definition of r on a path, just before its n-th block runs. */
  ghost function LastDefAt(f: Fn, live: set<RegId>, p: seq<BblId>, n: nat, r: RegId): Option<Def>
    requires n < |p|
  {
    if n == 0 then (if r in live then Some(Entry) else None)
    else
      var defs := BlockDefs(f, p[n - 1]);
      if r in defs && defs[r].DefIns? then Some(ByIns(defs[r].ins)) else LastDefAt(f, live, p, n - 1, r)
  }

  ghost function LastDef(f: Fn, live: set<RegId>, p: seq<BblId>, r: RegId): Option<Def> {
    if p == [] then None else LastDefAt(f, live, p, |p| - 1, r)
  }

  /** Paths to b disagree about where r was set, or one brings in the value from the start. */
  ghost predicate Ambiguous(f: Fn, live: set<RegId>, b: BblId, r: RegId) {
    exists p, q :: PathTo(f, p, b) && PathTo(f, q, b) && Disagree(f, live, p, q, r)
  }

  ghost predicate Disagree(f: Fn, live: set<RegId>, p: seq<BblId>, q: seq<BblId>, r: RegId) {
    var dp, dq := LastDef(f, live, p, r), LastDef(f, live, q, r);
    dp.Some? && dq.Some? && (dp.value == Entry || dp != dq)
  }

  ghost predicate SomePathDefines(f: Fn, live: set<RegId>, b: BblId, r: RegId, i: InsId) {
    exists p :: PathTo(f, p, b) && LastDef(f, live, p, r) == Some(ByIns(i))
  }

  /** A tag that some path, or some disagreement between paths, accounts for. */
  ghost predicate Justified(f: Fn, live: set<RegId>, b: BblId, r: RegId, t: Tag) {
    match t
    case DefIns(i) => SomePathDefines(f, live, b, r, i)
    case DefBbl(_) => Ambiguous(f, live, b, r)
  }

  // ---------------------------------------------------------------- the specification: solutions

  /** The value flowing over an edge arrives as it is, or has met another one in block s. */
  predicate ArrivesAt(s: BblId, out: DefMap, into: DefMap) {
    forall r :: r in out ==> r in into && (into[r] == out[r] || into[r] == DefBbl(s))
  }

  ghost predicate Solution(f: Fn, live: set<RegId>, defsIn: map<BblId, DefMap>) {
    && First(f) in f.blocks
    && (forall b :: b in f.blocks ==> b in defsIn)
    && (forall r :: r in live ==> r in defsIn[First(f)] && defsIn[First(f)][r] == DefBbl(First(f)))
    && (forall b, s :: b in f.blocks && s in f.blocks && Edge(f, b, s) ==>
          ArrivesAt(s, defsIn[b] + BlockDefs(f, b), defsIn[s]))
  }

  /** Definitions of r met in a block that the path went through since r was set last. */
  ghost predicate MetSince(f: Fn, p: seq<BblId>, n: nat, r: RegId, s: BblId)
    requires n < |p|
  {
    exists j: nat :: j <= n && MetIn(f, p, j, n, r, s)
  }

  predicate MetIn(f: Fn, p: seq<BblId>, j: nat, n: nat, r: RegId, s: BblId)
    requires j <= n < |p|
  {
    p[j] == s && forall i :: j <= i < n ==> r !in BlockDefs(f, p[i])
  }

  /** Along every path, a solution holds the last definition, or says where definitions met since. */
  lemma {:induction false} SolutionCoversPaths(f: Fn, live: set<RegId>, defsIn: map<BblId, DefMap>, p: seq<BblId>, b: BblId, n: nat, r: RegId)
    requires WfLayout(f) && Solution(f, live, defsIn) && PathTo(f, p, b) && n < |p|
    ensures p[n] in f.blocks
    ensures LastDefAt(f, live, p, n, r).Some? ==>
      r in defsIn[p[n]] &&
        match defsIn[p[n]][r]
        case DefIns(i) => LastDefAt(f, live, p, n, r) == Some(ByIns(i))
        case DefBbl(s) => MetSince(f, p, n, r, s)
  {
    assert MetIn(f, p, n, n, r, p[n]);
    if n > 0 {
      SolutionCoversPaths(f, live, defsIn, p, b, n - 1, r);
      assert Edge(f, p[n - 1], p[n - 1 + 1]);
      if r in BlockDefs(f, p[n - 1]) {
        BlockDefIsIns(f, p[n - 1], r);
      } else if r in defsIn[p[n - 1]] && defsIn[p[n - 1]][r].DefBbl? && MetSince(f, p, n - 1, r, defsIn[p[n - 1]][r].bbl) {
        var s := defsIn[p[n - 1]][r].bbl;
        var j: nat :| j <= n - 1 && MetIn(f, p, j, n - 1, r, s);
        assert MetIn(f, p, j, n, r, s);
      }
    }
  }

  /** An instruction tag is exact. */
  lemma InsTagIff(f: Fn, live: set<RegId>, defsIn: map<BblId, DefMap>, b: BblId, r: RegId, i: InsId)
    requires WfLayout(f) && Solution(f, live, defsIn) && b in f.blocks
    requires r in defsIn[b] ==> Justified(f, live, b, r, defsIn[b][r])
    ensures r in defsIn[b] && defsIn[b][r] == DefIns(i) <==>
      SomePathDefines(f, live, b, r, i) &&
      forall p :: PathTo(f, p, b) && LastDef(f, live, p, r).Some? ==> LastDef(f, live, p, r) == Some(ByIns(i))
  {
    if r in defsIn[b] && defsIn[b][r] == DefIns(i) {
      forall p | PathTo(f, p, b) && LastDef(f, live, p, r).Some?
        ensures LastDef(f, live, p, r) == Some(ByIns(i))
      {
        SolutionCoversPaths(f, live, defsIn, p, b, |p| - 1, r);
      }
    }
    if SomePathDefines(f, live, b, r, i) &&
       (forall p :: PathTo(f, p, b) && LastDef(f, live, p, r).Some? ==> LastDef(f, live, p, r) == Some(ByIns(i)))
    {
      var p :| PathTo(f, p, b) && LastDef(f, live, p, r) == Some(ByIns(i));
      SolutionCoversPaths(f, live, defsIn, p, b, |p| - 1, r);
    }
  }

  /** Justification travels along an edge, through the block at its start. */
  lemma JustifiedAcrossEdge(f: Fn, live: set<RegId>, b: BblId, s: BblId, r: RegId, tags: DefMap)
    requires WfLayout(f) && Reachable(f, b) && Edge(f, b, s)
    requires r in tags + BlockDefs(f, b)
    requires r in tags ==> Justified(f, live, b, r, tags[r])
    ensures Justified(f, live, s, r, (tags + BlockDefs(f, b))[r])
  {
    if r in BlockDefs(f, b) {
      BlockDefIsIns(f, b, r);
      var p :| PathTo(f, p, b);
      ExtendPath(f, live, p, b, s, r);
      assert LastDef(f, live, p + [s], r) == Some(ByIns(BlockDefs(f, b)[r].ins));
    } else {
      match tags[r]
      case DefIns(i) =>
        var p :| PathTo(f, p, b) && LastDef(f, live, p, r) == Some(ByIns(i));
        ExtendPath(f, live, p, b, s, r);
        assert LastDef(f, live, p + [s], r) == Some(ByIns(i));
      case DefBbl(_) =>
        var p, q :| PathTo(f, p, b) && PathTo(f, q, b) && Disagree(f, live, p, q, r);
        ExtendPath(f, live, p, b, s, r);
        ExtendPath(f, live, q, b, s, r);
        assert Disagree(f, live, p + [s], q + [s], r);
    }
  }

  lemma ExtendPath(f: Fn, live: set<RegId>, p: seq<BblId>, b: BblId, s: BblId, r: RegId)
    requires PathTo(f, p, b) && Edge(f, b, s)
    ensures PathTo(f, p + [s], s)
    ensures r !in BlockDefs(f, b) ==> LastDef(f, live, p + [s], r) == LastDef(f, live, p, r)
    ensures r in BlockDefs(f, b) ==>
      BlockDefs(f, b)[r].DefIns? && LastDef(f, live, p + [s], r) == Some(ByIns(BlockDefs(f, b)[r].ins))
  {
    var q := p + [s];
    LastDefPrefix(f, live, p, s, |p| - 1, r);
    if r in BlockDefs(f, b) { BlockDefIsIns(f, b, r); }
    forall i | 0 <= i < |q| - 1 ensures Edge(f, q[i], q[i + 1]) {
      if i < |p| - 1 { assert Edge(f, p[i], p[i + 1]); }
    }
  }

  lemma {:induction false} LastDefPrefix(f: Fn, live: set<RegId>, p: seq<BblId>, s: BblId, n: nat, r: RegId)
    requires n < |p|
    ensures LastDefAt(f, live, p + [s], n, r) == LastDefAt(f, live, p, n, r)
  {
    if n > 0 { LastDefPrefix(f, live, p, s, n - 1, r); }
  }

  // ---------------------------------------------------------------- merging

  function Merged(defs: DefMap, other: DefMap, top: Tag): DefMap {
    map r | r in defs.Keys + other.Keys ::
      if r !in other then defs[r]
      else if r !in defs || defs[r] == other[r] then other[r]
      else top
  }

  /** `change` may be true although nothing moved: an entry that is already top counts again. */
  predicate Differs(defs: DefMap, other: DefMap) {
    exists r :: r in other && (r !in defs || defs[r] != other[r])
  }

  method MergeReachingDefs(defs: DefMap, other: DefMap, top: Tag) returns (merged: DefMap, change: bool)
    ensures merged == Merged(defs, other, top)
    ensures change <==> Differs(defs, other)
  {
    merged, change := defs, false;
    var todo := other.Keys;
    while todo != {}
      invariant todo <= other.Keys
      invariant merged.Keys == defs.Keys + (other.Keys - todo)
      invariant forall r :: r in merged ==>
        merged[r] == (if r !in other || r in todo then defs[r]
                      else if r !in defs || defs[r] == other[r] then other[r]
                      else top)
      invariant change <==> exists r :: r in other && r !in todo && (r !in defs || defs[r] != other[r])
      decreases todo
    {
      var k :| k in todo;
      todo := todo - {k};
      var v := other[k];
      if k !in merged {
        change := true;
        merged := merged[k := v];
      } else {
        if v != merged[k] {
          merged := merged[k := top];
          change := true;
        }
      }
    }
  }

  lemma MergedArrives(s: BblId, defs: DefMap, other: DefMap, x: DefMap)
    ensures ArrivesAt(s, other, Merged(defs, other, DefBbl(s)))
    ensures ArrivesAt(s, x, defs) ==> ArrivesAt(s, x, Merged(defs, other, DefBbl(s)))
    ensures !Differs(defs, other) ==> Merged(defs, other, DefBbl(s)) == defs
  {
  }

  lemma MergedBelow(s: BblId, x: DefMap, defs: DefMap, other: DefMap, own: DefMap)
    requires ArrivesAt(s, x, defs + own)
    ensures ArrivesAt(s, x, Merged(defs, other, DefBbl(s)) + own)
  {
  }

  /** A property of tags that the worklist cannot leave: it holds of the tags at the start, it
      travels along edges, and two different tags that have it make the top of a block have it. */
  ghost predicate Closed(f: Fn, live: set<RegId>, good: (BblId, RegId, Tag) -> bool) {
    && (forall r :: r in live ==> good(First(f), r, DefBbl(First(f))))
    && (forall b, s, r, t :: b in f.blocks && Edge(f, b, s) && r !in BlockDefs(f, b) && good(b, r, t) ==> good(s, r, t))
    && (forall b, s, r :: b in f.blocks && Edge(f, b, s) && r in BlockDefs(f, b) ==> good(s, r, BlockDefs(f, b)[r]))
    && (forall s, r, t, u {:trigger good(s, r, t), good(s, r, u)} :: good(s, r, t) && good(s, r, u) && t != u ==> good(s, r, DefBbl(s)))
  }

  ghost predicate AllGood(good: (BblId, RegId, Tag) -> bool, b: BblId, tags: DefMap) {
    forall r :: r in tags ==> good(b, r, tags[r])
  }

  lemma GoodAcrossEdge(f: Fn, live: set<RegId>, good: (BblId, RegId, Tag) -> bool, b: BblId, s: BblId, tags: DefMap)
    requires Closed(f, live, good) && b in f.blocks && Edge(f, b, s) && AllGood(good, b, tags)
    ensures AllGood(good, s, tags + BlockDefs(f, b))
  {
  }

  lemma GoodAfterMerge(f: Fn, live: set<RegId>, good: (BblId, RegId, Tag) -> bool, s: BblId, defs: DefMap, other: DefMap)
    requires Closed(f, live, good) && AllGood(good, s, defs) && AllGood(good, s, other)
    ensures AllGood(good, s, Merged(defs, other, DefBbl(s)))
  {
  }

  /** Being accounted for by paths is such a property. */
  lemma JustifiedIsClosed(f: Fn, live: set<RegId>)
    requires WfLayout(f) && AllReachable(f)
    ensures Closed(f, live, (b: BblId, r: RegId, t: Tag) => Justified(f, live, b, r, t))
  {
    EntryIsJustified(f, live);
    forall b, s, r, t | b in f.blocks && Edge(f, b, s) && r !in BlockDefs(f, b) && Justified(f, live, b, r, t)
      ensures Justified(f, live, s, r, t)
    {
      JustifiedAcrossEdge(f, live, b, s, r, map[r := t]);
    }
    forall b, s, r | b in f.blocks && Edge(f, b, s) && r in BlockDefs(f, b)
      ensures Justified(f, live, s, r, BlockDefs(f, b)[r])
    {
      JustifiedAcrossEdge(f, live, b, s, r, map[]);
    }
    forall s, r, t, u {:trigger Justified(f, live, s, r, t), Justified(f, live, s, r, u)} | Justified(f, live, s, r, t) && Justified(f, live, s, r, u) && t != u
      ensures Justified(f, live, s, r, DefBbl(s))
    {
      TwoTagsDisagree(f, live, s, r, t, u);
    }
  }

  lemma TwoTagsDisagree(f: Fn, live: set<RegId>, s: BblId, r: RegId, t: Tag, u: Tag)
    requires Justified(f, live, s, r, t) && Justified(f, live, s, r, u) && t != u
    ensures Ambiguous(f, live, s, r)
  {
    if t.DefIns? && u.DefIns? {
      var p :| PathTo(f, p, s) && LastDef(f, live, p, r) == Some(ByIns(t.ins));
      var q :| PathTo(f, q, s) && LastDef(f, live, q, r) == Some(ByIns(u.ins));
      assert Disagree(f, live, p, q, r);
    }
  }

  // ---------------------------------------------------------------- the worklist

  ghost predicate Flows(f: Fn, defsIn: map<BblId, DefMap>, defsOut: map<BblId, DefMap>, b: BblId, ts: seq<BblId>)
    requires b in defsOut && forall t :: t in f.blocks ==> t in defsIn
  {
    forall t :: t in ts && t in f.blocks ==> ArrivesAt(t, defsOut[b], defsIn[t])
  }

  function Out(f: Fn, defsIn: map<BblId, DefMap>, b: BblId): DefMap
    requires b in defsIn
  {
    defsIn[b] + BlockDefs(f, b)
  }

  ghost function Universe(f: Fn, live: set<RegId>): set<RegId> {
    live + set b, r | b in f.blocks && r in BlockDefs(f, b) :: r
  }

  /** The out-entries still without a tag, and those not yet at the top of the lattice. */
  ghost function Missing(f: Fn, regs: set<RegId>, defsOut: map<BblId, DefMap>): set<(BblId, RegId)> {
    set b, r | b in f.blocks && r in regs && (b in defsOut ==> r !in defsOut[b]) :: (b, r)
  }

  ghost function BelowTop(f: Fn, regs: set<RegId>, defsOut: map<BblId, DefMap>): set<(BblId, RegId)> {
    set b, r | b in f.blocks && r in regs &&
      (b in defsOut && r in defsOut[b] ==> defsOut[b][r] != DefBbl(b)) :: (b, r)
  }

  /** How far the out-maps can still climb. */
  ghost function StepsLeft(f: Fn, regs: set<RegId>, defsOut: map<BblId, DefMap>): nat {
    |Missing(f, regs, defsOut)| + |BelowTop(f, regs, defsOut)|
  }

  /** An out-map that moved moved up, so there are fewer steps left. */
  lemma OutClimbs(f: Fn, regs: set<RegId>, defsOut: map<BblId, DefMap>, b: BblId, out: DefMap)
    requires b in f.blocks && b in defsOut
    requires ArrivesAt(b, defsOut[b], out) && out != defsOut[b] && out.Keys <= regs
    ensures StepsLeft(f, regs, defsOut[b := out]) < StepsLeft(f, regs, defsOut)
  {
    var before := defsOut[b];
    assert exists r :: r in out && (r !in before || before[r] != out[r]) by {
      if forall r :: r in out ==> r in before && before[r] == out[r] { assert false; }
    }
    var r :| r in out && (r !in before || before[r] != out[r]);
    var after := defsOut[b := out];
    if r !in before {
      assert (b, r) in Missing(f, regs, defsOut) && (b, r) !in Missing(f, regs, after);
    } else {
      assert (b, r) in BelowTop(f, regs, defsOut) && (b, r) !in BelowTop(f, regs, after);
    }
    Smaller(Missing(f, regs, after), Missing(f, regs, defsOut));
    Smaller(BelowTop(f, regs, after), BelowTop(f, regs, defsOut));
  }

  lemma Smaller<T>(a: set<T>, b: set<T>)
    requires a <= b
    ensures |a| <= |b| && (a < b ==> |a| < |b|)
  {
    assert b == a + (b - a);
  }

  lemma InUniverse(f: Fn, live: set<RegId>, b: BblId)
    requires b in f.blocks
    ensures BlockDefs(f, b).Keys <= Universe(f, live)
  {
  }

  /** What holds between worklist steps, when block b has passed its tags on to its first k
      successors only (k is the number of its successors between rounds). The blocks in
      `pending` are those whose out-map may be stale; all of them are on the worklist. */
  ghost predicate Progress(f: Fn, live: set<RegId>, defsIn: map<BblId, DefMap>, defsOut: map<BblId, DefMap>,
                           pending: set<BblId>, b: BblId, k: nat)
  {
    && Keyed(f, live, defsIn, defsOut)
    && Passed(f, defsIn, defsOut, b, k)
    && OutsBelow(f, defsIn, defsOut)
    && Settled(f, defsIn, defsOut, pending)
  }

  /** Every out-map has reached the successors, except those of b after the k-th. */
  ghost predicate Passed(f: Fn, defsIn: map<BblId, DefMap>, defsOut: map<BblId, DefMap>, b: BblId, k: nat) {
    && (forall c :: c in f.blocks ==> c in defsIn && c in defsOut)
    && (forall c :: c in f.blocks && c != b ==> Flows(f, defsIn, defsOut, c, BblAt(f, c).edgeOut))
    && (b in f.blocks && k <= |BblAt(f, b).edgeOut| ==> Flows(f, defsIn, defsOut, b, BblAt(f, b).edgeOut[..k]))
  }

  /** No out-map is ahead of what its block would pass on now. */
  ghost predicate OutsBelow(f: Fn, defsIn: map<BblId, DefMap>, defsOut: map<BblId, DefMap>) {
    && (forall c :: c in f.blocks ==> c in defsIn && c in defsOut)
    && (forall c :: c in f.blocks ==> ArrivesAt(c, defsOut[c], Out(f, defsIn, c)))
  }

  /** Only pending blocks may have a stale out-map. */
  ghost predicate Settled(f: Fn, defsIn: map<BblId, DefMap>, defsOut: map<BblId, DefMap>, pending: set<BblId>) {
    && (forall c :: c in f.blocks ==> c in defsIn && c in defsOut)
    && (forall c :: c in f.blocks && c !in pending ==> defsOut[c] == Out(f, defsIn, c))
  }

  ghost predicate Keyed(f: Fn, live: set<RegId>, defsIn: map<BblId, DefMap>, defsOut: map<BblId, DefMap>) {
    && First(f) in f.blocks
    && (forall c :: c in f.blocks ==> c in defsIn && c in defsOut && defsIn[c].Keys <= Universe(f, live))
    && (forall r :: r in live ==> r in defsIn[First(f)] && defsIn[First(f)][r] == DefBbl(First(f)))
  }

  lemma PassedBetweenRounds(f: Fn, defsIn: map<BblId, DefMap>, defsOut: map<BblId, DefMap>, b: BblId, c: BblId)
    requires b in f.blocks && c in f.blocks
    requires Passed(f, defsIn, defsOut, b, |BblAt(f, b).edgeOut|)
    ensures Passed(f, defsIn, defsOut, c, |BblAt(f, c).edgeOut|)
    ensures forall t :: t in f.blocks ==> Flows(f, defsIn, defsOut, t, BblAt(f, t).edgeOut)
  {
    assert BblAt(f, b).edgeOut[..|BblAt(f, b).edgeOut|] == BblAt(f, b).edgeOut;
    assert BblAt(f, c).edgeOut[..|BblAt(f, c).edgeOut|] == BblAt(f, c).edgeOut;
  }

  /** Taking block b off the worklist and recording its new out-map. */
  lemma ProgressPop(f: Fn, live: set<RegId>, defsIn: map<BblId, DefMap>, defsOut: map<BblId, DefMap>,
                    pending: set<BblId>, last: BblId, b: BblId)
    requires WfLayout(f) && last in f.blocks && b in f.blocks
    requires b in defsIn && b in defsOut && Progress(f, live, defsIn, defsOut, pending, last, |BblAt(f, last).edgeOut|)
    ensures Out(f, defsIn, b).Keys <= Universe(f, live)
    ensures ArrivesAt(b, defsOut[b], Out(f, defsIn, b))
    ensures Progress(f, live, defsIn, defsOut[b := Out(f, defsIn, b)], pending - {b}, b, 0)
    ensures Out(f, defsIn, b) == defsOut[b] ==> Progress(f, live, defsIn, defsOut, pending - {b}, b, |BblAt(f, b).edgeOut|)
  {
    OutKeys(f, live, defsIn, defsOut, b);
    PassedBetweenRounds(f, defsIn, defsOut, last, b);
    PassedAfterPop(f, defsIn, defsOut, last, b);
    KeyedAfterPop(f, live, defsIn, defsOut, b, Out(f, defsIn, b));
    BelowAfterPop(f, defsIn, defsOut, b);
    SettledAfterPop(f, defsIn, defsOut, pending, b);
    hide Keyed, Passed, OutsBelow, Settled, WfLayout, ArrivesAt, Universe, Out;
  }

  lemma OutKeys(f: Fn, live: set<RegId>, defsIn: map<BblId, DefMap>, defsOut: map<BblId, DefMap>, b: BblId)
    requires Keyed(f, live, defsIn, defsOut) && b in f.blocks
    ensures Out(f, defsIn, b).Keys <= Universe(f, live)
  {
    InUniverse(f, live, b);
  }

  lemma PassedAfterPop(f: Fn, defsIn: map<BblId, DefMap>, defsOut: map<BblId, DefMap>, last: BblId, b: BblId)
    requires last in f.blocks && b in f.blocks && b in defsIn
    requires Passed(f, defsIn, defsOut, last, |BblAt(f, last).edgeOut|)
    ensures Passed(f, defsIn, defsOut[b := Out(f, defsIn, b)], b, 0)
  {
    PassedBetweenRounds(f, defsIn, defsOut, last, b);
    var after := defsOut[b := Out(f, defsIn, b)];
    forall c | c in f.blocks && c != b ensures Flows(f, defsIn, after, c, BblAt(f, c).edgeOut) {
      assert Flows(f, defsIn, defsOut, c, BblAt(f, c).edgeOut);
    }
  }

  lemma KeyedAfterPop(f: Fn, live: set<RegId>, defsIn: map<BblId, DefMap>, defsOut: map<BblId, DefMap>, b: BblId, out: DefMap)
    requires Keyed(f, live, defsIn, defsOut)
    ensures Keyed(f, live, defsIn, defsOut[b := out])
  {
  }

  lemma BelowAfterPop(f: Fn, defsIn: map<BblId, DefMap>, defsOut: map<BblId, DefMap>, b: BblId)
    requires b in f.blocks && OutsBelow(f, defsIn, defsOut)
    ensures ArrivesAt(b, defsOut[b], Out(f, defsIn, b))
    ensures OutsBelow(f, defsIn, defsOut[b := Out(f, defsIn, b)])
  {
  }

  lemma SettledAfterPop(f: Fn, defsIn: map<BblId, DefMap>, defsOut: map<BblId, DefMap>, pending: set<BblId>, b: BblId)
    requires b in f.blocks && Settled(f, defsIn, defsOut, pending)
    ensures Settled(f, defsIn, defsOut[b := Out(f, defsIn, b)], pending - {b})
    ensures Out(f, defsIn, b) == defsOut[b] ==> Settled(f, defsIn, defsOut, pending - {b})
  {
  }

  /** Passing the tags of b on to one more successor. */
  lemma ProgressMerge(f: Fn, live: set<RegId>, defsIn: map<BblId, DefMap>, defsOut: map<BblId, DefMap>,
                      pending: set<BblId>, b: BblId, k: nat)
    requires WfLayout(f) && b in f.blocks && k < |BblAt(f, b).edgeOut|
    requires Progress(f, live, defsIn, defsOut, pending, b, k)
    requires b in defsOut && BblAt(f, b).edgeOut[k] in defsIn
    requires defsOut[b].Keys <= Universe(f, live)
    ensures var s := BblAt(f, b).edgeOut[k];
      Progress(f, live, defsIn[s := Merged(defsIn[s], defsOut[b], DefBbl(s))], defsOut,
               if Differs(defsIn[s], defsOut[b]) then pending + {s} else pending, b, k + 1)
  {
    var s := BblAt(f, b).edgeOut[k];
    assert s in BblAt(f, b).edgeOut && s in f.blocks;
    PassedAfterMerge(f, defsIn, defsOut, b, s, k);
    KeyedAfterMerge(f, live, defsIn, defsOut, s, defsOut[b]);
    BelowAfterMerge(f, defsIn, defsOut, s, defsOut[b]);
    SettledAfterMerge(f, defsIn, defsOut, pending, s, defsOut[b]);
    hide Keyed, Passed, OutsBelow, Settled, WfLayout, Merged, Differs, Universe, Out;
  }

  lemma KeyedAfterMerge(f: Fn, live: set<RegId>, defsIn: map<BblId, DefMap>, defsOut: map<BblId, DefMap>, s: BblId, out: DefMap)
    requires Keyed(f, live, defsIn, defsOut) && s in f.blocks && out.Keys <= Universe(f, live)
    ensures Keyed(f, live, defsIn[s := Merged(defsIn[s], out, DefBbl(s))], defsOut)
  {
    hide Universe;
  }

  lemma BelowAfterMerge(f: Fn, defsIn: map<BblId, DefMap>, defsOut: map<BblId, DefMap>, s: BblId, out: DefMap)
    requires s in f.blocks && OutsBelow(f, defsIn, defsOut)
    ensures OutsBelow(f, defsIn[s := Merged(defsIn[s], out, DefBbl(s))], defsOut)
  {
    MergedBelow(s, defsOut[s], defsIn[s], out, BlockDefs(f, s));
    hide ArrivesAt, Merged, BlockDefs;
  }

  lemma SettledAfterMerge(f: Fn, defsIn: map<BblId, DefMap>, defsOut: map<BblId, DefMap>, pending: set<BblId>, s: BblId, out: DefMap)
    requires s in f.blocks && Settled(f, defsIn, defsOut, pending)
    ensures Settled(f, defsIn[s := Merged(defsIn[s], out, DefBbl(s))], defsOut,
                    if Differs(defsIn[s], out) then pending + {s} else pending)
  {
    MergedArrives(s, defsIn[s], out, map[]);
    hide Merged, Differs, BlockDefs;
  }

  lemma PassedAfterMerge(f: Fn, defsIn: map<BblId, DefMap>, defsOut: map<BblId, DefMap>, b: BblId, s: BblId, k: nat)
    requires b in f.blocks && k < |BblAt(f, b).edgeOut| && BblAt(f, b).edgeOut[k] == s && s in f.blocks
    requires Passed(f, defsIn, defsOut, b, k)
    ensures Passed(f, defsIn[s := Merged(defsIn[s], defsOut[b], DefBbl(s))], defsOut, b, k + 1)
  {
    FlowsKept(f, defsIn, defsOut, b, s, defsOut[b], BblAt(f, b).edgeOut, k);
  }

  ghost predicate OnWorklist(f: Fn, pending: set<BblId>, active: seq<BblId>) {
    && (forall c :: c in pending ==> c in active)
    && (forall i :: 0 <= i < |active| ==> active[i] in f.blocks)
  }

  /** The inner loop of the worklist: one round of merges into the successors of b. */
  method PassOn(f: Fn, ghost live: set<RegId>, defsIn0: map<BblId, DefMap>, defsOut: map<BblId, DefMap>,
                ghost pending0: set<BblId>, active0: seq<BblId>, b: BblId, ghost good: (BblId, RegId, Tag) -> bool)
    returns (defsIn: map<BblId, DefMap>, ghost pending: set<BblId>, active: seq<BblId>)
    requires WfLayout(f) && b in f.blocks && OnWorklist(f, pending0, active0)
    requires b in defsIn0 && b in defsOut && Progress(f, live, defsIn0, defsOut, pending0, b, 0)
    requires defsOut[b] == Out(f, defsIn0, b) && defsOut[b].Keys <= Universe(f, live)
    requires Closed(f, live, good) && AllBlocksGood(f, good, defsIn0)
    ensures OnWorklist(f, pending, active)
    ensures Progress(f, live, defsIn, defsOut, pending, b, |BblAt(f, b).edgeOut|)
    ensures AllBlocksGood(f, good, defsIn)
  {
    hide Progress, Closed, Universe, ArrivesAt, BlockDefs;
    defsIn, pending, active := defsIn0, pending0, active0;
    var newOut := defsOut[b];
    var succs := BblAt(f, b).edgeOut;
    forall t | t in succs ensures AllGood(good, t, newOut) {
      GoodAcrossEdge(f, live, good, b, t, defsIn[b]);
    }
    for k := 0 to |succs|
      invariant OnWorklist(f, pending, active)
      invariant Progress(f, live, defsIn, defsOut, pending, b, k)
      invariant AllBlocksGood(f, good, defsIn)
    {
      var s := succs[k];
      assert s in succs;
      var into, change := MergeReachingDefs(defsIn[s], newOut, DefBbl(s));
      ProgressMerge(f, live, defsIn, defsOut, pending, b, k);
      GoodAfterMerge(f, live, good, s, defsIn[s], newOut);
      defsIn := defsIn[s := into];
      if change {
        pending, active := pending + {s}, active + [s];
      }
    }
  }

  /** All blocks are active, with the first on top; only the first block has tags. */
  method InitTags(f: Fn, live: set<RegId>, ghost good: (BblId, RegId, Tag) -> bool)
    returns (defsIn: map<BblId, DefMap>, defsOut: map<BblId, DefMap>, active: seq<BblId>)
    requires WfLayout(f) && WfOrder(f)
    ensures OnWorklist(f, f.blocks, active)
    ensures Progress(f, live, defsIn, defsOut, f.blocks, First(f), |BblAt(f, First(f)).edgeOut|)
    ensures forall b :: b in f.blocks ==> b in defsOut
    ensures Closed(f, live, good) ==> AllBlocksGood(f, good, defsIn)
  {
    var first := f.order[0];
    var tags := map r | r in live :: DefBbl(first);
    defsIn := map b | b in f.blocks :: if b == first then tags else map[];
    defsOut := map b | b in f.blocks :: map[];
    active := seq(|f.order|, i requires 0 <= i < |f.order| => f.order[|f.order| - 1 - i]);
    ReversedListsAll(f, active);
    ProgressStarts(f, live, defsIn, defsOut);
    hide Progress, OnWorklist;
  }

  lemma ReversedListsAll(f: Fn, active: seq<BblId>)
    requires WfOrder(f) && |active| == |f.order|
    requires forall i :: 0 <= i < |f.order| ==> active[i] == f.order[|f.order| - 1 - i]
    ensures OnWorklist(f, f.blocks, active)
  {
    forall b | b in f.blocks ensures b in active {
      var i :| 0 <= i < |f.order| && f.order[i] == b;
      assert active[|f.order| - 1 - i] == b;
    }
  }

  lemma ProgressStarts(f: Fn, live: set<RegId>, defsIn: map<BblId, DefMap>, defsOut: map<BblId, DefMap>)
    requires WfLayout(f)
    requires forall b :: b in f.blocks ==> b in defsIn && b in defsOut && defsOut[b] == map[]
    requires defsIn[First(f)] == map r | r in live :: DefBbl(First(f))
    requires forall b :: b in f.blocks && b != First(f) ==> defsIn[b] == map[]
    ensures Progress(f, live, defsIn, defsOut, f.blocks, First(f), |BblAt(f, First(f)).edgeOut|)
  {
    assert Keyed(f, live, defsIn, defsOut);
    assert Passed(f, defsIn, defsOut, First(f), |BblAt(f, First(f)).edgeOut|);
    assert OutsBelow(f, defsIn, defsOut);
    assert Settled(f, defsIn, defsOut, f.blocks);
    hide Keyed, Passed, OutsBelow, Settled;
  }

  /** Every block has an entry, and only tags with the property `good`. */
  ghost predicate AllBlocksGood(f: Fn, good: (BblId, RegId, Tag) -> bool, defsIn: map<BblId, DefMap>) {
    forall b :: b in f.blocks ==> b in defsIn && AllGood(good, b, defsIn[b])
  }

  method ReachingDefsFixpoint(f: Fn, live: set<RegId>, defsBbl: map<BblId, DefMap>, ghost good: (BblId, RegId, Tag) -> bool)
    returns (defsIn: map<BblId, DefMap>)
    requires WfLayout(f) && WfOrder(f)
    requires forall b :: b in f.blocks ==> b in defsBbl && defsBbl[b] == BlockDefs(f, b)
    requires Closed(f, live, good)
    ensures Solution(f, live, defsIn)
    ensures AllBlocksGood(f, good, defsIn)
  {
    hide Progress, Closed, WfOrder, StepsLeft, Universe, ArrivesAt, Solution, BlockDefs;
    var defsOut, active;
    defsIn, defsOut, active := InitTags(f, live, good);
    ghost var regs := Universe(f, live);
    ghost var last, pending := First(f), f.blocks;
    while active != []
      invariant last in f.blocks && OnWorklist(f, pending, active)
      invariant forall b :: b in f.blocks ==> b in defsOut
      invariant Progress(f, live, defsIn, defsOut, pending, last, |BblAt(f, last).edgeOut|)
      invariant AllBlocksGood(f, good, defsIn)
      decreases StepsLeft(f, regs, defsOut), |active|
    {
      var b := active[|active| - 1];
      active := active[..|active| - 1];
      ProgressPop(f, live, defsIn, defsOut, pending, last, b);
      last, pending := b, pending - {b};
      var newOut := defsIn[b] + defsBbl[b];
      if newOut == defsOut[b] { continue; }
      OutClimbs(f, regs, defsOut, b, newOut);
      defsOut := defsOut[b := newOut];
      defsIn, pending, active := PassOn(f, live, defsIn, defsOut, pending, active, b, good);
    }
    ProgressEnds(f, live, defsIn, defsOut, pending, last);
  }

  lemma ProgressEnds(f: Fn, live: set<RegId>, defsIn: map<BblId, DefMap>, defsOut: map<BblId, DefMap>, pending: set<BblId>, b: BblId)
    requires WfLayout(f) && b in f.blocks && pending == {}
    requires Progress(f, live, defsIn, defsOut, pending, b, |BblAt(f, b).edgeOut|)
    ensures Solution(f, live, defsIn)
  {
    PassedBetweenRounds(f, defsIn, defsOut, b, b);
    forall c, s | c in f.blocks && s in f.blocks && Edge(f, c, s)
      ensures ArrivesAt(s, defsIn[c] + BlockDefs(f, c), defsIn[s])
    {
      assert Flows(f, defsIn, defsOut, c, BblAt(f, c).edgeOut);
    }
  }

  lemma FlowsKept(f: Fn, defsIn: map<BblId, DefMap>, defsOut: map<BblId, DefMap>, b: BblId, s: BblId, out: DefMap, succs: seq<BblId>, k: nat)
    requires b in defsOut && defsOut[b] == out && k < |succs| && succs[k] == s
    requires forall t :: t in f.blocks ==> t in defsIn && t in defsOut
    requires s in f.blocks
    requires Flows(f, defsIn, defsOut, b, succs[..k])
    requires forall c :: c in f.blocks && c != b ==> Flows(f, defsIn, defsOut, c, BblAt(f, c).edgeOut)
    ensures Flows(f, defsIn[s := Merged(defsIn[s], out, DefBbl(s))], defsOut, b, succs[..k + 1])
    ensures forall c :: c in f.blocks && c != b ==>
      Flows(f, defsIn[s := Merged(defsIn[s], out, DefBbl(s))], defsOut, c, BblAt(f, c).edgeOut)
  {
    assert succs[..k + 1] == succs[..k] + [s];
    forall c ensures c in defsOut ==> (ArrivesAt(s, defsOut[c], defsIn[s]) ==> ArrivesAt(s, defsOut[c], Merged(defsIn[s], out, DefBbl(s)))) {
      if c in defsOut { MergedArrives(s, defsIn[s], out, defsOut[c]); }
    }
    MergedArrives(s, defsIn[s], out, out);
  }

  lemma EntryIsJustified(f: Fn, live: set<RegId>)
    ensures forall r :: r in live ==> Justified(f, live, First(f), r, DefBbl(First(f)))
  {
    forall r | r in live ensures Ambiguous(f, live, First(f), r) {
      var p := [First(f)];
      assert PathTo(f, p, First(f)) && LastDef(f, live, p, r) == Some(Entry);
      assert Disagree(f, live, p, p, r);
    }
  }

  // ---------------------------------------------------------------- tagging the operands

  /** Every register the block reads has a tag when its turn comes. */
  ghost predicate Covered(code: seq<Ins>, ids: seq<InsId>, tags: DefMap) {
    forall k, r :: 0 <= k < |ids| && UsesReg(InsAt(code, ids[k]), r) ==> r in TagsAt(code, ids, k, tags)
  }

  lemma UseIsTagged(f: Fn, defsIn: map<BblId, DefMap>, b: BblId)
    requires WfLayout(f) && Solution(f, AllUses(f), defsIn) && b in f.blocks && Reachable(f, b)
    ensures Covered(f.code, BblAt(f, b).inss, defsIn[b])
  {
    var ids := BblAt(f, b).inss;
    var p :| PathTo(f, p, b);
    forall k, r | 0 <= k < |ids| && UsesReg(InsAt(f.code, ids[k]), r)
      ensures r in TagsAt(f.code, ids, k, defsIn[b])
    {
      TagsAtIsUpdate(f.code, ids, k, defsIn[b]);
      UseIsExposed(f.code, ids, k, |ids|, r);
      if r !in DefsUpTo(f.code, ids, k) {
        assert r in ExposedUses(f, b);
        LiveIsDefined(f, AllUses(f), p, |p| - 1, r);
        SolutionCoversPaths(f, AllUses(f), defsIn, p, b, |p| - 1, r);
      }
    }
  }

  lemma {:induction false} LiveIsDefined(f: Fn, live: set<RegId>, p: seq<BblId>, n: nat, r: RegId)
    requires r in live && n < |p|
    ensures LastDefAt(f, live, p, n, r).Some?
  {
    if n > 0 { LiveIsDefined(f, live, p, n - 1, r); }
  }

  function OperandTag(ins: Ins, n: nat, tags: DefMap): Option<Tag>
    requires n < |ins.operands|
  {
    if n >= NumDefs(ins.opcode) && ins.operands[n].RegOp? && ins.operands[n].reg in tags
    then Some(tags[ins.operands[n].reg]) else None
  }

  /** The instruction with each register it reads tagged by `tags`. */
  function TagIns(ins: Ins, tags: DefMap): Ins {
    ins.(defs := seq(|ins.operands|, n requires 0 <= n < |ins.operands| => OperandTag(ins, n, tags)))
  }

  method InsPropagateDefs(ins: Ins, i: InsId, tags: DefMap) returns (ins': Ins, tags': DefMap)
    requires WfIns(ins)
    requires forall r :: UsesReg(ins, r) ==> r in tags
    ensures ins' == TagIns(ins, tags)
    ensures tags' == WithDst(ins, i, tags)
  {
    ins', tags' := ins, tags;
    var numDefs := NumDefs(ins.opcode);
    var n := |ins.operands|;
    while n > 0
      invariant 0 <= n <= |ins.operands|
      invariant ins' == ins.(defs := ins'.defs) && |ins'.defs| == |ins.operands|
      invariant forall j :: n <= j < |ins.operands| ==> ins'.defs[j] == OperandTag(ins, j, tags)
      invariant tags' == if n < numDefs then WithDst(ins, i, tags) else tags
    {
      n := n - 1;
      if !ins.operands[n].RegOp? {
        ins' := ins'.(defs := ins'.defs[n := None]);
        continue;
      }
      var reg := ins.operands[n].reg;
      if n < numDefs {
        tags' := tags'[reg := DefIns(i)];
        ins' := ins'.(defs := ins'.defs[n := None]);
      } else {
        assert UsesReg(ins, reg);
        ins' := ins'.(defs := ins'.defs[n := Some(tags'[reg])]);
      }
    }
    assert ins'.defs == TagIns(ins, tags).defs;
  }

  /** g is f with the operands of block b tagged, up to its k-th instruction. */
  ghost predicate BblTagged(f: Fn, g: Fn, b: BblId, tags: DefMap, k: nat) {
    forall j :: 0 <= j < k && j < |BblAt(f, b).inss| ==>
      InsAt(g.code, BblAt(f, b).inss[j]) == TagIns(InsAt(f.code, BblAt(f, b).inss[j]), TagsAt(f.code, BblAt(f, b).inss, j, tags))
  }

  /** Only operand tags changed, and only of instructions in `ids`. */
  ghost predicate SameButDefs(f: Fn, g: Fn, ids: set<InsId>) {
    && g == f.(code := g.code) && |g.code| == |f.code|
    && (forall i :: 0 <= i < |f.code| ==> g.code[i] == f.code[i].(defs := g.code[i].defs))
    && (forall i :: 0 <= i < |f.code| && i !in ids ==> g.code[i] == f.code[i])
  }

  ghost function IdsOf(f: Fn, b: BblId): set<InsId> {
    set i | i in BblAt(f, b).inss
  }

  lemma {:induction false} TagsIgnoreDefs(code: seq<Ins>, code': seq<Ins>, ids: seq<InsId>, k: nat, tags: DefMap)
    requires k <= |ids|
    requires forall i :: i in ids ==> DstOf(InsAt(code, i)) == DstOf(InsAt(code', i))
    ensures TagsAt(code, ids, k, tags) == TagsAt(code', ids, k, tags)
  {
    if k > 0 {
      assert ids[k - 1] in ids;
      TagsIgnoreDefs(code, code', ids, k - 1, tags);
    }
  }

  lemma CoveredHere(code: seq<Ins>, ids: seq<InsId>, k: nat, tags: DefMap)
    requires Covered(code, ids, tags) && k < |ids|
    ensures forall r :: UsesReg(InsAt(code, ids[k]), r) ==> r in TagsAt(code, ids, k, tags)
  {
  }

  /** The first k instructions of `ids` are tagged in code', and all others are as in code. */
  ghost predicate TaggedFirst(code: seq<Ins>, code': seq<Ins>, ids: seq<InsId>, k: nat, tags: DefMap) {
    && k <= |ids| && |code'| == |code|
    && (forall i :: 0 <= i < |code| && i !in ids ==> code'[i] == code[i])
    && (forall j :: k <= j < |ids| ==> InsAt(code', ids[j]) == InsAt(code, ids[j]))
    && (forall j :: 0 <= j < k ==> InsAt(code', ids[j]) == TagIns(InsAt(code, ids[j]), TagsAt(code, ids, j, tags)))
  }

  lemma TagNext(code: seq<Ins>, code': seq<Ins>, ids: seq<InsId>, k: nat, tags: DefMap)
    requires TaggedFirst(code, code', ids, k, tags) && k < |ids| && ids[k] < |code|
    requires forall j, l :: 0 <= j < l < |ids| ==> ids[j] != ids[l]
    ensures InsAt(code', ids[k]) == code[ids[k]]
    ensures TaggedFirst(code, code'[ids[k] := TagIns(code[ids[k]], TagsAt(code, ids, k, tags))], ids, k + 1, tags)
  {
    assert ids[k] in ids;
    var code2 := code'[ids[k] := TagIns(code[ids[k]], TagsAt(code, ids, k, tags))];
    forall j | 0 <= j < |ids| && j != k ensures InsAt(code2, ids[j]) == InsAt(code', ids[j]) {
      assert ids[j] != ids[k];
    }
  }

  method TagBbl(code: seq<Ins>, ids: seq<InsId>, defsIn: DefMap) returns (code': seq<Ins>)
    requires forall i :: i in ids ==> i < |code| && WfIns(code[i])
    requires forall j, k :: 0 <= j < k < |ids| ==> ids[j] != ids[k]
    requires Covered(code, ids, defsIn)
    ensures TaggedFirst(code, code', ids, |ids|, defsIn)
  {
    hide Covered, TagIns, TaggedFirst;
    code' := code;
    var tags := defsIn;
    NothingTagged(code, ids, defsIn);
    for k := 0 to |ids|
      invariant |code'| == |code|
      invariant TaggedFirst(code, code', ids, k, defsIn)
      invariant tags == TagsAt(code, ids, k, defsIn)
    {
      var i := ids[k];
      assert i in ids;
      TagNext(code, code', ids, k, defsIn);
      CoveredHere(code, ids, k, defsIn);
      var ins;
      ins, tags := InsPropagateDefs(code'[i], i, tags);
      code' := code'[i := ins];
    }
  }

  lemma NothingTagged(code: seq<Ins>, ids: seq<InsId>, tags: DefMap)
    ensures TaggedFirst(code, code, ids, 0, tags)
  {
  }

  method BblPropagateDefs(fun: Fun, b: BblId, defsIn: DefMap)
    requires WfCode(fun.View()) && b in fun.blocks
    requires Covered(fun.code, BblAt(fun.View(), b).inss, defsIn)
    modifies fun`code, fun`defsIn
    ensures fun.defsIn == old(fun.defsIn)[b := defsIn]
    ensures SameButDefs(old(fun.View()), fun.View(), IdsOf(old(fun.View()), b))
    ensures BblTagged(old(fun.View()), fun.View(), b, defsIn, |BblAt(fun.View(), b).inss|)
  {
    fun.defsIn := fun.defsIn[b := defsIn];
    var f := fun.View();
    var code := TagBbl(fun.code, BblAt(f, b).inss, defsIn);
    fun.code := code;
    TaggedCode(f, code, b, defsIn);
  }

  lemma TaggedCode(f: Fn, code: seq<Ins>, b: BblId, tags: DefMap)
    requires TaggedFirst(f.code, code, BblAt(f, b).inss, |BblAt(f, b).inss|, tags)
    ensures SameButDefs(f, f.(code := code), IdsOf(f, b))
    ensures BblTagged(f, f.(code := code), b, tags, |BblAt(f, b).inss|)
  {
    forall i | 0 <= i < |code| ensures code[i] == f.code[i].(defs := code[i].defs) {
      if i in BblAt(f, b).inss {
        var j :| 0 <= j < |BblAt(f, b).inss| && BblAt(f, b).inss[j] == i;
        assert InsAt(code, i) == TagIns(InsAt(f.code, i), TagsAt(f.code, BblAt(f, b).inss, j, tags));
      }
    }
  }

  ghost function IdsOfBlocks(f: Fn, bs: set<BblId>): set<InsId> {
    set b, i | b in bs && i in BblAt(f, b).inss :: i
  }

  lemma SameDsts(f: Fn, g: Fn, ids: set<InsId>, i: InsId)
    requires SameButDefs(f, g, ids)
    ensures DstOf(InsAt(g.code, i)) == DstOf(InsAt(f.code, i))
    ensures forall r :: UsesReg(InsAt(g.code, i), r) <==> UsesReg(InsAt(f.code, i), r)
  {
    if i < |f.code| { assert g.code[i] == f.code[i].(defs := g.code[i].defs); }
  }

  lemma CoveredIgnoresDefs(f: Fn, g: Fn, done: set<InsId>, ids: seq<InsId>, tags: DefMap)
    requires SameButDefs(f, g, done) && Covered(f.code, ids, tags)
    ensures Covered(g.code, ids, tags)
  {
    forall i ensures DstOf(InsAt(g.code, i)) == DstOf(InsAt(f.code, i)) && forall r :: UsesReg(InsAt(g.code, i), r) <==> UsesReg(InsAt(f.code, i), r) {
      SameDsts(f, g, done, i);
    }
    forall k, r | 0 <= k < |ids| && UsesReg(InsAt(g.code, ids[k]), r)
      ensures r in TagsAt(g.code, ids, k, tags)
    {
      TagsIgnoreDefs(f.code, g.code, ids, k, tags);
    }
  }

  lemma WfIgnoresDefs(f: Fn, g: Fn, ids: set<InsId>)
    requires SameButDefs(f, g, ids) && WfCode(f)
    requires forall i :: 0 <= i < |g.code| ==> WfIns(g.code[i])
    ensures WfCode(g)
  {
    assert forall b :: BblAt(g, b) == BblAt(f, b);
  }

  /** Tagging block b after others composes: b's instructions were still the original ones. */
  lemma TaggedInTurn(f: Fn, g: Fn, h: Fn, done: set<InsId>, b: BblId, tags: DefMap)
    requires SameButDefs(f, g, done) && IdsOf(f, b) !! done
    requires SameButDefs(g, h, IdsOf(g, b)) && BblTagged(g, h, b, tags, |BblAt(g, b).inss|)
    ensures SameButDefs(f, h, done + IdsOf(f, b))
    ensures BblTagged(f, h, b, tags, |BblAt(f, b).inss|)
  {
    var ids := BblAt(f, b).inss;
    assert BblAt(g, b).inss == ids;
    forall j | 0 <= j < |ids|
      ensures InsAt(h.code, ids[j]) == TagIns(InsAt(f.code, ids[j]), TagsAt(f.code, ids, j, tags))
    {
      assert ids[j] in IdsOf(f, b);
      forall i ensures DstOf(InsAt(f.code, i)) == DstOf(InsAt(g.code, i)) { SameDsts(f, g, done, i); }
      TagsIgnoreDefs(f.code, g.code, ids, j, tags);
    }
  }

  lemma StaysTagged(f: Fn, g: Fn, h: Fn, c: BblId, ids: set<InsId>, tags: DefMap)
    requires SameButDefs(g, h, ids) && IdsOf(f, c) !! ids
    requires BblTagged(f, g, c, tags, |BblAt(f, c).inss|)
    ensures BblTagged(f, h, c, tags, |BblAt(f, c).inss|)
  {
    var cs := BblAt(f, c).inss;
    forall j | 0 <= j < |cs|
      ensures InsAt(h.code, cs[j]) == TagIns(InsAt(f.code, cs[j]), TagsAt(f.code, cs, j, tags))
    {
      assert cs[j] in IdsOf(f, c);
    }
  }

  ghost predicate AllJustified(f: Fn, live: set<RegId>, defsIn: map<BblId, DefMap>) {
    forall b, r :: b in f.blocks && b in defsIn && r in defsIn[b] ==> Justified(f, live, b, r, defsIn[b][r])
  }

  /** The whole analysis. Afterwards `defsIn` is a solution whose tags are all accounted for by
      paths, and every register operand carries the tag that holds at its instruction. */
  method FunComputeReachingDefs(fun: Fun)
    requires WfLayout(fun.View()) && WfOrder(fun.View()) && WfCode(fun.View()) && AllReachable(fun.View())
    modifies fun`code, fun`defsIn
    ensures Solution(old(fun.View()), AllUses(old(fun.View())), fun.defsIn)
    ensures AllJustified(old(fun.View()), AllUses(old(fun.View())), fun.defsIn)
    ensures TaggedBlocks(old(fun.View()), fun.View(), fun.defsIn, fun.blocks)
  {
    var f := fun.View();
    var live, defsBbl := CollectDefsAndUses(f);
    JustifiedIsClosed(f, live);
    var allDefs := ReachingDefsFixpoint(f, live, defsBbl, (b: BblId, r: RegId, t: Tag) => Justified(f, live, b, r, t));
    PropagateAll(fun, allDefs);
    SameTags(f, fun.View(), live, allDefs, fun.defsIn);
  }

  lemma SameTags(f: Fn, g: Fn, live: set<RegId>, allDefs: map<BblId, DefMap>, defsIn: map<BblId, DefMap>)
    requires forall b :: b in f.blocks ==> b in allDefs && b in defsIn && defsIn[b] == allDefs[b]
    requires AllBlocksGood(f, (b: BblId, r: RegId, t: Tag) => Justified(f, live, b, r, t), allDefs)
    requires Solution(f, live, allDefs) && TaggedBlocks(f, g, allDefs, f.blocks)
    ensures Solution(f, live, defsIn) && AllJustified(f, live, defsIn)
    ensures TaggedBlocks(f, g, defsIn, f.blocks)
  {
    forall b, r | b in f.blocks && r in defsIn[b] ensures Justified(f, live, b, r, defsIn[b][r]) {
      assert AllGood((b: BblId, r: RegId, t: Tag) => Justified(f, live, b, r, t), b, allDefs[b]);
    }
  }

  /** Step 1: the definitions and the upward-exposed uses of every block. */
  method CollectDefsAndUses(f: Fn) returns (allUses: set<RegId>, defsBbl: map<BblId, DefMap>)
    requires WfCode(f) && WfOrder(f)
    ensures allUses == AllUses(f)
    ensures forall b :: b in f.blocks ==> b in defsBbl && defsBbl[b] == BlockDefs(f, b)
  {
    allUses, defsBbl := {}, map[];
    ghost var done: set<BblId> := {};
    for k := 0 to |f.order|
      invariant forall j :: 0 <= j < |f.order| ==> (f.order[j] in done <==> j < k)
      invariant done <= f.blocks
      invariant forall r :: r in allUses <==> exists b :: b in done && r in ExposedUses(f, b)
      invariant forall b :: b in done ==> b in defsBbl && defsBbl[b] == BlockDefs(f, b)
    {
      var b := f.order[k];
      assert b in f.blocks;
      var defs, uses := BblComputeDefs(f.code, BblAt(f, b).inss);
      allUses := allUses + uses;
      defsBbl := defsBbl[b := defs];
      done := done + {b};
    }
    assert done == f.blocks;
  }

  /** The blocks in `done` of f are tagged in g, and nothing else changed. */
  ghost predicate TaggedBlocks(f: Fn, g: Fn, allDefs: map<BblId, DefMap>, done: set<BblId>)
    requires forall b :: b in f.blocks ==> b in allDefs
  {
    && done <= f.blocks
    && SameButDefs(f, g, IdsOfBlocks(f, done))
    && WfCode(g)
    && forall b :: b in done ==> BblTagged(f, g, b, allDefs[b], |BblAt(f, b).inss|)
  }

  lemma TagOneMore(f: Fn, g: Fn, h: Fn, allDefs: map<BblId, DefMap>, done: set<BblId>, b: BblId)
    requires WfCode(f) && b in f.blocks && b !in done && forall c :: c in f.blocks ==> c in allDefs
    requires TaggedBlocks(f, g, allDefs, done)
    requires SameButDefs(g, h, IdsOf(g, b)) && BblTagged(g, h, b, allDefs[b], |BblAt(g, b).inss|)
    ensures TaggedBlocks(f, h, allDefs, done + {b})
  {
    assert BblAt(g, b) == BblAt(f, b);
    assert IdsOf(f, b) !! IdsOfBlocks(f, done);
    assert IdsOfBlocks(f, done + {b}) == IdsOfBlocks(f, done) + IdsOf(f, b);
    TaggedInTurn(f, g, h, IdsOfBlocks(f, done), b, allDefs[b]);
    WfAfterTagging(g, h, b, allDefs[b]);
    forall c | c in done ensures BblTagged(f, h, c, allDefs[c], |BblAt(f, c).inss|) {
      assert IdsOf(f, c) !! IdsOf(f, b);
      StaysTagged(f, g, h, c, IdsOf(g, b), allDefs[c]);
    }
  }

  lemma ReadyToTag(f: Fn, g: Fn, allDefs: map<BblId, DefMap>, done: set<BblId>, b: BblId)
    requires WfLayout(f) && AllReachable(f) && Solution(f, AllUses(f), allDefs)
    requires b in f.blocks && TaggedBlocks(f, g, allDefs, done)
    ensures Covered(g.code, BblAt(g, b).inss, allDefs[b])
  {
    UseIsTagged(f, allDefs, b);
    CoveredIgnoresDefs(f, g, IdsOfBlocks(f, done), BblAt(f, b).inss, allDefs[b]);
  }

  /** Step 3: hand the result to the blocks and the operands. */
  method PropagateAll(fun: Fun, allDefs: map<BblId, DefMap>)
    requires WfLayout(fun.View()) && WfOrder(fun.View()) && WfCode(fun.View()) && AllReachable(fun.View())
    requires Solution(fun.View(), AllUses(fun.View()), allDefs)
    modifies fun`code, fun`defsIn
    ensures forall b :: b in fun.blocks ==> b in fun.defsIn && fun.defsIn[b] == allDefs[b]
    ensures TaggedBlocks(old(fun.View()), fun.View(), allDefs, fun.blocks)
  {
    ghost var f := fun.View();
    ghost var done: set<BblId> := {};
    for k := 0 to |fun.order|
      invariant forall j :: 0 <= j < |f.order| ==> (f.order[j] in done <==> j < k)
      invariant forall b :: b in done ==> b in fun.defsIn && b in allDefs && fun.defsIn[b] == allDefs[b]
      invariant TaggedBlocks(f, fun.View(), allDefs, done)
    {
      ghost var g := fun.View();
      var b := fun.order[k];
      assert b in f.blocks;
      ReadyToTag(f, g, allDefs, done, b);
      BblPropagateDefs(fun, b, allDefs[b]);
      TagOneMore(f, g, fun.View(), allDefs, done, b);
      done := done + {b};
    }
    assert done == f.blocks;
  }

  lemma WfAfterTagging(f: Fn, g: Fn, b: BblId, tags: DefMap)
    requires WfCode(f) && SameButDefs(f, g, IdsOf(f, b)) && BblTagged(f, g, b, tags, |BblAt(f, b).inss|)
    ensures WfCode(g)
  {
    forall i | 0 <= i < |g.code| ensures WfIns(g.code[i]) {
      assert WfIns(f.code[i]);
      if i in IdsOf(f, b) {
        var j :| 0 <= j < |BblAt(f, b).inss| && BblAt(f, b).inss[j] == i;
        assert InsAt(g.code, i) == TagIns(InsAt(f.code, i), TagsAt(f.code, BblAt(f, b).inss, j, tags));
      }
    }
    WfIgnoresDefs(f, g, IdsOf(f, b));
  }
}
