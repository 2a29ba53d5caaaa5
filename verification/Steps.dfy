/** Runs one instruction at a time. A configuration is a point (block, position) and a state. */
module Steps {
  import opened IR

  datatype Config = Pt(bbl: BblId, k: nat, state: State) | Halt(state: State)

  function NextConfig(m: Machine, f: Fn, c: Config): Config {
    match c
    case Halt(_) => c
    case Pt(b, k, s) =>
      var ids := BblAt(f, b).inss;
      if k < |ids| then Pt(b, k + 1, ExecIns(m, InsAt(f.code, ids[k]), s))
      else
        match EdgeNext(m, f, b, s)
        case None => Halt(s)
        case Some(t) => Pt(t, 0, s)
  }

  function StepN(m: Machine, f: Fn, s0: State, n: nat): Config {
    if n == 0 then Pt(First(f), 0, s0) else NextConfig(m, f, StepN(m, f, s0, n - 1))
  }

  ghost predicate SameSteps(m: Machine, f: Fn, g: Fn, s0: State) {
    forall n: nat :: StepN(m, f, s0, n) == StepN(m, g, s0, n)
  }

  function AsConfig(v: Visit): Config {
    match v
    case At(b, s) => Pt(b, 0, s)
    case Done(s) => Halt(s)
  }

  lemma StepInBlock(m: Machine, f: Fn, s0: State, n: nat, b: BblId, k: nat, s: State)
    requires StepN(m, f, s0, n) == Pt(b, k, s) && k < |BblAt(f, b).inss|
    ensures StepN(m, f, s0, n + 1) == Pt(b, k + 1, ExecIns(m, InsAt(f.code, BblAt(f, b).inss[k]), s))
  {
    hide ExecIns, InsAt, EdgeNext;
  }

  lemma StepOut(m: Machine, f: Fn, s0: State, n: nat, b: BblId, s: State)
    requires StepN(m, f, s0, n) == Pt(b, |BblAt(f, b).inss|, s)
    ensures StepN(m, f, s0, n + 1) ==
      match EdgeNext(m, f, b, s) case None => Halt(s) case Some(t) => Pt(t, 0, s)
  {
    hide ExecIns, InsAt, EdgeNext;
  }

  lemma ExecIdsStep(m: Machine, code: seq<Ins>, ids: seq<InsId>, k: nat, s: State)
    requires k < |ids|
    ensures ExecIds(m, code, ids, 0, s) == s
    ensures ExecIds(m, code, ids, k + 1, s) == ExecIns(m, InsAt(code, ids[k]), ExecIds(m, code, ids, k, s))
  {
    hide ExecIns, InsAt;
  }

  lemma {:induction false} StepsThroughBlock(m: Machine, f: Fn, s0: State, n: nat, b: BblId, s: State, k: nat)
    requires StepN(m, f, s0, n) == Pt(b, 0, s) && k <= |BblAt(f, b).inss|
    ensures StepN(m, f, s0, n + k) == Pt(b, k, ExecIds(m, f.code, BblAt(f, b).inss, k, s))
  {
    if k == 0 {
      hide ExecIns, InsAt, StepN;
    } else {
      hide *;
      StepsThroughBlock(m, f, s0, n, b, s, k - 1);
      var ids := BblAt(f, b).inss;
      ExecIdsStep(m, f.code, ids, k - 1, s);
      StepInBlock(m, f, s0, n + (k - 1), b, k - 1, ExecIds(m, f.code, ids, k - 1, s));
      assert n + (k - 1) + 1 == n + k;
    }
  }

  /** The block-by-block run passes through the same configurations. */
  lemma {:induction false} RunIsSteps(m: Machine, f: Fn, s0: State, j: nat) returns (n: nat)
    ensures StepN(m, f, s0, n) == AsConfig(Run(m, f, s0, j))
  {
    hide ExecIns, EdgeNext, InsAt;
    if j == 0 {
      n := 0;
    } else {
      n := RunIsSteps(m, f, s0, j - 1);
      var v := Run(m, f, s0, j - 1);
      if v.At? {
        var len := |BblAt(f, v.bbl).inss|;
        StepsThroughBlock(m, f, s0, n, v.bbl, v.state, len);
        n := n + len + 1;
      }
    }
  }

  lemma {:induction false} SameStepsSameRun(m: Machine, f: Fn, g: Fn, s0: State, j: nat)
    requires SameSteps(m, f, g, s0) && f.bbls == g.bbls
    ensures Run(m, f, s0, j) == Run(m, g, s0, j)
  {
    hide ExecIns, EdgeNext, InsAt;
    assert StepN(m, f, s0, 0) == StepN(m, g, s0, 0);
    if j > 0 {
      SameStepsSameRun(m, f, g, s0, j - 1);
      var n := RunIsSteps(m, f, s0, j - 1);
      var v := Run(m, f, s0, j - 1);
      if v.At? {
        var len := |BblAt(f, v.bbl).inss|;
        assert StepN(m, f, s0, n) == StepN(m, g, s0, n);
        StepsThroughBlock(m, f, s0, n, v.bbl, v.state, len);
        StepsThroughBlock(m, g, s0, n, v.bbl, v.state, len);
        assert StepN(m, f, s0, n + len) == StepN(m, g, s0, n + len);
        assert StepN(m, f, s0, n + len + 1) == StepN(m, g, s0, n + len + 1);
      }
    }
  }

  lemma SameStepsSameRuns(f: Fn, g: Fn)
    requires f.bbls == g.bbls && forall m, s0 :: SameSteps(m, f, g, s0)
    ensures SameRuns(f, g)
  {
    forall m: Machine, s0: State, j: nat ensures Run(m, f, s0, j) == Run(m, g, s0, j) {
      SameStepsSameRun(m, f, g, s0, j);
    }
  }
}
