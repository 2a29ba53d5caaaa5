/** Putting live ranges in order. Records of reads refer to ranges by number, so they are renumbered. */
module SortRanges {
  import opened IR
  import opened RegPool
  import opened LiveRanges

  predicate SortedBy(rs: seq<LiveRange>, perm: seq<nat>) {
    && (forall i :: 0 <= i < |perm| ==> perm[i] < |rs|)
    && (forall i, j :: 0 <= i < j < |perm| ==> !Before(rs[perm[j]].span, rs[perm[i]].span))
  }

  /** perm lists the numbers below n, each once. */
  predicate Lists(perm: seq<nat>, n: nat) {
    && |perm| == n
    && (forall i :: 0 <= i < |perm| ==> perm[i] < n)
    && (forall x: nat :: x < n ==> x in perm)
    && (forall i, j :: 0 <= i < j < |perm| ==> perm[i] != perm[j])
  }

  function IndexOf(perm: seq<nat>, x: nat): (i: nat)
    ensures x in perm ==> i < |perm| && perm[i] == x
  {
    if perm == [] then 0 else if perm[0] == x then 0 else IndexOf(perm[1..], x) + 1
  }

  function Renumbered(lr: LiveRange, perm: seq<nat>): LiveRange {
    lr.(uses := seq(|lr.uses|, x requires 0 <= x < |lr.uses| => IndexOf(perm, lr.uses[x])))
  }

  /** The same ranges in the order of perm. */
  ghost predicate Reorders(rs: seq<LiveRange>, rs': seq<LiveRange>, perm: seq<nat>) {
    && Lists(perm, |rs|) && |rs'| == |rs|
    && forall i :: 0 <= i < |rs| ==> rs'[i] == Renumbered(rs[perm[i]], perm)
  }

  predicate Ascending(rs: seq<LiveRange>) {
    forall j, k :: 0 <= j < k < |rs| ==> !Before(rs[k].span, rs[j].span)
  }

  method InsertionPoint(rs: seq<LiveRange>, perm: seq<nat>, k: nat) returns (i: nat)
    requires SortedBy(rs, perm) && k < |rs|
    ensures i <= |perm|
    ensures forall x :: 0 <= x < i ==> !Before(rs[k].span, rs[perm[x]].span)
    ensures forall x :: i <= x < |perm| ==> !Before(rs[perm[x]].span, rs[k].span)
  {
    i := |perm|;
    while 0 < i && Before(rs[k].span, rs[perm[i - 1]].span)
      invariant 0 <= i <= |perm|
      invariant forall x :: i <= x < |perm| ==> Before(rs[k].span, rs[perm[x]].span)
    {
      i := i - 1;
    }
  }

  lemma InsertedAt(perm: seq<nat>, k: nat, i: nat)
    requires i <= |perm|
    ensures var perm' := perm[..i] + [k] + perm[i..];
      |perm'| == |perm| + 1 && forall x :: 0 <= x < |perm'| ==> perm'[x] == if x < i then perm[x] else if x == i then k else perm[x - 1]
  {
  }

  lemma InsertSorted(rs: seq<LiveRange>, perm: seq<nat>, k: nat, i: nat)
    requires SortedBy(rs, perm) && k < |rs| && i <= |perm|
    requires forall x :: 0 <= x < i ==> !Before(rs[k].span, rs[perm[x]].span)
    requires forall x :: i <= x < |perm| ==> !Before(rs[perm[x]].span, rs[k].span)
    ensures SortedBy(rs, perm[..i] + [k] + perm[i..])
  {
    hide Before;
    InsertedAt(perm, k, i);
  }

  lemma InsertListed(perm: seq<nat>, k: nat, i: nat)
    requires Lists(perm, k) && i <= |perm|
    ensures Lists(perm[..i] + [k] + perm[i..], k + 1)
  {
    InsertedAt(perm, k, i);
    var perm' := perm[..i] + [k] + perm[i..];
    forall x: nat | x < k + 1 ensures x in perm' {
      if x == k {
        assert perm'[i] == x;
      } else {
        assert x in perm;
        var j :| 0 <= j < |perm| && perm[j] == x;
        assert perm'[if j < i then j else j + 1] == x;
      }
    }
  }

  method Sort(rs: seq<LiveRange>) returns (rs': seq<LiveRange>, ghost perm: seq<nat>)
    ensures Reorders(rs, rs', perm) && Ascending(rs')
  {
    var p: seq<nat> := [];
    for k := 0 to |rs|
      invariant SortedBy(rs, p) && Lists(p, k)
    {
      var i := InsertionPoint(rs, p, k);
      InsertSorted(rs, p, k, i);
      InsertListed(p, k, i);
      p := p[..i] + [k] + p[i..];
    }
    rs' := seq(|rs|, i requires 0 <= i < |rs| => Renumbered(rs[p[i]], p));
    perm := p;
  }

  // ---------------------------------------------------------------- the ranges still say the same

  lemma ReorderedSpan(rs: seq<LiveRange>, rs': seq<LiveRange>, perm: seq<nat>, i: nat)
    requires Reorders(rs, rs', perm) && i < |rs|
    ensures perm[i] < |rs| && rs'[i] == rs[perm[i]].(uses := rs'[i].uses) && (rs'[i].uses == [] <==> rs[perm[i]].uses == [])
  {
  }

  lemma SomeCoversReordered(rs: seq<LiveRange>, rs': seq<LiveRange>, perm: seq<nat>, r: RegId, p: int)
    requires Reorders(rs, rs', perm)
    ensures SomeCovers(rs', r, p) <==> SomeCovers(rs, r, p)
    ensures SomeStarts(rs', r, p) <==> SomeStarts(rs, r, p)
  {
    forall i: nat | i < |rs| ensures perm[i] < |rs| && (Covers(rs'[i], r, p) <==> Covers(rs[perm[i]], r, p)) { ReorderedSpan(rs, rs', perm, i); }
    forall i: nat | i < |rs| ensures perm[i] < |rs| && rs'[i].span == rs[perm[i]].span && rs'[i].reg == rs[perm[i]].reg && (rs'[i].uses == [] <==> rs[perm[i]].uses == []) {
      ReorderedSpan(rs, rs', perm, i);
    }
    forall x: nat | x < |rs| ensures IndexOf(perm, x) < |rs| && perm[IndexOf(perm, x)] == x { assert x in perm; }
    hide Covers, Renumbered, Reorders, Lists;
    if SomeCovers(rs, r, p) {
      var j :| 0 <= j < |rs| && Covers(rs[j], r, p);
      assert Covers(rs'[IndexOf(perm, j)], r, p);
    }
    if SomeStarts(rs, r, p) {
      var j :| 0 <= j < |rs| && rs[j].uses == [] && rs[j].reg == r && rs[j].span.defPos == p;
      assert rs'[IndexOf(perm, j)].reg == r;
    }
  }

  lemma RecordReordered(rs: seq<LiveRange>, rs': seq<LiveRange>, perm: seq<nat>, code: seq<Ins>, ids: seq<InsId>, i: nat)
    requires Reorders(rs, rs', perm) && i < |rs| && ReadsRecorded(rs, code, ids, rs[perm[i]])
    ensures ReadsRecorded(rs', code, ids, rs'[i])
  {
    var rec, rec' := rs[perm[i]], rs'[i];
    hide UsesReg;
    forall u | u in rec'.uses
      ensures u < |rs'| && rs'[u].uses == [] && rs'[u].span.defPos < rec'.span.defPos <= rs'[u].span.lastUse < NO_USE
    {
      var x :| 0 <= x < |rec'.uses| && rec'.uses[x] == u;
      assert rec.uses[x] in rec.uses && rec.uses[x] in perm;
      ReorderedSpan(rs, rs', perm, u);
    }
    var p := rec.span.defPos;
    forall r ensures UsesReg(InsIn(code, ids, p), r) <==> exists u :: u in rec'.uses && u < |rs'| && rs'[u].reg == r {
      if UsesReg(InsIn(code, ids, p), r) {
        var u :| u in rec.uses && u < |rs| && rs[u].reg == r;
        var x :| 0 <= x < |rec.uses| && rec.uses[x] == u;
        assert u in perm;
        var v := IndexOf(perm, u);
        assert rec'.uses[x] == v;
        ReorderedSpan(rs, rs', perm, v);
        assert v in rec'.uses && rs'[v].reg == r;
      }
      if u :| u in rec'.uses && u < |rs'| && rs'[u].reg == r {
        var x :| 0 <= x < |rec'.uses| && rec'.uses[x] == u;
        assert rec.uses[x] in rec.uses && rec.uses[x] in perm;
        ReorderedSpan(rs, rs', perm, u);
        assert rec.uses[x] == perm[u] && rs[rec.uses[x]].reg == r;
      }
    }
  }

  lemma DescribesReordered(rs: seq<LiveRange>, rs': seq<LiveRange>, perm: seq<nat>, code: seq<Ins>, ids: seq<InsId>, out: set<RegId>)
    requires Reorders(rs, rs', perm) && Describes(rs, code, ids, out)
    ensures Describes(rs', code, ids, out)
  {
    forall r, p ensures (SomeCovers(rs', r, p) <==> SomeCovers(rs, r, p)) && (SomeStarts(rs', r, p) <==> SomeStarts(rs, r, p)) {
      SomeCoversReordered(rs, rs', perm, r, p);
    }
    forall i: nat | i < |rs|
      ensures perm[i] < |rs| && rs'[i].span == rs[perm[i]].span && rs'[i].reg == rs[perm[i]].reg && rs'[i].lac == rs[perm[i]].lac
      ensures rs'[i].uses == [] <==> rs[perm[i]].uses == []
    {
      ReorderedSpan(rs, rs', perm, i);
    }
    forall i, j | 0 <= i < j < |rs| ensures perm[i] != perm[j] {}
    forall j | 0 <= j < |rs'| && rs'[j].uses != [] ensures ReadsRecorded(rs', code, ids, rs'[j]) {
      RecordReordered(rs, rs', perm, code, ids, j);
    }
    forall p | HasRecord(rs, p) ensures HasRecord(rs', p) { HasRecordReordered(rs, rs', perm, p); }
    hide Reorders, ReadsRecorded, SomeCovers, SomeStarts, HasRecord, LiveAfter, EndsRight, CallBetween, UsesReg;
    DescribedParts(rs, rs', perm, code, ids, out);
  }

  lemma HasRecordReordered(rs: seq<LiveRange>, rs': seq<LiveRange>, perm: seq<nat>, p: int)
    requires Reorders(rs, rs', perm) && HasRecord(rs, p)
    ensures HasRecord(rs', p)
  {
    var j :| 0 <= j < |rs| && rs[j].uses != [] && rs[j].span.defPos == p;
    assert j in perm;
    ReorderedSpan(rs, rs', perm, IndexOf(perm, j));
    assert rs'[IndexOf(perm, j)].uses != [];
  }

  lemma DescribedParts(rs: seq<LiveRange>, rs': seq<LiveRange>, perm: seq<nat>, code: seq<Ins>, ids: seq<InsId>, out: set<RegId>)
    requires |rs'| == |rs| == |perm| && Describes(rs, code, ids, out)
    requires forall r, p :: (SomeCovers(rs', r, p) <==> SomeCovers(rs, r, p)) && (SomeStarts(rs', r, p) <==> SomeStarts(rs, r, p))
    requires forall i :: 0 <= i < |rs| ==> perm[i] < |rs|
    requires forall i :: 0 <= i < |rs| ==> rs'[i].span == rs[perm[i]].span && rs'[i].reg == rs[perm[i]].reg
    requires forall i :: 0 <= i < |rs| ==> rs'[i].lac == rs[perm[i]].lac && (rs'[i].uses == [] <==> rs[perm[i]].uses == [])
    requires forall i, j :: 0 <= i < j < |rs| ==> perm[i] != perm[j]
    requires forall j :: 0 <= j < |rs'| && rs'[j].uses != [] ==> ReadsRecorded(rs', code, ids, rs'[j])
    requires forall p :: HasRecord(rs, p) ==> HasRecord(rs', p)
    ensures Describes(rs', code, ids, out)
  {
    hide ReadsRecorded, SomeCovers, SomeStarts, HasRecord, LiveAfter, CallBetween, UsesReg;
    forall j | 0 <= j < |rs'| && rs'[j].uses == [] ensures RangeRight(code, ids, out, rs'[j]) {
      assert RangeRight(code, ids, out, rs[perm[j]]);
    }
    hide RangeRight;
    forall i, j | 0 <= i < j < |rs'| && rs'[i].reg == rs'[j].reg && rs'[i].uses == [] && rs'[j].uses == []
      ensures rs'[i].span.defPos != rs'[j].span.defPos
    {
      assert perm[i] < perm[j] || perm[j] < perm[i];
    }
    forall i, j | 0 <= i < j < |rs'| && rs'[i].uses != [] && rs'[j].uses != [] ensures rs'[i].span.defPos != rs'[j].span.defPos {
      assert perm[i] < perm[j] || perm[j] < perm[i];
    }
  }

  predicate UsesInRange(rs: seq<LiveRange>) {
    forall i :: 0 <= i < |rs| ==> forall u :: u in rs[i].uses ==> u < |rs|
  }

  lemma UsesAreInRange(rs: seq<LiveRange>, code: seq<Ins>, ids: seq<InsId>, out: set<RegId>)
    requires Describes(rs, code, ids, out)
    ensures UsesInRange(rs)
  {
    forall i | 0 <= i < |rs| && rs[i].uses != [] ensures forall u :: u in rs[i].uses ==> u < |rs| {
      assert ReadsRecorded(rs, code, ids, rs[i]);
    }
    hide Describes;
  }

  lemma EndsNamedReordered(rs: seq<LiveRange>, rs': seq<LiveRange>, perm: seq<nat>)
    requires Reorders(rs, rs', perm) && EndsNamed(rs, 0) && UsesInRange(rs)
    ensures EndsNamed(rs', 0)
  {
    forall j: nat | j < |rs| ensures perm[j] < |rs| && rs'[j].span == rs[perm[j]].span && (rs'[j].uses == [] <==> rs[perm[j]].uses == []) {
      ReorderedSpan(rs, rs', perm, j);
    }
    forall j: nat | j < |rs'| && rs'[j].uses == [] && 0 <= rs'[j].span.lastUse < AFTER_BBL ensures EndNamed(rs', j) {
      assert EndNamed(rs, perm[j]);
      var i: nat :| EndsAt(rs, perm[j], i);
      EndReordered(rs, rs', perm, j, i);
    }
    forall i | 0 <= i < |rs'| ensures NoneTwice(rs'[i].uses) { NoneTwiceReordered(rs, rs', perm, i); }
  }

  lemma EndReordered(rs: seq<LiveRange>, rs': seq<LiveRange>, perm: seq<nat>, j: nat, i: nat)
    requires Reorders(rs, rs', perm) && j < |rs| && EndsAt(rs, perm[j], i)
    ensures EndsAt(rs', j, IndexOf(perm, i))
  {
    var i' := IndexOf(perm, i);
    assert i in perm && perm[j] in perm;
    var x :| 0 <= x < |rs[i].uses| && rs[i].uses[x] == perm[j];
    assert IndexOf(perm, perm[j]) == j;
    ReorderedSpan(rs, rs', perm, j);
    ReorderedSpan(rs, rs', perm, i');
    assert rs'[i'].uses[x] == j;
  }

  lemma NoneTwiceReordered(rs: seq<LiveRange>, rs': seq<LiveRange>, perm: seq<nat>, i: nat)
    requires Reorders(rs, rs', perm) && i < |rs| && NoneTwice(rs[perm[i]].uses) && forall u :: u in rs[perm[i]].uses ==> u < |rs|
    ensures NoneTwice(rs'[i].uses)
  {
    var uses := rs[perm[i]].uses;
    forall x, y | 0 <= x < y < |uses| ensures rs'[i].uses[x] != rs'[i].uses[y] {
      assert uses[x] in uses && uses[y] in uses && uses[x] in perm && uses[y] in perm;
    }
  }

  // ---------------------------------------------------------------- flags and locations do not matter

  /** Same ranges, whatever became of flags and locations. */
  ghost predicate SameRanges(rs: seq<LiveRange>, rs': seq<LiveRange>) {
    && |rs'| == |rs|
    && forall k :: 0 <= k < |rs| ==> rs'[k].span == rs[k].span && rs'[k].reg == rs[k].reg && rs'[k].uses == rs[k].uses && rs'[k].lac == rs[k].lac
  }

  lemma DescribesSame(rs: seq<LiveRange>, rs': seq<LiveRange>, code: seq<Ins>, ids: seq<InsId>, out: set<RegId>)
    requires SameRanges(rs, rs') && Describes(rs, code, ids, out)
    ensures Describes(rs', code, ids, out)
  {
    forall r, p ensures (SomeCovers(rs', r, p) <==> SomeCovers(rs, r, p)) && (SomeStarts(rs', r, p) <==> SomeStarts(rs, r, p)) {
      CoversSame(rs, rs', r, p);
      CoversSame(rs', rs, r, p);
    }
    hide SomeCovers, SomeStarts, LiveAfter, EndsRight, CallBetween;
    forall j | 0 <= j < |rs'| && rs'[j].uses == [] ensures RangeRight(code, ids, out, rs'[j]) {
      assert RangeRight(code, ids, out, rs[j]);
      EndsSame(code, ids, out, rs[j], rs'[j]);
    }
    forall j | 0 <= j < |rs'| && rs'[j].uses != [] ensures ReadsRecorded(rs', code, ids, rs'[j]) {
      assert ReadsRecorded(rs, code, ids, rs[j]);
      RecordKept(rs, rs', code, ids, rs[j], rs'[j]);
    }
    hide RangeRight, ReadsRecorded;
  }

  lemma CoversSame(rs: seq<LiveRange>, rs': seq<LiveRange>, r: RegId, p: int)
    requires SameRanges(rs, rs')
    ensures SomeCovers(rs, r, p) ==> SomeCovers(rs', r, p)
    ensures SomeStarts(rs, r, p) ==> SomeStarts(rs', r, p)
  {
    if SomeCovers(rs, r, p) {
      var j :| 0 <= j < |rs| && Covers(rs[j], r, p);
      assert Covers(rs'[j], r, p);
    }
    if SomeStarts(rs, r, p) {
      var j :| 0 <= j < |rs| && rs[j].uses == [] && rs[j].reg == r && rs[j].span.defPos == p;
      assert rs'[j].reg == r;
    }
  }

  lemma EndsSame(code: seq<Ins>, ids: seq<InsId>, out: set<RegId>, lr: LiveRange, lr': LiveRange)
    requires lr'.span == lr.span && lr'.reg == lr.reg && EndsRight(code, ids, out, lr)
    ensures EndsRight(code, ids, out, lr')
  {
    hide LiveAfter, UsesReg, DstOf;
  }

  /** What the walk found, sorted, is what the allocator asks for. */
  lemma DescribedIsWf(rs: seq<LiveRange>, code: seq<Ins>, ids: seq<InsId>, out: set<RegId>)
    requires Describes(rs, code, ids, out) && Ascending(rs) && |ids| <= AFTER_BBL
    requires forall k :: 0 <= k < |rs| && rs[k].preAlloc ==> rs[k].loc.InReg? && rs[k].loc.cpu.no < NumRegs(rs[k].loc.cpu.kind)
    ensures WfRanges(rs)
  {
    forall k | 0 <= k < |rs| ensures WfRange(rs, k) {
      if rs[k].uses == [] { assert RangeRight(code, ids, out, rs[k]); } else { assert ReadsRecorded(rs, code, ids, rs[k]); }
    }
    hide RangeRight, ReadsRecorded, SomeCovers, SomeStarts, LiveAfter;
  }

  lemma OfKindReordered(rs: seq<LiveRange>, rs': seq<LiveRange>, perm: seq<nat>, kindOf: RegId -> Kind)
    requires Reorders(rs, rs', perm) && OfKind(rs, kindOf)
    ensures OfKind(rs', kindOf)
  {
    forall i: nat | i < |rs| ensures perm[i] < |rs| && rs'[i] == rs[perm[i]].(uses := rs'[i].uses) && (rs'[i].uses == [] <==> rs[perm[i]].uses == []) {
      ReorderedSpan(rs, rs', perm, i);
    }
    hide Reorders;
  }
}
