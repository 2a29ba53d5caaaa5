/** How many registers a function needs: the standard scan with a pool that makes a new register
    whenever it has none left. It makes exactly as many of each class as are ever needed at once
    (`FunComputeBblRegUsageStats`). */
module RegStats {
  import opened IR
  import opened RegPool
  import opened Liveness
  import opened LiveRanges
  import opened SortRanges
  import opened LinearScan

  datatype Class = Class(kind: Kind, lac: bool)

  function ClassOf(lr: LiveRange): Class { Class(lr.kind, lr.lac) }

  /** A manufactured register carries its class; its number says whether it is for ranges live
      across calls. */
  function Manufactured(c: Class): CpuReg { CpuReg(c.kind, if c.lac then 1 else 0) }

  function ClassOfReg(reg: CpuReg): Class { Class(reg.kind, reg.no != 0) }

  function InStock(available: map<Class, seq<CpuReg>>, c: Class): seq<CpuReg> {
    if c in available then available[c] else []
  }

  const ALL_CLASSES: seq<Class> := [Class(Gpr, false), Class(Gpr, true), Class(Flt, false), Class(Flt, true), Class(Dbl, false), Class(Dbl, true)]

  lemma AllClasses(c: Class)
    ensures c in ALL_CLASSES
  {
    var k := (if c.kind.Gpr? then 0 else if c.kind.Flt? then 2 else 4) + if c.lac then 1 else 0;
    assert ALL_CLASSES[k] == c;
  }

  function Total(counts: Class -> nat, cs: seq<Class>): nat {
    if cs == [] then 0 else counts(cs[0]) + Total(counts, cs[1..])
  }

  lemma {:induction false} TotalChanges(a: Class -> nat, b: Class -> nat, c: Class, cs: seq<Class>)
    requires forall d :: d != c ==> a(d) == b(d)
    requires forall i, j :: 0 <= i < j < |cs| ==> cs[i] != cs[j]
    ensures Total(b, cs) == Total(a, cs) + if c in cs then b(c) - a(c) else 0
  {
    if cs != [] {
      TotalChanges(a, b, c, cs[1..]);
      assert c in cs <==> c == cs[0] || c in cs[1..];
      if c == cs[0] { assert forall j :: 0 <= j < |cs| - 1 ==> cs[1..][j] != c; }
    }
  }

  // ---------------------------------------------------------------- the pool

  function StockOf(available: map<Class, seq<CpuReg>>, c: Class): nat { |InStock(available, c)| }

  function Counts(available: map<Class, seq<CpuReg>>): Class -> nat { c => |InStock(available, c)| }

  predicate WellStocked(available: map<Class, seq<CpuReg>>, c: Class) {
    forall k :: 0 <= k < |InStock(available, c)| ==> InStock(available, c)[k] == Manufactured(c)
  }

  ghost predicate AllStocked(available: map<Class, seq<CpuReg>>) {
    forall c :: WellStocked(available, c)
  }

  lemma StaysStocked(available: map<Class, seq<CpuReg>>, key: Class, regs: seq<CpuReg>)
    requires AllStocked(available) && forall k :: 0 <= k < |regs| ==> regs[k] == Manufactured(key)
    ensures AllStocked(available[key := regs])
  {
    var available' := available[key := regs];
    forall c ensures WellStocked(available', c) {
      assert WellStocked(available, c);
      assert c != key ==> InStock(available', c) == InStock(available, c);
    }
  }

  lemma NoClass(stock: Class -> nat)
    ensures Total(stock, ALL_CLASSES[|ALL_CLASSES|..]) == 0
  {
    assert ALL_CLASSES[|ALL_CLASSES|..] == [];
    hide ALL_CLASSES;
  }

  lemma OneClass(stock: Class -> nat, k: nat)
    requires k < |ALL_CLASSES|
    ensures Total(stock, ALL_CLASSES[k..]) == stock(ALL_CLASSES[k]) + Total(stock, ALL_CLASSES[k + 1..])
  {
    assert ALL_CLASSES[k..][1..] == ALL_CLASSES[k + 1..];
    hide ALL_CLASSES;
  }

  class UsagePool {
    var counter: nat
    var available: map<Class, seq<CpuReg>>
    ghost var made: Class -> nat  // how many registers of each class were made so far

    constructor ()
      ensures Valid() && (forall c :: Stock(c) == 0) && (forall c :: made(c) == 0)
    {
      counter, available, made := 0, map[], c => 0;
      new;
      assert Total(c => 0, ALL_CLASSES) == 0;
    }

    function Stock(c: Class): nat
      reads this
    {
      StockOf(available, c)
    }

    ghost predicate Valid()
      reads this
    {
      && counter == Total(made, ALL_CLASSES)
      && AllStocked(available)
    }

    method GetAvailableReg(lr: LiveRange) returns (reg: CpuReg)
      requires Valid()
      modifies this
      ensures Valid() && reg == Manufactured(ClassOf(lr))
      ensures forall d :: d != ClassOf(lr) ==> StockOf(available, d) == old(StockOf(available, d)) && made(d) == old(made)(d)
      ensures var c := ClassOf(lr);
        if old(StockOf(available, c)) > 0 then StockOf(available, c) == old(StockOf(available, c)) - 1 && made(c) == old(made)(c)
        else StockOf(available, c) == 0 && made(c) == old(made)(c) + 1
    {
      var key := ClassOf(lr);
      var regs := InStock(available, key);
      assert WellStocked(available, key);
      if regs != [] {
        StaysStocked(available, key, regs[..|regs| - 1]);
        reg := regs[|regs| - 1];
        available := available[key := regs[..|regs| - 1]];
      } else {
        ghost var before := made;
        counter := counter + 1;
        made := d => if d == key then before(d) + 1 else before(d);
        TotalChanges(before, made, key, ALL_CLASSES);
        AllClasses(key);
        reg := Manufactured(key);
      }
    }

    method GiveBackAvailableReg(reg: CpuReg)
      requires Valid() && reg == Manufactured(ClassOfReg(reg))
      modifies this`available
      ensures Valid()
      ensures forall d :: StockOf(available, d) == old(StockOf(available, d)) + if d == ClassOfReg(reg) then 1 else 0
    {
      var key := ClassOfReg(reg);
      assert WellStocked(available, key);
      StaysStocked(available, key, InStock(available, key) + [reg]);
      available := available[key := InStock(available, key) + [reg]];
    }

    /** What the source asserts here holds exactly when every register is back. */
    method Usage() returns (ok: bool, usage: map<Class, nat>)
      requires Valid()
      ensures ok <==> Total(Counts(available), ALL_CLASSES) == Total(made, ALL_CLASSES)
      ensures forall c :: c in usage && usage[c] == Stock(c)
    {
      ghost var stock := Counts(available);
      NoClass(stock);
      hide Total, ALL_CLASSES;
      usage := map[];
      var sum := 0;
      for k := 0 to |ALL_CLASSES|
        invariant forall j :: 0 <= j < k ==> ALL_CLASSES[j] in usage && usage[ALL_CLASSES[j]] == Stock(ALL_CLASSES[j])
        invariant sum + Total(stock, ALL_CLASSES[k..]) == Total(stock, ALL_CLASSES)
      {
        var c := ALL_CLASSES[k];
        OneClass(stock, k);
        assert stock(c) == |InStock(available, c)|;
        sum := sum + |InStock(available, c)|;
        usage := usage[c := |InStock(available, c)|];
      }
      forall c ensures c in usage && usage[c] == Stock(c) { AllClasses(c); }
      ok := sum == counter;
    }
  }

  // ---------------------------------------------------------------- who holds a register when

  /** Range k ended before event n. */
  ghost predicate Over(rs: seq<LiveRange>, n: nat, k: nat) {
    exists i: nat :: i < n && EndsAt(rs, k, i)
  }

  predicate EndsInside(lr: LiveRange) { Allocates(lr) && lr.span.lastUse < AFTER_BBL }

  /** Every range that is read has its last read on record, once. */
  ghost predicate EndsRecorded(rs: seq<LiveRange>) {
    && (forall k: nat :: k < |rs| && EndsInside(rs[k]) ==> Over(rs, |rs|, k))
    && (forall i :: 0 <= i < |rs| ==> NoneTwice(rs[i].uses))
  }

  /** What the scan is given: sorted ranges; those that reach beyond the block are ignored. */
  ghost predicate ScanInput(rs: seq<LiveRange>) {
    && WfRanges(rs) && EndsRecorded(rs)
    && forall k :: 0 <= k < |rs| ==> !rs[k].preAlloc && (Allocates(rs[k]) ==> EndsInside(rs[k]) || rs[k].span.lastUse == NO_USE)
  }

  ghost predicate Holds(rs: seq<LiveRange>, n: nat, c: Class, k: nat) {
    k < n && k < |rs| && EndsInside(rs[k]) && ClassOf(rs[k]) == c && !Over(rs, n, k)
  }

  ghost function Holders(rs: seq<LiveRange>, n: nat, c: Class): set<nat> {
    set k: nat | k < n && Holds(rs, n, c, k)
  }

  /** The ranges of a class that need a register where range i starts. */
  predicate Needs(rs: seq<LiveRange>, i: nat, c: Class, k: nat)
    requires i < |rs|
  {
    k < |rs| && Allocates(rs[k]) && ClassOf(rs[k]) == c && (k == i || (k < i && rs[i].span.defPos < rs[k].span.lastUse < NO_USE))
  }

  ghost function Pressure(rs: seq<LiveRange>, i: nat, c: Class): nat
    requires i < |rs|
  {
    |set k: nat | k < |rs| && Needs(rs, i, c, k)|
  }

  /** The most registers of a class needed at once, up to event n. */
  ghost function Peak(rs: seq<LiveRange>, n: nat, c: Class): nat
    requires n <= |rs|
  {
    if n == 0 then 0
    else
      var before := Peak(rs, n - 1, c);
      if Allocates(rs[n - 1]) && ClassOf(rs[n - 1]) == c then Max(before, Pressure(rs, n - 1, c)) else before
  }

  function Max(a: nat, b: nat): nat { if a < b then b else a }

  /** It really is the most. */
  lemma {:induction false} PeakIsMost(rs: seq<LiveRange>, n: nat, c: Class, i: nat)
    requires i < n <= |rs| && Allocates(rs[i]) && ClassOf(rs[i]) == c
    ensures Pressure(rs, i, c) <= Peak(rs, n, c)
  {
    hide Pressure;
    if i < n - 1 { PeakIsMost(rs, n - 1, c, i); }
  }

  lemma {:induction false} PeakIsReached(rs: seq<LiveRange>, n: nat, c: Class) returns (i: nat)
    requires n <= |rs| && Peak(rs, n, c) > 0
    ensures i < n && Allocates(rs[i]) && ClassOf(rs[i]) == c && Pressure(rs, i, c) == Peak(rs, n, c)
  {
    hide Pressure;
    if Allocates(rs[n - 1]) && ClassOf(rs[n - 1]) == c && Pressure(rs, n - 1, c) >= Peak(rs, n - 1, c) {
      i := n - 1;
    } else {
      i := PeakIsReached(rs, n - 1, c);
    }
  }

  /** A range ended before event i, a definition, iff it is read for the last time at or before it. */
  lemma OverIff(rs: seq<LiveRange>, i: nat, k: nat)
    requires ScanInput(rs) && i < |rs| && k < i && rs[i].uses == [] && EndsInside(rs[k])
    ensures Over(rs, i, k) <==> rs[k].span.lastUse <= rs[i].span.defPos
  {
    assert Over(rs, |rs|, k);
    var r: nat :| r < |rs| && EndsAt(rs, k, r);
    assert WfRange(rs, r);
    hide WfRange, EndsRecorded, Allocates;
    if r < i { SortedDefs(rs, r, i); } else if i < r { SortedDefs(rs, i, r); }
    forall s: nat | s < i && EndsAt(rs, k, s) ensures s == r { OneEnd(rs, k, s, r); }
    assert Over(rs, i, k) <==> r < i;
  }

  lemma OneEnd(rs: seq<LiveRange>, k: nat, a: nat, b: nat)
    requires WfRanges(rs) && EndsAt(rs, k, a) && EndsAt(rs, k, b)
    ensures a == b
  {
    assert rs[a].uses != [] && rs[b].uses != [];
    hide WfRange;
  }

  /** So those holding a register, and the newcomer, are those who need one. */
  lemma PressureIsHolders(rs: seq<LiveRange>, i: nat)
    requires ScanInput(rs) && i < |rs| && Allocates(rs[i])
    ensures Pressure(rs, i, ClassOf(rs[i])) == |Holders(rs, i, ClassOf(rs[i]))| + 1
  {
    var c := ClassOf(rs[i]);
    forall k: nat | k < |rs| ensures Needs(rs, i, c, k) <==> k == i || Holds(rs, i, c, k) {
      if k < i && EndsInside(rs[k]) { OverIff(rs, i, k); }
      if k < i && Allocates(rs[k]) { assert EndsInside(rs[k]) || rs[k].span.lastUse == NO_USE; }
      hide Over, WfRanges, EndsRecorded;
    }
    hide Needs, Holds, ScanInput;
    assert (set k: nat | k < |rs| && Needs(rs, i, c, k)) == Holders(rs, i, c) + {i};
  }

  lemma OverNext(rs: seq<LiveRange>, n: nat, k: nat)
    ensures Over(rs, n + 1, k) <==> Over(rs, n, k) || EndsAt(rs, k, n)
  {
    hide EndsAt;
    if Over(rs, n + 1, k) && !EndsAt(rs, k, n) {
      var i: nat :| i < n + 1 && EndsAt(rs, k, i);
      assert i < n;
    }
    if EndsAt(rs, k, n) { assert n < n + 1; }
  }

  /** A definition: the newcomer holds a register from now on, if it is read at all. */
  lemma HoldersAfterDef(rs: seq<LiveRange>, n: nat, c: Class)
    requires ScanInput(rs) && n < |rs| && rs[n].uses == []
    ensures Holders(rs, n + 1, c) == Holders(rs, n, c) + if EndsInside(rs[n]) && ClassOf(rs[n]) == c then {n} else {}
    ensures n !in Holders(rs, n, c)
  {
    var now := Holders(rs, n, c) + if EndsInside(rs[n]) && ClassOf(rs[n]) == c then {n} else {};
    forall k: nat ensures k in Holders(rs, n + 1, c) <==> k in now {
      OverNext(rs, n, k);
      assert !EndsAt(rs, k, n);
      if k == n && EndsInside(rs[n]) { NotOverYet(rs, n); }
      hide Over, ScanInput, EndsInside;
    }
    hide Holders;
  }

  /** No range ends before it starts. */
  lemma NotOverYet(rs: seq<LiveRange>, n: nat)
    requires ScanInput(rs) && n < |rs| && EndsInside(rs[n])
    ensures !Over(rs, n, n)
  {
    forall i: nat | i < n ensures !EndsAt(rs, n, i) {
      SortedDefs(rs, i, n);
      assert WfRange(rs, n);
    }
    hide EndsAt;
  }

  /** The ranges whose end is on record i. */
  ghost function Ending(rs: seq<LiveRange>, i: nat, upTo: nat): set<nat>
    requires i < |rs| && upTo <= |rs[i].uses|
  {
    set x | 0 <= x < upTo && rs[i].uses[x] < |rs| && EndsInside(rs[rs[i].uses[x]]) && EndsAt(rs, rs[i].uses[x], i) :: rs[i].uses[x]
  }

  lemma HoldersAfterUse(rs: seq<LiveRange>, i: nat, c: Class)
    requires ScanInput(rs) && i < |rs| && rs[i].uses != []
    ensures Holders(rs, i + 1, c) == Holders(rs, i, c) - Ending(rs, i, |rs[i].uses|)
  {
    forall k: nat | k <= i ensures Holds(rs, i + 1, c, k) <==> Holds(rs, i, c, k) && k !in Ending(rs, i, |rs[i].uses|) {
      OverNext(rs, i, k);
      EndingIff(rs, i, k);
      hide Over, ScanInput, Ending, EndsAt;
    }
    hide Holds, ScanInput, Ending;
  }

  lemma EndingIff(rs: seq<LiveRange>, i: nat, k: nat)
    requires i < |rs|
    ensures k in Ending(rs, i, |rs[i].uses|) <==> k < |rs| && EndsInside(rs[k]) && EndsAt(rs, k, i)
  {
    if k < |rs| && EndsInside(rs[k]) && EndsAt(rs, k, i) {
      var x :| 0 <= x < |rs[i].uses| && rs[i].uses[x] == k;
    }
  }

  /** What ends at record i held a register until then. */
  lemma EndingHeld(rs: seq<LiveRange>, i: nat, k: nat)
    requires ScanInput(rs) && i < |rs| && k < |rs| && EndsInside(rs[k]) && EndsAt(rs, k, i)
    ensures k in Holders(rs, i, ClassOf(rs[k]))
  {
    assert k in rs[i].uses;
    UsedBefore(rs, i, k);
    forall s: nat | s < i ensures !EndsAt(rs, k, s) {
      if EndsAt(rs, k, s) { OneEnd(rs, k, s, i); }
    }
  }

  lemma AllOver(rs: seq<LiveRange>, c: Class)
    requires ScanInput(rs)
    ensures Holders(rs, |rs|, c) == {}
  {
    hide WfRanges;
  }

  // ---------------------------------------------------------------- the scan

  type Stocks = map<Class, seq<CpuReg>>

  /** Every register made is either held or in stock, and as many were made as were ever needed at once. */
  ghost predicate Balanced(available: Stocks, made: Class -> nat, made0: Class -> nat, rs: seq<LiveRange>, n: nat, gone: set<nat>)
    requires n <= |rs|
  {
    forall c :: BalancedFor(available, made, made0, rs, n, gone, c)
  }

  ghost predicate BalancedFor(available: Stocks, made: Class -> nat, made0: Class -> nat, rs: seq<LiveRange>, n: nat, gone: set<nat>, c: Class)
    requires n <= |rs|
  {
    |Holders(rs, n, c) - gone| + StockOf(available, c) == made(c) == Max(made0(c), Peak(rs, n, c))
  }

  /** The handled ranges hold registers of their class. */
  ghost predicate OwnClass(rs: seq<LiveRange>, rs': seq<LiveRange>, n: nat) {
    && |rs'| == |rs|
    && forall k :: 0 <= k < n && k < |rs| && Allocates(rs[k]) ==> rs'[k].loc == InReg(Manufactured(ClassOf(rs[k])))
  }

  lemma GiveBalances(rs: seq<LiveRange>, i: nat, x: nat, c: Class, gone: set<nat>)
    requires ScanInput(rs) && i < |rs| && x < |rs[i].uses| && gone == Ending(rs, i, x)
    requires rs[i].uses[x] < |rs| && EndsInside(rs[rs[i].uses[x]]) && EndsAt(rs, rs[i].uses[x], i)
    ensures Ending(rs, i, x + 1) == gone + {rs[i].uses[x]}
    ensures |Holders(rs, i, c) - gone| == |Holders(rs, i, c) - Ending(rs, i, x + 1)| + if ClassOf(rs[rs[i].uses[x]]) == c then 1 else 0
  {
    var u := rs[i].uses[x];
    EndingHeld(rs, i, u);
    var h := Holders(rs, i, c);
    assert u in h <==> ClassOf(rs[u]) == c by { hide ScanInput, Over; }
    assert u !in gone by { assert forall y :: 0 <= y < x ==> rs[i].uses[y] != rs[i].uses[x]; }
    assert Ending(rs, i, x + 1) == gone + {u};
    hide Holders, Ending, ScanInput;
    if u in h { assert h - gone == (h - (gone + {u})) + {u}; } else { assert h - gone == h - (gone + {u}); }
  }

  lemma NothingGiven(rs: seq<LiveRange>, i: nat, x: nat)
    requires i < |rs| && x < |rs[i].uses|
    requires !(rs[i].uses[x] < |rs| && EndsInside(rs[rs[i].uses[x]]) && EndsAt(rs, rs[i].uses[x], i))
    ensures Ending(rs, i, x + 1) == Ending(rs, i, x)
  {
  }

  /** One register goes back. */
  lemma GiveStep(av: Stocks, av': Stocks, made: Class -> nat, made0: Class -> nat, rs: seq<LiveRange>, i: nat, x: nat)
    requires ScanInput(rs) && i < |rs| && x < |rs[i].uses| && Balanced(av, made, made0, rs, i, Ending(rs, i, x))
    requires rs[i].uses[x] < |rs| && EndsInside(rs[rs[i].uses[x]]) && EndsAt(rs, rs[i].uses[x], i)
    requires forall d :: StockOf(av', d) == StockOf(av, d) + if d == ClassOf(rs[rs[i].uses[x]]) then 1 else 0
    ensures Balanced(av', made, made0, rs, i, Ending(rs, i, x + 1))
  {
    hide ScanInput, Holders, Ending, Peak, StockOf;
    var gone := Ending(rs, i, x + 1);
    forall c ensures BalancedFor(av', made, made0, rs, i, gone, c) {
      assert BalancedFor(av, made, made0, rs, i, Ending(rs, i, x), c);
      GiveBalances(rs, i, x, c, Ending(rs, i, x));
    }
  }

  /** The registers of the ranges that end here go back. */
  method HandleUse(pool: UsagePool, rs: seq<LiveRange>, rs': seq<LiveRange>, i: nat, ghost made0: Class -> nat)
    requires pool.Valid() && ScanInput(rs) && i < |rs| && rs[i].uses != [] && SameButLocs(rs, rs') && OwnClass(rs, rs', i)
    requires Balanced(pool.available, pool.made, made0, rs, i, {})
    modifies pool`available
    ensures pool.Valid() && Balanced(pool.available, pool.made, made0, rs, i + 1, {})
  {
    assert Ending(rs, i, 0) == {};
    hide ScanInput, Holders, Ending, Over, WfRanges, UsagePool.Valid, Balanced, StockOf, InStock, Manufactured, SameButLocs, OwnClass, EndsInside, EndsAt, ClassOf, ClassOfReg, Peak;
    assert rs'[i].uses == rs[i].uses by { SameRecord(rs, rs', i); }
    var uses := rs'[i].uses;
    for x := 0 to |uses|
      invariant pool.Valid() && uses == rs[i].uses && Balanced(pool.available, pool.made, made0, rs, i, Ending(rs, i, x))
    {
      var u := uses[x];
      UseInput(rs, rs', i, x);
      ghost var av := pool.available;
      if rs'[u].span.lastUse == rs'[i].span.defPos && !rs'[u].ignore {
        pool.GiveBackAvailableReg(rs'[u].loc.cpu);
        GiveStep(av, pool.available, pool.made, made0, rs, i, x);
      } else {
        NothingGiven(rs, i, x);
      }
    }
    AfterUse(pool.available, pool.made, made0, rs, i);
  }

  lemma SameRecord(rs: seq<LiveRange>, rs': seq<LiveRange>, i: nat)
    requires SameButLocs(rs, rs') && i < |rs|
    ensures |rs'| == |rs| && rs'[i].uses == rs[i].uses && rs'[i].span == rs[i].span
  {
  }

  lemma UseInput(rs: seq<LiveRange>, rs': seq<LiveRange>, i: nat, x: nat)
    requires ScanInput(rs) && i < |rs| && x < |rs[i].uses| && SameButLocs(rs, rs') && OwnClass(rs, rs', i)
    ensures var u := rs[i].uses[x];
      && u < i && rs'[i] == rs[i] && rs'[u].span == rs[u].span && rs'[u].ignore == rs[u].ignore
      && (!rs[u].ignore && rs[u].span.lastUse == rs[i].span.defPos ==>
            EndsInside(rs[u]) && EndsAt(rs, u, i) && rs'[u].loc.InReg? && rs'[u].loc.cpu == Manufactured(ClassOf(rs[u])) &&
            ClassOfReg(rs'[u].loc.cpu) == ClassOf(rs[u]))
      && (EndsInside(rs[u]) && EndsAt(rs, u, i) ==> !rs[u].ignore && rs[u].span.lastUse == rs[i].span.defPos)
  {
    var u := rs[i].uses[x];
    assert u in rs[i].uses;
    UsedBefore(rs, i, u);
    assert WfRange(rs, i);
    assert Allocates(rs[u]) ==> EndsInside(rs[u]) || rs[u].span.lastUse == NO_USE;
    hide EndsRecorded;
  }

  lemma AfterUse(av: Stocks, made: Class -> nat, made0: Class -> nat, rs: seq<LiveRange>, i: nat)
    requires ScanInput(rs) && i < |rs| && rs[i].uses != [] && Balanced(av, made, made0, rs, i, Ending(rs, i, |rs[i].uses|))
    ensures Balanced(av, made, made0, rs, i + 1, {})
  {
    hide ScanInput, Holders, Ending, Pressure, StockOf;
    var n := i + 1;
    forall c ensures BalancedFor(av, made, made0, rs, n, {}, c) {
      HoldersAfterUse(rs, i, c);
      assert Holders(rs, i + 1, c) - {} == Holders(rs, i + 1, c);
      assert BalancedFor(av, made, made0, rs, i, Ending(rs, i, |rs[i].uses|), c);
    }
  }

  /** One register more is needed: it comes out of stock, or is made, and then the peak is new. */
  lemma TakeStep(av: Stocks, av': Stocks, made: Class -> nat, made': Class -> nat, made0: Class -> nat, rs: seq<LiveRange>, i: nat)
    requires ScanInput(rs) && i < |rs| && Allocates(rs[i]) && Balanced(av, made, made0, rs, i, {})
    requires var c, keeps := ClassOf(rs[i]), if EndsInside(rs[i]) then 0 else 1;
      && (forall d :: d != c ==> StockOf(av', d) == StockOf(av, d) && made'(d) == made(d))
      && (if StockOf(av, c) > 0 then StockOf(av', c) == StockOf(av, c) - 1 + keeps && made'(c) == made(c)
          else StockOf(av', c) == keeps && made'(c) == made(c) + 1)
    ensures Balanced(av', made', made0, rs, i + 1, {})
  {
    hide ScanInput, Holders, Peak, StockOf, ClassOf;
    var n := i + 1;
    forall c ensures BalancedFor(av', made', made0, rs, n, {}, c) {
      assert BalancedFor(av, made, made0, rs, i, {}, c);
      TakeStepFor(av, av', made, made', made0, rs, i, c);
      hide BalancedFor;
    }
  }

  lemma TakeStepFor(av: Stocks, av': Stocks, made: Class -> nat, made': Class -> nat, made0: Class -> nat, rs: seq<LiveRange>, i: nat, c: Class)
    requires ScanInput(rs) && i < |rs| && Allocates(rs[i]) && BalancedFor(av, made, made0, rs, i, {}, c)
    requires var c0, keeps := ClassOf(rs[i]), if EndsInside(rs[i]) then 0 else 1;
      && (c != c0 ==> StockOf(av', c) == StockOf(av, c) && made'(c) == made(c))
      && (c == c0 ==> if StockOf(av, c) > 0 then StockOf(av', c) == StockOf(av, c) - 1 + keeps && made'(c) == made(c)
                      else StockOf(av', c) == keeps && made'(c) == made(c) + 1)
    ensures BalancedFor(av', made', made0, rs, i + 1, {}, c)
  {
    hide *;
    var c0 := ClassOf(rs[i]);
    DefinesOnly(rs, i);
    HoldersAfterDef(rs, i, c);
    BalancedIs(av, made, made0, rs, i, c);
    BalancedIs(av', made', made0, rs, i + 1, c);
    if c == c0 {
      PressureIsHolders(rs, i);
      PeakHere(rs, i);
      Grows(Holders(rs, i, c), i);
    } else {
      PeakElsewhere(rs, i, c);
      assert Holders(rs, i, c) + {} == Holders(rs, i, c);
    }
    MaxIs(made0(c), Peak(rs, i, c));
    MaxIs(made0(c), Peak(rs, i + 1, c));
  }

  lemma DefinesOnly(rs: seq<LiveRange>, i: nat)
    requires ScanInput(rs) && i < |rs| && Allocates(rs[i])
    ensures rs[i].uses == []
  {
    assert WfRange(rs, i);
    hide EndsRecorded;
  }

  lemma BalancedIs(av: Stocks, made: Class -> nat, made0: Class -> nat, rs: seq<LiveRange>, n: nat, c: Class)
    requires n <= |rs|
    ensures BalancedFor(av, made, made0, rs, n, {}, c) <==> |Holders(rs, n, c)| + StockOf(av, c) == made(c) == Max(made0(c), Peak(rs, n, c))
  {
    hide Holders, StockOf, Peak, Max;
    assert Holders(rs, n, c) - {} == Holders(rs, n, c);
  }

  lemma PeakHere(rs: seq<LiveRange>, i: nat)
    requires i < |rs| && Allocates(rs[i])
    ensures var c := ClassOf(rs[i]);
      Peak(rs, i + 1, c) == if Peak(rs, i, c) < Pressure(rs, i, c) then Pressure(rs, i, c) else Peak(rs, i, c)
  {
    hide Pressure;
  }

  lemma PeakElsewhere(rs: seq<LiveRange>, i: nat, c: Class)
    requires i < |rs| && !(Allocates(rs[i]) && c == ClassOf(rs[i]))
    ensures Peak(rs, i + 1, c) == Peak(rs, i, c)
  {
    hide Pressure;
  }

  lemma MaxIs(a: nat, b: nat)
    ensures Max(a, b) == if a < b then b else a
  {
  }

  lemma Grows(s: set<nat>, i: nat)
    ensures i !in s ==> |s + {i}| == |s| + 1
    ensures s + {} == s
  {
  }

  /** The next range takes a register; one that is never read gives it back at once. */
  method HandleDef(pool: UsagePool, rs: seq<LiveRange>, i: nat, lr: LiveRange, ghost made0: Class -> nat) returns (reg: CpuReg)
    requires pool.Valid() && ScanInput(rs) && i < |rs| && Allocates(rs[i]) && Balanced(pool.available, pool.made, made0, rs, i, {})
    requires lr.span == rs[i].span && ClassOf(lr) == ClassOf(rs[i])
    modifies pool
    ensures pool.Valid() && Balanced(pool.available, pool.made, made0, rs, i + 1, {}) && reg == Manufactured(ClassOf(rs[i]))
  {
    EitherEnds(rs, i);
    assert ClassOfReg(Manufactured(ClassOf(rs[i]))) == ClassOf(rs[i]);
    ghost var av, made := pool.available, pool.made;
    hide ScanInput, Balanced, UsagePool.Valid, InStock, Manufactured, EndsInside, ClassOf, ClassOfReg, Allocates, StockOf;
    reg := pool.GetAvailableReg(lr);
    assert reg == Manufactured(ClassOfReg(reg));
    if lr.span.lastUse == NO_USE {
      pool.GiveBackAvailableReg(reg);
    }
    TakeStep(av, pool.available, made, pool.made, made0, rs, i);
  }

  lemma EitherEnds(rs: seq<LiveRange>, i: nat)
    requires ScanInput(rs) && i < |rs| && Allocates(rs[i])
    ensures EndsInside(rs[i]) <==> rs[i].span.lastUse != NO_USE
  {
    hide WfRanges, EndsRecorded;
  }

  lemma IgnoredStep(av: Stocks, made: Class -> nat, made0: Class -> nat, rs: seq<LiveRange>, i: nat)
    requires ScanInput(rs) && i < |rs| && rs[i].uses == [] && !Allocates(rs[i]) && Balanced(av, made, made0, rs, i, {})
    ensures Balanced(av, made, made0, rs, i + 1, {})
  {
    hide ScanInput, Holders, Pressure, StockOf;
    var n := i + 1;
    forall c ensures BalancedFor(av, made, made0, rs, n, {}, c) {
      HoldersAfterDef(rs, i, c);
      assert BalancedFor(av, made, made0, rs, i, {}, c);
    }
  }

  /** All registers that were made are in stock. */
  ghost predicate AllBack(pool: UsagePool)
    reads pool
  {
    forall c :: pool.Stock(c) == pool.made(c)
  }

  /** The standard scan over one block. As many registers of a class are made as the block ever needs
      at once, unless enough had been made before; in the end all of them are in stock again. */
  method RegisterAssignerLinearScan(rs0: seq<LiveRange>, pool: UsagePool) returns (rs: seq<LiveRange>)
    requires pool.Valid() && AllBack(pool) && ScanInput(rs0)
    modifies pool
    ensures pool.Valid() && AllBack(pool) && SameButLocs(rs0, rs)
    ensures forall c :: pool.made(c) == Max(old(pool.made)(c), Peak(rs0, |rs0|, c))
  {
    rs := rs0;
    ghost var made0 := pool.made;
    ScanBegins(pool, rs0);
    NothingChanged(rs0);
    hide ScanInput, Balanced, UsagePool.Valid, SameButLocs, Peak, Max, Manufactured, ClassOf;
    for i := 0 to |rs|
      invariant |rs| == |rs0| && pool.Valid() && SameButLocs(rs0, rs) && OwnClass(rs0, rs, i)
      invariant Balanced(pool.available, pool.made, made0, rs0, i, {})
    {
      LocsOnly(rs0, rs, i);
      if rs[i].uses != [] {
        HandleUse(pool, rs0, rs, i, made0);
      } else if rs[i].preAlloc || rs[i].ignore {
        IgnoredStep(pool.available, pool.made, made0, rs0, i);
      } else {
        var reg := HandleDef(pool, rs0, i, rs[i], made0);
        rs := WithLoc(rs, i, InReg(reg));
      }
    }
    ScanEnds(pool, made0, rs0);
  }

  lemma LocsOnly(rs: seq<LiveRange>, rs': seq<LiveRange>, i: nat)
    requires SameButLocs(rs, rs') && i < |rs|
    ensures rs'[i].uses == rs[i].uses && rs'[i].span == rs[i].span && ClassOf(rs'[i]) == ClassOf(rs[i]) && Allocates(rs'[i]) == Allocates(rs[i])
    ensures Allocates(rs[i]) ==> forall loc :: SameButLocs(rs, WithLoc(rs', i, loc))
    ensures rs'[i].preAlloc == rs[i].preAlloc && rs'[i].ignore == rs[i].ignore
  {
  }

  lemma ScanBegins(pool: UsagePool, rs: seq<LiveRange>)
    requires AllBack(pool)
    ensures Balanced(pool.available, pool.made, pool.made, rs, 0, {})
  {
    forall c ensures BalancedFor(pool.available, pool.made, pool.made, rs, 0, {}, c) {
      assert pool.Stock(c) == pool.made(c);
      assert Holders(rs, 0, c) - {} == {};
    }
  }

  lemma ScanEnds(pool: UsagePool, made0: Class -> nat, rs: seq<LiveRange>)
    requires ScanInput(rs) && Balanced(pool.available, pool.made, made0, rs, |rs|, {})
    ensures AllBack(pool) && forall c :: pool.made(c) == Max(made0(c), Peak(rs, |rs|, c))
  {
    hide ScanInput, Holders, Peak, Max;
    forall c ensures pool.Stock(c) == pool.made(c) == Max(made0(c), Peak(rs, |rs|, c)) {
      AllOver(rs, c);
      assert Holders(rs, |rs|, c) - {} == {};
      assert BalancedFor(pool.available, pool.made, made0, rs, |rs|, {}, c);
    }
  }

  /** The most registers of a class that any of the first n blocks needs at once. */
  ghost function PeakOf(blocks: seq<seq<LiveRange>>, n: nat, c: Class): nat
    requires n <= |blocks|
  {
    if n == 0 then 0 else Max(PeakOf(blocks, n - 1, c), Peak(blocks[n - 1], |blocks[n - 1]|, c))
  }

  // -- what the peak is, over the fields of the ranges

  /** The allocated ranges of a kind, live across calls or not, that need a register where range i starts. */
  ghost function Meeting(rs: seq<LiveRange>, i: nat, kind: Kind, lac: bool): set<nat>
    requires i < |rs|
  {
    set j: nat | j < |rs| && Allocates(rs[j]) && rs[j].kind == kind && rs[j].lac == lac &&
      (j == i || (j < i && rs[i].span.defPos < rs[j].span.lastUse < NO_USE))
  }

  predicate Starts(blocks: seq<seq<LiveRange>>, n: nat, i: nat, kind: Kind, lac: bool) {
    n < |blocks| && i < |blocks[n]| && Allocates(blocks[n][i]) && blocks[n][i].kind == kind && blocks[n][i].lac == lac
  }

  ghost predicate MeetExactly(blocks: seq<seq<LiveRange>>, n: nat, i: nat, kind: Kind, lac: bool, most: nat) {
    Starts(blocks, n, i, kind, lac) && |Meeting(blocks[n], i, kind, lac)| == most
  }

  /** No more than `most` ranges of the kind meet where one of them starts, and at one place that many do. */
  ghost predicate MostThatMeet(blocks: seq<seq<LiveRange>>, kind: Kind, lac: bool, most: nat) {
    && (forall n: nat, i: nat :: Starts(blocks, n, i, kind, lac) ==> |Meeting(blocks[n], i, kind, lac)| <= most)
    && (most > 0 ==> exists n: nat, i: nat :: MeetExactly(blocks, n, i, kind, lac, most))
  }

  lemma PressureIsMeeting(rs: seq<LiveRange>, i: nat, kind: Kind, lac: bool)
    requires i < |rs|
    ensures Pressure(rs, i, Class(kind, lac)) == |Meeting(rs, i, kind, lac)|
  {
    assert (set j: nat | j < |rs| && Needs(rs, i, Class(kind, lac), j)) == Meeting(rs, i, kind, lac);
  }

  lemma {:induction false} PeakOfIsMost(blocks: seq<seq<LiveRange>>, n: nat, c: Class, b: nat, i: nat)
    requires b < n <= |blocks| && i < |blocks[b]| && Allocates(blocks[b][i]) && ClassOf(blocks[b][i]) == c
    ensures Pressure(blocks[b], i, c) <= PeakOf(blocks, n, c)
  {
    hide Pressure, Peak, Allocates, ClassOf;
    if b < n - 1 { PeakOfIsMost(blocks, n - 1, c, b, i); } else { PeakIsMost(blocks[b], |blocks[b]|, c, i); }
  }

  lemma {:induction false} PeakOfIsReached(blocks: seq<seq<LiveRange>>, n: nat, c: Class) returns (b: nat, i: nat)
    requires n <= |blocks| && PeakOf(blocks, n, c) > 0
    ensures b < n && i < |blocks[b]| && Allocates(blocks[b][i]) && ClassOf(blocks[b][i]) == c && Pressure(blocks[b], i, c) == PeakOf(blocks, n, c)
  {
    hide Pressure, Peak, Allocates, ClassOf;
    if PeakOf(blocks, n - 1, c) >= Peak(blocks[n - 1], |blocks[n - 1]|, c) {
      b, i := PeakOfIsReached(blocks, n - 1, c);
    } else {
      b := n - 1;
      i := PeakIsReached(blocks[b], |blocks[b]|, c);
    }
  }

  lemma PeakOfIsMostThatMeet(blocks: seq<seq<LiveRange>>, kind: Kind, lac: bool)
    ensures MostThatMeet(blocks, kind, lac, PeakOf(blocks, |blocks|, Class(kind, lac)))
  {
    var c := Class(kind, lac);
    var most := PeakOf(blocks, |blocks|, c);
    forall n: nat, i: nat | Starts(blocks, n, i, kind, lac) ensures |Meeting(blocks[n], i, kind, lac)| <= most {
      PressureIsMeeting(blocks[n], i, kind, lac);
      PeakOfIsMost(blocks, |blocks|, c, n, i);
    }
    if most > 0 {
      var n, i := PeakOfIsReached(blocks, |blocks|, c);
      PressureIsMeeting(blocks[n], i, kind, lac);
      assert MeetExactly(blocks, n, i, kind, lac, most);
    }
    hide Pressure, Meeting, PeakOf, Allocates;
  }

  // ---------------------------------------------------------------- a whole function

  predicate CrossesBbl(lr: LiveRange) { lr.span.lastUse == AFTER_BBL || lr.span.defPos == BEFORE_BBL }

  /** Only what lives within the block, is of a kind that is asked for and has no machine register yet
      takes part. */
  function MarkIgnored(rs: seq<LiveRange>, kinds: set<Kind>, machine: set<RegId>): (rs': seq<LiveRange>)
    ensures |rs'| == |rs|
    ensures forall k :: 0 <= k < |rs| ==> rs'[k] == rs[k].(ignore := CrossesBbl(rs[k]) || (rs[k].uses == [] && (rs[k].kind !in kinds || rs[k].reg in machine)))
  {
    seq(|rs|, k requires 0 <= k < |rs| => rs[k].(ignore := CrossesBbl(rs[k]) || (rs[k].uses == [] && (rs[k].kind !in kinds || rs[k].reg in machine))))
  }

  /** The ranges of a block, sorted and marked. */
  ghost predicate BlockRanges(rs: seq<LiveRange>, code: seq<Ins>, ids: seq<InsId>, out: set<RegId>, kindOf: RegId -> Kind, kinds: set<Kind>,
                              machine: set<RegId>) {
    && Describes(rs, code, ids, out) && ScanInput(rs) && KindsRight(rs, kindOf)
    && forall k :: 0 <= k < |rs| && rs[k].uses == [] ==> (Allocates(rs[k]) <==> !CrossesBbl(rs[k]) && rs[k].kind in kinds && rs[k].reg !in machine)
  }

  lemma MarkedIsInput(rs: seq<LiveRange>, code: seq<Ins>, ids: seq<InsId>, out: set<RegId>, kindOf: RegId -> Kind, kinds: set<Kind>, machine: set<RegId>)
    requires |ids| <= AFTER_BBL && Describes(rs, code, ids, out) && EndsNamed(rs, 0) && Ascending(rs) && OfKind(rs, kindOf)
    ensures BlockRanges(MarkIgnored(rs, kinds, machine), code, ids, out, kindOf, kinds, machine)
  {
    hide Describes, WfRanges, EndsNamed, EndsRecorded, Ascending;
    var rs' := MarkIgnored(rs, kinds, machine);
    DescribesSame(rs, rs', code, ids, out);
    MarkedOrder(rs, kinds, machine);
    DescribedIsWf(rs', code, ids, out);
    EndsWithin(rs', code, ids, out);
    EndsAreRecorded(rs');
  }

  lemma MarkedOrder(rs: seq<LiveRange>, kinds: set<Kind>, machine: set<RegId>)
    requires Ascending(rs) && EndsNamed(rs, 0)
    ensures Ascending(MarkIgnored(rs, kinds, machine)) && EndsNamed(MarkIgnored(rs, kinds, machine), 0)
  {
    var rs' := MarkIgnored(rs, kinds, machine);
    EndsNamedKept(rs, rs', 0) by { hide EndsNamed; }
  }

  lemma EndsWithin(rs: seq<LiveRange>, code: seq<Ins>, ids: seq<InsId>, out: set<RegId>)
    requires |ids| <= AFTER_BBL && Describes(rs, code, ids, out)
    ensures forall k :: 0 <= k < |rs| && rs[k].uses == [] ==> 0 <= rs[k].span.lastUse <= NO_USE
  {
    hide SomeCovers, SomeStarts, ReadsRecorded, LiveAfter, CallBetween, UsesReg, DstOf;
    forall k | 0 <= k < |rs| && rs[k].uses == [] ensures 0 <= rs[k].span.lastUse <= NO_USE {
      assert RangeRight(code, ids, out, rs[k]);
    }
  }

  lemma EndsAreRecorded(rs: seq<LiveRange>)
    requires EndsNamed(rs, 0) && forall k :: 0 <= k < |rs| && rs[k].uses == [] ==> 0 <= rs[k].span.lastUse
    ensures EndsRecorded(rs)
  {
    hide NoneTwice;
    forall k: nat | k < |rs| && EndsInside(rs[k]) ensures Over(rs, |rs|, k) {
      assert EndNamed(rs, k);
      var i: nat :| EndsAt(rs, k, i);
    }
  }

  /** How many registers of each class the blocks of a function need for what lives within one block:
      with one pool for all blocks it is exactly the highest peak, and what the pool asserts in the end
      holds. */
  method FunComputeBblRegUsageStats(f: Fn, liveOut: map<BblId, set<RegId>>, kindOf: RegId -> Kind, kinds: set<Kind>, machine: set<RegId>)
    returns (ok: bool, usage: map<Class, nat>, ghost ranges: seq<seq<LiveRange>>)
    requires WfCode(f) && WfOrder(f) && forall b :: b in f.blocks ==> b in liveOut && |BblAt(f, b).inss| <= AFTER_BBL
    ensures |ranges| == |f.order|
    ensures forall n :: 0 <= n < |f.order| ==> BlockRanges(ranges[n], f.code, BblAt(f, f.order[n]).inss, liveOut[f.order[n]], kindOf, kinds, machine)
    ensures ok && forall kind, lac :: Class(kind, lac) in usage && MostThatMeet(ranges, kind, lac, usage[Class(kind, lac)])
  {
    var pool := new UsagePool();
    ranges := [];
    hide ScanInput, UsagePool.Valid, SameButLocs, Peak, WfIns, Describes, OfKind, EndsNamed, Ascending, Reorders, Max, BlockRanges, WfCode;
    for n := 0 to |f.order|
      invariant fresh(pool) && pool.Valid() && AllBack(pool) && |ranges| == n
      invariant forall k :: 0 <= k < n ==> BlockRanges(ranges[k], f.code, BblAt(f, f.order[k]).inss, liveOut[f.order[k]], kindOf, kinds, machine)
      invariant forall c :: pool.made(c) == PeakOf(ranges, n, c)
    {
      var b := f.order[n];
      assert b in f.blocks;
      var rs := SortedRanges(f, b, liveOut[b], kindOf, kinds, machine);
      var rs' := RegisterAssignerLinearScan(rs, pool);
      PeakOfOneMore(ranges, rs);
      ranges := ranges + [rs];
    }
    ok, usage := pool.Usage();
    SameTotals(Counts(pool.available), pool.made, ALL_CLASSES);
    forall kind, lac ensures Class(kind, lac) in usage && MostThatMeet(ranges, kind, lac, usage[Class(kind, lac)]) {
      PeakOfIsMostThatMeet(ranges, kind, lac);
    }
  }

  method SortedRanges(f: Fn, b: BblId, out: set<RegId>, kindOf: RegId -> Kind, kinds: set<Kind>, machine: set<RegId>) returns (rs: seq<LiveRange>)
    requires WfCode(f) && b in f.blocks && |BblAt(f, b).inss| <= AFTER_BBL
    ensures BlockRanges(rs, f.code, BblAt(f, b).inss, out, kindOf, kinds, machine) && ScanInput(rs)
  {
    var ids := BblAt(f, b).inss;
    assert forall i :: i in ids ==> WfIns(InsAt(f.code, i)) by { hide WfIns, UniqueIds; }
    hide *;
    rs := BblGetLiveRanges(f.code, ids, out, kindOf);
    ghost var perm;
    ghost var found := rs;
    rs, perm := Sort(rs);
    DescribesReordered(found, rs, perm, f.code, ids, out);
    UsesAreInRange(found, f.code, ids, out);
    EndsNamedReordered(found, rs, perm);
    OfKindReordered(found, rs, perm, kindOf);
    MarkedIsInput(rs, f.code, ids, out, kindOf, kinds, machine);
    rs := MarkIgnored(rs, kinds, machine);
    InputOf(rs, f.code, ids, out, kindOf, kinds, machine);
  }

  lemma InputOf(rs: seq<LiveRange>, code: seq<Ins>, ids: seq<InsId>, out: set<RegId>, kindOf: RegId -> Kind, kinds: set<Kind>, machine: set<RegId>)
    requires BlockRanges(rs, code, ids, out, kindOf, kinds, machine)
    ensures ScanInput(rs)
  {
    hide ScanInput, Describes;
  }

  lemma PeakOfOneMore(blocks: seq<seq<LiveRange>>, rs: seq<LiveRange>)
    ensures forall c :: PeakOf(blocks + [rs], |blocks| + 1, c) == Max(PeakOf(blocks, |blocks|, c), Peak(rs, |rs|, c))
  {
    hide Peak, Max;
    forall c ensures PeakOf(blocks + [rs], |blocks|, c) == PeakOf(blocks, |blocks|, c) { PeakOfFirst(blocks, rs, |blocks|, c); }
  }

  lemma {:induction false} PeakOfFirst(blocks: seq<seq<LiveRange>>, rs: seq<LiveRange>, n: nat, c: Class)
    requires n <= |blocks|
    ensures PeakOf(blocks + [rs], n, c) == PeakOf(blocks, n, c)
  {
    hide Peak, Max;
    if n > 0 { PeakOfFirst(blocks, rs, n - 1, c); }
  }

  lemma {:induction false} SameTotals(a: Class -> nat, b: Class -> nat, cs: seq<Class>)
    requires forall c :: a(c) == b(c)
    ensures Total(a, cs) == Total(b, cs)
  {
    if cs != [] { SameTotals(a, b, cs[1..]); }
  }
}
